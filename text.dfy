/** Python's `str.split(sep)` for a one-character separator, and the
    `str.startswith` test, over strings as sequences of characters. */
module Text {

  /** Joins one or more pieces with `sep` between neighbours: the inverse of `Split`. */
  function Join(pieces: seq<string>, sep: char): (joined: string)
    requires |pieces| >= 1
  {
    if |pieces| == 1 then pieces[0]
    else Join(pieces[..|pieces| - 1], sep) + [sep] + pieces[|pieces| - 1]
  }

  /** `s.split(sep)`, read left to right: a separator starts a new piece, any other
      character extends the last one. There is always at least one piece (the empty
      string splits into one empty piece). */
  function Split(s: string, sep: char): (r: seq<string>)
    ensures |r| >= 1
    decreases |s|
  {
    if s == [] then [[]]
    else
      var pieces := Split(s[..|s| - 1], sep);
      var c := s[|s| - 1];
      if c == sep then pieces + [[]]
      else pieces[..|pieces| - 1] + [pieces[|pieces| - 1] + [c]]
  }

  /** No piece contains the separator. */
  lemma {:induction false} SplitSeparatorFree(s: string, sep: char)
    ensures forall piece :: piece in Split(s, sep) ==> sep !in piece
    decreases |s|
  {
    if s != [] {
      var t, c := s[..|s| - 1], s[|s| - 1];
      SplitSeparatorFree(t, sep);
      var r := Split(t, sep);
      var n := |r|;
      if c != sep {
        var front, last := r[..n - 1], r[n - 1];
        assert sep !in last by { assert last in r; }
        forall piece | piece in front + [last + [c]] ensures sep !in piece {
          if piece in front { assert piece in r; }
        }
      }
    }
  }

  /** Joining the pieces with the separator gives back `s`. */
  lemma {:induction false} JoinSplit(s: string, sep: char)
    ensures Join(Split(s, sep), sep) == s
    decreases |s|
  {
    if s != [] {
      var t, c := s[..|s| - 1], s[|s| - 1];
      assert s == t + [c];
      JoinSplit(t, sep);
      var r := Split(t, sep);
      var n := |r|;
      if c == sep {
        assert (r + [[]])[..n] == r;
      } else {
        var front, last := r[..n - 1], r[n - 1];
        var r' := front + [last + [c]];
        assert r'[..n - 1] == front;
        if n > 1 {
          assert Join(r, sep) == Join(front, sep) + [sep] + last;
        }
      }
    }
  }

  /** A separator followed by separator-free text adds that text as one new piece. */
  lemma {:induction false} SplitAppendPiece(u: string, w: string, sep: char)
    requires sep !in w
    ensures Split(u + [sep] + w, sep) == Split(u, sep) + [w]
    decreases |w|
  {
    if w == [] {
      assert u + [sep] + w == u + [sep];
      assert (u + [sep])[..|u|] == u;
    } else {
      var w', c := w[..|w| - 1], w[|w| - 1];
      assert w == w' + [c];
      assert sep !in w' by { forall x | x in w' ensures x != sep { assert x in w; } }
      SplitAppendPiece(u, w', sep);
      var s := u + [sep] + w;
      assert s[..|s| - 1] == u + [sep] + w';
      var r := Split(u, sep) + [w'];
      assert r[..|r| - 1] == Split(u, sep);
    }
  }

  /** Text without a separator is one piece. */
  lemma {:induction false} SplitNoSep(s: string, sep: char)
    requires sep !in s
    ensures Split(s, sep) == [s]
    decreases |s|
  {
    if s != [] {
      var t := s[..|s| - 1];
      assert sep !in t by { forall x | x in t ensures x != sep { assert x in s; } }
      SplitNoSep(t, sep);
      assert s == t + [s[|s| - 1]];
    }
  }

  /** Splitting what was joined gives back the pieces. */
  lemma {:induction false} SplitJoin(pieces: seq<string>, sep: char)
    requires |pieces| >= 1
    requires forall piece :: piece in pieces ==> sep !in piece
    ensures Split(Join(pieces, sep), sep) == pieces
  {
    var n := |pieces|;
    if n == 1 {
      assert pieces[0] in pieces;
      SplitNoSep(pieces[0], sep);
    } else {
      var init, last := pieces[..n - 1], pieces[n - 1];
      assert last in pieces;
      forall piece | piece in init ensures sep !in piece { assert piece in pieces; }
      SplitJoin(init, sep);
      SplitAppendPiece(Join(init, sep), last, sep);
      assert pieces == init + [last];
    }
  }

  /** Reading further never changes the pieces already completed. */
  lemma {:induction false} SplitPrefix(s: string, m: nat, sep: char)
    requires m <= |s|
    ensures |Split(s[..m], sep)| <= |Split(s, sep)|
    ensures var done := |Split(s[..m], sep)| - 1; Split(s[..m], sep)[..done] == Split(s, sep)[..done]
    decreases |s|
  {
    if m < |s| {
      var t := s[..|s| - 1];
      assert s[..m] == t[..m];
      SplitPrefix(t, m, sep);
      var r := Split(t, sep);
      var n := |r|;
      if s[|s| - 1] == sep {
        assert (r + [[]])[..n - 1] == r[..n - 1];
      } else {
        assert (r[..n - 1] + [r[n - 1] + [s[|s| - 1]]])[..n - 1] == r[..n - 1];
      }
    } else {
      assert s[..m] == s;
    }
  }

  /** The first piece is the text before the first separator (all of `s` when there is none). */
  lemma FirstPiece(s: string, sep: char, j: nat)
    requires j <= |s|
    requires sep !in s[..j]
    requires j == |s| || s[j] == sep
    ensures Split(s, sep)[0] == s[..j]
  {
    SplitNoSep(s[..j], sep);
    if j == |s| {
      assert s[..j] == s;
    } else {
      var u := s[..j + 1];
      assert u[..j] == s[..j] && u[j] == sep;
      assert Split(u, sep) == [s[..j], []];
      SplitPrefix(s, j + 1, sep);
      assert Split(u, sep)[..1] == Split(s, sep)[..1];
    }
  }

  /** The last piece is the text after the last separator (all of `s` when there is none). */
  lemma {:induction false} LastPiece(s: string, sep: char, k: nat)
    requires k <= |s|
    requires k == 0 || s[k - 1] == sep
    requires sep !in s[k..]
    ensures Split(s, sep)[|Split(s, sep)| - 1] == s[k..]
    decreases |s|
  {
    if |s| > k {
      var t, c := s[..|s| - 1], s[|s| - 1];
      TailSnoc(s, k);
      LastPiece(t, sep, k);
    } else if k > 0 {
      assert s == s[..k - 1] + [sep];
    }
  }

  /** Dropping the last character of `s` drops it from every tail. */
  lemma TailSnoc(s: string, k: nat)
    requires k < |s|
    ensures s[k..] == s[..|s| - 1][k..] + [s[|s| - 1]]
    ensures forall x :: x in s[..|s| - 1][k..] ==> x in s[k..]
  {
    var t := s[..|s| - 1];
    assert s[k..] == t[k..] + [s[|s| - 1]];
  }

  predicate StartsWith(s: string, prefix: string) {
    prefix <= s
  }
}
