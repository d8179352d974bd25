/** Small helpers shared by the harness model: an optional value and
    facts about searching and de-duplicating sequences. */
module Base {

  datatype Option<+T> = None | Some(value: T)

  /** True when no element occurs twice in `s`. */
  predicate NoDuplicates<T(==)>(s: seq<T>) {
    forall i, j :: 0 <= i < j < |s| ==> s[i] != s[j]
  }

  /** The position of the first occurrence of `x` in `s`. */
  function IndexOf<T(==)>(s: seq<T>, x: T): (i: nat)
    requires x in s
    ensures i < |s| && s[i] == x
    ensures x !in s[..i]
  {
    if s[0] == x then 0 else
      assert x in s[1..] by { var k :| 0 <= k < |s| && s[k] == x; assert s[1..][k - 1] == x; }
      var j := IndexOf(s[1..], x);
      assert s[..j + 1] == [s[0]] + s[1..][..j];
      j + 1
  }

  /** Extending a sequence does not move the first occurrence of an element it already had. */
  lemma {:induction false} IndexOfPrefix<T>(s: seq<T>, t: seq<T>, x: T)
    requires x in s
    ensures x in s + t && IndexOf(s + t, x) == IndexOf(s, x)
  {
    var i := IndexOf(s, x);
    assert (s + t)[i] == x;
    assert (s + t)[..i] == s[..i];
  }

  /** Any position holding `x` with no earlier `x` is the first occurrence. */
  lemma IndexOfUnique<T>(s: seq<T>, x: T, i: nat)
    requires i < |s| && s[i] == x && x !in s[..i]
    ensures IndexOf(s, x) == i
  {
    var j := IndexOf(s, x);
  }
}
