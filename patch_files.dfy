/** `files_in_patch`: the list of file names a unified diff touches, read from
    its `--- a/<name>` and `+++ b/<name>` header lines, each name kept once in
    the order it first appears. */
module PatchFiles {
  import opened Base
  import opened Text

  /** A line that names a file: the old-file or new-file header of a unified diff
      with git's `a/` and `b/` prefixes. */
  predicate IsHeader(line: string) {
    StartsWith(line, "--- a/") || StartsWith(line, "+++ b/")
  }

  /** `line.split("/", 1)[1]`: everything after the first slash. */
  function AfterFirstSlash(line: string): string
    requires '/' in line
  {
    line[IndexOf(line, '/') + 1..]
  }

  /** On a header line the name is the text after the six-character prefix. */
  lemma HeaderName(line: string)
    requires IsHeader(line)
    ensures '/' in line && AfterFirstSlash(line) == line[6..]
  {
    assert line[5] == '/';
    assert '/' !in line[..5] by { assert line[..5] == line[..6][..5]; }
    IndexOfUnique(line, '/', 5);
  }

  /** The names of the header lines, in order, repeats included. */
  function HeaderNames(lines: seq<string>): (names: seq<string>)
  {
    if lines == [] then []
    else
      var last := lines[|lines| - 1];
      HeaderNames(lines[..|lines| - 1]) + (if IsHeader(last) then HeaderName(last); [AfterFirstSlash(last)] else [])
  }

  /** The first occurrence of every element of `s`, in order. */
  function Dedup<T(==)>(s: seq<T>): (r: seq<T>)
  {
    if s == [] then []
    else
      var last := s[|s| - 1];
      var init := s[..|s| - 1];
      Dedup(init) + (if last in init then [] else [last])
  }

  /** The specification of `files_in_patch`. */
  function PatchFileList(patch: string): (files: seq<string>)
    ensures NoDuplicates(files)
  {
    DedupNoDuplicates(HeaderNames(Split(patch, '\n')));
    Dedup(HeaderNames(Split(patch, '\n')))
  }

  /** `files_in_patch`: scan the lines, appending each header's name unless already listed. */
  method FilesInPatch(patch: string) returns (files: seq<string>)
    ensures files == PatchFileList(patch)
    ensures NoDuplicates(files)
  {
    var lines := Split(patch, '\n');
    files := [];
    var i := 0;
    while i < |lines|
      invariant i <= |lines|
      invariant files == Dedup(HeaderNames(lines[..i]))
    {
      var line := lines[i];
      ghost var names := HeaderNames(lines[..i]);
      assert lines[..i + 1][..i] == lines[..i];
      if IsHeader(line) {
        HeaderName(line);
        var fname := AfterFirstSlash(line);
        assert HeaderNames(lines[..i + 1]) == names + [fname];
        assert (names + [fname])[..|names|] == names;
        DedupMembers(names, fname);
        if fname !in files {
          files := files + [fname];
        }
      } else {
        assert HeaderNames(lines[..i + 1]) == names;
      }
      i := i + 1;
    }
    assert lines[..i] == lines;
    DedupNoDuplicates(HeaderNames(lines));
  }

  lemma {:induction false} DedupMembers<T>(s: seq<T>, x: T)
    ensures x in Dedup(s) <==> x in s
  {
    if s != [] {
      var init := s[..|s| - 1];
      DedupMembers(init, x);
      assert s == init + [s[|s| - 1]];
    }
  }

  lemma {:induction false} DedupNoDuplicates<T>(s: seq<T>)
    ensures NoDuplicates(Dedup(s))
  {
    if s != [] {
      var init := s[..|s| - 1];
      DedupNoDuplicates(init);
      DedupMembers(init, s[|s| - 1]);
    }
  }

  /** Names come out ordered by where each first occurs. */
  lemma {:induction false} DedupOrder<T>(s: seq<T>)
    ensures forall x :: x in Dedup(s) ==> x in s
    ensures forall i, j :: 0 <= i < j < |Dedup(s)| ==> IndexOf(s, Dedup(s)[i]) < IndexOf(s, Dedup(s)[j])
  {
    forall x | x in Dedup(s) ensures x in s { DedupMembers(s, x); }
    if s != [] {
      var init, last := s[..|s| - 1], s[|s| - 1];
      DedupOrder(init);
      var d, d' := Dedup(init), Dedup(s);
      assert s == init + [last];
      forall x | x in d ensures IndexOf(s, x) == IndexOf(init, x) {
        IndexOfPrefix(init, [last], x);
      }
      if last !in init {
        IndexOfUnique(s, last, |s| - 1);
        forall i, j | 0 <= i < j < |d'| ensures IndexOf(s, d'[i]) < IndexOf(s, d'[j]) {
          assert d'[i] in d;
          if j < |d| { assert d'[j] in d; }
        }
      }
    }
  }

  lemma {:induction false} HeaderNamesMembers(lines: seq<string>, name: string)
    ensures name in HeaderNames(lines) <==> exists line :: line in lines && IsHeader(line) && line[6..] == name
  {
    if lines != [] {
      var init, last := lines[..|lines| - 1], lines[|lines| - 1];
      HeaderNamesMembers(init, name);
      assert lines == init + [last];
      if IsHeader(last) { HeaderName(last); }
    }
  }

  /** A listed name is exactly the text after the prefix of some header line of the patch,
      and every header line's name is listed; other lines contribute nothing. */
  lemma PatchFileListMembers(patch: string, name: string)
    ensures name in PatchFileList(patch) <==>
      exists line :: line in Split(patch, '\n') && IsHeader(line) && line[6..] == name
  {
    var names := HeaderNames(Split(patch, '\n'));
    DedupMembers(names, name);
    HeaderNamesMembers(Split(patch, '\n'), name);
  }

  /** The list has no repeats and follows the order of first appearance among header names. */
  lemma PatchFileListOrder(patch: string)
    ensures NoDuplicates(PatchFileList(patch))
    ensures forall name :: name in PatchFileList(patch) ==> name in HeaderNames(Split(patch, '\n'))
    ensures forall i, j :: 0 <= i < j < |PatchFileList(patch)| ==>
      var names := HeaderNames(Split(patch, '\n'));
      IndexOf(names, PatchFileList(patch)[i]) < IndexOf(names, PatchFileList(patch)[j])
  {
    var names := HeaderNames(Split(patch, '\n'));
    DedupNoDuplicates(names);
    DedupOrder(names);
  }

  /** A patch without header lines names no files. */
  lemma NoHeadersNoFiles(patch: string)
    requires forall line :: line in Split(patch, '\n') ==> !IsHeader(line)
    ensures PatchFileList(patch) == []
  {
    if PatchFileList(patch) != [] {
      PatchFileListMembers(patch, PatchFileList(patch)[0]);
    }
  }

  /** A patch whose old and new headers name the same file, twice over, lists that file once. */
  lemma SameFileTwice(name: string)
    requires '\n' !in name
    ensures var old_, new_ := "--- a/" + name, "+++ b/" + name;
      PatchFileList(Join([old_, new_, old_, new_], '\n')) == [name]
  {
    var h1, h2 := "--- a/" + name, "+++ b/" + name;
    var lines := [h1, h2, h1, h2];
    assert '\n' !in h1 && '\n' !in h2;
    SplitJoin(lines, '\n');
    HeadersNamed(lines, name);
    DedupRepeated(HeaderNames(lines), name);
  }

  lemma {:induction false} HeadersNamed(lines: seq<string>, name: string)
    requires forall line :: line in lines ==> line == "--- a/" + name || line == "+++ b/" + name
    ensures HeaderNames(lines) == seq(|lines|, _ => name)
  {
    if lines != [] {
      var init, last := lines[..|lines| - 1], lines[|lines| - 1];
      assert lines == init + [last];
      forall line | line in init ensures line in lines { assert line in init + [last]; }
      HeadersNamed(init, name);
      assert last in lines;
      assert IsHeader(last);
      HeaderName(last);
      assert last[6..] == name;
    }
  }

  lemma {:induction false} DedupRepeated(s: seq<string>, x: string)
    requires |s| > 0 && forall y :: y in s ==> y == x
    ensures Dedup(s) == [x]
  {
    var init := s[..|s| - 1];
    assert s == init + [s[|s| - 1]];
    assert s[|s| - 1] in s;
    if init != [] {
      forall y | y in init ensures y in s { assert y in init + [s[|s| - 1]]; }
      DedupRepeated(init, x);
      assert init[0] in init;
    }
  }
}
