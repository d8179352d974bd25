/** The predictions file `process_one_instance` appends to: a JSON array of
    predictions that may not exist yet. It is read whole, extended by one entry
    and written back whole. JSON encoding is not modelled: the file holds the
    predictions themselves. */
module ResultStore {
  import opened Base
  import opened Trials

  /** What reading the file yields: its array, or `[]` when the file does not exist. */
  function Loaded(file: Option<seq<Prediction>>): seq<Prediction> {
    if file.Some? then file.value else []
  }

  /** The file after appending `p`: it now exists, and holds what was there with `p` at the
      end; earlier entries are kept in place. */
  function Appended(file: Option<seq<Prediction>>, p: Prediction): (after: Option<seq<Prediction>>)
    ensures after.Some?
    ensures |Loaded(after)| == |Loaded(file)| + 1 && Loaded(after)[|Loaded(file)|] == p
    ensures Loaded(after)[..|Loaded(file)|] == Loaded(file)
  {
    var before := Loaded(file);
    assert (before + [p])[..|before|] == before;
    Some(before + [p])
  }

  /** The file after appending each of `ps` in turn; untouched when there is nothing to append. */
  function AppendedAll(file: Option<seq<Prediction>>, ps: seq<Prediction>): Option<seq<Prediction>> {
    if ps == [] then file else Appended(AppendedAll(file, ps[..|ps| - 1]), ps[|ps| - 1])
  }

  /** Appending one by one reads back as the old contents followed by everything appended,
      in order. */
  lemma {:induction false} AppendedAllLoaded(file: Option<seq<Prediction>>, ps: seq<Prediction>)
    ensures Loaded(AppendedAll(file, ps)) == Loaded(file) + ps
    ensures ps != [] ==> AppendedAll(file, ps).Some?
  {
    if ps != [] {
      var init, last := ps[..|ps| - 1], ps[|ps| - 1];
      AppendedAllLoaded(file, init);
      var mid := AppendedAll(file, init);
      var after := Appended(mid, last);
      assert Loaded(after) == Loaded(mid) + [last] by {
        assert Loaded(after)[..|Loaded(mid)|] == Loaded(mid);
        assert Loaded(after) == Loaded(after)[..|Loaded(mid)|] + [Loaded(after)[|Loaded(mid)|]];
      }
      assert ps == init + [last];
    }
  }

  /** The output file of a run: `None` while it does not exist. */
  class PredictionFile {
    var file: Option<seq<Prediction>>

    constructor (existing: Option<seq<Prediction>>)
      ensures file == existing
    {
      file := existing;
    }

    /** Read the array (or start from `[]`), append the prediction, write the array back. */
    method Append(p: Prediction)
      modifies this
      ensures file == Appended(old(file), p)
    {
      var all := Loaded(file);
      all := all + [p];
      file := Some(all);
    }
  }
}
