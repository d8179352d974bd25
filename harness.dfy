/** `process_one_instance` and the sequential (`threads == 1`) path of
    `process_instances`: the nested attempt/model loops with their running
    results, cost and winner, the fallback to `pick_winner`, the append to the
    predictions file, and the loop over the instance ids. */
module Harness {
  import opened Base
  import opened PatchFiles
  import opened RepoCache
  import opened Trials
  import opened ResultStore

  /** `process_one_instance`: for attempts `1..numTries` and, inside, every model in order,
      provision the repository, run the agent, and record a completed trial; stop at the
      first plausible one. Without a plausible trial ask `pick` for a winner; with a winner,
      append it (with its try number, the history and the total cost) to the store. */
  method ProcessOneInstance(entry: Entry, numTries: nat, models: seq<string>, modelNameOrPath: string,
                            agent: Agent, pick: Picker, store: PredictionFile, cache: BareRepoCache)
    returns (status: InstanceStatus, ghost ran: seq<Slot>)
    requires cache.Valid()
    modifies store, cache
    ensures cache.Valid()
    ensures status == InstanceSpec(Context(entry, modelNameOrPath), numTries, models, agent, pick)
    ensures store.file == if status.Written? then Appended(old(store.file), status.prediction) else old(store.file)
    ensures ran == Executed(agent, Schedule(numTries, models))
    ensures cache.ProvisionedIf(ran != [], old(cache.present), old(cache.bareClones), RepoName(GithubUrl(entry.repo)))
  {
    var ctx := Context(entry, modelNameOrPath);
    var results, cost, winner, attempt;
    results, cost, winner, attempt, ran := RunAttempts(ctx, agent, numTries, models, cache);
    ExecutedEmpty(agent, numTries, models);
    status := Conclude(ctx, numTries, models, agent, pick, results, cost, winner, attempt, store);
  }

  /** The two loops: attempts `1..numTries` outer, the models of each attempt inner, until a
      trial is plausible. They leave the state of the whole schedule, and `attempt` bound to
      the last attempt begun (unbound when there was none). */
  method RunAttempts(ctx: Context, agent: Agent, numTries: nat, models: seq<string>,
                     cache: BareRepoCache)
    returns (results: seq<TrialResult>, cost: nat, winner: Option<TrialResult>, attempt: Option<nat>, ghost ran: seq<Slot>)
    requires cache.Valid()
    modifies cache
    ensures AttemptsDone(ctx, agent, numTries, models, results, cost, winner, attempt)
    ensures ran == Executed(agent, Schedule(numTries, models))
    ensures cache.Valid()
    ensures cache.ProvisionedIf(numTries > 0 && models != [], old(cache.present), old(cache.bareClones), RepoName(GithubUrl(ctx.entry.repo)))
  {
    var goldFiles := FilesInPatch(ctx.entry.patch);
    var url := GithubUrl(ctx.entry.repo);
    ghost var name := RepoName(url);
    results, cost, winner, attempt, ran := [], 0, None, None, [];
    // The number of attempts begun.
    var a := 0;
    while a < numTries && winner.None?
      invariant a <= numTries
      invariant Attempts(ctx, agent, models, a) == Progress(results, winner)
      invariant cost == TotalCost(results)
      invariant attempt == if a == 0 then None else Some(a)
      invariant winner.Some? ==> winner.value.tryNumber == a
      invariant ran == Executed(agent, Schedule(a, models))
      invariant cache.Valid()
      invariant cache.ProvisionedIf(a > 0 && models != [], old(cache.present), old(cache.bareClones), name)
      decreases numTries - a, if winner.None? then 1 else 0
    {
      a := a + 1;
      attempt := Some(a);
      ghost var row;
      results, cost, winner, row := RunAttempt(ctx, goldFiles, agent, a, models, url, cache, results, cost, ran);
      ran := ran + row;
    }
    LoopsDone(ctx, agent, models, a, numTries);
  }

  /** The loops have run the whole schedule: `results` and `winner` are its outcome, `cost`
      their total, and `attempt` the last attempt begun (unbound when there was none). */
  ghost predicate AttemptsDone(ctx: Context, agent: Agent, numTries: nat, models: seq<string>,
                               results: seq<TrialResult>, cost: nat, winner: Option<TrialResult>, attempt: Option<nat>)
  {
    && Run(ctx, agent, Schedule(numTries, models)) == Progress(results, winner)
    && cost == TotalCost(results)
    && attempt == if numTries == 0 then None else Some(if winner.Some? then winner.value.tryNumber else numTries)
  }

  /** After the loops: without a winner consult `pick`; without one still, write nothing;
      with one, `tries` is `attempt` (raising when it was never bound), and the winner with its
      try count, the history and the total cost is appended to the store. */
  method Conclude(ctx: Context, numTries: nat, models: seq<string>, agent: Agent, pick: Picker,
                  results: seq<TrialResult>, cost: nat, winner: Option<TrialResult>, attempt: Option<nat>,
                  store: PredictionFile)
    returns (status: InstanceStatus)
    requires AttemptsDone(ctx, agent, numTries, models, results, cost, winner, attempt)
    modifies store
    ensures status == InstanceSpec(ctx, numTries, models, agent, pick)
    ensures store.file == if status.Written? then Appended(old(store.file), status.prediction) else old(store.file)
  {
    var chosen := winner;
    if chosen.None? {
      chosen := pick(results);
    }
    if chosen.None? {
      return NoWinner;
    }
    if attempt.None? {
      return AttemptUnbound;
    }
    var prediction := Prediction(chosen.value, attempt.value, results, cost);
    store.Append(prediction);
    status := Written(prediction);
  }

  /** Attempt `a`, begun with no winner: its inner loop continues the run of the attempts
      before it, and the trials it runs follow those they ran. */
  method RunAttempt(ctx: Context, goldFiles: seq<string>, agent: Agent, a: nat, models: seq<string>,
                    url: string, cache: BareRepoCache, results: seq<TrialResult>, cost: nat, ghost ran: seq<Slot>)
    returns (results': seq<TrialResult>, cost': nat, winner: Option<TrialResult>, ghost row: seq<Slot>)
    requires a >= 1 && goldFiles == PatchFileList(ctx.entry.patch)
    requires Attempts(ctx, agent, models, a - 1) == Progress(results, None)
    requires cost == TotalCost(results)
    requires ran == Executed(agent, Schedule(a - 1, models))
    requires cache.Valid()
    modifies cache
    ensures Attempts(ctx, agent, models, a) == Progress(results', winner)
    ensures row == Executed(agent, Row(a, models, |models|))
    ensures ran + row == Executed(agent, Schedule(a, models))
    ensures cost' == TotalCost(results')
    ensures winner.Some? ==> winner.value.tryNumber == a
    ensures cache.Valid()
    ensures cache.ProvisionedIf(models != [], old(cache.present), old(cache.bareClones), RepoName(url))
  {
    results', cost', winner, row := RunModels(ctx, goldFiles, agent, Progress(results, None), a, models, url, cache, results, cost);
    AttemptExecuted(ctx, agent, models, a);
  }

  /** The inner loop of attempt `a`, from state `start` with no winner: provision the repository
      and run one trial per model, in list order, until one is plausible. The trials run are
      the row's models up to its first plausible one. */
  method RunModels(ctx: Context, goldFiles: seq<string>, agent: Agent, ghost start: Progress, a: nat, models: seq<string>,
                   url: string, cache: BareRepoCache, results: seq<TrialResult>, cost: nat)
    returns (results': seq<TrialResult>, cost': nat, winner: Option<TrialResult>, ghost row: seq<Slot>)
    requires goldFiles == PatchFileList(ctx.entry.patch)
    requires start == Progress(results, None)
    requires cost == TotalCost(results)
    requires cache.Valid()
    modifies cache
    ensures RowRun(ctx, agent, start, a, models, |models|) == Progress(results', winner)
    ensures row == Executed(agent, Row(a, models, |models|))
    ensures cost' == TotalCost(results')
    ensures winner.Some? ==> winner.value.tryNumber == a
    ensures cache.Valid()
    ensures cache.ProvisionedIf(models != [], old(cache.present), old(cache.bareClones), RepoName(url))
  {
    results', cost', winner, row := results, cost, None, [];
    var i := 0;
    while i < |models| && winner.None?
      invariant i <= |models|
      invariant RowRun(ctx, agent, start, a, models, i) == Progress(results', winner)
      invariant cost' == TotalCost(results')
      invariant winner.Some? ==> winner.value.tryNumber == a
      invariant row == Executed(agent, Row(a, models, i))
      invariant cache.Valid()
      invariant cache.ProvisionedIf(i > 0, old(cache.present), old(cache.bareClones), RepoName(url))
    {
      RowExecutedStep(ctx, agent, start, a, models, i);
      results', cost', winner, row := RunModel(ctx, goldFiles, agent, start, a, models, i, url, cache, results', cost', row);
      i := i + 1;
    }
    if winner.Some? {
      RowRunAfterWinner(ctx, agent, start, a, models, i, |models|);
      RowExecutedAfterWinner(ctx, agent, start, a, models, i);
    }
  }

  /** One pass of the inner loop: provision the repository, then run the trial of model `i`. */
  method RunModel(ctx: Context, goldFiles: seq<string>, agent: Agent, ghost start: Progress, a: nat, models: seq<string>,
                  i: nat, url: string, cache: BareRepoCache, results: seq<TrialResult>, cost: nat, ghost ran: seq<Slot>)
    returns (results': seq<TrialResult>, cost': nat, winner: Option<TrialResult>, ghost ran': seq<Slot>)
    requires i < |models| && goldFiles == PatchFileList(ctx.entry.patch)
    requires RowRun(ctx, agent, start, a, models, i) == Progress(results, None)
    requires cost == TotalCost(results)
    requires cache.Valid()
    modifies cache
    ensures RowRun(ctx, agent, start, a, models, i + 1) == Progress(results', winner)
    ensures cost' == TotalCost(results')
    ensures winner.Some? ==> winner.value.tryNumber == a
    ensures cache.Valid()
    ensures cache.Provisioned(old(cache.present), old(cache.bareClones), RepoName(url))
    ensures ran' == ran + [Slot(a, i, models[i])]
  {
    var _, _ := cache.Checkout(url);
    results', cost', winner := RunTrial(ctx, goldFiles, agent, Slot(a, i, models[i]), results, cost);
    ran' := ran + [Slot(a, i, models[i])];
  }

  /** One pass of the inner loop's body after provisioning: run the agent; a session that
      raised is skipped, a completed one adds its cost and its result, and is the winner when
      its patch is non-empty and its lint outcome true. */
  method RunTrial(ctx: Context, goldFiles: seq<string>, agent: Agent, slot: Slot, results: seq<TrialResult>, cost: nat)
    returns (results': seq<TrialResult>, cost': nat, winner: Option<TrialResult>)
    requires goldFiles == PatchFileList(ctx.entry.patch)
    requires cost == TotalCost(results)
    ensures Progress(results', winner) == Step(ctx, agent, Progress(results, None), slot)
    ensures cost' == TotalCost(results')
    ensures winner.Some? ==> winner.value.tryNumber == slot.attempt
  {
    results', cost', winner := results, cost, None;
    var outcome := agent(slot.attempt, slot.modelIndex);
    if outcome.Completed? {
      cost' := cost + outcome.cost;
      var edited := FilesInPatch(outcome.patch);
      var result := TrialResult(ctx.modelNameOrPath, outcome.patch, slot.model, outcome.cost, outcome.addedFiles,
                                goldFiles, edited, outcome.lintOutcome, outcome.testOutcome, slot.attempt, ctx.entry);
      assert (results + [result])[..|results|] == results;
      results' := results + [result];
      if outcome.patch != [] && outcome.lintOutcome == Some(true) {
        winner := Some(result);
      }
    }
  }

  /** The dataset: its keys in iteration order, and the entry of each key. */
  datatype Dataset = Dataset(keys: seq<string>, entries: map<string, Entry>)

  /** `dataset.keys()` lists every entry's id once. */
  ghost predicate WellFormed(ds: Dataset) {
    NoDuplicates(ds.keys) && forall id :: id in ds.keys <==> id in ds.entries
  }

  /** The arguments of `process_instances` that stay fixed over the run: the single model
      (also the `model_name_or_path`), the number of tries, the ids already done, the agent
      for each instance and `pick_winner`. */
  datatype Config = Config(model: string, numTries: nat, doneInstances: seq<string>, agents: string -> Agent, pick: Picker)

  /** Why the instance loop ended early: `dataset[instance_id]` raised `KeyError`, or
      `process_one_instance` raised because `attempt` was unbound. */
  datatype Failure = MissingKey(id: string) | UnboundAttempt(id: string)

  /** The ids handed to `process_one_instance` so far, the predictions it appended, and the
      exception that ended the loop, if any. */
  datatype Dispatch = Dispatch(processed: seq<string>, written: seq<Prediction>, failure: Option<Failure>)

  /** `remaining_instances`: just the given id when it is a non-empty string, otherwise every
      key of the dataset in order. */
  function Remaining(ds: Dataset, instanceId: Option<string>): seq<string> {
    if instanceId.Some? && instanceId.value != [] then [instanceId.value] else ds.keys
  }

  /** How `process_one_instance` ends on each instance of the dataset, by id: with the
      single model as the model list and as `model_name_or_path`. */
  function Statuses(ds: Dataset, cfg: Config): map<string, InstanceStatus> {
    map id | id in ds.entries :: InstanceSpec(Context(ds.entries[id], cfg.model), cfg.numTries, [cfg.model], cfg.agents(id), cfg.pick)
  }

  /** With tries to make, no instance ends with `attempt` unbound. */
  lemma NeverUnbound(ds: Dataset, cfg: Config)
    requires cfg.numTries > 0
    ensures ds.entries.Keys == Statuses(ds, cfg).Keys
    ensures forall id :: id in Statuses(ds, cfg) ==> Statuses(ds, cfg)[id] != AttemptUnbound
  {
    var m := Statuses(ds, cfg);
    forall id | id in m ensures m[id] != AttemptUnbound {
      var status := InstanceSpec(Context(ds.entries[id], cfg.model), cfg.numTries, [cfg.model], cfg.agents(id), cfg.pick);
      assert m[id] == status;
    }
  }

  /** One iteration of the instance loop, given each id's outcome and the ids done. */
  function DispatchStep(statuses: map<string, InstanceStatus>, done: seq<string>, d: Dispatch, id: string): Dispatch {
    if d.failure.Some? || id in done then d
    else if id !in statuses then d.(failure := Some(MissingKey(id)))
    else
      match statuses[id]
      case Written(p) => Dispatch(d.processed + [id], d.written + [p], None)
      case NoWinner => d.(processed := d.processed + [id])
      case AttemptUnbound => d.(processed := d.processed + [id], failure := Some(UnboundAttempt(id)))
  }

  /** The instance loop over `ids`, in order. */
  function DispatchRun(statuses: map<string, InstanceStatus>, done: seq<string>, ids: seq<string>): Dispatch {
    if ids == [] then Dispatch([], [], None)
    else DispatchStep(statuses, done, DispatchRun(statuses, done, ids[..|ids| - 1]), ids[|ids| - 1])
  }

  /** `ids` without those in `done`, in order. */
  function Keep(ids: seq<string>, done: seq<string>): seq<string> {
    if ids == [] then []
    else Keep(ids[..|ids| - 1], done) + (if ids[|ids| - 1] in done then [] else [ids[|ids| - 1]])
  }

  /** `process_instances` with `threads == 1`: process every remaining id not already done, in
      order, all appending to the one predictions file; an exception ends the loop. */
  method ProcessInstances(ds: Dataset, cfg: Config, instanceId: Option<string>, store: PredictionFile, cache: BareRepoCache)
    returns (processed: seq<string>, failure: Option<Failure>)
    requires cache.Valid()
    modifies store, cache
    ensures cache.Valid() && old(cache.present) <= cache.present && old(cache.bareClones) <= cache.bareClones
    ensures var d := DispatchRun(Statuses(ds, cfg), cfg.doneInstances, Remaining(ds, instanceId));
      processed == d.processed && failure == d.failure && store.file == AppendedAll(old(store.file), d.written)
  {
    var remaining := Remaining(ds, instanceId);
    ghost var statuses := Statuses(ds, cfg);
    processed, failure := [], None;
    ghost var written: seq<Prediction> := [];
    var k := 0;
    while k < |remaining| && failure.None?
      invariant k <= |remaining|
      invariant DispatchRun(statuses, cfg.doneInstances, remaining[..k]) == Dispatch(processed, written, failure)
      invariant store.file == AppendedAll(old(store.file), written)
      invariant cache.Valid() && old(cache.present) <= cache.present && old(cache.bareClones) <= cache.bareClones
    {
      var id := remaining[k];
      assert remaining[..k + 1][..k] == remaining[..k];
      processed, failure, written := ProcessId(ds, cfg, id, store, cache, processed, written, old(store.file));
      k := k + 1;
    }
    if k < |remaining| {
      DispatchStuck(statuses, cfg.doneInstances, remaining[..k], remaining);
    } else {
      assert remaining[..k] == remaining;
    }
  }

  /** The body of the instance loop for one id, before any exception: skip it when done, raise
      `KeyError` when the dataset lacks it, otherwise run `process_one_instance` on it. */
  method ProcessId(ds: Dataset, cfg: Config, id: string, store: PredictionFile, cache: BareRepoCache,
                   processed: seq<string>, ghost written: seq<Prediction>, ghost file0: Option<seq<Prediction>>)
    returns (processed': seq<string>, failure: Option<Failure>, ghost written': seq<Prediction>)
    requires cache.Valid()
    requires store.file == AppendedAll(file0, written)
    modifies store, cache
    ensures cache.Valid() && old(cache.present) <= cache.present && old(cache.bareClones) <= cache.bareClones
    ensures DispatchStep(Statuses(ds, cfg), cfg.doneInstances, Dispatch(processed, written, None), id)
      == Dispatch(processed', written', failure)
    ensures store.file == AppendedAll(file0, written')
  {
    processed', failure, written' := processed, None, written;
    if id in cfg.doneInstances {
      // "skipping"
    } else if id !in ds.entries {
      failure := Some(MissingKey(id));
    } else {
      var status;
      ghost var ran;
      status, ran := ProcessOneInstance(ds.entries[id], cfg.numTries, [cfg.model], cfg.model,
                                        cfg.agents(id), cfg.pick, store, cache);
      assert Statuses(ds, cfg)[id] == status;
      processed' := processed + [id];
      match status {
        case Written(p) =>
          assert (written + [p])[..|written|] == written;
          written' := written + [p];
        case NoWinner =>
        case AttemptUnbound =>
          failure := Some(UnboundAttempt(id));
      }
    }
  }

  /** After an exception the loop has ended: the remaining ids change nothing. */
  lemma {:induction false} DispatchStuck(statuses: map<string, InstanceStatus>, done: seq<string>, prefix: seq<string>, ids: seq<string>)
    requires prefix <= ids
    requires DispatchRun(statuses, done, prefix).failure.Some?
    ensures DispatchRun(statuses, done, ids) == DispatchRun(statuses, done, prefix)
    decreases |ids|
  {
    if ids != prefix {
      var init := ids[..|ids| - 1];
      assert prefix <= init;
      DispatchStuck(statuses, done, prefix, init);
    }
  }

  /** The predictions the instances among `ids` with a winner produce, in order. */
  function WrittenBy(statuses: map<string, InstanceStatus>, ids: seq<string>): seq<Prediction>
    requires forall i :: 0 <= i < |ids| ==> ids[i] in statuses
  {
    if ids == [] then []
    else
      var last := ids[|ids| - 1];
      WrittenBy(statuses, ids[..|ids| - 1]) + match statuses[last] case Written(p) => [p] case _ => []
  }

  /** An id occurs in `Keep(ids, done)` exactly when it occurs in `ids` and not in `done`. */
  lemma {:induction false} KeepMembers(ids: seq<string>, done: seq<string>, x: string)
    ensures x in Keep(ids, done) <==> x in ids && x !in done
  {
    if ids != [] {
      var init := ids[..|ids| - 1];
      KeepMembers(init, done, x);
      assert ids == init + [ids[|ids| - 1]];
    }
  }

  /** With nothing done, every id is kept. */
  lemma {:induction false} KeepAll(ids: seq<string>)
    ensures Keep(ids, []) == ids
  {
    if ids != [] {
      KeepAll(ids[..|ids| - 1]);
      assert ids == ids[..|ids| - 1] + [ids[|ids| - 1]];
    }
  }

  /** Filtering keeps a list free of repeats. */
  lemma {:induction false} KeepNoDuplicates(ids: seq<string>, done: seq<string>)
    requires NoDuplicates(ids)
    ensures NoDuplicates(Keep(ids, done))
  {
    if ids != [] {
      var init, last := ids[..|ids| - 1], ids[|ids| - 1];
      assert NoDuplicates(init) by {
        forall i, j | 0 <= i < j < |init| ensures init[i] != init[j] { assert init[i] == ids[i] && init[j] == ids[j]; }
      }
      KeepNoDuplicates(init, done);
      assert last !in init by {
        forall i | 0 <= i < |init| ensures init[i] != last { assert init[i] == ids[i]; }
      }
      KeepMembers(init, done, last);
    }
  }

  /** The ids handed to `process_one_instance` are those of `ids` not already done, in order:
      all of them when no exception ended the loop, otherwise the ones before it. */
  lemma {:induction false} DispatchProcessed(statuses: map<string, InstanceStatus>, done: seq<string>, ids: seq<string>)
    ensures DispatchRun(statuses, done, ids).processed <= Keep(ids, done)
    ensures DispatchRun(statuses, done, ids).failure.None? ==> DispatchRun(statuses, done, ids).processed == Keep(ids, done)
  {
    if ids != [] {
      var init, last := ids[..|ids| - 1], ids[|ids| - 1];
      DispatchProcessed(statuses, done, init);
      var kept := Keep(init, done);
      assert Keep(ids, done) == kept + (if last in done then [] else [last]);
    }
  }

  /** Every processed id has an outcome, and the file receives exactly the predictions of the
      processed instances that have a winner, in order. */
  lemma {:induction false} DispatchWritten(statuses: map<string, InstanceStatus>, done: seq<string>, ids: seq<string>)
    ensures var d := DispatchRun(statuses, done, ids);
      (forall i :: 0 <= i < |d.processed| ==> d.processed[i] in statuses) && d.written == WrittenBy(statuses, d.processed)
  {
    if ids != [] {
      var init, last := ids[..|ids| - 1], ids[|ids| - 1];
      DispatchWritten(statuses, done, init);
      var d := DispatchRun(statuses, done, init);
      if d.failure.None? && last !in done && last in statuses {
        var processed := d.processed + [last];
        assert processed[..|d.processed|] == d.processed;
        assert forall i :: 0 <= i < |d.processed| ==> processed[i] == d.processed[i];
      }
    }
  }

  /** The predictions file after the instance loop: what it held before, then the predictions
      of the processed instances that have a winner, in order. */
  lemma FileAfterRun(statuses: map<string, InstanceStatus>, done: seq<string>, ids: seq<string>,
                     file: Option<seq<Prediction>>)
    ensures var d := DispatchRun(statuses, done, ids);
      (forall i :: 0 <= i < |d.processed| ==> d.processed[i] in statuses)
      && Loaded(AppendedAll(file, d.written)) == Loaded(file) + WrittenBy(statuses, d.processed)
  {
    DispatchWritten(statuses, done, ids);
    AppendedAllLoaded(file, DispatchRun(statuses, done, ids).written);
  }

  /** An instance loop where every id not done has an outcome other than an unbound `attempt`
      raises nothing. */
  lemma {:induction false} DispatchNoFailure(statuses: map<string, InstanceStatus>, done: seq<string>, ids: seq<string>)
    requires forall i :: 0 <= i < |ids| ==> ids[i] in done || (ids[i] in statuses && statuses[ids[i]] != AttemptUnbound)
    ensures DispatchRun(statuses, done, ids).failure.None?
  {
    if ids != [] {
      DispatchNoFailure(statuses, done, ids[..|ids| - 1]);
    }
  }

  /** A given id: only that instance is processed; a missing one raises `KeyError` before
      anything is processed. */
  lemma GivenInstance(ds: Dataset, cfg: Config, id: string)
    requires id != [] && id !in cfg.doneInstances
    ensures var statuses := Statuses(ds, cfg);
      var d := DispatchRun(statuses, cfg.doneInstances, Remaining(ds, Some(id)));
      (id !in ds.entries ==> d == Dispatch([], [], Some(MissingKey(id))))
      && (id in ds.entries ==>
            d.processed == [id]
            && d.written == (match statuses[id] case Written(p) => [p] case _ => [])
            && (d.failure.Some? <==> statuses[id] == AttemptUnbound))
  {
    assert [id][..0] == [];
  }

  /** Without a given id, on a well-formed dataset with tries to make, every key not done is
      processed once, in dataset order, and nothing raises; with nothing done that is every key. */
  lemma AllInstances(ds: Dataset, cfg: Config)
    requires WellFormed(ds) && cfg.numTries > 0
    ensures var d := DispatchRun(Statuses(ds, cfg), cfg.doneInstances, Remaining(ds, None));
      d.failure.None? && d.processed == Keep(ds.keys, cfg.doneInstances) && NoDuplicates(d.processed)
      && (cfg.doneInstances == [] ==> d.processed == ds.keys)
  {
    var statuses := Statuses(ds, cfg);
    NeverUnbound(ds, cfg);
    forall i | 0 <= i < |ds.keys| ensures ds.keys[i] in statuses && statuses[ds.keys[i]] != AttemptUnbound {
      assert ds.keys[i] in ds.keys;
    }
    DispatchNoFailure(statuses, cfg.doneInstances, ds.keys);
    DispatchProcessed(statuses, cfg.doneInstances, ds.keys);
    KeepNoDuplicates(ds.keys, cfg.doneInstances);
    KeepAll(ds.keys);
  }

  /** An id already done is never processed. */
  lemma DoneSkipped(statuses: map<string, InstanceStatus>, done: seq<string>, ids: seq<string>, id: string)
    requires id in done
    ensures id !in DispatchRun(statuses, done, ids).processed
  {
    DispatchProcessed(statuses, done, ids);
    KeepMembers(ids, done, id);
  }
}
