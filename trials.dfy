/** The attempt/model retry controller of `process_one_instance`, as a
    specification: the order in which (attempt, model) trials run, the state the
    loops carry (the results so far and the winner), and what the instance
    finally yields. The agent is an oracle from (attempt, model index) to the
    outcome of one session; `pick_winner` is an arbitrary function. */
module Trials {
  import opened Base
  import opened PatchFiles

  /** A dataset entry: the fields of the SWE-bench record the harness reads. */
  datatype Entry = Entry(instanceId: string, repo: string, baseCommit: string, problemStatement: string, patch: string)

  /** What one agent session leaves behind: either `coder.run` raised, or it finished and
      these are the coder's cost, the diff against the base commit, its lint and test
      outcomes (each may be unknown) and the files it added to the chat. */
  datatype TrialOutcome =
    | Raised
    | Completed(cost: nat, patch: string, lintOutcome: Option<bool>, testOutcome: Option<bool>, addedFiles: seq<string>)

  /** The agent, by attempt number and position in the model list. */
  type Agent = (nat, nat) -> TrialOutcome

  /** `pick_winner`: some choice among the collected results, or none. */
  type Picker = seq<TrialResult> -> Option<TrialResult>

  /** The result dict of one completed trial, with the entry's fields merged in. */
  datatype TrialResult = TrialResult(
    modelNameOrPath: string,
    modelPatch: string,
    model: string,
    cost: nat,
    addedFiles: seq<string>,
    goldFiles: seq<string>,
    editedFiles: seq<string>,
    lintOutcome: Option<bool>,
    testOutcome: Option<bool>,
    tryNumber: nat,
    entry: Entry)

  /** What is appended to the predictions file: the winner, with `tries`, `all_results`
      and `cost` (the instance's total, replacing the winner's own cost). */
  datatype Prediction = Prediction(winner: TrialResult, tries: nat, allResults: seq<TrialResult>, cost: nat)

  /** How `process_one_instance` ends: it appended a prediction, returned without writing
      because there is no winner, or raised because `attempt` was never bound
      (`num_tries == 0` and yet `pick_winner` chose something). */
  datatype InstanceStatus = Written(prediction: Prediction) | NoWinner | AttemptUnbound

  /** The fixed parameters of one instance's trials. */
  datatype Context = Context(entry: Entry, modelNameOrPath: string)

  /** One (attempt, model) pair of the nested loops. */
  datatype Slot = Slot(attempt: nat, modelIndex: nat, model: string)

  function OutcomeAt(agent: Agent, slot: Slot): TrialOutcome {
    agent(slot.attempt, slot.modelIndex)
  }

  /** The first `n` trials of the inner loop of one attempt: the first `n` models, in list order. */
  function Row(attempt: nat, models: seq<string>, n: nat): seq<Slot>
    requires n <= |models|
  {
    if n == 0 then [] else Row(attempt, models, n - 1) + [Slot(attempt, n - 1, models[n - 1])]
  }

  /** Attempts `1..numTries` outer, models inner. */
  function Schedule(numTries: nat, models: seq<string>): seq<Slot> {
    if numTries == 0 then [] else Schedule(numTries - 1, models) + Row(numTries, models, |models|)
  }

  /** The row holds the attempt paired with each of the first `n` models, by position. */
  lemma {:induction false} RowShape(attempt: nat, models: seq<string>, n: nat)
    requires n <= |models|
    ensures |Row(attempt, models, n)| == n
    ensures forall i :: 0 <= i < n ==> Row(attempt, models, n)[i] == Slot(attempt, i, models[i])
  {
    if n > 0 {
      RowShape(attempt, models, n - 1);
    }
  }

  /** Strictly earlier in the loop order. */
  predicate Before(s: Slot, t: Slot) {
    s.attempt < t.attempt || (s.attempt == t.attempt && s.modelIndex < t.modelIndex)
  }

  /** The schedule holds exactly the pairs of an attempt in `1..numTries` and a model of the
      list, each carrying that model's name, in strictly increasing loop order. */
  lemma {:induction false} ScheduleShape(numTries: nat, models: seq<string>)
    ensures forall s :: s in Schedule(numTries, models) <==>
      1 <= s.attempt <= numTries && s.modelIndex < |models| && s.model == models[s.modelIndex]
    ensures forall i, j :: 0 <= i < j < |Schedule(numTries, models)| ==>
      Before(Schedule(numTries, models)[i], Schedule(numTries, models)[j])
  {
    if numTries > 0 {
      ScheduleShape(numTries - 1, models);
      var init, row := Schedule(numTries - 1, models), Row(numTries, models, |models|);
      RowShape(numTries, models, |models|);
      var all := init + row;
      forall s: Slot ensures s in all <==>
        1 <= s.attempt <= numTries && s.modelIndex < |models| && s.model == models[s.modelIndex]
      {
        if s.attempt == numTries && s.modelIndex < |models| && s.model == models[s.modelIndex] {
          assert row[s.modelIndex] == s;
        }
      }
      forall i, j | 0 <= i < j < |all| ensures Before(all[i], all[j]) {
        if j >= |init| && i < |init| {
          assert all[i] in init;
        }
      }
    }
  }

  /** A shorter schedule is the start of a longer one. */
  lemma {:induction false} SchedulePrefix(a: nat, numTries: nat, models: seq<string>)
    requires a <= numTries
    ensures Schedule(a, models) <= Schedule(numTries, models)
    decreases numTries - a
  {
    if a < numTries {
      SchedulePrefix(a, numTries - 1, models);
    }
  }

  /** The plausibility gate: a non-empty patch and a lint outcome that is true. The test
      outcome is not consulted. */
  predicate Plausible(outcome: TrialOutcome) {
    outcome.Completed? && outcome.patch != [] && outcome.lintOutcome == Some(true)
  }

  /** The result recorded for a completed trial. */
  function ResultOf(ctx: Context, slot: Slot, outcome: TrialOutcome): TrialResult
    requires outcome.Completed?
  {
    TrialResult(ctx.modelNameOrPath, outcome.patch, slot.model, outcome.cost, outcome.addedFiles,
                PatchFileList(ctx.entry.patch), PatchFileList(outcome.patch),
                outcome.lintOutcome, outcome.testOutcome, slot.attempt, ctx.entry)
  }

  /** The state the loops carry from trial to trial. */
  datatype Progress = Progress(results: seq<TrialResult>, winner: Option<TrialResult>)

  /** One trial: a raised session is skipped; a completed one is recorded, and becomes
      the winner when plausible. Once there is a winner nothing further runs. */
  function Step(ctx: Context, agent: Agent, progress: Progress, slot: Slot): Progress {
    if progress.winner.Some? then progress
    else
      match OutcomeAt(agent, slot)
      case Raised => progress
      case Completed(_, _, _, _, _) =>
        var outcome := OutcomeAt(agent, slot);
        var result := ResultOf(ctx, slot, outcome);
        Progress(progress.results + [result], if Plausible(outcome) then Some(result) else None)
  }

  /** The loops' state after the given trials, in order. */
  function Run(ctx: Context, agent: Agent, slots: seq<Slot>): Progress {
    if slots == [] then Progress([], None)
    else Step(ctx, agent, Run(ctx, agent, slots[..|slots| - 1]), slots[|slots| - 1])
  }

  /** The state after the inner loop of attempt `a` has run the first `n` models, starting
      from state `p`. */
  function RowRun(ctx: Context, agent: Agent, p: Progress, a: nat, models: seq<string>, n: nat): Progress
    requires n <= |models|
  {
    if n == 0 then p else Step(ctx, agent, RowRun(ctx, agent, p, a, models, n - 1), Slot(a, n - 1, models[n - 1]))
  }

  /** The state after the outer loop has run attempts `1..a` in full. */
  function Attempts(ctx: Context, agent: Agent, models: seq<string>, a: nat): Progress {
    if a == 0 then Progress([], None) else RowRun(ctx, agent, Attempts(ctx, agent, models, a - 1), a, models, |models|)
  }

  /** Running part of a row continues the run of the trials before it. */
  lemma {:induction false} RowRunIsRun(ctx: Context, agent: Agent, before: seq<Slot>, a: nat, models: seq<string>, n: nat)
    requires n <= |models|
    ensures RowRun(ctx, agent, Run(ctx, agent, before), a, models, n) == Run(ctx, agent, before + Row(a, models, n))
  {
    if n > 0 {
      RowRunIsRun(ctx, agent, before, a, models, n - 1);
      var init := before + Row(a, models, n - 1);
      var slot := Slot(a, n - 1, models[n - 1]);
      assert before + Row(a, models, n) == init + [slot];
      assert (init + [slot])[..|init|] == init;
      assert Run(ctx, agent, init + [slot]) == Step(ctx, agent, Run(ctx, agent, init), slot);
    } else {
      assert before + Row(a, models, n) == before;
    }
  }

  /** The nested loops compute the same state as the flat run over the schedule. */
  lemma {:induction false} AttemptsIsRun(ctx: Context, agent: Agent, models: seq<string>, a: nat)
    ensures Attempts(ctx, agent, models, a) == Run(ctx, agent, Schedule(a, models))
  {
    if a > 0 {
      AttemptsIsRun(ctx, agent, models, a - 1);
      RowRunIsRun(ctx, agent, Schedule(a - 1, models), a, models, |models|);
    }
  }

  /** Once a row has a winner, its remaining models change nothing. */
  lemma {:induction false} RowRunAfterWinner(ctx: Context, agent: Agent, p: Progress, a: nat, models: seq<string>, i: nat, n: nat)
    requires i <= n <= |models|
    requires RowRun(ctx, agent, p, a, models, i).winner.Some?
    ensures RowRun(ctx, agent, p, a, models, n) == RowRun(ctx, agent, p, a, models, i)
  {
    if n > i {
      RowRunAfterWinner(ctx, agent, p, a, models, i, n - 1);
    }
  }

  /** Once an attempt has a winner, later attempts change nothing. */
  lemma {:induction false} AttemptsAfterWinner(ctx: Context, agent: Agent, models: seq<string>, a: nat, b: nat)
    requires a <= b
    requires Attempts(ctx, agent, models, a).winner.Some?
    ensures Attempts(ctx, agent, models, b) == Attempts(ctx, agent, models, a)
  {
    if b > a {
      AttemptsAfterWinner(ctx, agent, models, a, b - 1);
      RowRunAfterWinner(ctx, agent, Attempts(ctx, agent, models, b - 1), b, models, 0, |models|);
    }
  }

  /** The position of the first plausible trial, if any. */
  function FirstPlausible(agent: Agent, slots: seq<Slot>): (j: Option<nat>)
    ensures j.Some? ==> j.value < |slots| && Plausible(OutcomeAt(agent, slots[j.value]))
    ensures j.Some? ==> forall k :: 0 <= k < j.value ==> !Plausible(OutcomeAt(agent, slots[k]))
    ensures j.None? ==> forall k :: 0 <= k < |slots| ==> !Plausible(OutcomeAt(agent, slots[k]))
  {
    if slots == [] then None
    else if Plausible(OutcomeAt(agent, slots[0])) then Some(0)
    else
      match FirstPlausible(agent, slots[1..])
      case None => None
      case Some(j) => Some(j + 1)
  }

  /** The trials that run: everything up to and including the first plausible one. */
  function Executed(agent: Agent, slots: seq<Slot>): seq<Slot> {
    match FirstPlausible(agent, slots)
    case None => slots
    case Some(j) => slots[..j + 1]
  }

  /** The results of the completed trials among `slots`, in order. */
  function CompletedResults(ctx: Context, agent: Agent, slots: seq<Slot>): seq<TrialResult> {
    if slots == [] then []
    else
      var last := slots[|slots| - 1];
      CompletedResults(ctx, agent, slots[..|slots| - 1])
        + (if OutcomeAt(agent, last).Completed? then [ResultOf(ctx, last, OutcomeAt(agent, last))] else [])
  }

  /** The sum of the results' costs. */
  function TotalCost(results: seq<TrialResult>): nat {
    if results == [] then 0 else TotalCost(results[..|results| - 1]) + results[|results| - 1].cost
  }

  /** The first plausible trial is determined by its position. */
  lemma FirstPlausibleIs(agent: Agent, slots: seq<Slot>, j: nat)
    requires j < |slots| && Plausible(OutcomeAt(agent, slots[j]))
    requires forall k :: 0 <= k < j ==> !Plausible(OutcomeAt(agent, slots[k]))
    ensures FirstPlausible(agent, slots) == Some(j)
  {
  }

  /** Appending a trial after the first plausible one changes neither it nor what runs. */
  lemma ExtendAfterPlausible(agent: Agent, init: seq<Slot>, last: Slot)
    requires FirstPlausible(agent, init).Some?
    ensures FirstPlausible(agent, init + [last]) == FirstPlausible(agent, init)
    ensures Executed(agent, init + [last]) == Executed(agent, init)
  {
    var j := FirstPlausible(agent, init).value;
    var slots := init + [last];
    FirstPlausibleIs(agent, slots, j);
    assert slots[..j + 1] == init[..j + 1];
  }

  /** Appending a trial to trials none of which is plausible: all of them run, and the new one
      is the first plausible exactly when it is plausible. */
  lemma ExtendNoPlausible(agent: Agent, init: seq<Slot>, last: Slot)
    requires FirstPlausible(agent, init).None?
    ensures FirstPlausible(agent, init + [last]) == if Plausible(OutcomeAt(agent, last)) then Some(|init|) else None
    ensures Executed(agent, init + [last]) == init + [last]
  {
    var slots := init + [last];
    forall k | 0 <= k < |init| ensures !Plausible(OutcomeAt(agent, slots[k])) {
      assert slots[k] == init[k];
    }
    if Plausible(OutcomeAt(agent, last)) {
      FirstPlausibleIs(agent, slots, |init|);
      assert slots[..|init| + 1] == slots;
    } else {
      assert slots[|init|] == last;
      assert forall k :: 0 <= k < |slots| ==> !Plausible(OutcomeAt(agent, slots[k]));
    }
  }

  /** With no plausible trial among `init`, the trials of `init + rest` that run are all of
      `init`, then those of `rest` up to its own first plausible one; and `init + rest` has a
      plausible trial exactly when `rest` has. */
  lemma {:induction false} ExecutedConcat(agent: Agent, init: seq<Slot>, rest: seq<Slot>)
    requires FirstPlausible(agent, init).None?
    ensures FirstPlausible(agent, init + rest).None? <==> FirstPlausible(agent, rest).None?
    ensures Executed(agent, init + rest) == init + Executed(agent, rest)
    decreases |rest|
  {
    if rest == [] {
      assert init + rest == init;
    } else {
      var front, last := rest[..|rest| - 1], rest[|rest| - 1];
      ExecutedConcat(agent, init, front);
      assert rest == front + [last];
      assert init + rest == (init + front) + [last];
      if FirstPlausible(agent, front).Some? {
        ExtendAfterPlausible(agent, init + front, last);
        ExtendAfterPlausible(agent, front, last);
      } else {
        ExtendNoPlausible(agent, init + front, last);
        ExtendNoPlausible(agent, front, last);
      }
    }
  }

  /** Trials after the first plausible one never run, however many follow. */
  lemma ExecutedAfterPlausible(agent: Agent, done: seq<Slot>, slots: seq<Slot>)
    requires done <= slots
    requires FirstPlausible(agent, done).Some?
    ensures Executed(agent, slots) == Executed(agent, done)
  {
    var j := FirstPlausible(agent, done).value;
    forall k | 0 <= k <= j ensures slots[k] == done[k] { }
    FirstPlausibleIs(agent, slots, j);
    assert slots[..j + 1] == done[..j + 1];
  }

  /** A shorter row is the start of a longer one. */
  lemma {:induction false} RowPrefix(a: nat, models: seq<string>, i: nat, n: nat)
    requires i <= n <= |models|
    ensures Row(a, models, i) <= Row(a, models, n)
    decreases n
  {
    if n > i {
      RowPrefix(a, models, i, n - 1);
    }
  }

  /** A row that starts without a winner has one exactly when one of its trials so far is
      plausible. */
  lemma {:induction false} RowRunWinner(ctx: Context, agent: Agent, p: Progress, a: nat, models: seq<string>, n: nat)
    requires n <= |models| && p.winner.None?
    ensures RowRun(ctx, agent, p, a, models, n).winner.None? <==> FirstPlausible(agent, Row(a, models, n)).None?
  {
    if n > 0 {
      RowRunWinner(ctx, agent, p, a, models, n - 1);
      var init, slot := Row(a, models, n - 1), Slot(a, n - 1, models[n - 1]);
      if FirstPlausible(agent, init).Some? {
        ExtendAfterPlausible(agent, init, slot);
      } else {
        ExtendNoPlausible(agent, init, slot);
      }
    }
  }

  /** While a row has no winner, all of its trials so far have run, and so does the next. */
  lemma RowExecutedStep(ctx: Context, agent: Agent, p: Progress, a: nat, models: seq<string>, i: nat)
    requires i < |models| && p.winner.None?
    requires RowRun(ctx, agent, p, a, models, i).winner.None?
    ensures Executed(agent, Row(a, models, i)) == Row(a, models, i)
    ensures Executed(agent, Row(a, models, i + 1)) == Executed(agent, Row(a, models, i)) + [Slot(a, i, models[i])]
  {
    RowRunWinner(ctx, agent, p, a, models, i);
    ExtendNoPlausible(agent, Row(a, models, i), Slot(a, i, models[i]));
  }

  /** Once a row has a winner, its remaining models do not run. */
  lemma RowExecutedAfterWinner(ctx: Context, agent: Agent, p: Progress, a: nat, models: seq<string>, i: nat)
    requires i <= |models| && p.winner.None?
    requires RowRun(ctx, agent, p, a, models, i).winner.Some?
    ensures Executed(agent, Row(a, models, |models|)) == Executed(agent, Row(a, models, i))
  {
    RowRunWinner(ctx, agent, p, a, models, i);
    RowPrefix(a, models, i, |models|);
    ExecutedAfterPlausible(agent, Row(a, models, i), Row(a, models, |models|));
  }

  /** Before a winner, attempt `a` runs after every earlier trial, and within it the models up
      to its first plausible one. */
  lemma ScheduleExecutedStep(agent: Agent, models: seq<string>, a: nat)
    requires a >= 1 && FirstPlausible(agent, Schedule(a - 1, models)).None?
    ensures Executed(agent, Schedule(a - 1, models)) == Schedule(a - 1, models)
    ensures Executed(agent, Schedule(a, models)) == Schedule(a - 1, models) + Executed(agent, Row(a, models, |models|))
  {
    assert Schedule(a, models) == Schedule(a - 1, models) + Row(a, models, |models|);
    ExecutedConcat(agent, Schedule(a - 1, models), Row(a, models, |models|));
  }

  /** Attempts that end without a winner contain no plausible trial. */
  lemma AttemptsNoWinner(ctx: Context, agent: Agent, models: seq<string>, a: nat)
    requires Attempts(ctx, agent, models, a).winner.None?
    ensures FirstPlausible(agent, Schedule(a, models)).None?
  {
    AttemptsIsRun(ctx, agent, models, a);
    WinnerIffPlausible(ctx, agent, Schedule(a, models));
  }

  /** An attempt begun with no winner runs after every trial before it, and runs its row's
      models up to the first plausible one. */
  lemma AttemptExecuted(ctx: Context, agent: Agent, models: seq<string>, a: nat)
    requires a >= 1 && Attempts(ctx, agent, models, a - 1).winner.None?
    ensures Executed(agent, Schedule(a, models)) == Executed(agent, Schedule(a - 1, models)) + Executed(agent, Row(a, models, |models|))
  {
    AttemptsNoWinner(ctx, agent, models, a - 1);
    ScheduleExecutedStep(agent, models, a);
  }

  /** Once an attempt has a winner, no later attempt runs. */
  lemma AttemptsExecutedAfterWinner(ctx: Context, agent: Agent, models: seq<string>, a: nat, b: nat)
    requires a <= b
    requires Attempts(ctx, agent, models, a).winner.Some?
    ensures Executed(agent, Schedule(b, models)) == Executed(agent, Schedule(a, models))
  {
    AttemptsIsRun(ctx, agent, models, a);
    WinnerIffPlausible(ctx, agent, Schedule(a, models));
    SchedulePrefix(a, b, models);
    ExecutedAfterPlausible(agent, Schedule(a, models), Schedule(b, models));
  }

  /** The outer loop may stop at attempt `a` once it has a winner: the state and the trials run
      are then those of the whole schedule. */
  lemma LoopsDone(ctx: Context, agent: Agent, models: seq<string>, a: nat, numTries: nat)
    requires a <= numTries
    requires a == numTries || Attempts(ctx, agent, models, a).winner.Some?
    ensures Run(ctx, agent, Schedule(numTries, models)) == Attempts(ctx, agent, models, a)
    ensures Executed(agent, Schedule(numTries, models)) == Executed(agent, Schedule(a, models))
  {
    if a < numTries {
      AttemptsAfterWinner(ctx, agent, models, a, numTries);
      AttemptsExecutedAfterWinner(ctx, agent, models, a, numTries);
    }
    AttemptsIsRun(ctx, agent, models, numTries);
  }

  /** Without models every attempt is empty. */
  lemma {:induction false} ScheduleNoModels(numTries: nat)
    ensures Schedule(numTries, []) == []
  {
    if numTries > 0 {
      ScheduleNoModels(numTries - 1);
      assert Row(numTries, [], 0) == [];
    }
  }

  /** Some trial runs exactly when there is an attempt to make and a model to make it with. */
  lemma ExecutedEmpty(agent: Agent, numTries: nat, models: seq<string>)
    ensures Executed(agent, Schedule(numTries, models)) == [] <==> numTries == 0 || models == []
  {
    var slots := Schedule(numTries, models);
    if models == [] {
      ScheduleNoModels(numTries);
    } else if numTries > 0 {
      ScheduleShape(numTries, models);
      assert Slot(1, 0, models[0]) in slots;
      assert |Executed(agent, slots)| > 0;
    }
  }

  /** The loops stop at the first plausible trial: the results are those of the completed
      trials up to it (a raised one leaves no result), and it is the winner; without a
      plausible trial every trial runs and there is no winner. */
  lemma {:induction false} RunStopsAtFirstPlausible(ctx: Context, agent: Agent, slots: seq<Slot>)
    ensures Run(ctx, agent, slots).results == CompletedResults(ctx, agent, Executed(agent, slots))
    ensures Run(ctx, agent, slots).winner ==
      match FirstPlausible(agent, slots)
      case None => None
      case Some(j) => Some(ResultOf(ctx, slots[j], OutcomeAt(agent, slots[j])))
  {
    if slots != [] {
      var n := |slots|;
      var init, last := slots[..n - 1], slots[n - 1];
      assert slots == init + [last];
      RunStopsAtFirstPlausible(ctx, agent, init);
      if FirstPlausible(agent, init).Some? {
        ExtendAfterPlausible(agent, init, last);
      } else {
        ExtendNoPlausible(agent, init, last);
      }
    }
  }

  /** The loops have a winner exactly when some trial is plausible. */
  lemma WinnerIffPlausible(ctx: Context, agent: Agent, slots: seq<Slot>)
    ensures Run(ctx, agent, slots).winner.None? <==> FirstPlausible(agent, slots).None?
  {
    RunStopsAtFirstPlausible(ctx, agent, slots);
  }

  /** Once a winner is found, later trials change nothing. */
  lemma {:induction false} RunAfterWinner(ctx: Context, agent: Agent, done: seq<Slot>, slots: seq<Slot>)
    requires done <= slots
    requires Run(ctx, agent, done).winner.Some?
    ensures Run(ctx, agent, slots) == Run(ctx, agent, done)
    decreases |slots|
  {
    if slots != done {
      var init := slots[..|slots| - 1];
      assert done <= init;
      RunAfterWinner(ctx, agent, done, init);
    }
  }

  /** The results of trials taken in nondecreasing attempt order carry nondecreasing try
      numbers, within the same bounds. */
  lemma {:induction false} CompletedResultsTries(ctx: Context, agent: Agent, slots: seq<Slot>, lo: nat, hi: nat)
    requires forall s :: s in slots ==> lo <= s.attempt <= hi
    requires forall i, j :: 0 <= i < j < |slots| ==> slots[i].attempt <= slots[j].attempt
    ensures forall r :: r in CompletedResults(ctx, agent, slots) ==> lo <= r.tryNumber <= hi
    ensures forall i, j :: 0 <= i < j < |CompletedResults(ctx, agent, slots)| ==>
      CompletedResults(ctx, agent, slots)[i].tryNumber <= CompletedResults(ctx, agent, slots)[j].tryNumber
  {
    if slots != [] {
      var init, last := slots[..|slots| - 1], slots[|slots| - 1];
      assert last in slots;
      forall s | s in init ensures lo <= s.attempt <= last.attempt {
        var k :| 0 <= k < |init| && init[k] == s;
        assert slots[k] == s;
      }
      CompletedResultsTries(ctx, agent, init, lo, last.attempt);
    }
  }

  /** The specification of `process_one_instance`'s outcome. */
  function InstanceSpec(ctx: Context, numTries: nat, models: seq<string>, agent: Agent, pick: Picker): (status: InstanceStatus)
    ensures status == AttemptUnbound ==> numTries == 0
  {
    var progress := Run(ctx, agent, Schedule(numTries, models));
    var winner := if progress.winner.Some? then progress.winner else pick(progress.results);
    if winner.None? then NoWinner
    else if numTries == 0 then AttemptUnbound
    else
      var tries := if progress.winner.Some? then progress.winner.value.tryNumber else numTries;
      Written(Prediction(winner.value, tries, progress.results, TotalCost(progress.results)))
  }

  /** Early exit: when the `j`-th pair of the schedule is the first plausible trial, its
      result is the winner, `tries` is its attempt, `pick_winner` is not consulted, and the
      history holds the completed trials up to it and nothing after it. */
  lemma EarlyExit(ctx: Context, numTries: nat, models: seq<string>, agent: Agent, pick: Picker, j: nat)
    requires j < |Schedule(numTries, models)|
    requires Plausible(OutcomeAt(agent, Schedule(numTries, models)[j]))
    requires forall k :: 0 <= k < j ==> !Plausible(OutcomeAt(agent, Schedule(numTries, models)[k]))
    ensures var slots := Schedule(numTries, models);
      var history := CompletedResults(ctx, agent, slots[..j + 1]);
      InstanceSpec(ctx, numTries, models, agent, pick)
        == Written(Prediction(ResultOf(ctx, slots[j], OutcomeAt(agent, slots[j])), slots[j].attempt,
                              history, TotalCost(history)))
  {
    var slots := Schedule(numTries, models);
    FirstPlausibleIs(agent, slots, j);
    RunStopsAtFirstPlausible(ctx, agent, slots);
    ScheduleShape(numTries, models);
    assert slots[j] in slots;
  }

  /** Fallback: with no plausible trial, every trial runs, and the outcome is whatever
      `pick_winner` makes of the completed ones: nothing written when it picks nothing,
      otherwise its choice with `tries` equal to `numTries`. */
  lemma Fallback(ctx: Context, numTries: nat, models: seq<string>, agent: Agent, pick: Picker)
    requires forall s :: s in Schedule(numTries, models) ==> !Plausible(OutcomeAt(agent, s))
    ensures var history := CompletedResults(ctx, agent, Schedule(numTries, models));
      InstanceSpec(ctx, numTries, models, agent, pick) ==
        match pick(history)
        case None => NoWinner
        case Some(w) => if numTries == 0 then AttemptUnbound else Written(Prediction(w, numTries, history, TotalCost(history)))
  {
    var slots := Schedule(numTries, models);
    RunStopsAtFirstPlausible(ctx, agent, slots);
  }

  /** The history written with a prediction is in execution order: try numbers run from 1 to
      `numTries` and never decrease. */
  lemma HistoryOrdered(ctx: Context, numTries: nat, models: seq<string>, agent: Agent, pick: Picker)
    requires InstanceSpec(ctx, numTries, models, agent, pick).Written?
    ensures var history := InstanceSpec(ctx, numTries, models, agent, pick).prediction.allResults;
      (forall r :: r in history ==> 1 <= r.tryNumber <= numTries) &&
      (forall i, j :: 0 <= i < j < |history| ==> history[i].tryNumber <= history[j].tryNumber)
  {
    var slots := Schedule(numTries, models);
    var executed := Executed(agent, slots);
    var history := InstanceSpec(ctx, numTries, models, agent, pick).prediction.allResults;
    assert history == Run(ctx, agent, slots).results;
    RunStopsAtFirstPlausible(ctx, agent, slots);
    assert history == CompletedResults(ctx, agent, executed);
    ExecutedTries(ctx, numTries, models, agent);
    forall r | r in history ensures 1 <= r.tryNumber <= numTries {
      assert r in CompletedResults(ctx, agent, executed);
    }
    forall i, j | 0 <= i < j < |history| ensures history[i].tryNumber <= history[j].tryNumber {
      assert history[i] == CompletedResults(ctx, agent, executed)[i];
    }
  }

  /** The completed results of the trials that run carry try numbers within `1..numTries`,
      in nondecreasing order. */
  lemma ExecutedTries(ctx: Context, numTries: nat, models: seq<string>, agent: Agent)
    ensures var history := CompletedResults(ctx, agent, Executed(agent, Schedule(numTries, models)));
      (forall r :: r in history ==> 1 <= r.tryNumber <= numTries) &&
      (forall i, j :: 0 <= i < j < |history| ==> history[i].tryNumber <= history[j].tryNumber)
  {
    var slots := Schedule(numTries, models);
    var executed := Executed(agent, slots);
    ScheduleShape(numTries, models);
    assert executed <= slots;
    assert forall k :: 0 <= k < |executed| ==> executed[k] == slots[k];
    forall s | s in executed ensures 1 <= s.attempt <= numTries {
      var k :| 0 <= k < |executed| && executed[k] == s;
      assert slots[k] in slots;
    }
    forall i, j | 0 <= i < j < |executed| ensures executed[i].attempt <= executed[j].attempt {
      assert Before(slots[i], slots[j]);
    }
    CompletedResultsTries(ctx, agent, executed, 1, numTries);
  }

  /** The outcome record without its test outcome. */
  function WithoutTest(outcome: TrialOutcome): TrialOutcome {
    match outcome
    case Raised => Raised
    case Completed(cost, patch, lint, _, files) => Completed(cost, patch, lint, None, files)
  }

  /** The test outcome never gates: two agents that differ only in test outcomes run the
      same trials and stop at the same one. */
  lemma {:induction false} TestOutcomeIgnored(agent1: Agent, agent2: Agent, slots: seq<Slot>)
    requires forall a: nat, i: nat :: WithoutTest(agent1(a, i)) == WithoutTest(agent2(a, i))
    ensures FirstPlausible(agent1, slots) == FirstPlausible(agent2, slots)
    ensures Executed(agent1, slots) == Executed(agent2, slots)
  {
    if slots != [] {
      var s := slots[0];
      assert WithoutTest(OutcomeAt(agent1, s)) == WithoutTest(OutcomeAt(agent2, s));
      assert Plausible(OutcomeAt(agent1, s)) == Plausible(OutcomeAt(agent2, s));
      TestOutcomeIgnored(agent1, agent2, slots[1..]);
    }
  }

  /** Two models, the first completing without passing lint on every attempt and the second
      passing on attempt 1: whatever the number of tries, the winner is the second model on
      attempt 1, after exactly two trials (the first model, then the second, of attempt 1)
      whose costs make up the total, and no later attempt runs. */
  lemma SecondModelWinsFirstAttempt(ctx: Context, numTries: nat, models: seq<string>, agent: Agent, pick: Picker)
    requires numTries >= 1 && |models| == 2
    requires forall a: nat :: agent(a, 0).Completed? && !Plausible(agent(a, 0))
    requires Plausible(agent(1, 1))
    ensures var status := InstanceSpec(ctx, numTries, models, agent, pick);
      status.Written? && status.prediction.winner.model == models[1] && status.prediction.tries == 1
      && |status.prediction.allResults| == 2 && status.prediction.allResults[0].model == models[0]
      && status.prediction.cost == agent(1, 0).cost + agent(1, 1).cost
  {
    var slots := Schedule(numTries, models);
    var s0, s1 := Slot(1, 0, models[0]), Slot(1, 1, models[1]);
    assert slots[..2] == [s0, s1] by {
      SchedulePrefix(1, numTries, models);
      assert Schedule(0, models) == [];
      assert Schedule(1, models) == Row(1, models, 2);
      RowShape(1, models, 2);
    }
    assert slots[0] == s0 && slots[1] == s1;
    assert !Plausible(OutcomeAt(agent, s0));
    EarlyExit(ctx, numTries, models, agent, pick, 1);
    TwoCompleted(ctx, agent, s0, s1);
  }

  /** One more trial adds its result to the history exactly when it completes. */
  lemma CompletedResultsSnoc(ctx: Context, agent: Agent, slots: seq<Slot>, s: Slot)
    ensures CompletedResults(ctx, agent, slots + [s]) == CompletedResults(ctx, agent, slots)
      + (if OutcomeAt(agent, s).Completed? then [ResultOf(ctx, s, OutcomeAt(agent, s))] else [])
  {
    assert (slots + [s])[..|slots|] == slots;
  }

  /** One more result adds its cost to the total. */
  lemma TotalCostSnoc(results: seq<TrialResult>, r: TrialResult)
    ensures TotalCost(results + [r]) == TotalCost(results) + r.cost
  {
    assert (results + [r])[..|results|] == results;
  }

  /** The history of two completed trials is their two results, costing their sum. */
  lemma TwoCompleted(ctx: Context, agent: Agent, s0: Slot, s1: Slot)
    requires OutcomeAt(agent, s0).Completed? && OutcomeAt(agent, s1).Completed?
    ensures var history := CompletedResults(ctx, agent, [s0, s1]);
      history == [ResultOf(ctx, s0, OutcomeAt(agent, s0)), ResultOf(ctx, s1, OutcomeAt(agent, s1))]
      && TotalCost(history) == OutcomeAt(agent, s0).cost + OutcomeAt(agent, s1).cost
  {
    var r0, r1 := ResultOf(ctx, s0, OutcomeAt(agent, s0)), ResultOf(ctx, s1, OutcomeAt(agent, s1));
    CompletedResultsSnoc(ctx, agent, [], s0);
    assert [] + [s0] == [s0];
    CompletedResultsSnoc(ctx, agent, [s0], s1);
    assert [s0] + [s1] == [s0, s1];
    TotalCostSnoc([], r0);
    assert [] + [r0] == [r0];
    TotalCostSnoc([r0], r1);
    assert [r0] + [r1] == [r0, r1];
  }
}
