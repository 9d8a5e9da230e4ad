/** At most one backend run of a command is in progress, exactly as long as no command is
    remembered as done while it is running. */
module SchedulerSingleRun {
  import opened Domain
  import opened Scheduler
  import opened SchedulerInvariant

  ghost predicate InProgress(runs: map<nat, Run>, c: string) {
    exists rid :: rid in runs && runs[rid].cmd == c
  }

  ghost predicate AtMostOneRun(runs: map<nat, Run>) {
    forall r, q :: r in runs && q in runs && runs[r].cmd == runs[q].cmd ==> r == q
  }

  /** The guard a caller of `RememberDoneItem` would have to check. */
  ghost predicate SafeStep(s: State, step: Step) {
    step.RememberDone? ==> !InProgress(s.runs, step.cmd)
  }

  /** Every step of the run is safe in the state it is taken in. */
  ghost predicate SafeRun(table: Table, s: State, steps: seq<Step>)
    requires CanRun(table, s, steps)
    decreases |steps|
  {
    steps == [] || (SafeStep(s, steps[0]) && SafeRun(table, Apply(table, s, steps[0]), steps[1..]))
  }

  /** A run in progress belongs to the live item of its command, which is in flight; apart from
      persistent commands, only running commands are in flight. */
  ghost predicate RunsOwnItems(table: Table, queue: map<string, Item>, runs: map<nat, Run>) {
    && AtMostOneRun(runs)
    && (forall r :: r in runs ==>
        runs[r].cmd in queue && queue[runs[r].cmd].id == runs[r].item && queue[runs[r].cmd].inFlight)
    && (forall c :: c in queue && queue[c].inFlight && c in table && table[c].run != Persistent ==> InProgress(runs, c))
  }

  /** What a pass may still launch is not running. */
  ghost predicate PassSparesRuns(table: Table, pass: Pass, runs: map<nat, Run>) {
    pass.Active? ==>
      && (forall c :: c in pass.pending && c in table && Eligible(table[c], pass.pending[c]) ==> !InProgress(runs, c))
      && (pass.visit.Checking? ==> !InProgress(runs, pass.visit.cmd))
  }

  ghost predicate SingleInvariant(table: Table, s: State) {
    Valid(table, s) && RunsOwnItems(table, s.queue, s.runs) && PassSparesRuns(table, s.pass, s.runs)
  }

  /** Nothing runs and no pass is active: where a session starts, whatever was hydrated. */
  ghost predicate Quiet(table: Table, s: State) {
    Valid(table, s) && s.runs == map[] && s.pass.Idle?
    && forall c :: c in s.queue && s.queue[c].inFlight && c in table ==> table[c].run == Persistent
  }

  lemma RunningItemStatus(table: Table, s: State, c: string)
    requires SingleInvariant(table, s) && InProgress(s.runs, c)
    ensures c in s.queue && ItemStatus(table, s, c) == Some(Running) && !s.queue[c].runRequested
  {
  }

  lemma {:induction false} BeginKeepsSingle(table: Table, s: State)
    requires SingleInvariant(table, s) && s.pass.Idle?
    ensures SingleInvariant(table, s.(pass := Pass.Active(Snapshot(table, s), Between)))
  {
    forall c | c in s.queue && InProgress(s.runs, c)
      ensures Snapshot(table, s)[c] == Snap(Running, false)
    {
      RunningItemStatus(table, s, c);
    }
  }

  lemma {:induction false} AddKeepsSingle(table: Table, s: State, c: string, force: bool, waited: bool)
    requires SingleInvariant(table, s)
    ensures SingleInvariant(table, AddItem(table, s, c, force, waited))
  {
    AddKeepsValid(table, s, c, force, waited);
    AddShape(table, s, c, force, waited, AddItem(table, s, c, force, waited));
    if InProgress(s.runs, c) {
      RunningItemStatus(table, s, c);
    }
  }

  lemma MoveOnKeepsSingle(table: Table, s: State, s': State)
    requires SingleInvariant(table, s) && AtDependency(table, s) && Valid(table, s')
    requires s'.pass.Active? && s'.pass.visit.Checking?
    requires s'.pass.pending == s.pass.pending && s'.pass.visit.cmd == s.pass.visit.cmd
    requires s'.queue == s.queue && s'.runs == s.runs
    ensures SingleInvariant(table, s')
  {
  }

  lemma {:induction false} QueueDependencyKeepsSingle(table: Table, s: State, dep: string)
    requires SingleInvariant(table, s) && AtDependency(table, s)
    ensures SingleInvariant(table, NextDep(AddItem(table, s, dep, false, false), false))
  {
    var s' := AddItem(table, s, dep, false, false);
    AddKeepsValid(table, s, dep, false, false);
    AddKeepsSingle(table, s, dep, false, false);
    MoveOnKeepsSingle(table, s', NextDep(s', false));
  }

  lemma CheckShape(table: Table, s: State, s': State)
    requires Valid(table, s) && AtDependency(table, s) && s.pass.visit.phase != Missing && s' == AdvanceCheck(table, s)
    ensures s'.pass.Active? && s'.pass.visit.Checking?
    ensures s'.pass.pending == s.pass.pending && s'.pass.visit.cmd == s.pass.visit.cmd
    ensures s'.queue == s.queue && s'.runs == s.runs
    ensures Valid(table, s')
  {
    AdvanceKeepsValid(table, s);
  }

  lemma {:induction false} AdvanceKeepsSingle(table: Table, s: State, s': State)
    requires SingleInvariant(table, s) && AtDependency(table, s) && s' == AdvanceCheck(table, s)
    ensures SingleInvariant(table, s')
  {
    if s.pass.visit.phase == Missing {
      QueueDependencyKeepsSingle(table, s, table[s.pass.visit.cmd].needs[s.pass.visit.idx]);
    } else {
      CheckShape(table, s, s');
      MoveOnKeepsSingle(table, s, s');
    }
  }

  lemma LaunchKeepsOwned(table: Table, queue: map<string, Item>, runs: map<nat, Run>, c: string, rid: nat, r: Run)
    requires RunsOwnItems(table, queue, runs) && !InProgress(runs, c) && rid !in runs
    requires c in queue && r.cmd == c && r.item == queue[c].id
    ensures RunsOwnItems(table, queue[c := WithStatus(queue[c], Running)], runs[rid := r])
  {
    var runs' := runs[rid := r];
    forall d | InProgress(runs, d) ensures InProgress(runs', d) {
      var q :| q in runs && runs[q].cmd == d;
      assert q in runs' && runs'[q].cmd == d;
    }
    assert rid in runs' && runs'[rid].cmd == c;
  }

  lemma LaunchKeepsSingle(table: Table, s: State, start: nat)
    requires SingleInvariant(table, s) && Checked(table, s) && start < |table[s.pass.visit.cmd].procedures|
    ensures SingleInvariant(table, LaunchChecked(table, s, start))
  {
    LaunchKeepsValid(table, s, start);
    var c := s.pass.visit.cmd;
    LaunchKeepsOwned(table, s.queue, s.runs, c, s.nextRun, Run(c, s.queue[c].id, s.queue[c].waited, start));
  }

  lemma RemoveRun(runs: map<nat, Run>, rid: nat)
    requires rid in runs
    ensures forall c :: InProgress(runs - {rid}, c) ==> InProgress(runs, c)
    ensures forall c :: InProgress(runs, c) && c != runs[rid].cmd ==> InProgress(runs - {rid}, c)
    ensures AtMostOneRun(runs) ==> !InProgress(runs - {rid}, runs[rid].cmd)
  {
    forall c | InProgress(runs, c) && c != runs[rid].cmd ensures InProgress(runs - {rid}, c) {
      var q :| q in runs && runs[q].cmd == c;
      assert q in runs - {rid};
    }
  }

  lemma FinishKeepsOwned(table: Table, queue: map<string, Item>, runs: map<nat, Run>, rid: nat, item: Item)
    requires RunsOwnItems(table, queue, runs) && rid in runs && runs[rid].cmd in table
    requires item.inFlight ==> table[runs[rid].cmd].run == Persistent
    ensures RunsOwnItems(table, queue[runs[rid].cmd := item], runs - {rid})
  {
    RemoveRun(runs, rid);
  }

  lemma FinishItem(table: Table, s: State, rid: nat, outcome: Outcome, s': State)
    requires Valid(table, s) && rid in s.runs && s.runs[rid].cmd in s.queue && s' == FinishRun(table, s, rid, outcome)
    ensures s'.runs == s.runs - {rid} && s'.pass == s.pass
    ensures s.runs[rid].cmd in s'.queue
    ensures s'.queue == s.queue[s.runs[rid].cmd := s'.queue[s.runs[rid].cmd]]
    ensures s'.queue[s.runs[rid].cmd].inFlight ==> table[s.runs[rid].cmd].run == Persistent
  {
  }

  lemma {:induction false} FinishKeepsSingle(table: Table, s: State, rid: nat, outcome: Outcome)
    requires SingleInvariant(table, s) && rid in s.runs
    ensures SingleInvariant(table, FinishRun(table, s, rid, outcome))
  {
    FinishKeepsValid(table, s, rid, outcome);
    var s' := FinishRun(table, s, rid, outcome);
    FinishItem(table, s, rid, outcome, s');
    FinishKeepsOwned(table, s.queue, s.runs, rid, s'.queue[s.runs[rid].cmd]);
    RemoveRun(s.runs, rid);
  }

  lemma {:induction false} ObserveShape(table: Table, s: State, step: Step, s': State)
    requires Enabled(table, s, step) && (step.ObserveRunning? || step.ObserveDone?) && s' == Apply(table, s, step)
    ensures s'.queue == s.queue && s'.pass == s.pass && s'.runs.Keys == s.runs.Keys
    ensures forall rid :: rid in s.runs ==> s'.runs[rid].cmd == s.runs[rid].cmd && s'.runs[rid].item == s.runs[rid].item
  {
  }

  lemma {:induction false} SameRunsInProgress(runs: map<nat, Run>, runs': map<nat, Run>, c: string)
    requires runs'.Keys == runs.Keys && forall rid :: rid in runs ==> runs'[rid].cmd == runs[rid].cmd
    ensures InProgress(runs', c) <==> InProgress(runs, c)
  {
    if InProgress(runs, c) {
      var q :| q in runs && runs[q].cmd == c;
      assert q in runs' && runs'[q].cmd == c;
    }
  }

  lemma {:induction false} ObserveKeepsSingle(table: Table, s: State, step: Step, s': State)
    requires SingleInvariant(table, s) && Enabled(table, s, step) && (step.ObserveRunning? || step.ObserveDone?)
    requires s' == Apply(table, s, step)
    ensures SingleInvariant(table, s')
  {
    ObserveKeepsValid(table, s, step);
    ObserveShape(table, s, step, s');
    forall c ensures InProgress(s'.runs, c) <==> InProgress(s.runs, c) {
      SameRunsInProgress(s.runs, s'.runs, c);
    }
  }

  lemma RememberKeepsSingle(table: Table, s: State, c: string)
    requires SingleInvariant(table, s) && c in s.deciding && !InProgress(s.runs, c)
    ensures SingleInvariant(table, Remember(s, c))
  {
    RememberKeepsValid(table, s, c);
  }

  lemma PassStepKeepsSingle(table: Table, s: State, step: Step)
    requires SingleInvariant(table, s) && Enabled(table, s, step)
    requires step.BeginPass? || step.VisitCommand? || step.EndPass?
    ensures SingleInvariant(table, Apply(table, s, step))
  {
    if step.VisitCommand? {
      VisitKeepsValid(table, s, step.cmd);
    } else if step.BeginPass? {
      BeginKeepsSingle(table, s);
    }
  }

  lemma {:induction false} StepKeepsSingle(table: Table, s: State, step: Step)
    requires SingleInvariant(table, s) && Enabled(table, s, step) && SafeStep(s, step)
    ensures SingleInvariant(table, Apply(table, s, step))
  {
    match step
    case Add(c, force, waited) => AddKeepsSingle(table, s, c, force, waited);
    case DecideRemember(c) =>
    case RememberDone(c) => RememberKeepsSingle(table, s, c);
    case BeginPass => PassStepKeepsSingle(table, s, step);
    case VisitCommand(c) => PassStepKeepsSingle(table, s, step);
    case Advance => AdvanceKeepsSingle(table, s, AdvanceCheck(table, s));
    case Launch(start) => LaunchKeepsSingle(table, s, start);
    case EndPass => PassStepKeepsSingle(table, s, step);
    case ObserveRunning(rid) => ObserveKeepsSingle(table, s, step, Apply(table, s, step));
    case ObserveDone(rid) => ObserveKeepsSingle(table, s, step, Apply(table, s, step));
    case Finish(rid, outcome) => FinishKeepsSingle(table, s, rid, outcome);
    case StopRuntime(stopped) =>
  }

  lemma {:induction false} RunKeepsSingle(table: Table, s: State, steps: seq<Step>)
    requires SingleInvariant(table, s) && CanRun(table, s, steps) && SafeRun(table, s, steps)
    ensures SingleInvariant(table, After(table, s, steps))
    decreases |steps|
  {
    if steps != [] {
      StepKeepsSingle(table, s, steps[0]);
      RunKeepsSingle(table, Apply(table, s, steps[0]), steps[1..]);
    }
  }

  /** Interleavings without any remembering meet the guard. */
  lemma {:induction false} SafeWithoutRemembering(table: Table, s: State, steps: seq<Step>)
    requires CanRun(table, s, steps) && forall i :: 0 <= i < |steps| ==> !steps[i].RememberDone?
    ensures SafeRun(table, s, steps)
    decreases |steps|
  {
    if steps != [] {
      SafeWithoutRemembering(table, Apply(table, s, steps[0]), steps[1..]);
    }
  }

  /** Over every interleaving of adds, passes, finishes and stops, from any hydrated session: if
      no command is remembered as done while it runs, no command ever runs twice at once. */
  lemma SingleRun(table: Table, s: State, steps: seq<Step>)
    requires Quiet(table, s) && CanRun(table, s, steps) && SafeRun(table, s, steps)
    ensures AtMostOneRun(After(table, s, steps).runs)
  {
    RunKeepsSingle(table, s, steps);
  }
}
