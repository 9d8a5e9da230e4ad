/** From an empty session, reading a Done dependency and remembering it in one locked step would
    be enough to keep every command from running twice. */
module SchedulerAtomicRemember {
  import opened Domain
  import opened CommandStatus
  import opened Scheduler
  import opened SchedulerInvariant
  import opened SchedulerSingleRun
  import opened SchedulerOrder

  /** Every remembering step directly follows the read it acts on. */
  ghost predicate Atomic(steps: seq<Step>) {
    forall i :: 0 <= i < |steps| && steps[i].RememberDone? ==> i > 0 && steps[i - 1] == DecideRemember(steps[i].cmd)
  }

  /** A command that is about to run, runs, or restarts is not persisted as finished. */
  ghost predicate Unfinished(table: Table, queue: map<string, Item>, statuses: map<string, ProcedureStatuses>,
                             runs: map<nat, Run>)
    requires ValidTable(table)
  {
    && (forall c :: c in queue && c in table && queue[c].runRequested ==>
          !queue[c].err && !queue[c].rememberDone && !LastDone(table, statuses, c))
    && (forall c :: c in table && table[c].run == Restart ==>
          !LastDone(table, statuses, c) && (c in queue ==> !queue[c].rememberDone))
    && (forall rid :: rid in runs && runs[rid].cmd in table ==> !LastDone(table, statuses, runs[rid].cmd))
  }

  /** What a pass may still launch has its run requested. */
  ghost predicate PassRequested(table: Table, pass: Pass, queue: map<string, Item>) {
    pass.Active? ==>
      && (forall c :: c in pass.pending && c in table && Eligible(table[c], pass.pending[c]) ==>
          c in queue && queue[c].runRequested)
      && (pass.visit.Checking? ==> pass.visit.cmd in queue && queue[pass.visit.cmd].runRequested)
  }

  ghost predicate Clean(table: Table, s: State)
    requires ValidTable(table)
  {
    Unfinished(table, s.queue, s.statuses, s.runs) && PassRequested(table, s.pass, s.queue)
  }

  lemma SetCommandLast(table: Table, statuses: map<string, ProcedureStatuses>, c: string, status: Status)
    requires ValidTable(table) && c in table
    ensures forall d :: d in table && d != c ==>
              (LastDone(table, SetCommand(table, statuses, c, status), d) <==> LastDone(table, statuses, d))
    ensures LastDone(table, SetCommand(table, statuses, c, status), c) <==> status == Done
  {
    assert table[c].procedures[|table[c].procedures| - 1].name in AllProcedures(table[c], status);
  }

  lemma DerivedDoneLast(table: Table, statuses: map<string, ProcedureStatuses>, c: string)
    requires ValidTable(table) && c in table
    ensures DerivedStatus(table, statuses, c) == Some(Done) ==> LastDone(table, statuses, c)
  {
  }

  lemma {:induction false} AddKeepsClean(table: Table, s: State, c: string, force: bool, waited: bool, s': State)
    requires ValidTable(table) && Clean(table, s) && s' == AddItem(table, s, c, force, waited)
    requires forall rid :: rid in s.runs && s.runs[rid].cmd == c ==> AddOutcome(table, s, c, force) != Queued
    ensures Clean(table, s')
  {
    if c in table {
      SetCommandLast(table, s.statuses, c, Waiting);
    }
  }

  lemma EligibleIsRequested(table: Table, s: State, c: string)
    requires Valid(table, s) && Unfinished(table, s.queue, s.statuses, s.runs)
    requires c in s.queue && Eligible(table[c], Snapshot(table, s)[c])
    ensures s.queue[c].runRequested
  {
    DerivedDoneLast(table, s.statuses, c);
  }

  lemma PassStepKeepsClean(table: Table, s: State, step: Step, s': State)
    requires Valid(table, s) && Clean(table, s) && Enabled(table, s, step) && s' == Apply(table, s, step)
    requires step.BeginPass? || step.VisitCommand? || step.EndPass?
    ensures Clean(table, s')
  {
    if step.BeginPass? {
      forall c | c in s.queue && Eligible(table[c], Snapshot(table, s)[c])
        ensures s.queue[c].runRequested
      {
        EligibleIsRequested(table, s, c);
      }
    }
  }

  lemma LaunchKeepsUnfinished(table: Table, queue: map<string, Item>, statuses: map<string, ProcedureStatuses>,
                              runs: map<nat, Run>, c: string, rid: nat, r: Run)
    requires ValidTable(table) && Unfinished(table, queue, statuses, runs)
    requires c in table && c in queue && queue[c].runRequested && r.cmd == c
    ensures Unfinished(table, queue[c := WithStatus(queue[c], Running)], statuses, runs[rid := r])
  {
  }

  lemma LaunchKeepsClean(table: Table, s: State, start: nat, s': State)
    requires SingleInvariant(table, s) && Clean(table, s) && Checked(table, s) && s' == LaunchChecked(table, s, start)
    ensures Clean(table, s')
  {
    var c := s.pass.visit.cmd;
    LaunchKeepsUnfinished(table, s.queue, s.statuses, s.runs, c, s.nextRun,
                          Run(c, s.queue[c].id, s.queue[c].waited, start));
    if s.pass.visit.ready {
      LaunchedWasNotPending(table, s.pass, s.queue, s'.queue, c);
    }
  }

  lemma LaunchedWasNotPending(table: Table, pass: Pass, queue: map<string, Item>, queue': map<string, Item>, c: string)
    requires PassRequested(table, pass, queue) && pass.Active? && c !in pass.pending
    requires c in queue && queue' == queue[c := WithStatus(queue[c], Running)]
    ensures PassRequested(table, pass.(visit := Between), queue')
  {
  }

  lemma ProcedureUnfinished(table: Table, statuses: map<string, ProcedureStatuses>, c: string, i: nat, status: Status)
    requires ValidTable(table) && c in table && i < |table[c].procedures|
    requires !(status == Done && i == |table[c].procedures| - 1)
    ensures forall d :: d in table && LastDone(table, SetProcedure(statuses, c, table[c].procedures[i].name, status), d)
                        ==> LastDone(table, statuses, d)
  {
  }

  lemma ObserveKeepsClean(table: Table, s: State, step: Step, s': State)
    requires Valid(table, s) && Clean(table, s)
    requires Enabled(table, s, step) && (step.ObserveRunning? || step.ObserveDone?) && s' == Apply(table, s, step)
    ensures Clean(table, s')
  {
    var r := s.runs[step.run];
    ProcedureUnfinished(table, s.statuses, r.cmd, r.pos, Running);
    if step.ObserveDone? {
      ProcedureUnfinished(table, s.statuses, r.cmd, r.pos, Done);
    }
  }

  lemma EndKeepsOthers(table: Table, s: State, rid: nat, outcome: Outcome)
    requires Valid(table, s) && rid in s.runs
    ensures forall d :: d in table && d != s.runs[rid].cmd ==>
              (LastDone(table, EndRun(table, s, rid, outcome).statuses, d) <==> LastDone(table, s.statuses, d))
  {
    SetCommandLast(table, s.statuses, s.runs[rid].cmd, Error);
  }

  lemma SettleItem(table: Table, s: State, c: string, outcome: Outcome, s': State)
    requires c in table && c in s.queue && s' == Settle(table, s, c, outcome)
    ensures s'.runs == s.runs && s'.pass == s.pass && c in s'.queue && s'.queue == s.queue[c := s'.queue[c]]
    ensures table[c].run == Restart && s'.queue[c].rememberDone ==> s.queue[c].rememberDone
    ensures !s.queue[c].runRequested && s'.queue[c].runRequested ==>
              table[c].run == Restart && !s'.queue[c].err && !s'.queue[c].rememberDone
  {
  }

  lemma SettleStatuses(table: Table, s: State, c: string, outcome: Outcome, s': State)
    requires ValidTable(table) && c in table && c in s.queue && s' == Settle(table, s, c, outcome)
    ensures forall d :: d in table && d != c ==> (LastDone(table, s'.statuses, d) <==> LastDone(table, s.statuses, d))
    ensures table[c].run == Restart ==> !LastDone(table, s'.statuses, c)
  {
    if outcome == FailedForGood || (outcome == Failed && table[c].run != Restart) {
      SetCommandLast(table, s.statuses, c, Error);
    } else if table[c].run != Persistent {
      SetCommandLast(table, s.statuses, c, if table[c].run == Restart then Waiting else Done);
    }
  }

  lemma {:induction false} FinishKeepsClean(table: Table, s: State, rid: nat, outcome: Outcome, s': State)
    requires SingleInvariant(table, s) && Clean(table, s) && rid in s.runs && s' == FinishRun(table, s, rid, outcome)
    ensures Clean(table, s')
  {
    var c := s.runs[rid].cmd;
    var ended := EndRun(table, s, rid, outcome);
    SettleItem(table, ended, c, outcome, s');
    SettleStatuses(table, ended, c, outcome, s');
    EndKeepsOthers(table, s, rid, outcome);
    assert !s.queue[c].runRequested && InProgress(s.runs, c);
    FinishedUnfinished(table, s, rid, s');
  }

  lemma FinishedUnfinished(table: Table, s: State, rid: nat, s': State)
    requires SingleInvariant(table, s) && Clean(table, s) && rid in s.runs
    requires var c := s.runs[rid].cmd;
      && s'.runs == s.runs - {rid} && s'.pass == s.pass && c in s'.queue && s'.queue == s.queue[c := s'.queue[c]]
      && (forall d :: d in table && d != c ==> (LastDone(table, s'.statuses, d) <==> LastDone(table, s.statuses, d)))
      && (table[c].run == Restart ==> !LastDone(table, s'.statuses, c) && !s'.queue[c].rememberDone)
      && (s'.queue[c].runRequested ==> table[c].run == Restart && !s'.queue[c].err && !s'.queue[c].rememberDone)
    ensures Clean(table, s')
  {
    var c := s.runs[rid].cmd;
    assert InProgress(s.runs, c);
    forall q | q in s'.runs ensures !LastDone(table, s'.statuses, s'.runs[q].cmd) {
      assert s'.runs[q].cmd != c;
    }
  }

  lemma StopKeepsClean(table: Table, s: State, stopped: bool, s': State)
    requires Valid(table, s) && Clean(table, s) && Enabled(table, s, StopRuntime(stopped))
             && s' == Apply(table, s, StopRuntime(stopped))
    ensures Clean(table, s')
  {
    assert forall c :: c in table && LastDone(table, s'.statuses, c) ==> LastDone(table, s.statuses, c);
  }

  lemma {:induction false} StepKeepsClean(table: Table, s: State, step: Step, s': State)
    requires SingleInvariant(table, s) && Clean(table, s)
    requires Enabled(table, s, step) && !step.RememberDone? && s' == Apply(table, s, step)
    ensures Clean(table, s')
  {
    match step
    case Add(c, force, waited) => RunningRefusesAdds(table, s, c, force); AddKeepsClean(table, s, c, force, waited, s');
    case DecideRemember(c) =>
    case BeginPass => PassStepKeepsClean(table, s, step, s');
    case VisitCommand(c) => PassStepKeepsClean(table, s, step, s');
    case Advance => AdvanceKeepsClean(table, s, s');
    case Launch(start) => LaunchKeepsClean(table, s, start, s');
    case EndPass => PassStepKeepsClean(table, s, step, s');
    case ObserveRunning(rid) => ObserveKeepsClean(table, s, step, s');
    case ObserveDone(rid) => ObserveKeepsClean(table, s, step, s');
    case Finish(rid, outcome) => FinishKeepsClean(table, s, rid, outcome, s');
    case StopRuntime(stopped) => StopKeepsClean(table, s, stopped, s');
  }

  lemma RunningRefusesAdds(table: Table, s: State, c: string, force: bool)
    requires SingleInvariant(table, s)
    ensures InProgress(s.runs, c) ==> AddOutcome(table, s, c, force) != Queued
  {
    if InProgress(s.runs, c) {
      RunningItemStatus(table, s, c);
    }
  }

  lemma {:induction false} AdvanceKeepsClean(table: Table, s: State, s': State)
    requires SingleInvariant(table, s) && Clean(table, s) && AtDependency(table, s) && s' == AdvanceCheck(table, s)
    ensures Clean(table, s')
  {
    if s.pass.visit.phase == Missing {
      var dep := table[s.pass.visit.cmd].needs[s.pass.visit.idx];
      RunningRefusesAdds(table, s, dep, false);
      AddKeepsClean(table, s, dep, false, false, AddItem(table, s, dep, false, false));
    } else {
      CheckShape(table, s, s');
      assert s'.statuses == s.statuses;
    }
  }

  /** Remembering right after the read never hits a running command. */
  lemma DoneIsNotRunning(table: Table, s: State, c: string)
    requires SingleInvariant(table, s) && Clean(table, s) && DerivedStatus(table, s.statuses, c) == Some(Done)
    ensures LastDone(table, s.statuses, c) && !InProgress(s.runs, c)
  {
    DerivedDoneLast(table, s.statuses, c);
  }

  lemma RememberKeepsClean(table: Table, s: State, c: string, s': State)
    requires ValidTable(table) && Clean(table, s) && c in table && LastDone(table, s.statuses, c)
             && s' == Remember(s, c)
    ensures Clean(table, s')
  {
  }

  lemma {:induction false} AtomicRunIsSafe(table: Table, s: State, steps: seq<Step>)
    requires SingleInvariant(table, s) && Clean(table, s) && CanRun(table, s, steps) && Atomic(steps)
    ensures SafeRun(table, s, steps)
    decreases |steps|
  {
    if steps == [] {
    } else if |steps| >= 2 && steps[1].RememberDone? {
      assert steps[1..][0] == steps[1] && steps[1..][1..] == steps[2..];
      var c := steps[1].cmd;
      var s1 := s.(deciding := s.deciding + {c});
      var s2 := Remember(s1, c);
      DoneIsNotRunning(table, s, c);
      RememberKeepsClean(table, s, c, Remember(s, c));
      StepKeepsSingle(table, s, steps[0]);
      StepKeepsSingle(table, s1, steps[1]);
      AtomicRunIsSafe(table, s2, steps[2..]);
    } else {
      StepKeepsSingle(table, s, steps[0]);
      StepKeepsClean(table, s, steps[0], Apply(table, s, steps[0]));
      AtomicRunIsSafe(table, Apply(table, s, steps[0]), steps[1..]);
    }
  }

  /** With an atomic read-and-remember, no interleaving from an empty session runs a command twice. */
  lemma SingleRunWhenAtomic(table: Table, steps: seq<Step>)
    requires ValidTable(table) && CanRun(table, INIT, steps) && Atomic(steps)
    ensures AtMostOneRun(After(table, INIT, steps).runs)
  {
    AtomicRunIsSafe(table, INIT, steps);
    SingleRun(table, INIT, steps);
  }
}
