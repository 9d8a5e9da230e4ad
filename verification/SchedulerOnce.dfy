/** A command that runs once stays done: after a success nothing but a forced add launches it
    again, not even across stops of the runtime. */
module SchedulerOnce {
  import opened Domain
  import opened CommandStatus
  import opened Scheduler
  import opened SchedulerInvariant
  import opened SchedulerSingleRun
  import opened SchedulerDrive

  /** `c` runs once, has succeeded, and nothing is left that could launch it. */
  ghost predicate SettledOnce(table: Table, s: State, c: string) {
    && c in table && table[c].run == RunMode.Once
    && !InProgress(s.runs, c)
    && DerivedStatus(table, s.statuses, c) == Some(Done)
    && (c in s.queue ==> s.queue[c].rememberDone && !s.queue[c].inFlight && !s.queue[c].err && !s.queue[c].runRequested)
    && (s.pass.Active? ==>
          && (c in s.pass.pending ==> !Eligible(table[c], s.pass.pending[c]))
          && (s.pass.visit.Checking? ==> s.pass.visit.cmd != c))
  }

  /** No event of `h` from position `n` on is a launch of `c`. */
  ghost predicate NoLaunchSince(h: seq<Event>, n: nat, c: string) {
    forall k :: n <= k < |h| ==> !(h[k].Launched? && h[k].cmd == c)
  }

  lemma AddKeepsSettled(table: Table, s: State, c: string, d: string, force: bool, waited: bool, s': State)
    requires Valid(table, s) && SettledOnce(table, s, c) && (d == c ==> !force)
             && s' == AddItem(table, s, d, force, waited)
    ensures SettledOnce(table, s', c) && s'.history == s.history
  {
    assert ItemStatus(table, s, c) == Some(Done);
  }

  lemma {:induction false} AdvanceKeepsSettled(table: Table, s: State, c: string, s': State)
    requires Valid(table, s) && SettledOnce(table, s, c) && AtDependency(table, s) && s' == AdvanceCheck(table, s)
    ensures SettledOnce(table, s', c) && s'.history == s.history
  {
    if s.pass.visit.phase == Missing {
      var dep := table[s.pass.visit.cmd].needs[s.pass.visit.idx];
      AddKeepsSettled(table, s, c, dep, false, false, AddItem(table, s, dep, false, false));
    } else {
      CheckShape(table, s, s');
      assert s'.statuses == s.statuses && s'.history == s.history;
    }
  }

  lemma ObserveKeepsSettled(table: Table, s: State, c: string, step: Step, s': State)
    requires Valid(table, s) && SettledOnce(table, s, c) && Enabled(table, s, step) && s' == Apply(table, s, step)
    requires step.ObserveRunning? || step.ObserveDone?
    ensures SettledOnce(table, s', c) && s'.history == s.history
  {
    assert s.runs[step.run].cmd != c;
    assert forall q :: q in s'.runs ==> q in s.runs && s'.runs[q].cmd == s.runs[q].cmd;
  }

  /** The end of a run of another command leaves `c` alone. */
  lemma EndElsewhere(table: Table, s: State, rid: nat, outcome: Outcome, s': State, c: string)
    requires rid in s.runs && ValidRun(table, s.runs[rid]) && s.runs[rid].cmd != c
             && s' == EndRun(table, s, rid, outcome)
    ensures StatusesOf(s'.statuses, c) == StatusesOf(s.statuses, c)
    ensures s'.queue == s.queue && s'.pass == s.pass && s'.runs == s.runs - {rid}
    ensures s.history <= s'.history && NoLaunchSince(s'.history, |s.history|, c)
  {
  }

  lemma SettleElsewhere(table: Table, s: State, d: string, outcome: Outcome, s': State, c: string)
    requires d in table && d != c && s' == Settle(table, s, d, outcome)
    ensures StatusesOf(s'.statuses, c) == StatusesOf(s.statuses, c)
    ensures (c in s'.queue <==> c in s.queue) && (c in s.queue ==> s'.queue[c] == s.queue[c])
    ensures s'.pass == s.pass && s'.runs == s.runs && s'.history == s.history
  {
  }

  lemma FinishKeepsSettled(table: Table, s: State, c: string, rid: nat, outcome: Outcome, s': State)
    requires Valid(table, s) && SettledOnce(table, s, c) && rid in s.runs && s' == FinishRun(table, s, rid, outcome)
    ensures SettledOnce(table, s', c) && NoLaunchSince(s'.history, |s.history|, c) && s.history <= s'.history
  {
    assert s.runs[rid].cmd != c;
    var ended := EndRun(table, s, rid, outcome);
    EndElsewhere(table, s, rid, outcome, ended, c);
    SettleElsewhere(table, ended, s.runs[rid].cmd, outcome, s', c);
  }

  lemma LaunchKeepsSettled(table: Table, s: State, c: string, start: nat, s': State)
    requires Valid(table, s) && SettledOnce(table, s, c) && Checked(table, s) && s' == LaunchChecked(table, s, start)
    ensures SettledOnce(table, s', c) && NoLaunchSince(s'.history, |s.history|, c) && s.history <= s'.history
  {
  }

  lemma {:induction false} StopKeepsSettled(table: Table, s: State, c: string, stopped: bool, s': State)
    requires Valid(table, s) && SettledOnce(table, s, c) && Enabled(table, s, StopRuntime(stopped))
             && s' == Apply(table, s, StopRuntime(stopped))
    ensures SettledOnce(table, s', c) && s'.history == s.history
  {
    if c !in s.statuses {
      assert table[c].procedures[0].name !in StatusesOf(s.statuses, c);
    }
  }

  lemma PassStepKeepsSettled(table: Table, s: State, c: string, step: Step, s': State)
    requires Valid(table, s) && SettledOnce(table, s, c) && Enabled(table, s, step) && s' == Apply(table, s, step)
    requires step.BeginPass? || step.VisitCommand? || step.EndPass?
    ensures SettledOnce(table, s', c) && s'.history == s.history
  {
  }

  lemma RememberKeepsSettled(table: Table, s: State, c: string, step: Step, s': State)
    requires Valid(table, s) && SettledOnce(table, s, c) && Enabled(table, s, step) && s' == Apply(table, s, step)
    requires step.DecideRemember? || step.RememberDone?
    ensures SettledOnce(table, s', c) && s'.history == s.history
  {
  }

  lemma {:induction false} StepKeepsSettled(table: Table, s: State, c: string, step: Step, s': State)
    requires Valid(table, s) && SettledOnce(table, s, c) && Enabled(table, s, step) && s' == Apply(table, s, step)
    requires !(step.Add? && step.cmd == c && step.force)
    ensures SettledOnce(table, s', c) && NoLaunchSince(s'.history, |s.history|, c) && s.history <= s'.history
  {
    match step
    case Add(d, force, waited) => AddKeepsSettled(table, s, c, d, force, waited, s');
    case DecideRemember(d) => RememberKeepsSettled(table, s, c, step, s');
    case RememberDone(d) => RememberKeepsSettled(table, s, c, step, s');
    case BeginPass => PassStepKeepsSettled(table, s, c, step, s');
    case VisitCommand(d) => PassStepKeepsSettled(table, s, c, step, s');
    case Advance => AdvanceKeepsSettled(table, s, c, s');
    case Launch(start) => LaunchKeepsSettled(table, s, c, start, s');
    case EndPass => PassStepKeepsSettled(table, s, c, step, s');
    case ObserveRunning(rid) => ObserveKeepsSettled(table, s, c, step, s');
    case ObserveDone(rid) => ObserveKeepsSettled(table, s, c, step, s');
    case Finish(rid, outcome) => FinishKeepsSettled(table, s, c, rid, outcome, s');
    case StopRuntime(stopped) => StopKeepsSettled(table, s, c, stopped, s');
  }

  /** Run once, over whole runs: no sequence of unforced adds, dependency adds, passes, ends of
      runs, remembering and stops launches a settled run-once command again, and it keeps counting
      as a done dependency. */
  lemma {:induction false} NeverLaunchedAgain(table: Table, s: State, c: string, steps: seq<Step>)
    requires Valid(table, s) && SettledOnce(table, s, c) && CanRun(table, s, steps)
    requires forall i :: 0 <= i < |steps| ==> !(steps[i].Add? && steps[i].cmd == c && steps[i].force)
    ensures NoLaunchSince(After(table, s, steps).history, |s.history|, c)
    ensures s.history <= After(table, s, steps).history
    ensures SettledOnce(table, After(table, s, steps), c)
    ensures ItemStatus(table, After(table, s, steps), c) == Some(Done)
    decreases |steps|
  {
    if steps != [] {
      var s' := Apply(table, s, steps[0]);
      StepKeepsValid(table, s, steps[0]);
      StepKeepsSettled(table, s, c, steps[0], s');
      NeverLaunchedAgain(table, s', c, steps[1..]);
    }
  }

  /** As long as commands are only remembered when they do not run, a success of a run-once
      command settles it. */
  lemma {:induction false} SuccessSettles(table: Table, s: State, rid: nat, c: string, s': State)
    requires SingleInvariant(table, s) && Enabled(table, s, Finish(rid, Ok)) && s' == Apply(table, s, Finish(rid, Ok))
    requires s.runs[rid].cmd == c && table[c].run == RunMode.Once
    ensures SettledOnce(table, s', c)
  {
    FinishCompletes(table, s, rid, c, s');
    assert InProgress(s.runs, c);
    RunningItemStatus(table, s, c);
    RemoveRun(s.runs, rid);
  }

  /** Over whole runs from any hydrated session: once a run-once command has succeeded, in a history
      that has been safe until then, nothing but a forced add ever launches it again. */
  lemma {:induction false} SuccessIsFinal(table: Table, s: State, first: seq<Step>, rid: nat, c: string, done: State,
                                          rest: seq<Step>)
    requires Quiet(table, s) && CanRun(table, s, first) && SafeRun(table, s, first)
    requires Enabled(table, After(table, s, first), Finish(rid, Ok))
             && done == Apply(table, After(table, s, first), Finish(rid, Ok))
    requires After(table, s, first).runs[rid].cmd == c && table[c].run == RunMode.Once
    requires CanRun(table, done, rest)
    requires forall i :: 0 <= i < |rest| ==> !(rest[i].Add? && rest[i].cmd == c && rest[i].force)
    ensures NoLaunchSince(After(table, done, rest).history, |done.history|, c)
    ensures done.history <= After(table, done, rest).history
    ensures ItemStatus(table, After(table, done, rest), c) == Some(Done)
  {
    RunKeepsSingle(table, s, first);
    SuccessSettles(table, After(table, s, first), rid, c, done);
    StepKeepsSingle(table, After(table, s, first), Finish(rid, Ok));
    NeverLaunchedAgain(table, done, c, rest);
  }
}
