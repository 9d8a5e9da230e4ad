/** Rounds: a pass, then the launched commands succeed. A bounded number of rounds completes every
    queued command of a group that is closed under needs, whatever else is queued. */
module SchedulerProgress {
  import opened Domain
  import opened Needs
  import opened Scheduler
  import opened SchedulerInvariant
  import opened SchedulerSingleRun
  import opened SchedulerFlight
  import opened SchedulerPass

  predicate WorkStep(step: Step) {
    step.ObserveRunning? || step.ObserveDone? || (step.Finish? && step.outcome == Ok)
  }

  /** `work` only observes runs and ends them successfully. */
  ghost predicate Worked(table: Table, s: State, work: seq<Step>, s': State) {
    CanRun(table, s, work) && After(table, s, work) == s' && forall i :: 0 <= i < |work| ==> WorkStep(work[i])
  }

  function GroupRuns(runs: map<nat, Run>, group: set<string>): set<nat> {
    set rid | rid in runs && runs[rid].cmd in group
  }

  /** A whole pass, after which the runs of the group come to a successful end. */
  ghost predicate Round(table: Table, group: set<string>, s: State, s': State) {
    exists pass, work :: RoundBy(table, group, s, pass, work, s')
  }

  ghost predicate RoundBy(table: Table, group: set<string>, s: State, pass: seq<Step>, work: seq<Step>, s': State) {
    && WholePass(table, s, pass)
    && Worked(table, After(table, s, [BeginPass] + pass + [EndPass]), work, s')
    && GroupRuns(s'.runs, group) == {}
  }

  ghost predicate OneShot(table: Table, group: set<string>) {
    forall c :: c in group && c in table ==> table[c].run == Always || table[c].run == RunMode.Once
  }

  ghost predicate NoErrors(queue: map<string, Item>, group: set<string>) {
    forall c :: c in queue && c in group ==> !queue[c].err
  }

  /** Between rounds nothing of the group runs or has failed. */
  ghost predicate BetweenRounds(table: Table, group: set<string>, s: State) {
    Sound(table, s) && s.pass.Idle? && NoErrors(s.queue, group) && GroupRuns(s.runs, group) == {}
  }

  ghost predicate GroupDone(table: Table, group: set<string>, s: State) {
    forall c :: c in s.queue && c in group ==> ItemStatus(table, s, c) == Some(Done) && !s.queue[c].runRequested
  }

  /** Without runs nothing of a one-shot group is in flight. */
  lemma {:induction false} BetweenIsRested(table: Table, group: set<string>, s: State)
    requires BetweenRounds(table, group, s) && OneShot(table, group) && group <= table.Keys
    ensures RestedIn(table, group, s) && RestartsWait(table, group, s.queue)
  {
    forall c | c in group && c in s.queue ensures !s.queue[c].inFlight {
      NotRunning(s.runs, group, c);
    }
  }

  lemma {:induction false} NotRunning(runs: map<nat, Run>, group: set<string>, c: string)
    requires GroupRuns(runs, group) == {} && c in group
    ensures !InProgress(runs, c)
  {
    forall rid | rid in runs ensures runs[rid].cmd != c {
      assert runs[rid].cmd == c ==> rid in GroupRuns(runs, group);
    }
  }

  // ---- a pass sets no errors ---------------------------------------------------------------------

  lemma {:induction false} StepKeepsNoErrors(table: Table, group: set<string>, s: State, step: Step, s': State)
    requires Valid(table, s) && NoErrors(s.queue, group) && InnerStep(step) && Enabled(table, s, step)
             && s' == Apply(table, s, step)
    ensures NoErrors(s'.queue, group)
  {
    match step
    case VisitCommand(c) => VisitShape(table, s, c, s');
    case Advance =>
      if s.pass.visit.phase != Missing {
        CheckShape(table, s, s');
      }
    case Launch(start) => LaunchShape(table, s, start, s');
  }

  lemma {:induction false} StepsKeepNoErrors(table: Table, group: set<string>, s: State, steps: seq<Step>, s': State)
    requires Valid(table, s) && NoErrors(s.queue, group) && Traced(table, s, steps, s')
    ensures NoErrors(s'.queue, group)
    decreases |steps|
  {
    if steps != [] {
      StepKeepsValid(table, s, steps[0]);
      StepKeepsNoErrors(table, group, s, steps[0], Apply(table, s, steps[0]));
      StepsKeepNoErrors(table, group, Apply(table, s, steps[0]), steps[1..], s');
    }
  }

  lemma {:induction false} PassKeepsNoErrors(table: Table, group: set<string>, s: State, steps: seq<Step>, s': State)
    requires Sound(table, s) && NoErrors(s.queue, group)
    requires WholePass(table, s, steps) && s' == After(table, s, [BeginPass] + steps + [EndPass])
    ensures Sound(table, s') && NoErrors(s'.queue, group) && s'.pass.Idle?
  {
    RunKeepsSound(table, s, [BeginPass] + steps + [EndPass]);
    var begun, checked := SplitPass(table, s, steps);
    StepKeepsValid(table, s, BeginPass);
    StepsKeepNoErrors(table, group, begun, steps, checked);
  }

  // ---- successful ends ------------------------------------------------------------------------------

  lemma {:induction false} FinishedItem(table: Table, s: State, rid: nat, s': State)
    requires rid in s.runs && ValidRun(table, s.runs[rid]) && s.runs[rid].cmd in s.queue
             && s' == FinishRun(table, s, rid, Ok)
    ensures s'.pass == s.pass && s.runs[rid].cmd in s'.queue
    ensures s'.queue == s.queue[s.runs[rid].cmd := s'.queue[s.runs[rid].cmd]]
    ensures table[s.runs[rid].cmd].run in {Always, RunMode.Once} ==>
              s'.queue[s.runs[rid].cmd] == WithStatus(s.queue[s.runs[rid].cmd], Done)
  {
  }

  lemma {:induction false} WorkStepNoMore(table: Table, group: set<string>, s: State, step: Step, s': State)
    requires Sound(table, s) && OneShot(table, group) && NoErrors(s.queue, group)
    requires WorkStep(step) && Enabled(table, s, step) && s' == Apply(table, s, step)
    ensures NoErrors(s'.queue, group) && NoNewRequests(group, s.queue, s'.queue) && s'.pass == s.pass
  {
    if step.Finish? {
      FinishedItem(table, s, step.run, s');
    } else {
      assert s'.queue == s.queue;
    }
  }

  lemma {:induction false} WorkNoMore(table: Table, group: set<string>, s: State, work: seq<Step>, s': State)
    requires Sound(table, s) && OneShot(table, group) && NoErrors(s.queue, group) && Worked(table, s, work, s')
    ensures Sound(table, s') && NoErrors(s'.queue, group) && s'.pass == s.pass
    ensures NoNewRequests(group, s.queue, s'.queue) && Todo(group, s'.queue) <= Todo(group, s.queue)
    decreases |work|
  {
    if work != [] {
      var next := Apply(table, s, work[0]);
      StepKeepsSound(table, s, work[0]);
      WorkStepNoMore(table, group, s, work[0], next);
      WorkNoMore(table, group, next, work[1..], s');
    }
    TodoNoMore(group, s.queue, s'.queue);
  }

  // ---- rounds ---------------------------------------------------------------------------------------------

  lemma {:induction false} NotGroupDone(table: Table, group: set<string>, s: State) returns (c: string)
    requires RestedIn(table, group, s) && !GroupDone(table, group, s)
    ensures c in group && c in s.queue && s.queue[c].runRequested
  {
    c :| c in s.queue && c in group && !(ItemStatus(table, s, c) == Some(Done) && !s.queue[c].runRequested);
    if ItemStatus(table, s, c) != Some(Done) {
      NotDoneIsRequested(table, group, s, c);
    }
  }

  /** Every round in which something of the group is left to do reduces what is left. */
  lemma {:induction false} RoundDecreases(table: Table, group: set<string>, s: State, s': State)
    requires BetweenRounds(table, group, s) && Round(table, group, s, s')
    requires OneShot(table, group) && Cone(table, group)
    ensures BetweenRounds(table, group, s')
    ensures !GroupDone(table, group, s) ==> Todo(group, s'.queue) < Todo(group, s.queue)
  {
    var pass, work :| RoundBy(table, group, s, pass, work, s');
    var passed := After(table, s, [BeginPass] + pass + [EndPass]);
    BetweenIsRested(table, group, s);
    PassKeepsNoErrors(table, group, s, pass, passed);
    WorkNoMore(table, group, passed, work, s');
    if !GroupDone(table, group, s) {
      var c := NotGroupDone(table, group, s);
      PassReducesTodo(table, group, s, pass, c, passed);
    }
  }

  /** Consecutive states of a session are connected by rounds. */
  ghost predicate Rounds(table: Table, group: set<string>, states: seq<State>) {
    forall i :: 0 <= i < |states| - 1 ==> Round(table, group, states[i], states[i + 1])
  }

  /** When the runs of a one-shot group succeed, at most two rounds for each of its commands complete
      every queued one, dependencies included. */
  lemma {:induction false} RoundsCompleteQueue(table: Table, group: set<string>, states: seq<State>)
    requires states != [] && BetweenRounds(table, group, states[0]) && Rounds(table, group, states)
    requires OneShot(table, group) && Cone(table, group)
    ensures |states| > 2 * |group| ==> exists i :: 0 <= i < |states| && GroupDone(table, group, states[i])
  {
    TodoBound(group, states[0].queue);
    RoundsWithin(table, group, states);
  }

  lemma {:induction false} RoundsWithin(table: Table, group: set<string>, states: seq<State>)
    requires states != [] && BetweenRounds(table, group, states[0]) && Rounds(table, group, states)
    requires OneShot(table, group) && Cone(table, group)
    ensures |states| > Todo(group, states[0].queue) ==>
              exists i :: 0 <= i < |states| && GroupDone(table, group, states[i])
    decreases |states|
  {
    if GroupDone(table, group, states[0]) {
    } else if |states| == 1 {
      BetweenIsRested(table, group, states[0]);
      var c := NotGroupDone(table, group, states[0]);
      assert c in Requested(states[0].queue) * group;
    } else {
      assert Round(table, group, states[0], states[1]);
      RoundDecreases(table, group, states[0], states[1]);
      RoundsWithin(table, group, states[1..]);
      if |states| > Todo(group, states[0].queue) {
        var i :| 0 <= i < |states[1..]| && GroupDone(table, group, states[1..][i]);
        assert GroupDone(table, group, states[i + 1]);
      }
    }
  }
}
