/** What ends a run and a session, read off the queue and the statuses: how the end of a run leaves its
    command in every run mode, when an item leaves flight, and what a stop forgets. */
module SchedulerEffects {
  import opened Domain
  import opened CommandStatus
  import opened Scheduler
  import opened SchedulerInvariant

  /** Nothing is different for commands other than `c`. */
  ghost predicate OthersAlone(s: State, s': State, c: string) {
    forall d :: d != c ==>
      && (d in s'.queue <==> d in s.queue) && (d in s.queue ==> s'.queue[d] == s.queue[d])
      && StatusesOf(s'.statuses, d) == StatusesOf(s.statuses, d)
  }

  /** Every procedure of the command is persisted with this status. */
  ghost predicate Everywhere(command: Command, statuses: ProcedureStatuses, status: Status) {
    forall p :: p in command.procedures ==> p.name in statuses && statuses[p.name] == status
  }

  lemma {:induction false} SetCommandEverywhere(table: Table, statuses: map<string, ProcedureStatuses>, c: string,
                                                status: Status, statuses': map<string, ProcedureStatuses>)
    requires c in table && statuses' == SetCommand(table, statuses, c, status)
    ensures Everywhere(table[c], StatusesOf(statuses', c), status)
    ensures forall d :: d != c ==> StatusesOf(statuses', d) == StatusesOf(statuses, d)
  {
    forall p | p in table[c].procedures
      ensures p.name in AllProcedures(table[c], status)
    {
      var i :| 0 <= i < |table[c].procedures| && table[c].procedures[i] == p;
    }
  }

  /** Adds, observations and ends of runs are possible in every state, also in the middle of a pass. */
  lemma {:induction false} AlwaysPossible(table: Table, s: State, c: string, force: bool, waited: bool, rid: nat)
    ensures Enabled(table, s, Add(c, force, waited))
    ensures rid in s.runs && ValidRun(table, s.runs[rid]) ==>
              && Enabled(table, s, ObserveRunning(rid))
              && Enabled(table, s, Finish(rid, Failed)) && Enabled(table, s, Finish(rid, FailedForGood))
              && if s.runs[rid].pos + 1 == |table[s.runs[rid].cmd].procedures| then Enabled(table, s, Finish(rid, Ok))
                 else Enabled(table, s, ObserveDone(rid))
  {
  }

  // ---- the end of a run ---------------------------------------------------------------------------------

  /** The last procedure of a run's command. */
  function LastOf(command: Command): Procedure
    requires |command.procedures| > 0
  {
    command.procedures[|command.procedures| - 1]
  }

  /** A persistent command whose procedures have all succeeded stays in flight: its item is the old one, and
      of the persisted statuses only the one of a last procedure that is a signal has become Done. */
  lemma {:induction false} PersistentStaysUp(table: Table, s: State, rid: nat, s': State)
    requires Enabled(table, s, Finish(rid, Ok)) && table[s.runs[rid].cmd].run == Persistent
    requires s' == Apply(table, s, Finish(rid, Ok))
    ensures s'.queue == s.queue && s'.runs == s.runs - {rid} && OthersAlone(s, s', s.runs[rid].cmd)
    ensures var c, last := s.runs[rid].cmd, LastOf(table[s.runs[rid].cmd]);
            if last.signal then StatusesOf(s'.statuses, c) == StatusesOf(s.statuses, c)[last.name := Done]
            else s'.statuses == s.statuses
  {
  }

  /** An item whose queue status was set. */
  ghost predicate StatusSet(before: Item, after: Item, status: Status) {
    && after.id == before.id && after.waited == before.waited
    && (after.inFlight <==> status == Running)
    && (after.err <==> status == Error && before.err)
    && (after.rememberDone <==> status == Done || (status != Waiting && before.rememberDone))
    && (after.runRequested <==> status == Waiting || (status == Unrecognised && before.runRequested))
  }

  lemma {:induction false} WithStatusSets(item: Item, status: Status)
    ensures StatusSet(item, WithStatus(item, status), status)
  {
  }

  /** The item of `c` is the old one, but for these flags. */
  ghost predicate Flags(s: State, s': State, c: string, err: bool, done: bool, requested: bool) {
    && c in s.queue && c in s'.queue
    && s'.queue[c] == Item(s.queue[c].id, s.queue[c].waited, err, false, done, requested)
  }

  lemma {:induction false} StatusEffect(table: Table, s: State, c: string, status: Status, s': State)
    requires c in table && c in s.queue && status in {Done, Waiting} && s' == SetQueueStatus(table, s, c, status)
    ensures Flags(s, s', c, false, status == Done, status == Waiting)
    ensures Everywhere(table[c], StatusesOf(s'.statuses, c), status)
    ensures OthersAlone(s, s', c) && s'.runs == s.runs
  {
    SetCommandEverywhere(table, s.statuses, c, status, s'.statuses);
  }

  lemma {:induction false} EndEffect(table: Table, s: State, rid: nat, outcome: Outcome, ended: State)
    requires rid in s.runs && ValidRun(table, s.runs[rid]) && ended == EndRun(table, s, rid, outcome)
    ensures ended.queue == s.queue && ended.runs == s.runs - {rid} && OthersAlone(s, ended, s.runs[rid].cmd)
  {
    if outcome != Ok {
      SetCommandEverywhere(table, s.statuses, s.runs[rid].cmd, Error, ended.statuses);
    }
  }

  lemma {:induction false} AloneTwice(s: State, ended: State, s': State, c: string)
    requires ended.queue == s.queue && OthersAlone(s, ended, c) && OthersAlone(ended, s', c)
    ensures OthersAlone(s, s', c)
    ensures forall err, done, requested :: Flags(ended, s', c, err, done, requested) ==>
              Flags(s, s', c, err, done, requested)
  {
  }

  /** A command that runs always or once and has succeeded is remembered as done, all its procedures are Done,
      and it waits for nothing. */
  lemma {:induction false} OneShotIsDone(table: Table, s: State, rid: nat, c: string, s': State)
    requires rid in s.runs && ValidRun(table, s.runs[rid]) && s' == FinishRun(table, s, rid, Ok)
    requires c == s.runs[rid].cmd && c in s.queue && table[c].run in {Always, Once}
    ensures Flags(s, s', c, false, true, false) && Everywhere(table[c], StatusesOf(s'.statuses, c), Done)
    ensures OthersAlone(s, s', c) && s'.runs == s.runs - {rid}
  {
    var ended := EndRun(table, s, rid, Ok);
    EndEffect(table, s, rid, Ok, ended);
    StatusEffect(table, ended, c, Done, s');
    AloneTwice(s, ended, s', c);
  }

  /** A command in restart mode asks for its next run, whether it has succeeded or failed in a way that can be
      retried. */
  lemma {:induction false} RestartWaits(table: Table, s: State, rid: nat, outcome: Outcome, c: string, s': State)
    requires rid in s.runs && ValidRun(table, s.runs[rid]) && s' == FinishRun(table, s, rid, outcome)
    requires c == s.runs[rid].cmd && c in s.queue && table[c].run == Restart && outcome != FailedForGood
    ensures Flags(s, s', c, false, false, true) && Everywhere(table[c], StatusesOf(s'.statuses, c), Waiting)
    ensures OthersAlone(s, s', c) && s'.runs == s.runs - {rid}
  {
    var ended := EndRun(table, s, rid, outcome);
    EndEffect(table, s, rid, outcome, ended);
    StatusEffect(table, ended, c, Waiting, s');
    AloneTwice(s, ended, s', c);
  }

  /** A success of a command whose item is gone leaves the queue alone. */
  lemma {:induction false} GoneItemStaysGone(table: Table, s: State, rid: nat, outcome: Outcome, s': State)
    requires rid in s.runs && ValidRun(table, s.runs[rid]) && s' == FinishRun(table, s, rid, outcome)
    requires s.runs[rid].cmd !in s.queue
    ensures s'.queue == s.queue && s'.runs == s.runs - {rid} && OthersAlone(s, s', s.runs[rid].cmd)
  {
  }

  /** Any other failure is an error of the item and of every procedure; what was remembered or requested stays
      so. The statuses become errors even if the item is gone. */
  lemma {:induction false} FailureStays(table: Table, s: State, rid: nat, outcome: Outcome, c: string, s': State)
    requires rid in s.runs && ValidRun(table, s.runs[rid]) && s' == FinishRun(table, s, rid, outcome)
    requires c == s.runs[rid].cmd && outcome != Ok && (outcome == FailedForGood || table[c].run != Restart)
    ensures c in s.queue ==> Flags(s, s', c, true, s.queue[c].rememberDone, s.queue[c].runRequested)
    ensures c !in s.queue ==> s'.queue == s.queue
    ensures Everywhere(table[c], StatusesOf(s'.statuses, c), Error)
    ensures OthersAlone(s, s', c) && s'.runs == s.runs - {rid}
  {
    SetCommandEverywhere(table, s.statuses, c, Error, SetCommand(table, s.statuses, c, Error));
    SetCommandEverywhere(table, SetCommand(table, s.statuses, c, Error), c, Error, s'.statuses);
  }

  /** All of this in one: what the end of a run of `c` does, whatever the mode and the outcome. */
  lemma {:induction false} FinishEffect(table: Table, s: State, rid: nat, outcome: Outcome, s': State)
    requires rid in s.runs && ValidRun(table, s.runs[rid]) && s' == FinishRun(table, s, rid, outcome)
    ensures s'.runs == s.runs - {rid} && OthersAlone(s, s', s.runs[rid].cmd)
    ensures var c := s.runs[rid].cmd;
            table[c].run in {Always, Once} && outcome == Ok && c in s.queue ==>
              Flags(s, s', c, false, true, false) && Everywhere(table[c], StatusesOf(s'.statuses, c), Done)
    ensures var c := s.runs[rid].cmd;
            table[c].run == Restart && outcome != FailedForGood && c in s.queue ==>
              Flags(s, s', c, false, false, true) && Everywhere(table[c], StatusesOf(s'.statuses, c), Waiting)
    ensures var c := s.runs[rid].cmd;
            outcome == FailedForGood || (outcome == Failed && table[c].run != Restart) ==>
              && (c in s.queue ==> Flags(s, s', c, true, s.queue[c].rememberDone, s.queue[c].runRequested))
              && Everywhere(table[c], StatusesOf(s'.statuses, c), Error)
    ensures s.runs[rid].cmd !in s.queue ==> s'.queue == s.queue
  {
    var c := s.runs[rid].cmd;
    if outcome == FailedForGood || (outcome == Failed && table[c].run != Restart) {
      FailureStays(table, s, rid, outcome, c, s');
    } else if c !in s.queue {
      GoneItemStaysGone(table, s, rid, outcome, s');
    } else if table[c].run == Restart {
      RestartWaits(table, s, rid, outcome, c, s');
    } else if table[c].run != Persistent {
      OneShotIsDone(table, s, rid, c, s');
    }
  }

  // ---- how an item leaves flight ------------------------------------------------------------------------

  /** The steps after which an item in flight no longer is: it is remembered as done, the session is stopped,
      or a run of it ends, unless it is persistent and the run has succeeded. */
  ghost predicate TakesDown(table: Table, s: State, step: Step, c: string)
    requires Enabled(table, s, step)
  {
    || step == RememberDone(c)
    || step.StopRuntime?
    || (step.Finish? && s.runs[step.run].cmd == c && !(step.outcome == Ok && table[c].run == Persistent))
  }

  ghost predicate SameFlight(s: State, s': State, c: string) {
    c in s.queue && c in s'.queue && s'.queue[c].inFlight && s'.queue[c].id == s.queue[c].id
  }

  lemma {:induction false} AddKeepsFlight(table: Table, s: State, d: string, force: bool, waited: bool, c: string,
                                          s': State)
    requires Valid(table, s) && c in s.queue && s.queue[c].inFlight && s' == AddItem(table, s, d, force, waited)
    ensures SameFlight(s, s', c)
  {
    AddShape(table, s, d, force, waited, s');
  }

  lemma {:induction false} AdvanceKeepsFlight(table: Table, s: State, c: string, s': State)
    requires Valid(table, s) && AtDependency(table, s) && s' == AdvanceCheck(table, s)
    requires c in s.queue && s.queue[c].inFlight
    ensures SameFlight(s, s', c)
  {
    if s.pass.visit.phase == Missing {
      var dep := table[s.pass.visit.cmd].needs[s.pass.visit.idx];
      AddKeepsFlight(table, s, dep, false, false, c, AddItem(table, s, dep, false, false));
    }
  }

  lemma {:induction false} FinishFlight(table: Table, s: State, rid: nat, outcome: Outcome, c: string, s': State)
    requires Valid(table, s) && Enabled(table, s, Finish(rid, outcome)) && s' == Apply(table, s, Finish(rid, outcome))
    requires c in s.queue && s.queue[c].inFlight
    ensures SameFlight(s, s', c) <==>
              !(s.runs[rid].cmd == c && !(outcome == Ok && table[c].run == Persistent))
  {
    if outcome == Ok && table[s.runs[rid].cmd].run == Persistent {
      PersistentStaysUp(table, s, rid, s');
    } else {
      FinishEffect(table, s, rid, outcome, s');
    }
  }

  lemma {:induction false} PassKeepsFlight(table: Table, s: State, step: Step, c: string, s': State)
    requires Valid(table, s) && Enabled(table, s, step) && InnerStep(step) && s' == Apply(table, s, step)
    requires c in s.queue && s.queue[c].inFlight
    ensures SameFlight(s, s', c)
  {
    match step
    case VisitCommand(d) => VisitShape(table, s, d, s');
    case Advance => AdvanceKeepsFlight(table, s, c, s');
    case Launch(start) => LaunchShape(table, s, start, s');
  }

  lemma {:induction false} QuietFlight(table: Table, s: State, step: Step, c: string, s': State)
    requires Enabled(table, s, step) && s' == Apply(table, s, step) && c in s.queue && s.queue[c].inFlight
    requires !step.Add? && !InnerStep(step) && !step.Finish?
    ensures SameFlight(s, s', c) <==> step != RememberDone(c) && !step.StopRuntime?
  {
  }

  /** An item in flight stays the same item in flight over a step if and only if the step is none of these. */
  lemma {:induction false} LeavesFlightExactly(table: Table, s: State, step: Step, c: string, s': State)
    requires Valid(table, s) && Enabled(table, s, step) && s' == Apply(table, s, step)
    requires c in s.queue && s.queue[c].inFlight
    ensures SameFlight(s, s', c) <==> !TakesDown(table, s, step, c)
  {
    if step.Add? {
      AddKeepsFlight(table, s, step.cmd, step.force, step.waited, c, s');
    } else if InnerStep(step) {
      PassKeepsFlight(table, s, step, c, s');
    } else if step.Finish? {
      FinishFlight(table, s, step.run, step.outcome, c, s');
    } else {
      QuietFlight(table, s, step, c, s');
    }
  }

  ghost predicate Undisturbed(table: Table, s: State, steps: seq<Step>, c: string)
    requires CanRun(table, s, steps)
    decreases |steps|
  {
    steps == []
    || (!TakesDown(table, s, steps[0], c) && Undisturbed(table, Apply(table, s, steps[0]), steps[1..], c))
  }

  /** Over every run: a command in flight stays in flight under the same item, counts as Running, and cannot be
      added again, not even by force, until it is remembered, stopped, or one of its runs ends; for a persistent
      command the end has to be a failure. */
  lemma {:induction false} StaysInFlight(table: Table, s: State, steps: seq<Step>, c: string, force: bool)
    requires Valid(table, s) && c in s.queue && s.queue[c].inFlight
    requires CanRun(table, s, steps) && Undisturbed(table, s, steps, c)
    ensures SameFlight(s, After(table, s, steps), c)
    ensures ItemStatus(table, After(table, s, steps), c) == Some(Running)
    ensures AddOutcome(table, After(table, s, steps), c, force) == AlreadyInQueue
    decreases |steps|
  {
    if steps != [] {
      var s' := Apply(table, s, steps[0]);
      StepKeepsValid(table, s, steps[0]);
      LeavesFlightExactly(table, s, steps[0], c, s');
      StaysInFlight(table, s', steps[1..], c, force);
    }
  }

  /** So a persistent command whose run has succeeded cannot be added again, over every run that follows without
      a stop, a remembering, or a failing end of it. */
  lemma {:induction false} PersistentIsNotAdded(table: Table, s: State, rid: nat, steps: seq<Step>, force: bool)
    requires Valid(table, s) && Enabled(table, s, Finish(rid, Ok))
    requires var c := s.runs[rid].cmd; table[c].run == Persistent && c in s.queue && s.queue[c].inFlight
    requires CanRun(table, Apply(table, s, Finish(rid, Ok)), steps)
    requires Undisturbed(table, Apply(table, s, Finish(rid, Ok)), steps, s.runs[rid].cmd)
    ensures AddOutcome(table, After(table, Apply(table, s, Finish(rid, Ok)), steps), s.runs[rid].cmd, force)
            == AlreadyInQueue
  {
    PersistentStaysUp(table, s, rid, Apply(table, s, Finish(rid, Ok)));
    StepKeepsValid(table, s, Finish(rid, Ok));
    StaysInFlight(table, Apply(table, s, Finish(rid, Ok)), steps, s.runs[rid].cmd, force);
  }

  // ---- what a stop forgets --------------------------------------------------------------------------------

  lemma {:induction false} KeptExactly(table: Table, statuses: map<string, ProcedureStatuses>)
    ensures forall c :: c in KeptByStop(table, statuses) <==>
              && c in statuses && c in table && table[c].run == Once && |table[c].procedures| > 0
              && Everywhere(table[c], statuses[c], Done)
    ensures forall c :: c in KeptByStop(table, statuses) ==> KeptByStop(table, statuses)[c] == statuses[c]
  {
    forall c | c in statuses && c in table
      ensures Derive(table[c], statuses[c]) == Some(Done) <==>
                |table[c].procedures| > 0 && Everywhere(table[c], statuses[c], Done)
    {
      DoneEverywhere(table[c], statuses[c]);
    }
  }

  /** After a stop nothing is queued, and a command has persisted statuses exactly if it had some, is in the
      table, runs once, and every one of its procedures was Done; those statuses are the old ones. A stop that
      the backend refuses empties the queue, and keeps all statuses. */
  lemma {:induction false} StopForgets(table: Table, s: State, stopped: bool, s': State)
    requires Enabled(table, s, StopRuntime(stopped)) && s' == Apply(table, s, StopRuntime(stopped))
    ensures s' == s.(queue := map[], statuses := s'.statuses)
    ensures !stopped ==> s'.statuses == s.statuses
    ensures stopped ==> forall c ::
              (c in s'.statuses <==>
                 && c in s.statuses && c in table && table[c].run == Once && |table[c].procedures| > 0
                 && Everywhere(table[c], s.statuses[c], Done))
              && (c in s'.statuses ==> s'.statuses[c] == s.statuses[c])
  {
    KeptExactly(table, s.statuses);
  }

  lemma {:induction false} DoneEverywhere(command: Command, statuses: ProcedureStatuses)
    ensures Derive(command, statuses) == Some(Done) <==>
              |command.procedures| > 0 && Everywhere(command, statuses, Done)
  {
    if Everywhere(command, statuses, Done) {
      forall i | 0 <= i < |command.procedures|
        ensures command.procedures[i].name in statuses && statuses[command.procedures[i].name] == Done
      {
        assert command.procedures[i] in command.procedures;
      }
    }
  }
}
