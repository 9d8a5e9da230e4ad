/** Runs and flags of reachable sessions, remembered commands or not: whoever runs is queued, and
    whoever is in flight runs. */
module SchedulerFlight {
  import opened Domain
  import opened Scheduler
  import opened SchedulerInvariant
  import opened SchedulerSingleRun

  ghost predicate RunsQueued(queue: map<string, Item>, runs: map<nat, Run>) {
    forall r :: r in runs ==> runs[r].cmd in queue
  }

  /** Only a persistent command can be in flight without a run in progress. */
  ghost predicate FlightHasRun(table: Table, queue: map<string, Item>, runs: map<nat, Run>) {
    forall c :: c in queue && queue[c].inFlight && c in table && table[c].run != Persistent ==> InProgress(runs, c)
  }

  ghost predicate Flight(table: Table, queue: map<string, Item>, runs: map<nat, Run>) {
    RunsQueued(queue, runs) && FlightHasRun(table, queue, runs)
  }

  /** What holds of every session that started quiet. */
  ghost predicate Sound(table: Table, s: State) {
    Valid(table, s) && Flight(table, s.queue, s.runs)
  }

  lemma PutIdle(table: Table, queue: map<string, Item>, runs: map<nat, Run>, c: string, item: Item)
    requires Flight(table, queue, runs) && !item.inFlight
    ensures Flight(table, queue[c := item], runs)
  {
  }

  lemma AddKeepsFlight(table: Table, s: State, c: string, force: bool, waited: bool)
    requires Flight(table, s.queue, s.runs)
    ensures Flight(table, AddItem(table, s, c, force, waited).queue, AddItem(table, s, c, force, waited).runs)
  {
    if AddOutcome(table, s, c, force) == Queued {
      PutIdle(table, s.queue, s.runs, c, WithStatus(Item(s.nextItem, waited, false, false, false, false), Waiting));
    }
  }

  lemma PutRun(table: Table, queue: map<string, Item>, runs: map<nat, Run>, c: string, item: Item, rid: nat, r: Run)
    requires Flight(table, queue, runs) && rid !in runs && r.cmd == c
    ensures Flight(table, queue[c := item], runs[rid := r])
  {
    var runs' := runs[rid := r];
    forall d | InProgress(runs, d) ensures InProgress(runs', d) {
      var q :| q in runs && runs[q].cmd == d;
      assert q in runs' && runs'[q].cmd == d;
    }
    assert rid in runs' && runs'[rid].cmd == c;
  }

  lemma LaunchKeepsFlight(table: Table, s: State, start: nat, s': State)
    requires Sound(table, s) && Checked(table, s) && s' == LaunchChecked(table, s, start)
    ensures Flight(table, s'.queue, s'.runs)
  {
    var c := s.pass.visit.cmd;
    if s.pass.visit.ready && c in s.queue {
      PutRun(table, s.queue, s.runs, c, WithStatus(s.queue[c], Running), s.nextRun,
             Run(c, s.queue[c].id, s.queue[c].waited, start));
    }
  }

  lemma MoveRun(table: Table, queue: map<string, Item>, runs: map<nat, Run>, rid: nat, pos: nat)
    requires Flight(table, queue, runs) && rid in runs
    ensures Flight(table, queue, runs[rid := runs[rid].(pos := pos)])
  {
    var runs' := runs[rid := runs[rid].(pos := pos)];
    forall c | InProgress(runs, c) ensures InProgress(runs', c) {
      var q :| q in runs && runs[q].cmd == c;
      assert runs'[q].cmd == c;
    }
  }

  /** A settled item is not in flight, except for a persistent command that goes on. */
  lemma SettledItem(table: Table, s: State, c: string, outcome: Outcome, s': State)
    requires c in table && s' == Settle(table, s, c, outcome)
    ensures s'.runs == s.runs && s'.pass == s.pass && s'.nextRun == s.nextRun && s'.queue.Keys == s.queue.Keys
    ensures forall d :: d in s.queue && d != c ==> s'.queue[d] == s.queue[d]
    ensures c in s.queue && s'.queue[c].inFlight ==> table[c].run == Persistent
  {
  }

  lemma EndFlight(table: Table, queue: map<string, Item>, runs: map<nat, Run>, rid: nat, queue': map<string, Item>)
    requires Flight(table, queue, runs) && rid in runs && queue'.Keys == queue.Keys
    requires forall d :: d in queue && d != runs[rid].cmd ==> queue'[d] == queue[d]
    requires queue'[runs[rid].cmd].inFlight && runs[rid].cmd in table ==> table[runs[rid].cmd].run == Persistent
    ensures Flight(table, queue', runs - {rid})
  {
    RemoveRun(runs, rid);
  }

  lemma FinishKeepsFlight(table: Table, s: State, rid: nat, outcome: Outcome, s': State)
    requires Sound(table, s) && rid in s.runs && s' == FinishRun(table, s, rid, outcome)
    ensures Flight(table, s'.queue, s'.runs)
  {
    SettledItem(table, EndRun(table, s, rid, outcome), s.runs[rid].cmd, outcome, s');
    EndFlight(table, s.queue, s.runs, rid, s'.queue);
  }

  lemma AdvanceKeepsFlight(table: Table, s: State, s': State)
    requires Sound(table, s) && AtDependency(table, s) && s' == AdvanceCheck(table, s)
    ensures Flight(table, s'.queue, s'.runs)
  {
    if s.pass.visit.phase == Missing {
      AddKeepsFlight(table, s, table[s.pass.visit.cmd].needs[s.pass.visit.idx], false, false);
    } else {
      CheckShape(table, s, s');
    }
  }

  lemma RememberKeepsFlight(table: Table, s: State, c: string)
    requires Flight(table, s.queue, s.runs)
    ensures Flight(table, Remember(s, c).queue, Remember(s, c).runs)
  {
    PutIdle(table, s.queue, s.runs, c, Remember(s, c).queue[c]);
  }

  lemma VisitKeepsQueue(table: Table, s: State, c: string)
    requires Valid(table, s) && Enabled(table, s, VisitCommand(c))
    ensures VisitPending(table, s, c).queue == s.queue && VisitPending(table, s, c).runs == s.runs
  {
  }

  lemma StepKeepsSound(table: Table, s: State, step: Step)
    requires Sound(table, s) && Enabled(table, s, step)
    ensures Sound(table, Apply(table, s, step))
  {
    StepKeepsValid(table, s, step);
    match step
    case Add(c, force, waited) => AddKeepsFlight(table, s, c, force, waited);
    case DecideRemember(c) =>
    case RememberDone(c) => RememberKeepsFlight(table, s, c);
    case BeginPass =>
    case VisitCommand(c) => VisitKeepsQueue(table, s, c);
    case Advance => AdvanceKeepsFlight(table, s, Apply(table, s, step));
    case Launch(start) => LaunchKeepsFlight(table, s, start, Apply(table, s, step));
    case EndPass =>
    case ObserveRunning(rid) =>
    case ObserveDone(rid) => MoveRun(table, s.queue, s.runs, rid, s.runs[rid].pos + 1);
    case Finish(rid, outcome) => FinishKeepsFlight(table, s, rid, outcome, Apply(table, s, step));
    case StopRuntime(stopped) =>
  }

  lemma {:induction false} RunKeepsSound(table: Table, s: State, steps: seq<Step>)
    requires Sound(table, s) && CanRun(table, s, steps)
    ensures Sound(table, After(table, s, steps))
    decreases |steps|
  {
    if steps != [] {
      StepKeepsSound(table, s, steps[0]);
      RunKeepsSound(table, Apply(table, s, steps[0]), steps[1..]);
    }
  }

  lemma LeadsKeepsSound(table: Table, licence: Licence, s: State, s': State)
    requires Sound(table, s) && Leads(table, licence, s, s')
    ensures Sound(table, s')
  {
    var steps :| LeadsBy(table, licence, s, steps, s');
    RunKeepsSound(table, s, steps);
  }

  /** Over every interleaving from a quiet session, also one that remembers running commands. */
  lemma ReachedIsSound(table: Table, s: State, steps: seq<Step>)
    requires Quiet(table, s) && CanRun(table, s, steps)
    ensures Sound(table, After(table, s, steps))
  {
    RunKeepsSound(table, s, steps);
  }

  lemma SingleIsSound(table: Table, s: State)
    requires SingleInvariant(table, s)
    ensures Sound(table, s)
  {
  }
}
