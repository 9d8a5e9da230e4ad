/** What every step of the scheduler keeps: the queue, the persisted statuses, the runs and the
    pass in progress stay consistent, and no queue item is ever stuck. */
module SchedulerInvariant {
  import opened Domain
  import opened Scheduler

  /** An item always has a reason to be where it is: it is in flight, has failed, is remembered
      as done, or has a run requested. */
  predicate NotStuck(item: Item) {
    item.inFlight || item.err || item.rememberDone || item.runRequested
  }

  predicate ValidItem(item: Item) {
    NotStuck(item) && (item.inFlight ==> !item.runRequested && !item.err)
  }

  ghost predicate ValidQueue(table: Table, queue: map<string, Item>, nextItem: nat) {
    && queue.Keys <= table.Keys
    && (forall c :: c in queue ==> ValidItem(queue[c]) && queue[c].id < nextItem)
    && (forall c, d :: c in queue && d in queue && c != d ==> queue[c].id != queue[d].id)
  }

  ghost predicate ValidRuns(table: Table, runs: map<nat, Run>, nextRun: nat, nextItem: nat) {
    forall rid :: rid in runs ==> rid < nextRun && runs[rid].item < nextItem && ValidRun(table, runs[rid])
  }

  ghost predicate ValidPass(table: Table, scheduled: set<string>, pass: Pass) {
    pass.Active? ==>
      && pass.pending.Keys <= scheduled
      && (pass.visit.Checking? ==>
            && pass.visit.cmd in scheduled
            && pass.visit.cmd !in pass.pending
            && pass.visit.cmd in table
            && pass.visit.idx <= |table[pass.visit.cmd].needs|)
  }

  ghost predicate Valid(table: Table, s: State) {
    && ValidTable(table)
    && ValidQueue(table, s.queue, s.nextItem)
    && s.statuses.Keys <= table.Keys
    && s.deciding <= table.Keys
    && ValidRuns(table, s.runs, s.nextRun, s.nextItem)
    && ValidPass(table, s.queue.Keys, s.pass)
  }

  /** Replacing one item by a valid one, with its own identity or a fresh one. */
  lemma PutItemKeepsQueue(table: Table, queue: map<string, Item>, c: string, item: Item, nextItem: nat, nextItem': nat)
    requires ValidQueue(table, queue, nextItem) && c in table && ValidItem(item)
    requires nextItem' >= nextItem && item.id < nextItem'
    requires (c in queue && item.id == queue[c].id) || item.id >= nextItem
    ensures ValidQueue(table, queue[c := item], nextItem')
  {
  }

  /** What a successful add does. */
  lemma {:induction false} AddShape(table: Table, s: State, c: string, force: bool, waited: bool, s': State)
    requires s' == AddItem(table, s, c, force, waited)
    ensures AddOutcome(table, s, c, force) != Queued ==> s' == s
    ensures AddOutcome(table, s, c, force) == Queued ==>
              && c in table
              && s' == s.(queue := s.queue[c := Item(s.nextItem, waited, false, false, false, true)],
                          statuses := SetCommand(table, s.statuses, c, Waiting),
                          nextItem := s.nextItem + 1)
  {
  }

  lemma {:induction false} AddKeepsValid(table: Table, s: State, c: string, force: bool, waited: bool)
    requires Valid(table, s)
    ensures Valid(table, AddItem(table, s, c, force, waited))
    ensures s.queue.Keys <= AddItem(table, s, c, force, waited).queue.Keys
    ensures s.pass == AddItem(table, s, c, force, waited).pass
  {
    if AddOutcome(table, s, c, force) == Queued {
      var item := WithStatus(Item(s.nextItem, waited, false, false, false, false), Waiting);
      PutItemKeepsQueue(table, s.queue, c, item, s.nextItem, s.nextItem + 1);
      assert AddItem(table, s, c, force, waited).queue == s.queue[c := item];
    }
  }

  lemma RememberKeepsValid(table: Table, s: State, c: string)
    requires Valid(table, s) && c in s.deciding
    ensures Valid(table, Remember(s, c))
  {
    var item := if c in s.queue then s.queue[c].(rememberDone := true, inFlight := false, err := false)
                else Item(s.nextItem, false, false, false, true, false);
    PutItemKeepsQueue(table, s.queue, c, item, s.nextItem, if c in s.queue then s.nextItem else s.nextItem + 1);
  }

  lemma SetQueueStatusKeepsValid(table: Table, s: State, c: string, status: Status)
    requires Valid(table, s) && status in {Done, Waiting, Running}
    ensures Valid(table, SetQueueStatus(table, s, c, status))
  {
    if c in s.queue {
      PutItemKeepsQueue(table, s.queue, c, WithStatus(s.queue[c], status), s.nextItem, s.nextItem);
    }
  }

  lemma SetQueueErrorKeepsValid(table: Table, s: State, c: string)
    requires Valid(table, s)
    ensures Valid(table, SetQueueError(table, s, c))
  {
    if c in s.queue {
      PutItemKeepsQueue(table, s.queue, c, s.queue[c].(inFlight := false, err := true), s.nextItem, s.nextItem);
    }
  }

  /** What a visit and a launch do. */
  lemma {:induction false} VisitShape(table: Table, s: State, c: string, s': State)
    requires Valid(table, s) && Enabled(table, s, VisitCommand(c)) && s' == VisitPending(table, s, c)
    ensures s' == s.(pass := s'.pass) && s'.pass.Active? && s'.pass.pending == s.pass.pending - {c}
    ensures s'.pass.visit == if Eligible(table[c], s.pass.pending[c]) then Checking(c, 0, true, Look) else Between
  {
  }

  lemma {:induction false} LaunchShape(table: Table, s: State, start: nat, s': State)
    requires Checked(table, s) && s' == LaunchChecked(table, s, start)
    ensures s'.pass == s.pass.(visit := Between) && s'.statuses == s.statuses && s'.deciding == s.deciding
    ensures !(s.pass.visit.ready && s.pass.visit.cmd in s.queue) ==> s'.runs == s.runs && s'.history == s.history
    ensures s.pass.visit.ready && s.pass.visit.cmd in s.queue ==>
              var c, item := s.pass.visit.cmd, s.queue[s.pass.visit.cmd];
              && s'.runs == s.runs[s.nextRun := Run(c, item.id, item.waited, start)]
              && s'.history == s.history + [Launched(c, item.id, item.waited)]
    ensures s'.queue == if s.pass.visit.ready && s.pass.visit.cmd in s.queue
                        then s.queue[s.pass.visit.cmd := WithStatus(s.queue[s.pass.visit.cmd], Running)] else s.queue
  {
  }

  lemma LaunchKeepsValid(table: Table, s: State, start: nat)
    requires Valid(table, s) && Checked(table, s) && start < |table[s.pass.visit.cmd].procedures|
    ensures Valid(table, LaunchChecked(table, s, start))
  {
    SetQueueStatusKeepsValid(table, s.(pass := s.pass.(visit := Between)), s.pass.visit.cmd, Running);
  }

  lemma SettleKeepsValid(table: Table, s: State, c: string, outcome: Outcome)
    requires Valid(table, s) && c in table
    ensures Valid(table, Settle(table, s, c, outcome))
  {
    SetQueueErrorKeepsValid(table, s, c);
    SetQueueStatusKeepsValid(table, s, c, Waiting);
    SetQueueStatusKeepsValid(table, s, c, Done);
  }

  lemma {:induction false} FinishKeepsValid(table: Table, s: State, rid: nat, outcome: Outcome)
    requires Valid(table, s) && rid in s.runs
    ensures Valid(table, EndRun(table, s, rid, outcome))
    ensures Valid(table, FinishRun(table, s, rid, outcome))
  {
    SettleKeepsValid(table, EndRun(table, s, rid, outcome), s.runs[rid].cmd, outcome);
  }

  lemma {:induction false} AdvanceKeepsValid(table: Table, s: State)
    requires Valid(table, s) && AtDependency(table, s)
    ensures Valid(table, AdvanceCheck(table, s))
  {
    if s.pass.visit.phase == Missing {
      var dep := table[s.pass.visit.cmd].needs[s.pass.visit.idx];
      AddKeepsValid(table, s, dep, false, false);
      assert Valid(table, NextDep(AddItem(table, s, dep, false, false), false));
    }
  }

  lemma ObserveKeepsValid(table: Table, s: State, step: Step)
    requires Valid(table, s) && Enabled(table, s, step) && (step.ObserveRunning? || step.ObserveDone?)
    ensures Valid(table, Apply(table, s, step))
  {
  }

  lemma VisitKeepsValid(table: Table, s: State, c: string)
    requires Valid(table, s) && Enabled(table, s, VisitCommand(c))
    ensures Valid(table, Apply(table, s, VisitCommand(c)))
  {
  }

  lemma {:induction false} StepKeepsValid(table: Table, s: State, step: Step)
    requires Valid(table, s) && Enabled(table, s, step)
    ensures Valid(table, Apply(table, s, step))
  {
    match step
    case Add(c, force, waited) => AddKeepsValid(table, s, c, force, waited);
    case DecideRemember(c) =>
    case RememberDone(c) => RememberKeepsValid(table, s, c);
    case BeginPass =>
    case VisitCommand(c) => VisitKeepsValid(table, s, c);
    case Advance => AdvanceKeepsValid(table, s);
    case Launch(start) => LaunchKeepsValid(table, s, start);
    case EndPass =>
    case ObserveRunning(rid) => ObserveKeepsValid(table, s, step);
    case ObserveDone(rid) => ObserveKeepsValid(table, s, step);
    case Finish(rid, outcome) => FinishKeepsValid(table, s, rid, outcome);
    case StopRuntime(stopped) =>
  }

  /** No queue item is ever stuck, whatever the interleaving. */
  lemma {:induction false} RunKeepsValid(table: Table, s: State, steps: seq<Step>)
    requires Valid(table, s) && CanRun(table, s, steps)
    ensures Valid(table, After(table, s, steps))
    ensures forall c :: c in After(table, s, steps).queue ==> NotStuck(After(table, s, steps).queue[c])
    decreases |steps|
  {
    if steps != [] {
      StepKeepsValid(table, s, steps[0]);
      RunKeepsValid(table, Apply(table, s, steps[0]), steps[1..]);
    }
  }

  /** No step takes back what has happened. */
  lemma {:induction false} StepGrowsHistory(table: Table, s: State, step: Step, s': State)
    requires Enabled(table, s, step) && s' == Apply(table, s, step)
    ensures s.history <= s'.history
  {
    if step.Add? {
      AddShape(table, s, step.cmd, step.force, step.waited, s');
    } else if step.Finish? {
      SettleGrows(table, EndRun(table, s, step.run, step.outcome), s.runs[step.run].cmd, step.outcome);
    } else if step.Advance? && s.pass.visit.phase == Missing {
      var dep := table[s.pass.visit.cmd].needs[s.pass.visit.idx];
      AddShape(table, s, dep, false, false, AddItem(table, s, dep, false, false));
    }
  }

  lemma {:induction false} SettleGrows(table: Table, s: State, c: string, outcome: Outcome)
    requires c in table
    ensures Settle(table, s, c, outcome).history == s.history
  {
  }

  lemma {:induction false} RunGrowsHistory(table: Table, s: State, steps: seq<Step>)
    requires CanRun(table, s, steps)
    ensures s.history <= After(table, s, steps).history
    decreases |steps|
  {
    if steps != [] {
      StepGrowsHistory(table, s, steps[0], Apply(table, s, steps[0]));
      RunGrowsHistory(table, Apply(table, s, steps[0]), steps[1..]);
    }
  }

  lemma {:induction false} LeadsGrowsHistory(table: Table, licence: Licence, s: State, s': State)
    requires Leads(table, licence, s, s')
    ensures s.history <= s'.history
  {
    var steps :| LeadsBy(table, licence, s, steps, s');
    RunGrowsHistory(table, s, steps);
  }
}
