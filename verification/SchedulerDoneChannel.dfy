/** Done channels: the channel of a waited queue item is closed once, right after the item's own
    backend run has ended. Restart-mode items are the exception. */
module SchedulerDoneChannel {
  import opened Domain
  import opened Scheduler
  import opened SchedulerInvariant
  import opened SchedulerSingleRun
  import opened SchedulerFlight
  import opened SchedulerDrive
  import opened SchedulerDoubleRun

  predicate About(e: Event, c: string, id: nat) {
    e.cmd == c && e.item == id
  }

  /** What happened to one queue item, in order. */
  function ItemEvents(h: seq<Event>, c: string, id: nat): seq<Event> {
    if h == [] then []
    else
      var before := ItemEvents(h[..|h| - 1], c, id);
      if About(h[|h| - 1], c, id) then before + [h[|h| - 1]] else before
  }

  lemma AppendEvent(h: seq<Event>, e: Event, c: string, id: nat)
    ensures ItemEvents(h + [e], c, id) == if About(e, c, id) then ItemEvents(h, c, id) + [e] else ItemEvents(h, c, id)
  {
    assert (h + [e])[..|h|] == h;
  }

  predicate NoRestart(table: Table, c: string) {
    c in table && table[c].run != Restart
  }

  ghost predicate RunOf(runs: map<nat, Run>, c: string, id: nat) {
    exists rid :: rid in runs && runs[rid].cmd == c && runs[rid].item == id
  }

  /** The item was launched, its run ended, and then its waiter, if any, was released: once each. */
  predicate CompleteLife(events: seq<Event>, c: string, id: nat) {
    && 2 <= |events| <= 3
    && events[0] == Launched(c, id, |events| == 3)
    && events[1].Finished? && About(events[1], c, id)
    && (|events| == 3 ==> events[2] == Closed(c, id))
  }

  /** The life of one item: nothing yet, running, or complete. */
  ghost predicate ItemLife(h: seq<Event>, runs: map<nat, Run>, c: string, id: nat) {
    var events := ItemEvents(h, c, id);
    if RunOf(runs, c, id) then |events| == 1 && events[0].Launched?
    else events == [] || CompleteLife(events, c, id)
  }

  predicate SameItem(r: Run, q: Run) {
    r.cmd == q.cmd && r.item == q.item
  }

  ghost predicate Lives(table: Table, h: seq<Event>, runs: map<nat, Run>, nextItem: nat) {
    && (forall c, id :: NoRestart(table, c) ==> ItemLife(h, runs, c, id))
    && (forall c, id :: id >= nextItem ==> ItemEvents(h, c, id) == [])
    && (forall r :: r in runs && NoRestart(table, runs[r].cmd) ==>
          ItemEvents(h, runs[r].cmd, runs[r].item) == [Launched(runs[r].cmd, runs[r].item, runs[r].waited)])
    && (forall r, q :: r in runs && q in runs && SameItem(runs[r], runs[q]) && NoRestart(table, runs[r].cmd) ==> r == q)
  }

  /** A launched item is settled: no new pass finds a reason to launch it again. */
  ghost predicate LaunchedSettled(table: Table, queue: map<string, Item>, h: seq<Event>) {
    forall c :: c in queue && NoRestart(table, c) && ItemEvents(h, c, queue[c].id) != [] ==>
      !queue[c].runRequested && (queue[c].inFlight || queue[c].rememberDone || queue[c].err)
  }

  ghost predicate PassFresh(table: Table, pass: Pass, queue: map<string, Item>, h: seq<Event>) {
    pass.Active? ==>
      && (forall c :: c in pass.pending && c in queue && NoRestart(table, c) && Eligible(table[c], pass.pending[c]) ==>
            ItemEvents(h, c, queue[c].id) == [])
      && (pass.visit.Checking? && pass.visit.cmd in queue && NoRestart(table, pass.visit.cmd) ==>
            ItemEvents(h, pass.visit.cmd, queue[pass.visit.cmd].id) == [])
  }

  ghost predicate ChannelInvariant(table: Table, s: State) {
    && Lives(table, s.history, s.runs, s.nextItem)
    && LaunchedSettled(table, s.queue, s.history)
    && PassFresh(table, s.pass, s.queue, s.history)
  }

  lemma BeginKeepsFresh(table: Table, s: State)
    requires Valid(table, s) && LaunchedSettled(table, s.queue, s.history)
    ensures PassFresh(table, Pass.Active(Snapshot(table, s), Between), s.queue, s.history)
  {
  }

  lemma VisitKeepsChannels(table: Table, s: State, c: string, s': State)
    requires Valid(table, s) && ChannelInvariant(table, s) && Enabled(table, s, VisitCommand(c))
             && s' == VisitPending(table, s, c)
    ensures ChannelInvariant(table, s')
  {
  }

  lemma PassStepKeepsChannels(table: Table, s: State, step: Step, s': State)
    requires Valid(table, s) && ChannelInvariant(table, s) && Enabled(table, s, step) && s' == Apply(table, s, step)
    requires step.BeginPass? || step.VisitCommand? || step.EndPass?
    ensures ChannelInvariant(table, s')
  {
    if step.VisitCommand? {
      VisitKeepsChannels(table, s, step.cmd, s');
    } else if step.BeginPass? {
      BeginKeepsFresh(table, s);
    }
  }

  lemma AddKeepsChannels(table: Table, s: State, c: string, force: bool, waited: bool, s': State)
    requires ChannelInvariant(table, s) && s' == AddItem(table, s, c, force, waited)
    ensures ChannelInvariant(table, s') && s'.pass == s.pass
  {
    assert ItemEvents(s.history, c, s.nextItem) == [];
  }

  lemma RememberKeepsChannels(table: Table, s: State, c: string, s': State)
    requires ChannelInvariant(table, s) && s' == Remember(s, c)
    ensures ChannelInvariant(table, s')
  {
    assert ItemEvents(s.history, c, s.nextItem) == [];
  }

  lemma {:induction false} AdvanceKeepsChannels(table: Table, s: State, s': State)
    requires Valid(table, s) && ChannelInvariant(table, s) && AtDependency(table, s) && s' == AdvanceCheck(table, s)
    ensures ChannelInvariant(table, s')
  {
    if s.pass.visit.phase == Missing {
      var dep := table[s.pass.visit.cmd].needs[s.pass.visit.idx];
      AddKeepsChannels(table, s, dep, false, false, AddItem(table, s, dep, false, false));
    } else {
      CheckShape(table, s, s');
      assert s'.history == s.history && s'.nextItem == s.nextItem;
    }
  }

  lemma LaunchKeepsLives(table: Table, h: seq<Event>, runs: map<nat, Run>, nextItem: nat, rid: nat, r: Run,
                         h': seq<Event>)
    requires Lives(table, h, runs, nextItem) && rid !in runs && r.item < nextItem
    requires NoRestart(table, r.cmd) ==> ItemEvents(h, r.cmd, r.item) == []
    requires h' == h + [Launched(r.cmd, r.item, r.waited)]
    ensures Lives(table, h', runs[rid := r], nextItem)
    ensures forall c, id :: !(c == r.cmd && id == r.item) ==> ItemEvents(h', c, id) == ItemEvents(h, c, id)
  {
    var e := Launched(r.cmd, r.item, r.waited);
    var runs' := runs[rid := r];
    forall c, id
      ensures ItemEvents(h', c, id) == if About(e, c, id) then ItemEvents(h, c, id) + [e] else ItemEvents(h, c, id)
    {
      AppendEvent(h, e, c, id);
    }
    forall c, id | NoRestart(table, c) ensures ItemLife(h', runs', c, id) {
      assert ItemLife(h, runs, c, id);
      if About(e, c, id) {
        assert runs'[rid] == r;
      } else if RunOf(runs, c, id) {
        var q :| q in runs && runs[q].cmd == c && runs[q].item == id;
        assert runs'[q] == runs[q];
      }
    }
  }

  lemma LaunchKeepsChannels(table: Table, s: State, start: nat, s': State)
    requires Valid(table, s) && ChannelInvariant(table, s) && Checked(table, s) && s' == LaunchChecked(table, s, start)
    ensures ChannelInvariant(table, s')
  {
    var c := s.pass.visit.cmd;
    if s.pass.visit.ready {
      LaunchKeepsLives(table, s.history, s.runs, s.nextItem, s.nextRun,
                       Run(c, s.queue[c].id, s.queue[c].waited, start), s'.history);
      assert s'.queue == s.queue[c := WithStatus(s.queue[c], Running)];
    }
  }

  lemma RemoveRunOf(runs: map<nat, Run>, rid: nat, c: string, id: nat)
    requires rid in runs
    ensures RunOf(runs - {rid}, c, id) ==> RunOf(runs, c, id)
    ensures RunOf(runs, c, id) && !(runs[rid].cmd == c && runs[rid].item == id) ==> RunOf(runs - {rid}, c, id)
  {
    if RunOf(runs, c, id) && !(runs[rid].cmd == c && runs[rid].item == id) {
      var q :| q in runs && runs[q].cmd == c && runs[q].item == id;
      assert q in runs - {rid};
    }
  }

  /** The events at the end of a run. */
  function EndEvents(r: Run, ok: bool): seq<Event> {
    [Finished(r.cmd, r.item, ok)] + if r.waited then [Closed(r.cmd, r.item)] else []
  }

  lemma AppendEnd(h: seq<Event>, r: Run, ok: bool, c: string, id: nat)
    ensures ItemEvents(h + EndEvents(r, ok), c, id)
            == if r.cmd == c && r.item == id then ItemEvents(h, c, id) + EndEvents(r, ok) else ItemEvents(h, c, id)
  {
    var f := Finished(r.cmd, r.item, ok);
    AppendEvent(h, f, c, id);
    if r.waited {
      AppendEvent(h + [f], Closed(r.cmd, r.item), c, id);
      assert h + EndEvents(r, ok) == h + [f] + [Closed(r.cmd, r.item)];
    } else {
      assert h + EndEvents(r, ok) == h + [f];
    }
  }

  lemma EndKeepsLives(table: Table, h: seq<Event>, runs: map<nat, Run>, nextItem: nat, rid: nat, ok: bool,
                      h': seq<Event>)
    requires Lives(table, h, runs, nextItem) && rid in runs && runs[rid].item < nextItem
    requires h' == h + EndEvents(runs[rid], ok)
    ensures Lives(table, h', runs - {rid}, nextItem)
    ensures forall c, id :: ItemEvents(h', c, id) == [] <== ItemEvents(h, c, id) == []
            && !(c == runs[rid].cmd && id == runs[rid].item)
    ensures forall c, id :: ItemEvents(h', c, id) != [] && NoRestart(table, c) ==> ItemEvents(h, c, id) != []
  {
    var r := runs[rid];
    forall c, id
      ensures ItemEvents(h', c, id)
              == if r.cmd == c && r.item == id then ItemEvents(h, c, id) + EndEvents(r, ok) else ItemEvents(h, c, id)
    {
      AppendEnd(h, r, ok, c, id);
    }
    forall c, id | NoRestart(table, c) ensures ItemLife(h', runs - {rid}, c, id) {
      assert ItemLife(h, runs, c, id);
      RemoveRunOf(runs, rid, c, id);
      if r.cmd == c && r.item == id {
        assert ItemEvents(h', c, id) == [Launched(c, id, r.waited)] + EndEvents(r, ok);
        
      }
    }
  }

  lemma SettleKeepsSettled(table: Table, s: State, c: string, outcome: Outcome, s': State)
    requires LaunchedSettled(table, s.queue, s.history) && c in table && s' == Settle(table, s, c, outcome)
    ensures LaunchedSettled(table, s'.queue, s.history)
    ensures s'.queue.Keys == s.queue.Keys && forall d :: d in s.queue ==> s'.queue[d].id == s.queue[d].id
    ensures s'.history == s.history && s'.runs == s.runs && s'.pass == s.pass && s'.nextItem == s.nextItem
  {
  }

  lemma FinishKeepsChannels(table: Table, s: State, rid: nat, outcome: Outcome, s': State)
    requires Valid(table, s) && ChannelInvariant(table, s) && rid in s.runs && s' == FinishRun(table, s, rid, outcome)
    ensures ChannelInvariant(table, s')
  {
    var ended := EndRun(table, s, rid, outcome);
    assert ended.history == s.history + EndEvents(s.runs[rid], outcome == Ok);
    EndKeepsLives(table, s.history, s.runs, s.nextItem, rid, outcome == Ok, ended.history);
    SettleKeepsSettled(table, ended, s.runs[rid].cmd, outcome, s');
  }

  lemma ObserveKeepsChannels(table: Table, s: State, step: Step, s': State)
    requires ChannelInvariant(table, s) && Enabled(table, s, step) && (step.ObserveRunning? || step.ObserveDone?)
    requires s' == Apply(table, s, step)
    ensures ChannelInvariant(table, s')
  {
    forall c, id ensures RunOf(s'.runs, c, id) <==> RunOf(s.runs, c, id) {
      if RunOf(s.runs, c, id) {
        var q :| q in s.runs && s.runs[q].cmd == c && s.runs[q].item == id;
        assert s'.runs[q].cmd == c && s'.runs[q].item == id;
      }
    }
    forall c, id | NoRestart(table, c) ensures ItemLife(s'.history, s'.runs, c, id) {
      assert ItemLife(s.history, s.runs, c, id);
    }
  }

  lemma StepKeepsChannels(table: Table, s: State, step: Step, s': State)
    requires Valid(table, s) && ChannelInvariant(table, s) && Enabled(table, s, step) && s' == Apply(table, s, step)
    ensures ChannelInvariant(table, s')
  {
    match step
    case Add(c, force, waited) => AddKeepsChannels(table, s, c, force, waited, s');
    case DecideRemember(c) =>
    case RememberDone(c) => RememberKeepsChannels(table, s, c, s');
    case BeginPass => PassStepKeepsChannels(table, s, step, s');
    case VisitCommand(c) => PassStepKeepsChannels(table, s, step, s');
    case Advance => AdvanceKeepsChannels(table, s, s');
    case Launch(start) => LaunchKeepsChannels(table, s, start, s');
    case EndPass => PassStepKeepsChannels(table, s, step, s');
    case ObserveRunning(rid) => ObserveKeepsChannels(table, s, step, s');
    case ObserveDone(rid) => ObserveKeepsChannels(table, s, step, s');
    case Finish(rid, outcome) => FinishKeepsChannels(table, s, rid, outcome, s');
    case StopRuntime(stopped) =>
  }

  lemma {:induction false} RunKeepsChannels(table: Table, s: State, steps: seq<Step>)
    requires Valid(table, s) && ChannelInvariant(table, s) && CanRun(table, s, steps)
    ensures ChannelInvariant(table, After(table, s, steps))
    decreases |steps|
  {
    if steps != [] {
      var s' := Apply(table, s, steps[0]);
      StepKeepsValid(table, s, steps[0]);
      StepKeepsChannels(table, s, steps[0], s');
      RunKeepsChannels(table, s', steps[1..]);
    }
  }

  /** From any hydrated session and over every interleaving, also the unsafe ones: a queue item of
      a command that is not in restart mode is launched at most once, its channel is closed at
      most once and only directly after its own run, and once the run has ended it is closed. */
  lemma DoneChannelClosedOnce(table: Table, s: State, steps: seq<Step>, c: string, id: nat)
    requires Quiet(table, s) && s.history == [] && CanRun(table, s, steps)
    requires c in table && table[c].run != Restart
    ensures ItemLife(After(table, s, steps).history, After(table, s, steps).runs, c, id)
  {
    RunKeepsChannels(table, s, steps);
  }

  // ---- restart items ---------------------------------------------------------------------------------

  lemma {:induction false} RestartFailed(table: Table, s: State, rid: nat, c: string, s': State)
    requires rid in s.runs && ValidRun(table, s.runs[rid]) && s.runs[rid].cmd == c && c in s.queue
             && table[c].run == Restart
    requires s.runs[rid].waited && s' == FinishRun(table, s, rid, Outcome.Failed)
    ensures s'.queue == s.queue[c := WithStatus(s.queue[c], Waiting)] && s'.pass == s.pass
    ensures s'.history == s.history + [Finished(c, s.runs[rid].item, false), Closed(c, s.runs[rid].item)]
  {
  }

  /** The failing end of a run of a restart command puts its item back in line. */
  lemma {:induction false} RestartFailure(table: Table, s: State, rid: nat, c: string) returns (s': State)
    requires Sound(table, s) && s.pass.Idle? && rid in s.runs && s.runs[rid].cmd == c && table[c].run == Restart
    requires s.runs[rid].waited
    ensures Leads(table, PLAIN, s, s') && InLine(table, s', c)
    ensures s'.queue[c].id == s.queue[c].id && s'.queue[c].waited == s.queue[c].waited
    ensures s'.history == s.history + [Finished(c, s.runs[rid].item, false), Closed(c, s.runs[rid].item)]
  {
    s' := FinishRun(table, s, rid, Outcome.Failed);
    RestartFailed(table, s, rid, c, s');
    LeadsByStep(table, PLAIN, s, Finish(rid, Outcome.Failed), s');
    LeadsKeepsSound(table, PLAIN, s, s');
  }

  /** A waited item of a restart command is in line, and its needs can be brought to Done. */
  ghost predicate RestartInLine(table: Table, group: set<string>, s: State, c: string) {
    InLine(table, s, c) && table[c].run == Restart && s.queue[c].waited && Drivable(table, group, c)
  }

  /** One failing run of such an item closes its channel and puts the same item in line again. */
  lemma {:induction false} OneRestart(table: Table, group: set<string>, s: State, c: string) returns (s': State)
    requires RestartInLine(table, group, s, c)
    ensures Leads(table, PLAIN, s, s') && RestartInLine(table, group, s', c) && s'.queue[c].id == s.queue[c].id
    ensures s.history <= s'.history && |s.history| < |s'.history|
    ensures s'.history[|s'.history| - 1] == Closed(c, s.queue[c].id)
  {
    var settled := GroupSettles(table, group, s);
    ElsewhereKept(group, s, settled, c);
    var launched := WaitingIsLaunched(table, group, settled, c);
    LeadsTransitive(table, PLAIN, s, settled, launched);
    var rid :| rid in launched.runs && launched.runs[rid].cmd == c
               && launched.runs[rid].item == settled.queue[c].id
                 && launched.runs[rid].waited == settled.queue[c].waited;
    s' := RestartFailure(table, launched, rid, c);
    LeadsTransitive(table, PLAIN, s, launched, s');
    LeadsGrowsHistory(table, PLAIN, s, launched);
  }

  /** The channel of item `id` of `c` has been closed before, and the last event closes it again: the
      point at which the process ends, because a channel cannot be closed twice. */
  ghost predicate ClosedAgain(h: seq<Event>, c: string, id: nat) {
    |h| > 0 && h[|h| - 1] == Closed(c, id) && exists i :: 0 <= i < |h| - 1 && h[i] == Closed(c, id)
  }

  /** Restart mode is where the claim ends: a restart command reuses its item, so from every idle state
      in which a waited one is in line, two failing runs close its channel twice. */
  lemma {:induction false} RestartClosesTwice(table: Table, group: set<string>, s: State, c: string) returns (s': State)
    requires RestartInLine(table, group, s, c)
    ensures Leads(table, PLAIN, s, s') && ClosedAgain(s'.history, c, s.queue[c].id)
  {
    var once := OneRestart(table, group, s, c);
    s' := OneRestart(table, group, once, c);
    LeadsTransitive(table, PLAIN, s, once, s');
    assert s'.history[|once.history| - 1] == Closed(c, s.queue[c].id);
  }

  /** In particular from an empty session, for every restart command whose needs can be brought to Done. */
  lemma {:induction false} WaitedRestartClosesTwice(table: Table, group: set<string>, c: string) returns (s': State)
    requires ValidTable(table) && c in table && table[c].run == Restart && Drivable(table, group, c)
    ensures Leads(table, PLAIN, INIT, s') && ClosedAgain(s'.history, c, 0)
  {
    var added := AddItem(table, INIT, c, false, true);
    FirstAdd(table, c, true, added);
    s' := RestartClosesTwice(table, group, added, c);
    LeadsTransitive(table, PLAIN, INIT, added, s');
  }

  lemma {:induction false} ClosesInEvents(h: seq<Event>, c: string, id: nat, k: nat)
    requires k < |h| && h[k] == Closed(c, id)
    ensures h[k] in ItemEvents(h, c, id)
    decreases |h|
  {
    if k < |h| - 1 {
      ClosesInEvents(h[..|h| - 1], c, id, k);
    }
  }

  /** What happened to an item closes its channel twice only if it happened twice. */
  lemma {:induction false} TwoCloses(h: seq<Event>, c: string, id: nat)
    requires ClosedAgain(h, c, id)
    ensures Closed(c, id) in ItemEvents(h, c, id) && !CompleteLife(ItemEvents(h, c, id), c, id)
  {
    var i :| 0 <= i < |h| - 1 && h[i] == Closed(c, id);
    ClosesInEvents(h[..|h| - 1], c, id, i);
    ClosesInEvents(h, c, id, |h| - 1);
  }

  /** Outside restart mode this never happens, from any hydrated session and over every interleaving. */
  lemma {:induction false} NeverClosedAgain(table: Table, s: State, steps: seq<Step>, c: string, id: nat)
    requires Quiet(table, s) && s.history == [] && CanRun(table, s, steps)
    requires c in table && table[c].run != Restart
    ensures !ClosedAgain(After(table, s, steps).history, c, id)
  {
    var h := After(table, s, steps).history;
    DoneChannelClosedOnce(table, s, steps, c, id);
    if ClosedAgain(h, c, id) {
      TwoCloses(h, c, id);
    }
  }
}
