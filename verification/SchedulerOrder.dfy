/** Dependencies happen before: in every run that starts from an empty session, a command is
    launched only after every command reachable through its needs has completed successfully. */
module SchedulerOrder {
  import opened Domain
  import opened CommandStatus
  import opened Needs
  import opened Scheduler
  import opened SchedulerInvariant

  /** Some backend run of `c` ended successfully. */
  ghost predicate Succeeded(h: seq<Event>, c: string) {
    exists k :: 0 <= k < |h| && h[k].Finished? && h[k].cmd == c && h[k].ok
  }

  ghost predicate WasLaunched(h: seq<Event>, c: string) {
    exists k :: 0 <= k < |h| && h[k].Launched? && h[k].cmd == c
  }

  /** Every launch comes after a success of each direct dependency but the excused ones, every end after a
      launch. */
  ghost predicate Ordered(table: Table, h: seq<Event>, excused: set<string>) {
    forall k :: 0 <= k < |h| ==>
      && (h[k].Launched? ==> h[k].cmd in table && forall d :: d in table[h[k].cmd].needs && d !in excused ==>
          Succeeded(h[..k], d))
      && (h[k].Finished? ==> WasLaunched(h[..k], h[k].cmd))
  }

  /** The last procedure of `c` is persisted as Done. */
  ghost predicate LastDone(table: Table, statuses: map<string, ProcedureStatuses>, c: string)
    requires c in table && |table[c].procedures| > 0
  {
    var last := table[c].procedures[|table[c].procedures| - 1].name;
    last in StatusesOf(statuses, c) && StatusesOf(statuses, c)[last] == Done
  }

  ghost predicate DoneMeansSucceeded(table: Table, statuses: map<string, ProcedureStatuses>, h: seq<Event>,
                                     excused: set<string>)
    requires ValidTable(table)
  {
    forall c :: c in table && c !in excused && LastDone(table, statuses, c) ==> Succeeded(h, c)
  }

  ghost predicate RememberedSucceeded(queue: map<string, Item>, deciding: set<string>, h: seq<Event>,
                                      excused: set<string>) {
    && (forall c :: c in queue && c !in excused && queue[c].rememberDone ==> Succeeded(h, c))
    && (forall c :: c in deciding && c !in excused ==> Succeeded(h, c))
  }

  ghost predicate CheckedSucceeded(table: Table, pass: Pass, h: seq<Event>, excused: set<string>) {
    pass.Active? && pass.visit.Checking? && pass.visit.cmd in table && pass.visit.ready ==>
      forall j :: 0 <= j < pass.visit.idx && j < |table[pass.visit.cmd].needs|
                  && table[pass.visit.cmd].needs[j] !in excused ==>
                  Succeeded(h, table[pass.visit.cmd].needs[j])
  }

  ghost predicate OrderInvariant(table: Table, s: State, excused: set<string>) {
    Valid(table, s) && Ordering(table, s, excused)
  }

  ghost predicate Ordering(table: Table, s: State, excused: set<string>)
    requires ValidTable(table)
  {
    && DoneMeansSucceeded(table, s.statuses, s.history, excused)
    && RememberedSucceeded(s.queue, s.deciding, s.history, excused)
    && CheckedSucceeded(table, s.pass, s.history, excused)
    && Ordered(table, s.history, excused)
    && (forall rid :: rid in s.runs ==> WasLaunched(s.history, s.runs[rid].cmd))
  }

  lemma HistoryGrows(h: seq<Event>, e: Event)
    ensures forall c :: Succeeded(h, c) ==> Succeeded(h + [e], c)
    ensures forall c :: WasLaunched(h, c) ==> WasLaunched(h + [e], c)
    ensures e.Finished? && e.ok ==> Succeeded(h + [e], e.cmd)
    ensures e.Launched? ==> WasLaunched(h + [e], e.cmd)
  {
    var h' := h + [e];
    assert h'[|h|] == e;
    forall c | Succeeded(h, c) ensures Succeeded(h', c) {
      var k :| 0 <= k < |h| && h[k].Finished? && h[k].cmd == c && h[k].ok;
      assert h'[k] == h[k];
    }
    forall c | WasLaunched(h, c) ensures WasLaunched(h', c) {
      var k :| 0 <= k < |h| && h[k].Launched? && h[k].cmd == c;
      assert h'[k] == h[k];
    }
  }

  lemma OrderedGrows(table: Table, h: seq<Event>, e: Event, excused: set<string>)
    requires Ordered(table, h, excused)
    requires e.Launched? ==> e.cmd in table && forall d :: d in table[e.cmd].needs && d !in excused ==> Succeeded(h, d)
    requires e.Finished? ==> WasLaunched(h, e.cmd)
    ensures Ordered(table, h + [e], excused)
  {
    forall k | 0 <= k < |h + [e]|
      ensures (h + [e])[..k] == if k < |h| then h[..k] else h
    {
    }
  }

  /** A status read as Done proves an earlier success. */
  lemma ReadDone(table: Table, s: State, c: string, excused: set<string>)
    requires OrderInvariant(table, s, excused)
    requires ItemStatus(table, s, c) == Some(Done) || DerivedStatus(table, s.statuses, c) == Some(Done)
    ensures c !in excused ==> Succeeded(s.history, c)
  {
    if DerivedStatus(table, s.statuses, c) == Some(Done) {
      assert LastDone(table, s.statuses, c);
    }
  }

  lemma SetCommandKeepsDone(table: Table, statuses: map<string, ProcedureStatuses>, c: string, status: Status,
                            h: seq<Event>, excused: set<string>)
    requires ValidTable(table) && DoneMeansSucceeded(table, statuses, h, excused)
    requires status == Done && c !in excused ==> Succeeded(h, c)
    ensures DoneMeansSucceeded(table, SetCommand(table, statuses, c, status), h, excused)
  {
    var statuses' := SetCommand(table, statuses, c, status);
    forall d | d in table && d !in excused && LastDone(table, statuses', d) ensures Succeeded(h, d) {
      if d != c {
        assert LastDone(table, statuses, d);
      } else {
        var last := table[c].procedures[|table[c].procedures| - 1].name;
        assert last in AllProcedures(table[c], status);
      }
    }
  }

  lemma SetProcedureKeepsDone(table: Table, statuses: map<string, ProcedureStatuses>, c: string, i: nat,
                              status: Status, h: seq<Event>, excused: set<string>)
    requires ValidTable(table) && DoneMeansSucceeded(table, statuses, h, excused)
    requires c in table && i < |table[c].procedures|
    requires status == Done && i == |table[c].procedures| - 1 && c !in excused ==> Succeeded(h, c)
    ensures DoneMeansSucceeded(table, SetProcedure(statuses, c, table[c].procedures[i].name, status), h, excused)
  {
    var statuses' := SetProcedure(statuses, c, table[c].procedures[i].name, status);
    forall d | d in table && d !in excused && LastDone(table, statuses', d) ensures Succeeded(h, d) {
      if d != c || !(status == Done && i == |table[c].procedures| - 1) {
        assert LastDone(table, statuses, d);
      }
    }
  }

  lemma {:induction false} AddKeepsOrder(table: Table, s: State, c: string, force: bool, waited: bool,
                                         excused: set<string>)
    requires OrderInvariant(table, s, excused)
    ensures OrderInvariant(table, AddItem(table, s, c, force, waited), excused)
  {
    AddKeepsValid(table, s, c, force, waited);
    SetCommandKeepsDone(table, s.statuses, c, Waiting, s.history, excused);
  }

  lemma {:induction false} CheckedOneMore(table: Table, pass: Pass, pass': Pass, h: seq<Event>, excused: set<string>)
    requires CheckedSucceeded(table, pass, h, excused) && pass.Active? && pass.visit.Checking?
    requires pass'.Active? && pass'.visit.Checking? && pass'.visit.cmd == pass.visit.cmd
    requires pass'.visit.ready ==> pass.visit.ready
    requires pass'.visit.idx == pass.visit.idx ||
             (pass'.visit.idx == pass.visit.idx + 1 && pass.visit.cmd in table
              && pass.visit.idx < |table[pass.visit.cmd].needs|
              && (pass'.visit.ready && table[pass.visit.cmd].needs[pass.visit.idx] !in excused ==>
                    Succeeded(h, table[pass.visit.cmd].needs[pass.visit.idx])))
    ensures CheckedSucceeded(table, pass', h, excused)
  {
  }

  lemma {:induction false} AdvanceKeepsChecked(table: Table, s: State, s': State, excused: set<string>)
    requires OrderInvariant(table, s, excused) && AtDependency(table, s) && s.pass.visit.phase != Missing
    requires s' == AdvanceCheck(table, s)
    ensures CheckedSucceeded(table, s'.pass, s.history, excused)
    ensures s'.statuses == s.statuses && s'.queue == s.queue && s'.deciding == s.deciding
    ensures s'.history == s.history && s'.runs == s.runs
  {
    var dep := table[s.pass.visit.cmd].needs[s.pass.visit.idx];
    if ItemStatus(table, s, dep) == Some(Done) || DerivedStatus(table, s.statuses, dep) == Some(Done) {
      ReadDone(table, s, dep, excused);
    }
    CheckedOneMore(table, s.pass, s'.pass, s.history, excused);
  }

  lemma NextDepKeepsOrder(table: Table, s: State, excused: set<string>)
    requires OrderInvariant(table, s, excused) && AtDependency(table, s)
    ensures OrderInvariant(table, NextDep(s, false), excused)
  {
  }

  lemma {:induction false} AdvanceKeepsOrder(table: Table, s: State, s': State, excused: set<string>)
    requires OrderInvariant(table, s, excused) && AtDependency(table, s) && s' == AdvanceCheck(table, s)
    ensures OrderInvariant(table, s', excused)
  {
    if s.pass.visit.phase == Missing {
      var dep := table[s.pass.visit.cmd].needs[s.pass.visit.idx];
      AddKeepsOrder(table, s, dep, false, false, excused);
      assert AddItem(table, s, dep, false, false).pass == s.pass;
      NextDepKeepsOrder(table, AddItem(table, s, dep, false, false), excused);
    } else {
      AdvanceKeepsValid(table, s);
      AdvanceKeepsChecked(table, s, s', excused);
    }
  }

  /** The history part of a launch. */
  lemma LaunchHistory(table: Table, h: seq<Event>, e: Event, h': seq<Event>, excused: set<string>)
    requires Ordered(table, h, excused) && e.Launched? && h' == h + [e]
    requires e.cmd in table && forall d :: d in table[e.cmd].needs && d !in excused ==> Succeeded(h, d)
    ensures Ordered(table, h', excused) && WasLaunched(h', e.cmd)
    ensures forall c :: Succeeded(h, c) ==> Succeeded(h', c)
    ensures forall c :: WasLaunched(h, c) ==> WasLaunched(h', c)
  {
    HistoryGrows(h, e);
    OrderedGrows(table, h, e, excused);
  }

  /** More events keep what the statuses and the queue say. */
  lemma {:induction false} MoreSucceeded(table: Table, s: State, queue: map<string, Item>, h: seq<Event>,
                                         excused: set<string>)
    requires ValidTable(table) && DoneMeansSucceeded(table, s.statuses, s.history, excused)
             && RememberedSucceeded(s.queue, s.deciding, s.history, excused)
    requires forall c :: Succeeded(s.history, c) ==> Succeeded(h, c)
    requires forall c :: c in queue && queue[c].rememberDone ==> c in s.queue && s.queue[c].rememberDone
    ensures DoneMeansSucceeded(table, s.statuses, h, excused) && RememberedSucceeded(queue, s.deciding, h, excused)
  {
  }

  lemma {:induction false} LaunchKeepsOrdering(table: Table, s: State, start: nat, s': State, excused: set<string>)
    requires OrderInvariant(table, s, excused) && Checked(table, s) && s' == LaunchChecked(table, s, start)
    ensures Ordering(table, s', excused)
  {
    LaunchShape(table, s, start, s');
    var c := s.pass.visit.cmd;
    if s.pass.visit.ready {
      LaunchHistory(table, s.history, Launched(c, s.queue[c].id, s.queue[c].waited), s'.history, excused);
    }
    MoreSucceeded(table, s, s'.queue, s'.history, excused);
  }

  lemma {:induction false} LaunchKeepsOrder(table: Table, s: State, start: nat, s': State, excused: set<string>)
    requires OrderInvariant(table, s, excused) && Checked(table, s) && start < |table[s.pass.visit.cmd].procedures|
    requires s' == LaunchChecked(table, s, start)
    ensures OrderInvariant(table, s', excused)
  {
    LaunchKeepsValid(table, s, start);
    LaunchKeepsOrdering(table, s, start, s', excused);
  }

  lemma CompleteKeepsDone(table: Table, s: State, r: Run, h: seq<Event>, excused: set<string>)
    requires Valid(table, s) && ValidRun(table, r)
    requires DoneMeansSucceeded(table, s.statuses, h, excused)
    requires r.pos + 1 == |table[r.cmd].procedures| ==> Succeeded(h, r.cmd)
    ensures DoneMeansSucceeded(table, CompleteProcedure(table, s, r), h, excused)
  {
    SetProcedureKeepsDone(table, s.statuses, r.cmd, r.pos, Done, h, excused);
  }

  /** The history part of the end of a run. */
  lemma FinishHistory(table: Table, h: seq<Event>, r: Run, ok: bool, h': seq<Event>, excused: set<string>)
    requires Ordered(table, h, excused) && WasLaunched(h, r.cmd)
    requires h' == h + [Finished(r.cmd, r.item, ok)] + if r.waited then [Closed(r.cmd, r.item)] else []
    ensures Ordered(table, h', excused)
    ensures forall c :: Succeeded(h, c) ==> Succeeded(h', c)
    ensures forall c :: WasLaunched(h, c) ==> WasLaunched(h', c)
    ensures ok ==> Succeeded(h', r.cmd)
  {
    var e := Finished(r.cmd, r.item, ok);
    HistoryGrows(h, e);
    OrderedGrows(table, h, e, excused);
    if r.waited {
      HistoryGrows(h + [e], Closed(r.cmd, r.item));
      OrderedGrows(table, h + [e], Closed(r.cmd, r.item), excused);
    } else {
      assert h' == h + [e];
    }
  }

  lemma EndKeepsDone(table: Table, s: State, rid: nat, outcome: Outcome, h: seq<Event>, excused: set<string>)
    requires Valid(table, s) && rid in s.runs
    requires DoneMeansSucceeded(table, s.statuses, h, excused)
    requires outcome == Ok ==> Succeeded(h, s.runs[rid].cmd)
    ensures DoneMeansSucceeded(table, EndRun(table, s, rid, outcome).statuses, h, excused)
  {
    if outcome == Ok {
      CompleteKeepsDone(table, s, s.runs[rid], h, excused);
    } else {
      SetCommandKeepsDone(table, s.statuses, s.runs[rid].cmd, Error, h, excused);
    }
  }

  lemma {:induction false} SetQueueStatusKeepsOrder(table: Table, s: State, c: string, status: Status,
                                                    excused: set<string>)
    requires OrderInvariant(table, s, excused) && c in table
    requires status == Waiting || status == Running || (status == Done && Succeeded(s.history, c))
    ensures OrderInvariant(table, SetQueueStatus(table, s, c, status), excused)
  {
    SetQueueStatusKeepsValid(table, s, c, status);
    SetCommandKeepsDone(table, s.statuses, c, status, s.history, excused);
  }

  lemma SetQueueErrorKeepsOrder(table: Table, s: State, c: string, excused: set<string>)
    requires OrderInvariant(table, s, excused) && c in table
    ensures OrderInvariant(table, SetQueueError(table, s, c), excused)
  {
    SetQueueErrorKeepsValid(table, s, c);
    SetCommandKeepsDone(table, s.statuses, c, Error, s.history, excused);
  }

  lemma {:induction false} SettleKeepsOrder(table: Table, s: State, c: string, outcome: Outcome, excused: set<string>)
    requires OrderInvariant(table, s, excused) && c in table
    requires outcome == Ok ==> Succeeded(s.history, c)
    ensures OrderInvariant(table, Settle(table, s, c, outcome), excused)
  {
    if outcome == FailedForGood || (outcome == Failed && table[c].run != Restart) {
      SetQueueErrorKeepsOrder(table, s, c, excused);
    } else if table[c].run != Persistent {
      SetQueueStatusKeepsOrder(table, s, c, if table[c].run == Restart then Waiting else Done, excused);
    }
  }

  lemma {:induction false} FinishKeepsOrder(table: Table, s: State, rid: nat, outcome: Outcome, excused: set<string>)
    requires OrderInvariant(table, s, excused) && rid in s.runs
    ensures OrderInvariant(table, FinishRun(table, s, rid, outcome), excused)
  {
    FinishKeepsValid(table, s, rid, outcome);
    var ended := EndRun(table, s, rid, outcome);
    FinishHistory(table, s.history, s.runs[rid], outcome == Ok, ended.history, excused);
    EndKeepsDone(table, s, rid, outcome, ended.history, excused);
    SettleKeepsOrder(table, ended, s.runs[rid].cmd, outcome, excused);
  }

  lemma ObserveKeepsOrder(table: Table, s: State, step: Step, excused: set<string>)
    requires OrderInvariant(table, s, excused) && Enabled(table, s, step) && (step.ObserveRunning? || step.ObserveDone?)
    ensures OrderInvariant(table, Apply(table, s, step), excused)
  {
    ObserveKeepsValid(table, s, step);
    var r := s.runs[step.run];
    SetProcedureKeepsDone(table, s.statuses, r.cmd, r.pos, Running, s.history, excused);
    if step.ObserveDone? {
      CompleteKeepsDone(table, s, r, s.history, excused);
    }
  }

  lemma StopKeepsOrder(table: Table, s: State, stopped: bool, excused: set<string>)
    requires OrderInvariant(table, s, excused) && Enabled(table, s, StopRuntime(stopped))
    ensures OrderInvariant(table, Apply(table, s, StopRuntime(stopped)), excused)
  {
    var kept := KeptByStop(table, s.statuses);
    forall c | c in table && c !in excused && LastDone(table, kept, c) ensures Succeeded(s.history, c) {
      assert LastDone(table, s.statuses, c);
    }
  }

  lemma RememberKeepsOrder(table: Table, s: State, c: string, excused: set<string>)
    requires OrderInvariant(table, s, excused) && c in s.deciding
    ensures OrderInvariant(table, Remember(s, c), excused)
  {
    RememberKeepsValid(table, s, c);
  }

  lemma PassStepKeepsOrder(table: Table, s: State, step: Step, excused: set<string>)
    requires OrderInvariant(table, s, excused) && Enabled(table, s, step)
    requires step.BeginPass? || step.VisitCommand? || step.EndPass?
    ensures OrderInvariant(table, Apply(table, s, step), excused)
  {
    if step.VisitCommand? {
      VisitKeepsValid(table, s, step.cmd);
    }
  }

  lemma {:induction false} StepKeepsOrder(table: Table, s: State, step: Step, excused: set<string>)
    requires OrderInvariant(table, s, excused) && Enabled(table, s, step)
    ensures OrderInvariant(table, Apply(table, s, step), excused)
  {
    match step
    case Add(c, force, waited) => AddKeepsOrder(table, s, c, force, waited, excused);
    case DecideRemember(c) => ReadDone(table, s, c, excused);
    case RememberDone(c) => RememberKeepsOrder(table, s, c, excused);
    case BeginPass => PassStepKeepsOrder(table, s, step, excused);
    case VisitCommand(c) => PassStepKeepsOrder(table, s, step, excused);
    case Advance => AdvanceKeepsOrder(table, s, AdvanceCheck(table, s), excused);
    case Launch(start) => LaunchKeepsOrder(table, s, start, LaunchChecked(table, s, start), excused);
    case EndPass => PassStepKeepsOrder(table, s, step, excused);
    case ObserveRunning(rid) => ObserveKeepsOrder(table, s, step, excused);
    case ObserveDone(rid) => ObserveKeepsOrder(table, s, step, excused);
    case Finish(rid, outcome) => FinishKeepsOrder(table, s, rid, outcome, excused);
    case StopRuntime(stopped) => StopKeepsOrder(table, s, stopped, excused);
  }

  lemma {:induction false} RunKeepsOrder(table: Table, s: State, steps: seq<Step>, excused: set<string>)
    requires OrderInvariant(table, s, excused) && CanRun(table, s, steps)
    ensures OrderInvariant(table, After(table, s, steps), excused)
    decreases |steps|
  {
    if steps != [] {
      StepKeepsOrder(table, s, steps[0], excused);
      RunKeepsOrder(table, Apply(table, s, steps[0]), steps[1..], excused);
    }
  }

  /** In an ordered history a launch is preceded by a success of everything on a path from it. */
  lemma {:induction false} PathSucceeded(table: Table, h: seq<Event>, k: nat, p: seq<string>)
    requires Ordered(table, h, {}) && k < |h| && h[k].Launched?
    requires Path(table, p) && |p| >= 2 && p[0] == h[k].cmd
    ensures Succeeded(h[..k], p[|p| - 1])
    decreases |p|
  {
    assert Succeeded(h[..k], p[1]);
    if |p| > 2 {
      var j :| 0 <= j < k && h[..k][j].Finished? && h[..k][j].cmd == p[1] && h[..k][j].ok;
      var i :| 0 <= i < j && h[..j][i].Launched? && h[..j][i].cmd == p[1];
      PathSucceeded(table, h, i, p[1..]);
      var m :| 0 <= m < i && h[..i][m].Finished? && h[..i][m].cmd == p[|p| - 1] && h[..i][m].ok;
      assert h[..k][m] == h[..i][m];
    }
  }

  /** Dependency closure happens before: over every interleaving that starts from an empty
      session, whatever is reachable through needs has succeeded before a launch. */
  lemma DependenciesSucceedFirst(table: Table, steps: seq<Step>, k: nat, d: string)
    requires ValidTable(table) && CanRun(table, INIT, steps)
    requires k < |After(table, INIT, steps).history| && After(table, INIT, steps).history[k].Launched?
    requires Reaches(table, After(table, INIT, steps).history[k].cmd, d)
    ensures Succeeded(After(table, INIT, steps).history[..k], d)
  {
    var h := After(table, INIT, steps).history;
    RunKeepsOrder(table, INIT, steps, {});
    var p :| PathBetween(table, p, h[k].cmd, d);
    PathSucceeded(table, h, k, p);
  }

  lemma {:induction false} NoLaunchOnCycle(table: Table, h: seq<Event>, k: nat)
    requires Ordered(table, h, {}) && k < |h| && h[k].Launched?
    ensures !Reaches(table, h[k].cmd, h[k].cmd)
    decreases k
  {
    var c := h[k].cmd;
    if Reaches(table, c, c) {
      var p :| PathBetween(table, p, c, c);
      PathSucceeded(table, h, k, p);
      var j :| 0 <= j < k && h[..k][j].Finished? && h[..k][j].cmd == c && h[..k][j].ok;
      var i :| 0 <= i < j && h[..j][i].Launched? && h[..j][i].cmd == c;
      NoLaunchOnCycle(table, h, i);
    }
  }

  /** A command that needs itself, directly or not, is never launched from an empty session. */
  lemma CyclesNeverLaunch(table: Table, steps: seq<Step>, c: string)
    requires ValidTable(table) && CanRun(table, INIT, steps)
    requires Reaches(table, c, c)
    ensures !WasLaunched(After(table, INIT, steps).history, c)
  {
    var h := After(table, INIT, steps).history;
    RunKeepsOrder(table, INIT, steps, {});
    if WasLaunched(h, c) {
      var k :| 0 <= k < |h| && h[k].Launched? && h[k].cmd == c;
      NoLaunchOnCycle(table, h, k);
    }
  }
}
