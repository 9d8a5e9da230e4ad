/** What one undisturbed pass does for a group of commands that is closed under needs: it launches one of
    them or queues a new one unless all that are queued are done, whatever other commands do. */
module SchedulerPass {
  import opened Domain
  import opened CommandStatus
  import opened Needs
  import opened Scheduler
  import opened SchedulerInvariant
  import opened SchedulerSingleRun

  /** No pass is active and no item of the group is in flight or has failed. */
  ghost predicate RestedIn(table: Table, group: set<string>, s: State) {
    && Valid(table, s) && s.pass.Idle?
    && forall c :: c in group && c in s.queue ==> !s.queue[c].inFlight && !s.queue[c].err
  }

  // ---- what is left to do ---------------------------------------------------------------------

  function Requested(queue: map<string, Item>): set<string> {
    set c | c in queue && queue[c].runRequested
  }

  /** Two units for a command of the group that is not queued, one for a requested run. */
  function Todo(group: set<string>, queue: map<string, Item>): nat {
    2 * |group - queue.Keys| + |Requested(queue) * group|
  }

  lemma SubsetSizeOrEqual(a: set<string>, b: set<string>)
    requires a <= b
    ensures |a| <= |b|
  {
    if a != b {
      SubsetSize(a, b);
    }
  }

  lemma TodoBound(group: set<string>, queue: map<string, Item>)
    ensures Todo(group, queue) <= 2 * |group|
  {
    var queued := group * queue.Keys;
    assert group == (group - queue.Keys) + queued;
    assert Requested(queue) * group <= queued;
    SubsetSizeOrEqual(Requested(queue) * group, queued);
  }

  /** No item of the group has gone, and no run of one was requested anew. */
  ghost predicate NoNewRequests(group: set<string>, queue: map<string, Item>, queue': map<string, Item>) {
    forall c :: c in group && c in queue ==> c in queue' && (queue'[c].runRequested ==> queue[c].runRequested)
  }

  lemma {:induction false} RequestsLeft(group: set<string>, queue: map<string, Item>, queue': map<string, Item>)
    requires NoNewRequests(group, queue, queue')
    ensures |Requested(queue') * group| + |group - queue'.Keys|
         <= |Requested(queue) * group * Requested(queue')| + |group - queue.Keys|
    ensures |group - queue'.Keys| <= |group - queue.Keys|
  {
    var missing, missing' := group - queue.Keys, group - queue'.Keys;
    var kept := Requested(queue) * group * Requested(queue');
    assert missing == missing' + (missing - missing');
    assert Requested(queue') * group <= kept + (missing - missing');
    SubsetSizeOrEqual(Requested(queue') * group, kept + (missing - missing'));
  }

  lemma {:induction false} TodoNoMore(group: set<string>, queue: map<string, Item>, queue': map<string, Item>)
    requires NoNewRequests(group, queue, queue')
    ensures Todo(group, queue') <= Todo(group, queue)
  {
    RequestsLeft(group, queue, queue');
    SubsetSizeOrEqual(Requested(queue) * group * Requested(queue'), Requested(queue) * group);
  }

  /** A new item or a requested run that has been taken up leaves less to do. */
  lemma {:induction false} TodoDrops(group: set<string>, queue: map<string, Item>, queue': map<string, Item>, d: string)
    requires NoNewRequests(group, queue, queue') && d in group && d in queue'
    requires d !in queue || (queue[d].runRequested && !queue'[d].runRequested)
    ensures Todo(group, queue') < Todo(group, queue)
  {
    var requested, kept := Requested(queue) * group, Requested(queue) * group * Requested(queue');
    RequestsLeft(group, queue, queue');
    SubsetSizeOrEqual(kept, requested);
    if d in queue {
      assert d in requested && d !in kept;
      SubsetSize(kept, requested);
    } else {
      assert d in group - queue.Keys && group - queue'.Keys <= group - queue.Keys;
      SubsetSize(group - queue'.Keys, group - queue.Keys);
    }
  }

  // ---- what an uneventful pass has found out -----------------------------------------------------

  /** Nothing about the group has changed since `s0`. */
  ghost predicate SameIn(group: set<string>, s0: State, s: State) {
    forall c :: c in group ==>
      && (c in s.queue <==> c in s0.queue) && (c in s0.queue ==> s.queue[c] == s0.queue[c])
      && StatusesOf(s.statuses, c) == StatusesOf(s0.statuses, c)
  }

  lemma SameStatuses(table: Table, group: set<string>, s0: State, s: State, d: string)
    requires SameIn(group, s0, s) && d in group
    ensures d in s.queue <==> d in s0.queue
    ensures ItemStatus(table, s, d) == ItemStatus(table, s0, d)
    ensures DerivedStatus(table, s.statuses, d) == DerivedStatus(table, s0.statuses, d)
  {
  }

  /** The pass has no reason to run `c`, or is held back by a scheduled dependency that is not done. */
  ghost predicate Blocked(table: Table, s: State, c: string) {
    c in s.queue && c in table ==>
      || !Eligible(table[c], Snapshot(table, s)[c])
      || exists d :: d in table[c].needs && d in s.queue && ItemStatus(table, s, d) != Some(Done)
  }

  ghost predicate HeldBack(table: Table, s: State, c: string, idx: nat)
    requires c in table && idx <= |table[c].needs|
  {
    exists j :: 0 <= j < idx && table[c].needs[j] in s.queue && ItemStatus(table, s, table[c].needs[j]) != Some(Done)
  }

  /** What an uneventful pass knows about the command it is looking at. */
  ghost predicate VisitSoFar(table: Table, s: State, visit: Visit)
    requires visit.Checking?
  {
    && visit.cmd in table && visit.cmd in s.queue && visit.idx <= |table[visit.cmd].needs|
    && Eligible(table[visit.cmd], Snapshot(table, s)[visit.cmd])
    && (visit.idx == |table[visit.cmd].needs| ==> visit.phase == Look)
    && (!visit.ready ==> visit.phase == Missing || HeldBack(table, s, visit.cmd, visit.idx))
    && (visit.idx < |table[visit.cmd].needs| ==>
          var d := table[visit.cmd].needs[visit.idx];
          && (visit.phase == Scheduled ==> d in s.queue)
          && (visit.phase == Unscheduled ==> d !in s.queue)
          && (visit.phase == Missing ==> d !in s.queue && DerivedStatus(table, s.statuses, d) != Some(Done)))
  }

  ghost predicate KnownIn(table: Table, group: set<string>, s0: State, pass: Pass) {
    && pass.Active?
    && (forall c :: c in pass.pending && c in group ==> c in s0.queue && pass.pending[c] == Snapshot(table, s0)[c])
    && (pass.visit.Checking? && pass.visit.cmd in group ==> VisitSoFar(table, s0, pass.visit))
    && (forall c :: c in group && c in s0.queue && c !in pass.pending
                    && !(pass.visit.Checking? && pass.visit.cmd == c)
                    ==> Blocked(table, s0, c))
  }

  ghost predicate Uneventful(table: Table, group: set<string>, s0: State, s: State) {
    SameIn(group, s0, s) && KnownIn(table, group, s0, s.pass)
  }

  /** A dependency that a pass is about to queue is not queued yet. */
  ghost predicate PhaseFresh(table: Table, queue: map<string, Item>, pass: Pass) {
    pass.Active? && pass.visit.Checking? && pass.visit.cmd in table && pass.visit.idx < |table[pass.visit.cmd].needs|
    && (pass.visit.phase == Unscheduled || pass.visit.phase == Missing) ==>
      table[pass.visit.cmd].needs[pass.visit.idx] !in queue
  }

  /** Since `s0` a command of the group was queued anew, or launched for a reason it had then. */
  ghost predicate Progressed(table: Table, group: set<string>, s0: State, queue: map<string, Item>) {
    exists d :: d in group && d in queue
                && (d !in s0.queue || (queue[d].inFlight && d in table && Eligible(table[d], Snapshot(table, s0)[d])))
  }

  /** Either nothing has happened to the group yet, or it has made progress. */
  ghost predicate Attended(table: Table, group: set<string>, s0: State, s: State) {
    Uneventful(table, group, s0, s) || Progressed(table, group, s0, s.queue)
  }

  ghost predicate StaysInFlight(group: set<string>, queue: map<string, Item>, queue': map<string, Item>) {
    forall c :: c in group && c in queue && queue[c].inFlight ==> c in queue' && queue'[c].inFlight
  }

  /** The group does not get more to do, and nothing of it comes out of flight. */
  ghost predicate NoMore(table: Table, group: set<string>, s: State, s': State) {
    && PhaseFresh(table, s'.queue, s'.pass)
    && NoNewRequests(group, s.queue, s'.queue) && StaysInFlight(group, s.queue, s'.queue)
  }

  lemma {:induction false} StaysProgressed(table: Table, group: set<string>, s0: State, s: State, s': State)
    requires Progressed(table, group, s0, s.queue) && NoMore(table, group, s, s')
    ensures Progressed(table, group, s0, s'.queue)
  {
    var d :| d in group && d in s.queue
             && (d !in s0.queue || (s.queue[d].inFlight && d in table && Eligible(table[d], Snapshot(table, s0)[d])));
    assert d in s'.queue;
  }

  // ---- visiting -----------------------------------------------------------------------------------

  lemma {:induction false} VisitUneventful(table: Table, group: set<string>, s0: State, s: State, c: string, s': State)
    requires Valid(table, s0) && Valid(table, s) && Uneventful(table, group, s0, s)
    requires Enabled(table, s, VisitCommand(c)) && s' == VisitPending(table, s, c)
    ensures Uneventful(table, group, s0, s')
  {
    VisitShape(table, s, c, s');
  }

  // ---- checking a dependency -----------------------------------------------------------------------

  lemma {:induction false} HeldBackLonger(table: Table, s: State, c: string, idx: nat)
    requires c in table && idx < |table[c].needs|
    ensures HeldBack(table, s, c, idx) ==> HeldBack(table, s, c, idx + 1)
    ensures table[c].needs[idx] in s.queue && ItemStatus(table, s, table[c].needs[idx]) != Some(Done) ==>
              HeldBack(table, s, c, idx + 1)
  {
  }

  /** A read of a dependency in the group finds what was there at the start of the pass. */
  lemma {:induction false} CheckVisit(table: Table, group: set<string>, s0: State, s: State, visit': Visit)
    requires Cone(table, group) && SameIn(group, s0, s) && AtDependency(table, s) && s.pass.visit.phase != Missing
    requires s.pass.visit.cmd in group && VisitSoFar(table, s0, s.pass.visit)
    requires visit' == AdvanceCheck(table, s).pass.visit
    ensures visit'.Checking? && VisitSoFar(table, s0, visit')
  {
    var v := s.pass.visit;
    SameStatuses(table, group, s0, s, table[v.cmd].needs[v.idx]);
    HeldBackLonger(table, s0, v.cmd, v.idx);
  }

  lemma {:induction false} CheckUneventful(table: Table, group: set<string>, s0: State, s: State, s': State)
    requires Valid(table, s) && Cone(table, group) && Uneventful(table, group, s0, s)
    requires AtDependency(table, s) && s.pass.visit.phase != Missing && s' == AdvanceCheck(table, s)
    ensures Uneventful(table, group, s0, s')
  {
    CheckShape(table, s, s');
    assert s'.statuses == s.statuses;
    if s.pass.visit.cmd in group {
      CheckVisit(table, group, s0, s, s'.pass.visit);
    }
  }

  lemma {:induction false} CheckFresh(table: Table, s: State, s': State)
    requires AtDependency(table, s) && s.pass.visit.phase != Missing && s' == AdvanceCheck(table, s)
    requires PhaseFresh(table, s.queue, s.pass)
    ensures PhaseFresh(table, s.queue, s'.pass)
  {
  }

  /** Adding a dependency that is not queued. */
  lemma {:induction false} NewDependency(table: Table, s: State, d: string, s': State)
    requires d !in s.queue && s' == AddItem(table, s, d, false, false)
    ensures s'.pass == s.pass && s'.runs == s.runs
    ensures s'.queue == s.queue || s'.queue == s.queue[d := Item(s.nextItem, false, false, false, false, true)]
    ensures s'.queue == s.queue ==> s'.statuses == s.statuses
    ensures forall c :: c != d ==> StatusesOf(s'.statuses, c) == StatusesOf(s.statuses, c)
    ensures d in table && DerivedStatus(table, s.statuses, d) != Some(Done) ==> d in s'.queue
  {
  }

  lemma {:induction false} MissingNoMore(table: Table, group: set<string>, s: State, s': State)
    requires AtDependency(table, s) && s.pass.visit.phase == Missing && PhaseFresh(table, s.queue, s.pass)
    requires s' == AdvanceCheck(table, s)
    ensures NoMore(table, group, s, s')
  {
    var d := table[s.pass.visit.cmd].needs[s.pass.visit.idx];
    var added := AddItem(table, s, d, false, false);
    NewDependency(table, s, d, added);
    assert s'.queue == added.queue;
  }

  lemma {:induction false} SameInTwice(group: set<string>, s0: State, s: State, s': State)
    requires SameIn(group, s0, s) && SameIn(group, s, s')
    ensures SameIn(group, s0, s')
  {
  }

  /** An item outside the group does not touch it. */
  lemma {:induction false} OutsideIsSame(group: set<string>, s: State, d: string, s': State)
    requires d !in group
    requires forall c :: c != d ==> (c in s'.queue <==> c in s.queue) && (c in s.queue ==> s'.queue[c] == s.queue[c])
    requires forall c :: c != d ==> StatusesOf(s'.statuses, c) == StatusesOf(s.statuses, c)
    ensures SameIn(group, s, s')
  {
  }

  /** What a pass knows does not depend on how far it is with a command outside the group. */
  lemma {:induction false} OutsideVisit(table: Table, group: set<string>, s0: State, pass: Pass, pass': Pass)
    requires KnownIn(table, group, s0, pass) && pass.visit.Checking? && pass.visit.cmd !in group
    requires pass'.Active? && pass' == pass.(visit := pass'.visit)
             && (pass'.visit.Between? || pass'.visit.cmd == pass.visit.cmd)
    ensures KnownIn(table, group, s0, pass')
  {
  }

  lemma {:induction false} MissingOutside(table: Table, group: set<string>, s0: State, s: State, s': State)
    requires Uneventful(table, group, s0, s)
    requires AtDependency(table, s) && s.pass.visit.phase == Missing && PhaseFresh(table, s.queue, s.pass)
    requires s' == AdvanceCheck(table, s) && s.pass.visit.cmd !in group
    requires table[s.pass.visit.cmd].needs[s.pass.visit.idx] !in s'.queue.Keys * group
    ensures Uneventful(table, group, s0, s')
  {
    var d := table[s.pass.visit.cmd].needs[s.pass.visit.idx];
    var added := AddItem(table, s, d, false, false);
    NewDependency(table, s, d, added);
    assert s'.queue == added.queue && s'.statuses == added.statuses;
    if s'.queue == s.queue {
      assert SameIn(group, s, s');
    } else {
      OutsideIsSame(group, s, d, s');
    }
    SameInTwice(group, s0, s, s');
    OutsideVisit(table, group, s0, s.pass, s'.pass);
  }

  lemma {:induction false} MissingInside(table: Table, group: set<string>, s0: State, s: State, s': State)
    requires Cone(table, group) && Uneventful(table, group, s0, s)
    requires AtDependency(table, s) && s.pass.visit.phase == Missing && PhaseFresh(table, s.queue, s.pass)
    requires s' == AdvanceCheck(table, s) && s.pass.visit.cmd in group
    ensures table[s.pass.visit.cmd].needs[s.pass.visit.idx] in s'.queue.Keys * group
  {
    var d := table[s.pass.visit.cmd].needs[s.pass.visit.idx];
    SameStatuses(table, group, s0, s, d);
    NewDependency(table, s, d, AddItem(table, s, d, false, false));
  }

  lemma {:induction false} MissingAttended(table: Table, group: set<string>, s0: State, s: State, s': State)
    requires Cone(table, group) && Uneventful(table, group, s0, s)
    requires AtDependency(table, s) && s.pass.visit.phase == Missing && PhaseFresh(table, s.queue, s.pass)
    requires s' == AdvanceCheck(table, s)
    ensures Attended(table, group, s0, s')
  {
    var c, d := s.pass.visit.cmd, table[s.pass.visit.cmd].needs[s.pass.visit.idx];
    if c in group {
      MissingInside(table, group, s0, s, s');
      assert d !in s0.queue;
    } else if d in s'.queue.Keys * group {
      assert d !in s0.queue;
    } else {
      MissingOutside(table, group, s0, s, s');
    }
  }

  // ---- launching -----------------------------------------------------------------------------------

  lemma {:induction false} LaunchNoMore(table: Table, group: set<string>, s: State, start: nat, s': State)
    requires Checked(table, s) && s' == LaunchChecked(table, s, start)
    ensures NoMore(table, group, s, s')
  {
    LaunchShape(table, s, start, s');
  }

  lemma {:induction false} NotReadyIsBlocked(table: Table, s: State, visit: Visit)
    requires visit.Checking? && VisitSoFar(table, s, visit) && visit.idx == |table[visit.cmd].needs| && !visit.ready
    ensures Blocked(table, s, visit.cmd)
  {
    var j :| 0 <= j < visit.idx && table[visit.cmd].needs[j] in s.queue
        && ItemStatus(table, s, table[visit.cmd].needs[j]) != Some(Done);
    assert table[visit.cmd].needs[j] in table[visit.cmd].needs;
  }

  lemma {:induction false} LeaveVisit(table: Table, group: set<string>, s0: State, pass: Pass)
    requires KnownIn(table, group, s0, pass) && pass.visit.Checking?
    requires pass.visit.cmd in group ==> Blocked(table, s0, pass.visit.cmd)
    ensures KnownIn(table, group, s0, pass.(visit := Between))
  {
  }

  lemma {:induction false} LaunchOutside(table: Table, group: set<string>, s0: State, s: State, start: nat, s': State)
    requires Uneventful(table, group, s0, s)
    requires Checked(table, s) && s' == LaunchChecked(table, s, start)
    requires s.pass.visit.cmd in group ==> !s.pass.visit.ready
    ensures Uneventful(table, group, s0, s')
  {
    LaunchShape(table, s, start, s');
    if s.pass.visit.cmd in group {
      NotReadyIsBlocked(table, s0, s.pass.visit);
      assert SameIn(group, s, s');
    } else {
      OutsideIsSame(group, s, s.pass.visit.cmd, s');
    }
    SameInTwice(group, s0, s, s');
    LeaveVisit(table, group, s0, s.pass);
  }

  lemma {:induction false} LaunchAttended(table: Table, group: set<string>, s0: State, s: State, start: nat, s': State)
    requires Uneventful(table, group, s0, s)
    requires Checked(table, s) && s' == LaunchChecked(table, s, start)
    ensures Attended(table, group, s0, s')
  {
    var v := s.pass.visit;
    if v.cmd in group && v.ready {
      LaunchShape(table, s, start, s');
      assert v.cmd in s'.queue && s'.queue[v.cmd].inFlight;
    } else {
      LaunchOutside(table, group, s0, s, start, s');
    }
  }

  // ---- a whole pass ----------------------------------------------------------------------------------

  lemma {:induction false} StepNoMore(table: Table, group: set<string>, s: State, step: Step, s': State)
    requires Valid(table, s) && PhaseFresh(table, s.queue, s.pass) && InnerStep(step)
    requires Enabled(table, s, step) && s' == Apply(table, s, step)
    ensures NoMore(table, group, s, s')
  {
    match step
    case VisitCommand(c) => VisitShape(table, s, c, s');
    case Advance =>
      if s.pass.visit.phase == Missing {
        MissingNoMore(table, group, s, s');
      } else {
        CheckShape(table, s, s');
        CheckFresh(table, s, s');
      }
    case Launch(start) => LaunchNoMore(table, group, s, start, s');
  }

  lemma {:induction false} StepAttended(table: Table, group: set<string>, s0: State, s: State, step: Step, s': State)
    requires Valid(table, s0) && Cone(table, group)
    requires Valid(table, s) && PhaseFresh(table, s.queue, s.pass) && InnerStep(step) && Uneventful(table, group, s0, s)
    requires Enabled(table, s, step) && s' == Apply(table, s, step)
    ensures Attended(table, group, s0, s')
  {
    match step
    case VisitCommand(c) => VisitUneventful(table, group, s0, s, c, s');
    case Advance =>
      if s.pass.visit.phase == Missing {
        MissingAttended(table, group, s0, s, s');
      } else {
        CheckUneventful(table, group, s0, s, s');
      }
    case Launch(start) => LaunchAttended(table, group, s0, s, start, s');
  }

  lemma {:induction false} StepsNoMore(table: Table, group: set<string>, s: State, steps: seq<Step>, s': State)
    requires Valid(table, s) && PhaseFresh(table, s.queue, s.pass) && Traced(table, s, steps, s')
    ensures NoMore(table, group, s, s')
    decreases |steps|
  {
    if steps != [] {
      var next := Apply(table, s, steps[0]);
      StepKeepsValid(table, s, steps[0]);
      StepNoMore(table, group, s, steps[0], next);
      StepsNoMore(table, group, next, steps[1..], s');
    }
  }

  lemma {:induction false} StepStaysAttended(table: Table, group: set<string>, s0: State, s: State, step: Step,
                                             s': State)
    requires Valid(table, s0) && Cone(table, group)
    requires Valid(table, s) && PhaseFresh(table, s.queue, s.pass) && InnerStep(step) && Attended(table, group, s0, s)
    requires Enabled(table, s, step) && s' == Apply(table, s, step)
    ensures Attended(table, group, s0, s') && PhaseFresh(table, s'.queue, s'.pass)
  {
    StepNoMore(table, group, s, step, s');
    if Uneventful(table, group, s0, s) {
      StepAttended(table, group, s0, s, step, s');
    } else {
      StaysProgressed(table, group, s0, s, s');
    }
  }

  lemma {:induction false} StepsAttended(table: Table, group: set<string>, s0: State, s: State, steps: seq<Step>,
                                         s': State)
    requires Valid(table, s0) && Cone(table, group)
    requires Valid(table, s) && PhaseFresh(table, s.queue, s.pass) && Attended(table, group, s0, s)
    requires Traced(table, s, steps, s')
    ensures Attended(table, group, s0, s')
    decreases |steps|
  {
    if steps != [] {
      var next := Apply(table, s, steps[0]);
      StepKeepsValid(table, s, steps[0]);
      StepStaysAttended(table, group, s0, s, steps[0], next);
      StepsAttended(table, group, s0, next, steps[1..], s');
    }
  }

  /** At its beginning a pass knows nothing yet. */
  lemma {:induction false} BeginUneventful(table: Table, group: set<string>, s: State)
    ensures Uneventful(table, group, s, s.(pass := Pass.Active(Snapshot(table, s), Between)))
    ensures PhaseFresh(table, s.queue, Pass.Active(Snapshot(table, s), Between))
  {
  }

  /** At its end an uneventful pass has found every command of the group blocked. */
  lemma {:induction false} EndBlocked(table: Table, group: set<string>, s0: State, s: State)
    requires Uneventful(table, group, s0, s) && s.pass == Pass.Active(map[], Between)
    ensures forall c :: c in group && c in s0.queue ==> Blocked(table, s0, c)
  {
  }

  /** A pass requests no runs of queued commands, so it never leaves a group more to do. */
  lemma {:induction false} PassNoMore(table: Table, group: set<string>, s: State, steps: seq<Step>, s': State)
    requires Valid(table, s) && WholePass(table, s, steps) && s' == After(table, s, [BeginPass] + steps + [EndPass])
    ensures NoNewRequests(group, s.queue, s'.queue) && Todo(group, s'.queue) <= Todo(group, s.queue)
  {
    var begun, checked := SplitPass(table, s, steps);
    StepKeepsValid(table, s, BeginPass);
    BeginUneventful(table, group, s);
    StepsNoMore(table, group, begun, steps, checked);
    TodoNoMore(group, s.queue, s'.queue);
  }

  /** A pass that launches no command of the group and queues no new one leaves every queued command of
      it without a reason to run, or held back by a scheduled dependency that is not done. */
  lemma {:induction false} NoProgressBlocks(table: Table, group: set<string>, s: State, steps: seq<Step>, s': State)
    requires Valid(table, s) && Cone(table, group)
    requires WholePass(table, s, steps) && s' == After(table, s, [BeginPass] + steps + [EndPass])
    ensures Progressed(table, group, s, s'.queue) || forall c :: c in group && c in s.queue ==> Blocked(table, s, c)
  {
    var begun, checked := SplitPass(table, s, steps);
    StepKeepsValid(table, s, BeginPass);
    BeginUneventful(table, group, s);
    StepsAttended(table, group, s, begun, steps, checked);
    if Uneventful(table, group, s, checked) {
      EndBlocked(table, group, s, checked);
    }
  }

  /** Whatever holds back a requested command of a resting group is another one. */
  lemma {:induction false} BlockedByRequested(table: Table, group: set<string>, s: State, c: string) returns (d: string)
    requires RestedIn(table, group, s) && Cone(table, group) && c in group
    requires c in s.queue && s.queue[c].runRequested && Blocked(table, s, c)
    ensures d in table[c].needs && d in group && d in s.queue && s.queue[d].runRequested
  {
    d :| d in table[c].needs && d in s.queue && ItemStatus(table, s, d) != Some(Done);
    assert ValidItem(s.queue[d]);
  }

  /** An item of a resting group that is not done has its run requested. */
  lemma {:induction false} NotDoneIsRequested(table: Table, group: set<string>, s: State, c: string)
    requires RestedIn(table, group, s) && c in group && c in s.queue && ItemStatus(table, s, c) != Some(Done)
    ensures s.queue[c].runRequested
  {
    assert ValidItem(s.queue[c]);
  }

  /** No stuck queue: as long as some queued command of a resting group is not done, or has its run
      requested, every pass launches a command of the group or queues a new one. */
  lemma {:induction false} PassMakesProgress(table: Table, group: set<string>, s: State, steps: seq<Step>, c: string,
                                             s': State)
    requires RestedIn(table, group, s) && Cone(table, group)
    requires WholePass(table, s, steps) && s' == After(table, s, [BeginPass] + steps + [EndPass])
    requires c in group && c in s.queue && (ItemStatus(table, s, c) != Some(Done) || s.queue[c].runRequested)
    ensures Progressed(table, group, s, s'.queue)
    ensures exists d :: d in group && d in s'.queue && (d !in s.queue || (!s.queue[d].inFlight && s'.queue[d].inFlight))
  {
    if ItemStatus(table, s, c) != Some(Done) {
      NotDoneIsRequested(table, group, s, c);
    }
    NoProgressBlocks(table, group, s, steps, s');
    if forall e :: e in group && e in s.queue ==> Blocked(table, s, e) {
      var x := Minimal(table, Requested(s.queue) * group, c);
      var d := BlockedByRequested(table, group, s, x);
    }
  }

  // ---- passes that leave less to do -----------------------------------------------------------------------

  /** Restart items of the group wait for a run. */
  ghost predicate RestartsWait(table: Table, group: set<string>, queue: map<string, Item>) {
    forall c :: c in group && c in queue && c in table && table[c].run == Restart ==> queue[c].runRequested
  }

  /** Then a pass only has a reason to run a command of a resting group when its run is requested. */
  lemma {:induction false} EligibleRequested(table: Table, group: set<string>, s: State, c: string)
    requires RestedIn(table, group, s) && RestartsWait(table, group, s.queue)
    requires c in group && c in s.queue && c in table && Eligible(table[c], Snapshot(table, s)[c])
    ensures s.queue[c].runRequested
  {
    assert ValidItem(s.queue[c]);
  }

  /** So if no restart item of the group rests as done, progress leaves the group less to do. */
  lemma {:induction false} PassReducesTodo(table: Table, group: set<string>, s: State, steps: seq<Step>, c: string,
                                           s': State)
    requires RestedIn(table, group, s) && RestartsWait(table, group, s.queue) && Cone(table, group)
    requires WholePass(table, s, steps) && s' == After(table, s, [BeginPass] + steps + [EndPass])
    requires c in group && c in s.queue && s.queue[c].runRequested
    ensures Todo(group, s'.queue) < Todo(group, s.queue)
  {
    PassMakesProgress(table, group, s, steps, c, s');
    PassNoMore(table, group, s, steps, s');
    RunKeepsValid(table, s, [BeginPass] + steps + [EndPass]);
    var d :| d in group && d in s'.queue
             && (d !in s.queue || (s'.queue[d].inFlight && d in table && Eligible(table[d], Snapshot(table, s)[d])));
    if d in s.queue {
      EligibleRequested(table, group, s, d);
      assert ValidItem(s'.queue[d]);
    }
    TodoDrops(group, s.queue, s'.queue, d);
  }
}
