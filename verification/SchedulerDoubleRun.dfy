/** The guard of the single-run theorem is exact: remembering a command as done lets some command run
    twice at once if and only if the remembered one is running. The guard can be violated in two ways,
    through the gap between reading a status and remembering it, and through hydrated statuses. */
module SchedulerDoubleRun {
  import opened Domain
  import opened CommandStatus
  import opened Needs
  import opened Scheduler
  import opened SchedulerInvariant
  import opened SchedulerEffects
  import opened SchedulerOrder
  import opened SchedulerSingleRun
  import opened SchedulerFlight
  import opened SchedulerProgress
  import opened SchedulerDrive

  // ---- a command whose needs are done is launched first ------------------------------------------

  /** Every direct dependency of `c` counts as done right now. */
  ghost predicate DepsReady(table: Table, s: State, c: string)
    requires c in table
  {
    forall d :: d in table[c].needs ==>
      if d in s.queue then ItemStatus(table, s, d) == Some(Done) else DerivedStatus(table, s.statuses, d) == Some(Done)
  }

  ghost predicate CheckingAt(table: Table, s: State, c: string, idx: nat) {
    c in table && s.pass.Active? && s.pass.visit == Checking(c, idx, true, Look) && idx <= |table[c].needs|
  }

  lemma OneReadyDependency(table: Table, s: State, c: string, idx: nat, s': State)
    requires CheckingAt(table, s, c, idx) && DepsReady(table, s, c) && idx < |table[c].needs|
    requires s' == s.(pass := s.pass.(visit := Checking(c, idx + 1, true, Look)))
    ensures Leads(table, PLAIN, s, s')
  {
    assert table[c].needs[idx] in table[c].needs;
    var s1 := AdvanceCheck(table, s);
    LeadsByStep(table, PLAIN, s, Advance, s1);
    assert AdvanceCheck(table, s1) == s';
    LeadsByStep(table, PLAIN, s1, Advance, s');
    LeadsTransitive(table, PLAIN, s, s1, s');
  }

  lemma {:induction false} AllReadyDependencies(table: Table, s: State, c: string, idx: nat, s': State)
    requires CheckingAt(table, s, c, idx) && DepsReady(table, s, c)
    requires s' == s.(pass := s.pass.(visit := Checking(c, |table[c].needs|, true, Look)))
    ensures Leads(table, PLAIN, s, s')
    decreases |table[c].needs| - idx
  {
    if idx == |table[c].needs| {
      LeadsNowhere(table, PLAIN, s);
    } else {
      var s1 := s.(pass := s.pass.(visit := Checking(c, idx + 1, true, Look)));
      OneReadyDependency(table, s, c, idx, s1);
      AllReadyDependencies(table, s1, c, idx + 1, s');
      LeadsTransitive(table, PLAIN, s, s1, s');
    }
  }

  /** A new pass would go on to check `c` and would find its dependencies done. */
  ghost predicate Launchable(table: Table, s: State, c: string) {
    && Valid(table, s) && s.pass.Idle? && c in table && c in s.queue
    && Eligible(table[c], Snapshot(table, s)[c])
    && DepsReady(table, s, c)
  }

  /** A pass has visited `c` first and launched it. */
  function Relaunched(table: Table, s: State, c: string): State
    requires c in s.queue
  {
    s.(queue := s.queue[c := WithStatus(s.queue[c], Running)],
       pass := Pass.Active(Snapshot(table, s) - {c}, Between),
       runs := s.runs[s.nextRun := Run(c, s.queue[c].id, s.queue[c].waited, 0)],
       nextRun := s.nextRun + 1,
       history := s.history + [Launched(c, s.queue[c].id, s.queue[c].waited)])
  }

  lemma {:induction false} LaunchFirst(table: Table, s: State, c: string)
    requires Launchable(table, s, c)
    ensures Leads(table, PLAIN, s, Relaunched(table, s, c))
  {
    var s1 := s.(pass := Pass.Active(Snapshot(table, s), Between));
    var s2 := s.(pass := Pass.Active(Snapshot(table, s) - {c}, Checking(c, 0, true, Look)));
    var s3 := s.(pass := Pass.Active(Snapshot(table, s) - {c}, Checking(c, |table[c].needs|, true, Look)));
    LeadsByStep(table, PLAIN, s, BeginPass, s1);
    LeadsByStep(table, PLAIN, s1, VisitCommand(c), s2);
    AllReadyDependencies(table, s2, c, 0, s3);
    LeadsByStep(table, PLAIN, s3, Launch(0), Relaunched(table, s, c));
    LeadsTransitive(table, PLAIN, s, s1, s2);
    LeadsTransitive(table, PLAIN, s, s2, s3);
    LeadsTransitive(table, PLAIN, s, s3, Relaunched(table, s, c));
  }

  // ---- a command that is not in flight is launched once more ------------------------------------------

  /** The needs of `c` can be brought to Done: `group` holds all of them, each is defined, on no cycle
      and runs once to an end. */
  ghost predicate Drivable(table: Table, group: set<string>, c: string) {
    c !in group && OneShot(table, group) && Cone(table, group + {c})
  }

  /** A done run-once command is only launched again after a forced add. */
  function Forcing(table: Table, c: string): (forced: set<string>) {
    if c in table && table[c].run == RunMode.Once then {c} else {}
  }

  /** `s'` holds the runs of `c` that `s` holds, and what walks have read. */
  ghost predicate KeepsRunsOf(s: State, s': State, c: string) {
    && s'.deciding == s.deciding && s'.nextRun >= s.nextRun
    && forall r :: r in s.runs && s.runs[r].cmd == c ==> r in s'.runs && s'.runs[r] == s.runs[r]
  }

  /** `c` waits for a run in an idle session. */
  ghost predicate AtRest(table: Table, s: State, c: string) {
    Sound(table, s) && s.pass.Idle? && c in s.queue && !s.queue[c].inFlight
  }

  ghost predicate InLine(table: Table, s: State, c: string) {
    AtRest(table, s, c) && s.queue[c].runRequested && !s.queue[c].err
  }

  lemma {:induction false} IdleIsAdded(table: Table, s: State, c: string)
    requires c in table && c in s.queue && ValidItem(s.queue[c]) && !s.queue[c].inFlight
    requires s.queue[c].err || !s.queue[c].runRequested
    ensures AddOutcome(table, s, c, table[c].run == RunMode.Once) == Queued
  {
  }

  lemma {:induction false} AddLeads(table: Table, licence: Licence, s: State, c: string, force: bool, waited: bool,
                                    s': State)
    requires Sound(table, s) && (force ==> c in licence.forced) && s' == AddItem(table, s, c, force, waited)
    ensures Leads(table, licence, s, s') && Sound(table, s')
  {
    LeadsByStep(table, licence, s, Add(c, force, waited), s');
    StepKeepsSound(table, s, Add(c, force, waited));
  }

  lemma {:induction false} AddAlone(table: Table, s: State, c: string, force: bool, s': State)
    requires AddOutcome(table, s, c, force) == Queued && s' == AddItem(table, s, c, force, false)
    ensures OthersAlone(s, s', c) && KeepsRunsOf(s, s', c)
    ensures s'.pass == s.pass && s'.queue[c] == Item(s.nextItem, false, false, false, false, true)
  {
    AddShape(table, s, c, force, false, s');
  }

  /** Whatever state its item is in, `c` can be put in line again. */
  lemma {:induction false} Requeue(table: Table, s: State, c: string) returns (s': State)
    requires AtRest(table, s, c)
    ensures Leads(table, Licence(Forcing(table, c), false), s, s')
    ensures InLine(table, s', c) && KeepsRunsOf(s, s', c)
    ensures OthersAlone(s, s', c)
  {
    var licence := Licence(Forcing(table, c), false);
    if s.queue[c].runRequested && !s.queue[c].err {
      s' := s;
      LeadsNowhere(table, licence, s);
    } else {
      var force := table[c].run == RunMode.Once;
      IdleIsAdded(table, s, c);
      s' := AddItem(table, s, c, force, false);
      AddAlone(table, s, c, force, s');
      AddLeads(table, licence, s, c, force, false, s');
    }
  }

  /** Since `s` a run of `c` was launched, beside the ones that were in progress. */
  ghost predicate LaunchedBeside(s: State, s': State, c: string) {
    KeepsRunsOf(s, s', c) && exists r :: r in s'.runs && r >= s.nextRun && s'.runs[r].cmd == c
  }

  lemma {:induction false} PlainLeads(table: Table, licence: Licence, s: State, s': State, s'': State)
    requires Leads(table, licence, s, s') && Leads(table, PLAIN, s', s'')
    ensures Leads(table, licence, s, s'')
  {
    LeadsWider(table, PLAIN, licence, s', s'');
    LeadsTransitive(table, licence, s, s', s'');
  }

  lemma {:induction false} KeepsRunsTwice(s: State, s': State, s'': State, c: string)
    requires KeepsRunsOf(s, s', c) && KeepsRunsOf(s', s'', c)
    ensures KeepsRunsOf(s, s'', c)
  {
  }

  /** A command in line whose needs can be brought to Done is launched. */
  lemma {:induction false} LineIsLaunched(table: Table, group: set<string>, s: State, c: string) returns (s': State)
    requires InLine(table, s, c) && Drivable(table, group, c)
    ensures Leads(table, PLAIN, s, s') && Sound(table, s') && s'.pass.Idle? && LaunchedBeside(s, s', c)
  {
    var settled := GroupSettles(table, group, s);
    ElsewhereKept(group, s, settled, c);
    assert Waits(table, group, settled, c);
    s' := WaitingIsLaunched(table, group, settled, c);
    LeadsTransitive(table, PLAIN, s, settled, s');
    KeptTwice(s, settled, s', c);
  }

  lemma {:induction false} LaunchedAgain(table: Table, group: set<string>, s: State, c: string) returns (s': State)
    requires AtRest(table, s, c) && Drivable(table, group, c)
    ensures Leads(table, Licence(Forcing(table, c), false), s, s')
    ensures Sound(table, s') && s'.pass.Idle? && LaunchedBeside(s, s', c)
  {
    var queued := Requeue(table, s, c);
    s' := LineIsLaunched(table, group, queued, c);
    PlainLeads(table, Licence(Forcing(table, c), false), s, queued, s');
    KeepsRunsTwice(s, queued, s', c);
  }

  /** The same for needs of any mode that count as done at once. */
  lemma {:induction false} ReadyLaunchedAgain(table: Table, s: State, c: string) returns (s': State)
    requires AtRest(table, s, c) && c !in table[c].needs && DepsReady(table, s, c)
    ensures Leads(table, Licence(Forcing(table, c), false), s, s') && LaunchedBeside(s, s', c)
  {
    var queued := Requeue(table, s, c);
    assert Launchable(table, queued, c) by {
      forall d | d in table[c].needs
        ensures ItemStatus(table, queued, d) == ItemStatus(table, s, d) && (d in queued.queue <==> d in s.queue)
        ensures DerivedStatus(table, queued.statuses, d) == DerivedStatus(table, s.statuses, d)
      {
      }
    }
    s' := Relaunched(table, queued, c);
    LaunchFirst(table, queued, c);
    PlainLeads(table, Licence(Forcing(table, c), false), s, queued, s');
    assert s'.runs[queued.nextRun].cmd == c;
  }

  // ---- the guard is necessary -----------------------------------------------------------------------------

  /** Two different runs of `c` are in progress. */
  ghost predicate RunsTwice(runs: map<nat, Run>, c: string) {
    exists r, q :: r in runs && q in runs && r != q && runs[r].cmd == c && runs[q].cmd == c
  }

  /** `rid` is a run of `c`, and if the item of `c` is in flight then not only because of it. */
  ghost predicate RunBeside(s: State, rid: nat, c: string) {
    rid in s.runs && s.runs[rid].cmd == c && c in s.queue && (s.queue[c].inFlight ==> RunsTwice(s.runs, c))
  }

  lemma {:induction false} LaunchBeside(table: Table, s: State, start: nat, s': State, rid: nat, c: string)
    requires Sound(table, s) && RunBeside(s, rid, c) && Checked(table, s) && s' == LaunchChecked(table, s, start)
    ensures RunBeside(s', rid, c)
  {
    LaunchShape(table, s, start, s');
    LaunchAddsRun(table, s, start, s');
    if s.pass.visit.ready && s.pass.visit.cmd == c {
      var r :| r in s'.runs && r >= s.nextRun && s'.runs[r].cmd == c;
      assert r != rid && s'.runs[rid].cmd == c;
    } else if RunsTwice(s.runs, c) {
      var r, q :| r in s.runs && q in s.runs && r != q && s.runs[r].cmd == c && s.runs[q].cmd == c;
      assert s'.runs[r].cmd == c && s'.runs[q].cmd == c;
    }
  }

  lemma {:induction false} StepBeside(table: Table, s: State, step: Step, s': State, rid: nat, c: string)
    requires Sound(table, s) && RunBeside(s, rid, c) && InnerStep(step) && Enabled(table, s, step)
             && s' == Apply(table, s, step)
    ensures RunBeside(s', rid, c)
  {
    match step
    case VisitCommand(d) => VisitShape(table, s, d, s');
    case Advance =>
      if s.pass.visit.phase != Missing {
        CheckShape(table, s, s');
      }
    case Launch(start) => LaunchBeside(table, s, start, s', rid, c);
  }

  lemma {:induction false} StepsBeside(table: Table, s: State, steps: seq<Step>, s': State, rid: nat, c: string)
    requires Sound(table, s) && RunBeside(s, rid, c) && Traced(table, s, steps, s')
    ensures Sound(table, s') && RunBeside(s', rid, c)
    decreases |steps|
  {
    if steps != [] {
      var next := Apply(table, s, steps[0]);
      StepKeepsSound(table, s, steps[0]);
      StepBeside(table, s, steps[0], next, rid, c);
      StepsBeside(table, next, steps[1..], s', rid, c);
    }
  }

  /** The pass in progress, if any, comes to its end. */
  lemma {:induction false} EndBeside(table: Table, s: State, rid: nat, c: string) returns (s': State)
    requires Sound(table, s) && RunBeside(s, rid, c)
    ensures Leads(table, PLAIN, s, s') && Sound(table, s') && s'.pass.Idle? && RunBeside(s', rid, c)
    ensures s.pass.Idle? ==> s' == s
  {
    if s.pass.Idle? {
      s' := s;
      LeadsNowhere(table, PLAIN, s);
    } else {
      var steps, checked := VisitsEnd(table, s);
      StepsBeside(table, s, steps, checked, rid, c);
      TraceLeads(table, s, steps, checked);
      s' := checked.(pass := Idle);
      LeadsByStep(table, PLAIN, checked, EndPass, s');
      LeadsTransitive(table, PLAIN, s, checked, s');
    }
  }

  /** `c` can be launched after it was remembered: its needs can be brought to Done, or count as done
      already and no pass is active. */
  ghost predicate Relaunchable(table: Table, group: set<string>, s: State, c: string)
    requires c in table
  {
    Drivable(table, group, c) || (s.pass.Idle? && c !in table[c].needs && DepsReady(table, s, c))
  }

  lemma {:induction false} BesideIsTwice(table: Table, s: State, s': State, rid: nat, c: string)
    requires Sound(table, s) && rid in s.runs && s.runs[rid].cmd == c && LaunchedBeside(s, s', c)
    ensures RunsTwice(s'.runs, c)
  {
    var r :| r in s'.runs && r >= s.nextRun && s'.runs[r].cmd == c;
    assert r != rid && s'.runs[rid].cmd == c;
  }

  /** A run goes on beside an item that is not in flight: the command can be launched again. */
  lemma {:induction false} BesideRunsTwice(table: Table, group: set<string>, s: State, rid: nat, c: string)
    returns (s': State)
    requires Sound(table, s) && RunBeside(s, rid, c) && c in table && Relaunchable(table, group, s, c)
    ensures Leads(table, Licence(Forcing(table, c), false), s, s') && RunsTwice(s'.runs, c)
  {
    var licence := Licence(Forcing(table, c), false);
    var ended := EndBeside(table, s, rid, c);
    LeadsWider(table, PLAIN, licence, s, ended);
    if ended.queue[c].inFlight {
      s' := ended;
    } else {
      if Drivable(table, group, c) {
        s' := LaunchedAgain(table, group, ended, c);
      } else {
        s' := ReadyLaunchedAgain(table, ended, c);
      }
      LeadsTransitive(table, licence, s, ended, s');
      BesideIsTwice(table, ended, s', rid, c);
    }
  }

  lemma {:induction false} ReadyAfterRemember(table: Table, s: State, c: string, s': State)
    requires c in table && c !in table[c].needs && DepsReady(table, s, c) && s' == Remember(s, c)
    ensures DepsReady(table, s', c)
  {
  }

  lemma {:induction false} RememberedBeside(table: Table, s: State, c: string, s': State) returns (rid: nat)
    requires Sound(table, s) && InProgress(s.runs, c) && c in s.deciding && s' == Remember(s, c)
    ensures Sound(table, s') && RunBeside(s', rid, c)
  {
    rid :| rid in s.runs && s.runs[rid].cmd == c;
    RememberKeepsValid(table, s, c);
    RememberKeepsFlight(table, s, c);
  }

  /** The converse of the single-run theorem. From every state in which `c` runs while some walk has
      decided to remember it, in the middle of a pass or not, remembering it leads to two concurrent
      runs, without any further remembering. */
  lemma {:induction false} UnsafeRememberRunsTwice(table: Table, group: set<string>, s: State, c: string)
    returns (s': State)
    requires Sound(table, s) && InProgress(s.runs, c) && c in s.deciding && Relaunchable(table, group, s, c)
    ensures Leads(table, Licence(Forcing(table, c), false), Apply(table, s, RememberDone(c)), s')
            && RunsTwice(s'.runs, c)
  {
    var remembered := Remember(s, c);
    var rid := RememberedBeside(table, s, c, remembered);
    if !Drivable(table, group, c) {
      ReadyAfterRemember(table, s, c, remembered);
    }
    s' := BesideRunsTwice(table, group, remembered, rid, c);
  }

  /** Some run without further remembering leads from `s` to two concurrent runs of a command. */
  ghost predicate MayRunTwice(table: Table, forced: set<string>, s: State) {
    exists s', d :: Leads(table, Licence(forced, false), s, s') && RunsTwice(s'.runs, d)
  }

  lemma {:induction false} SingleStaysSingle(table: Table, forced: set<string>, s: State)
    requires SingleInvariant(table, s)
    ensures !MayRunTwice(table, forced, s)
  {
    forall s', d | Leads(table, Licence(forced, false), s, s') ensures !RunsTwice(s'.runs, d) {
      var steps :| LeadsBy(table, Licence(forced, false), s, steps, s');
      SafeWithoutRemembering(table, s, steps);
      RunKeepsSingle(table, s, steps);
    }
  }

  /** The guard is exact: in a session that has been safe so far, remembering `c` makes it possible
      that some command runs twice at once if and only if `c` is running. */
  lemma {:induction false} GuardIsExact(table: Table, group: set<string>, s: State, c: string)
    requires SingleInvariant(table, s) && c in s.deciding && Relaunchable(table, group, s, c)
    ensures MayRunTwice(table, Forcing(table, c), Apply(table, s, RememberDone(c))) <==> InProgress(s.runs, c)
  {
    if InProgress(s.runs, c) {
      SingleIsSound(table, s);
      var s' := UnsafeRememberRunsTwice(table, group, s, c);
    } else {
      RememberKeepsSingle(table, s, c);
      SingleStaysSingle(table, Forcing(table, c), Remember(s, c));
    }
  }

  /** What has run from an empty session has defined needs without cycles. */
  lemma {:induction false} LaunchedHasCone(table: Table, s: State, c: string)
    requires OrderInvariant(table, s, {}) && WasLaunched(s.history, c)
    ensures c in table && c !in Reachable(table, c) && Cone(table, Reachable(table, c) + {c})
  {
    var h := s.history;
    var k :| 0 <= k < |h| && h[k].Launched? && h[k].cmd == c;
    NoLaunchOnCycle(table, h, k);
    forall d | Reaches(table, c, d) ensures d in table && !Reaches(table, d, d) {
      var p :| PathBetween(table, p, c, d);
      PathSucceeded(table, h, k, p);
      var j :| 0 <= j < k && h[..k][j].Finished? && h[..k][j].cmd == d && h[..k][j].ok;
      var i :| 0 <= i < j && h[..j][i].Launched? && h[..j][i].cmd == d;
      NoLaunchOnCycle(table, h, i);
    }
    forall e, d | e in Reachable(table, c) + {c} && d in table[e].needs ensures Reaches(table, c, d) {
      ReachesStep(table, e, d);
      if e != c {
        ReachesTransitive(table, c, e, d);
      }
    }
  }

  lemma {:induction false} ConeIsExact(table: Table, s: State, c: string)
    requires SingleInvariant(table, s) && OrderInvariant(table, s, {}) && c in s.deciding
    requires OneShot(table, Reachable(table, c))
    ensures MayRunTwice(table, Forcing(table, c), Apply(table, s, RememberDone(c))) <==> InProgress(s.runs, c)
  {
    if InProgress(s.runs, c) {
      var rid :| rid in s.runs && s.runs[rid].cmd == c;
      LaunchedHasCone(table, s, c);
      GuardIsExact(table, Reachable(table, c), s, c);
    } else {
      RememberKeepsSingle(table, s, c);
      SingleStaysSingle(table, Forcing(table, c), Remember(s, c));
    }
  }

  /** From an empty session, after every interleaving that has been safe so far: for a command with
      one-shot needs the guard is necessary and sufficient. */
  lemma {:induction false} GuardIsExactFromInit(table: Table, steps: seq<Step>, c: string)
    requires ValidTable(table) && CanRun(table, INIT, steps) && SafeRun(table, INIT, steps)
    requires Enabled(table, After(table, INIT, steps), RememberDone(c)) && OneShot(table, Reachable(table, c))
    ensures var s := After(table, INIT, steps);
            MayRunTwice(table, Forcing(table, c), Apply(table, s, RememberDone(c))) <==> InProgress(s.runs, c)
  {
    RunKeepsSingle(table, INIT, steps);
    RunKeepsOrder(table, INIT, steps, {});
    ConeIsExact(table, After(table, INIT, steps), c);
  }

  // ---- the guard can be violated --------------------------------------------------------------------------

  lemma {:induction false} FirstAdd(table: Table, c: string, waited: bool, s': State)
    requires ValidTable(table) && c in table && s' == AddItem(table, INIT, c, false, waited)
    ensures Leads(table, PLAIN, INIT, s') && InLine(table, s', c)
    ensures s'.queue == map[c := Item(0, waited, false, false, false, true)] && s'.history == []
  {
    NothingDerived(table, c);
    AddShape(table, INIT, c, false, waited, s');
    AddLeads(table, PLAIN, INIT, c, false, waited, s');
  }

  lemma {:induction false} NothingDerived(table: Table, c: string)
    requires ValidTable(table) && c in table
    ensures AddOutcome(table, INIT, c, false) == Queued
  {
    assert table[c].procedures[0].name !in StatusesOf(INIT.statuses, c);
  }

  /** A one-shot command in line can complete a run and be launched again while a walk still acts on
      having read it Done. */
  lemma {:induction false} DecidedWhileRunning(table: Table, group: set<string>, s: State, c: string)
    returns (s': State)
    requires InLine(table, s, c) && Drivable(table, group, c) && Needed(table, c)
    requires table[c].run == Always || table[c].run == RunMode.Once
    ensures Leads(table, Licence(Forcing(table, c), false), s, s') && Sound(table, s')
    ensures InProgress(s'.runs, c) && c in s'.deciding
  {
    var launched := LineIsLaunched(table, group, s, c);
    var rid :| rid in launched.runs && launched.runs[rid].cmd == c;
    var work, ended := CompleteRun(table, launched, rid, c);
    WorkLeads(table, launched, work, ended);
    LeadsTransitive(table, PLAIN, s, launched, ended);
    LeadsKeepsSound(table, PLAIN, s, ended);
    var decided := ended.(deciding := ended.deciding + {c});
    LeadsByStep(table, PLAIN, ended, DecideRemember(c), decided);
    LeadsTransitive(table, PLAIN, s, ended, decided);
    StepKeepsSound(table, ended, DecideRemember(c));
    s' := LaunchedAgain(table, group, decided, c);
    LeadsWider(table, PLAIN, Licence(Forcing(table, c), false), s, decided);
    LeadsTransitive(table, Licence(Forcing(table, c), false), s, decided, s');
  }

  /** The gap between reading a Done status and remembering it is enough: from an empty session, every
      one-shot command that another one needs, and whose own needs can be brought to Done, can come to
      run twice at once. No add is forced, except for a command that runs once. */
  lemma {:induction false} EmptySessionRunsTwice(table: Table, group: set<string>, c: string) returns (s': State)
    requires ValidTable(table) && c in table && Needed(table, c) && Drivable(table, group, c)
    requires table[c].run == Always || table[c].run == RunMode.Once
    ensures Leads(table, Licence(Forcing(table, c), true), INIT, s') && RunsTwice(s'.runs, c)
  {
    var licence, wider := Licence(Forcing(table, c), false), Licence(Forcing(table, c), true);
    var s1 := AddItem(table, INIT, c, false, false);
    FirstAdd(table, c, false, s1);
    var s2 := DecidedWhileRunning(table, group, s1, c);
    s' := UnsafeRememberRunsTwice(table, group, s2, c);
    var s3 := Apply(table, s2, RememberDone(c));
    LeadsByStep(table, wider, s2, RememberDone(c), s3);
    LeadsWider(table, PLAIN, wider, INIT, s1);
    LeadsWider(table, licence, wider, s1, s2);
    LeadsWider(table, licence, wider, s3, s');
    LeadsTransitive(table, wider, INIT, s1, s2);
    LeadsTransitive(table, wider, INIT, s2, s3);
    LeadsTransitive(table, wider, INIT, s3, s');
  }

  /** A restart or persistent command whose persisted statuses are all Done, as hydration queues it. */
  function Hydrated(table: Table, c: string): State
    requires c in table
  {
    INIT.(queue := map[c := Item(0, false, false, false, false, true)],
          statuses := map[c := AllProcedures(table[c], Done)],
          nextItem := 1)
  }

  /** Reading and remembering in one step. */
  ghost function RememberAtOnce(table: Table, s: State, c: string): State
    requires Needed(table, c) && DerivedStatus(table, s.statuses, c) == Some(Done)
  {
    Apply(table, Apply(table, s, DecideRemember(c)), RememberDone(c))
  }

  lemma {:induction false} HydratedWaits(table: Table, group: set<string>, c: string)
    requires ValidTable(table) && c in table && Drivable(table, group, c)
    ensures Waits(table, group, Hydrated(table, c), c)
    ensures DerivedStatus(table, Hydrated(table, c).statuses, c) == Some(Done)
  {
    AllDoneDerivesDone(table, map[], c);
    assert SetCommand(table, map[], c, Done)[c] == AllProcedures(table[c], Done);
  }

  /** Hydrated Done statuses survive the launch, so there even an atomic read-and-remember makes a
      restart or persistent command that another one needs run twice, without any forced add. */
  lemma {:induction false} HydratedRunsTwice(table: Table, group: set<string>, c: string) returns (s: State, s': State)
    requires ValidTable(table) && c in table && Needed(table, c) && Drivable(table, group, c)
    requires table[c].run == Restart || table[c].run == Persistent
    ensures Leads(table, PLAIN, Hydrated(table, c), s) && DerivedStatus(table, s.statuses, c) == Some(Done)
    ensures Leads(table, PLAIN, RememberAtOnce(table, s, c), s') && RunsTwice(s'.runs, c)
  {
    HydratedWaits(table, group, c);
    s := WaitingIsLaunched(table, group, Hydrated(table, c), c);
    var decided := s.(deciding := s.deciding + {c});
    StepKeepsSound(table, s, DecideRemember(c));
    s' := UnsafeRememberRunsTwice(table, group, decided, c);
  }
}
