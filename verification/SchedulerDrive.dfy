/** What a session can always be brought to do next: end its pass, end the runs of one-shot commands
    successfully, go through rounds, and launch a requested command once its needs are done. */
module SchedulerDrive {
  import opened Domain
  import opened CommandStatus
  import opened Needs
  import opened Scheduler
  import opened SchedulerInvariant
  import opened SchedulerSingleRun
  import opened SchedulerFlight
  import opened SchedulerPass
  import opened SchedulerProgress

  // ---- passes end -------------------------------------------------------------------------------

  function PhaseRank(phase: Phase): nat {
    match phase
    case Look => 2
    case Scheduled => 1
    case Unscheduled => 1
    case Missing => 0
  }

  lemma {:induction false} AdvanceMoves(table: Table, s: State, s': State)
    requires Valid(table, s) && AtDependency(table, s) && s' == AdvanceCheck(table, s)
    ensures s'.pass.Active? && s'.pass.pending == s.pass.pending && s'.pass.visit.Checking?
            && s'.pass.visit.cmd == s.pass.visit.cmd
    ensures s'.pass.visit.idx == s.pass.visit.idx + 1
            || (s'.pass.visit.idx == s.pass.visit.idx && PhaseRank(s'.pass.visit.phase) < PhaseRank(s.pass.visit.phase))
  {
    if s.pass.visit.phase == Missing {
      var dep := table[s.pass.visit.cmd].needs[s.pass.visit.idx];
      AddShape(table, s, dep, false, false, AddItem(table, s, dep, false, false));
    } else {
      CheckShape(table, s, s');
    }
  }

  /** The visit of a command can be brought to its end. */
  lemma {:induction false} VisitEnds(table: Table, s: State) returns (steps: seq<Step>, s': State)
    requires Valid(table, s) && s.pass.Active? && s.pass.visit.Checking?
    ensures Traced(table, s, steps, s') && Valid(table, s')
    ensures s'.pass == Active(s.pass.pending, Between)
    decreases |table[s.pass.visit.cmd].needs| - s.pass.visit.idx, PhaseRank(s.pass.visit.phase)
  {
    if s.pass.visit.idx == |table[s.pass.visit.cmd].needs| {
      steps, s' := [] + [Launch(0)], LaunchChecked(table, s, 0);
      LaunchShape(table, s, 0, s');
      TraceNothing(table, s);
      TraceStep(table, s, [], s, Launch(0), s');
      StepKeepsValid(table, s, Launch(0));
    } else {
      var next := AdvanceCheck(table, s);
      AdvanceMoves(table, s, next);
      StepKeepsValid(table, s, Advance);
      TraceNothing(table, s);
      TraceStep(table, s, [], s, Advance, next);
      var more;
      more, s' := VisitEnds(table, next);
      TraceConcat(table, s, [] + [Advance], next, more, s');
      steps := [] + [Advance] + more;
    }
  }

  /** An active pass can be brought to its end. */
  lemma {:induction false} VisitsEnd(table: Table, s: State) returns (steps: seq<Step>, s': State)
    requires Valid(table, s) && s.pass.Active?
    ensures Traced(table, s, steps, s') && Valid(table, s')
    ensures s'.pass == Active(map[], Between)
    decreases |s.pass.pending|, s.pass.visit.Checking?
  {
    if s.pass.visit.Checking? {
      var first, between := VisitEnds(table, s);
      var more;
      more, s' := VisitsEnd(table, between);
      TraceConcat(table, s, first, between, more, s');
      steps := first + more;
    } else if s.pass.pending == map[] {
      TraceNothing(table, s);
      steps, s' := [], s;
    } else {
      assert s.pass.pending.Keys != {};
      var c :| c in s.pass.pending;
      var next := VisitPending(table, s, c);
      VisitShape(table, s, c, next);
      FewerPending(s.pass.pending, c);
      StepKeepsValid(table, s, VisitCommand(c));
      TraceNothing(table, s);
      TraceStep(table, s, [], s, VisitCommand(c), next);
      var more;
      more, s' := VisitsEnd(table, next);
      TraceConcat(table, s, [] + [VisitCommand(c)], next, more, s');
      steps := [] + [VisitCommand(c)] + more;
    }
  }

  lemma {:induction false} FewerPending(pending: map<string, Snap>, c: string)
    requires c in pending
    ensures |pending - {c}| < |pending|
  {
    assert (pending - {c}).Keys == pending.Keys - {c};
    SubsetSize((pending - {c}).Keys, pending.Keys);
    assert |pending - {c}| == |(pending - {c}).Keys| && |pending| == |pending.Keys|;
  }

  /** From every idle session a whole pass can be gone through. */
  lemma {:induction false} PassExists(table: Table, s: State) returns (steps: seq<Step>)
    requires Valid(table, s) && s.pass.Idle?
    ensures WholePass(table, s, steps)
  {
    var begun := Apply(table, s, BeginPass);
    StepKeepsValid(table, s, BeginPass);
    var checked;
    steps, checked := VisitsEnd(table, begun);
    TraceIsWholePass(table, s, steps, checked, checked.(pass := Idle));
  }

  // ---- one-shot runs end ------------------------------------------------------------------------------

  lemma AllDoneDerivesDone(table: Table, statuses: map<string, ProcedureStatuses>, c: string)
    requires ValidTable(table) && c in table
    ensures DerivedStatus(table, SetCommand(table, statuses, c, Done), c) == Some(Done)
  {
    var set1 := StatusesOf(SetCommand(table, statuses, c, Done), c);
    forall i | 0 <= i < |table[c].procedures|
      ensures table[c].procedures[i].name in set1 && set1[table[c].procedures[i].name] == Done
    {
      assert table[c].procedures[i].name in AllProcedures(table[c], Done);
    }
  }

  /** `s'` is `s` after the run `rid` of the one-shot command `c` ended successfully. */
  ghost predicate CompletedRun(table: Table, s: State, rid: nat, c: string, s': State) {
    && c in s.queue
    && s'.runs == s.runs - {rid}
    && s'.queue == s.queue[c := WithStatus(s.queue[c], Done)]
    && DerivedStatus(table, s'.statuses, c) == Some(Done)
    && s'.pass == s.pass && s'.nextRun == s.nextRun && s'.nextItem == s.nextItem && s'.deciding == s.deciding
    && s.history <= s'.history
    && (forall d :: d != c ==> StatusesOf(s'.statuses, d) == StatusesOf(s.statuses, d))
  }

  lemma {:induction false} EndedShape(table: Table, s: State, rid: nat, s': State)
    requires rid in s.runs && ValidRun(table, s.runs[rid]) && s' == EndRun(table, s, rid, Ok)
    ensures s' == s.(runs := s.runs - {rid}, statuses := s'.statuses, history := s'.history) && s.history <= s'.history
    ensures forall d :: d != s.runs[rid].cmd ==> StatusesOf(s'.statuses, d) == StatusesOf(s.statuses, d)
  {
  }

  lemma {:induction false} DoneShape(table: Table, s: State, c: string, s': State)
    requires c in table && c in s.queue && s' == SetQueueStatus(table, s, c, Done)
    ensures s' == s.(queue := s.queue[c := WithStatus(s.queue[c], Done)],
                     statuses := SetCommand(table, s.statuses, c, Done))
    ensures forall d :: d != c ==> StatusesOf(s'.statuses, d) == StatusesOf(s.statuses, d)
  {
  }

  lemma {:induction false} FinishCompletes(table: Table, s: State, rid: nat, c: string, s': State)
    requires Valid(table, s) && rid in s.runs && s.runs[rid].cmd == c && c in s.queue
    requires table[c].run == Always || table[c].run == Once
    requires s' == FinishRun(table, s, rid, Ok)
    ensures CompletedRun(table, s, rid, c, s')
  {
    var ended := EndRun(table, s, rid, Ok);
    EndedShape(table, s, rid, ended);
    DoneShape(table, ended, c, s');
    AllDoneDerivesDone(table, ended.statuses, c);
  }

  lemma {:induction false} WorkNothing(table: Table, s: State)
    ensures Worked(table, s, [], s)
  {
  }

  lemma {:induction false} WorkFirst(table: Table, s: State, step: Step, next: State, work: seq<Step>, s': State)
    requires WorkStep(step) && Enabled(table, s, step) && next == Apply(table, s, step) && Worked(table, next, work, s')
    ensures Worked(table, s, [step] + work, s')
  {
    assert ([step] + work)[1..] == work;
  }

  lemma {:induction false} WorkConcat(table: Table, s: State, first: seq<Step>, middle: State, second: seq<Step>,
                                      s': State)
    requires Worked(table, s, first, middle) && Worked(table, middle, second, s')
    ensures Worked(table, s, first + second, s')
  {
    RunConcat(table, s, first, second);
  }

  lemma {:induction false} WorkLeads(table: Table, s: State, work: seq<Step>, s': State)
    requires Worked(table, s, work, s')
    ensures Leads(table, PLAIN, s, s')
  {
    assert LeadsBy(table, PLAIN, s, work, s');
  }

  lemma {:induction false} ObservedRun(table: Table, s: State, rid: nat, s': State)
    requires Enabled(table, s, ObserveDone(rid)) && s' == Apply(table, s, ObserveDone(rid))
    ensures s' == s.(runs := s.runs[rid := s.runs[rid].(pos := s.runs[rid].pos + 1)], statuses := s'.statuses)
    ensures forall d :: d != s.runs[rid].cmd ==> StatusesOf(s'.statuses, d) == StatusesOf(s.statuses, d)
    ensures s'.runs - {rid} == s.runs - {rid}
  {
  }

  /** A run of a one-shot command can always go on to a successful end. */
  lemma {:induction false} CompleteRun(table: Table, s: State, rid: nat, c: string) returns (work: seq<Step>, s': State)
    requires Valid(table, s) && rid in s.runs && s.runs[rid].cmd == c && c in s.queue
    requires table[c].run == Always || table[c].run == Once
    ensures Worked(table, s, work, s') && CompletedRun(table, s, rid, c, s')
    decreases |table[c].procedures| - s.runs[rid].pos
  {
    if s.runs[rid].pos + 1 == |table[c].procedures| {
      s' := FinishRun(table, s, rid, Ok);
      WorkNothing(table, s');
      WorkFirst(table, s, Finish(rid, Ok), s', [], s');
      work := [Finish(rid, Ok)] + [];
      FinishCompletes(table, s, rid, c, s');
    } else {
      ObserveKeepsValid(table, s, ObserveDone(rid));
      var next := Apply(table, s, ObserveDone(rid));
      ObservedRun(table, s, rid, next);
      var more;
      more, s' := CompleteRun(table, next, rid, c);
      WorkFirst(table, s, ObserveDone(rid), next, more, s');
      work := [ObserveDone(rid)] + more;
    }
  }

  /** Nothing has happened outside the group. */
  ghost predicate Elsewhere(group: set<string>, s: State, s': State) {
    && s'.pass == s.pass && s'.nextRun == s.nextRun && s'.deciding == s.deciding && s'.queue.Keys >= s.queue.Keys
    && s.history <= s'.history
    && (forall rid :: rid in s'.runs ==> rid in s.runs && s'.runs[rid].cmd == s.runs[rid].cmd)
    && (forall c :: c !in group && c in s'.queue ==> c in s.queue && s'.queue[c] == s.queue[c])
    && (forall c :: c !in group ==> StatusesOf(s'.statuses, c) == StatusesOf(s.statuses, c))
    && (forall rid :: rid in s.runs && s.runs[rid].cmd !in group ==> rid in s'.runs && s'.runs[rid] == s.runs[rid])
  }

  lemma {:induction false} ElsewhereTwice(group: set<string>, s: State, s': State, s'': State)
    requires Elsewhere(group, s, s') && Elsewhere(group, s', s'')
    ensures Elsewhere(group, s, s'')
  {
  }

  lemma {:induction false} CompletedElsewhere(table: Table, group: set<string>, s: State, rid: nat, c: string,
                                              s': State)
    requires CompletedRun(table, s, rid, c, s') && c in group && rid in s.runs && s.runs[rid].cmd == c
    ensures Elsewhere(group, s, s')
  {
  }

  /** All runs of a one-shot group can be brought to a successful end, one after the other. */
  lemma {:induction false} RunsComplete(table: Table, group: set<string>, s: State) returns (work: seq<Step>, s': State)
    requires Sound(table, s) && OneShot(table, group)
    ensures Worked(table, s, work, s') && Sound(table, s')
    ensures GroupRuns(s'.runs, group) == {} && Elsewhere(group, s, s')
    decreases |GroupRuns(s.runs, group)|
  {
    if GroupRuns(s.runs, group) == {} {
      WorkNothing(table, s);
      work, s' := [], s;
    } else {
      var rid := OneGroupRun(s.runs, group);
      var first, next := CompleteRun(table, s, rid, s.runs[rid].cmd);
      CompletedElsewhere(table, group, s, rid, s.runs[rid].cmd, next);
      RunKeepsSound(table, s, first);
      FewerRuns(s.runs, group, rid);
      var more;
      more, s' := RunsComplete(table, group, next);
      WorkConcat(table, s, first, next, more, s');
      ElsewhereTwice(group, s, next, s');
      work := first + more;
    }
  }

  lemma {:induction false} OneGroupRun(runs: map<nat, Run>, group: set<string>) returns (rid: nat)
    requires GroupRuns(runs, group) != {}
    ensures rid in runs && runs[rid].cmd in group
  {
    rid :| rid in GroupRuns(runs, group);
  }

  lemma {:induction false} FewerRuns(runs: map<nat, Run>, group: set<string>, rid: nat)
    requires rid in runs && runs[rid].cmd in group
    ensures |GroupRuns(runs - {rid}, group)| < |GroupRuns(runs, group)|
  {
    assert GroupRuns(runs, group) == GroupRuns(runs - {rid}, group) + {rid};
    assert rid !in GroupRuns(runs - {rid}, group);
  }

  // ---- rounds exist -----------------------------------------------------------------------------------

  /** From every session between rounds there is a round. */
  lemma {:induction false} RoundExists(table: Table, group: set<string>, s: State) returns (s': State)
    requires BetweenRounds(table, group, s) && OneShot(table, group)
    ensures Round(table, group, s, s') && Leads(table, PLAIN, s, s')
  {
    var pass := PassExists(table, s);
    var passed := After(table, s, [BeginPass] + pass + [EndPass]);
    PassKeepsNoErrors(table, group, s, pass, passed);
    var work;
    work, s' := RunsComplete(table, group, passed);
    assert RoundBy(table, group, s, pass, work, s');
    PassLeads(table, s, pass);
    WorkLeads(table, passed, work, s');
    LeadsTransitive(table, PLAIN, s, passed, s');
  }

  lemma {:induction false} OneMoreRound(table: Table, group: set<string>, s: State, rest: seq<State>)
    returns (states: seq<State>)
    requires rest != [] && Round(table, group, s, rest[0]) && Rounds(table, group, rest)
    ensures states == [s] + rest && Rounds(table, group, states)
  {
    states := [s] + rest;
    forall i | 0 <= i < |states| - 1 ensures Round(table, group, states[i], states[i + 1]) {
      assert i > 0 ==> Round(table, group, rest[i - 1], rest[i]);
    }
  }

  /** From every session between rounds, rounds lead to one in which every queued command of the
      group is done. */
  lemma {:induction false} RoundsExist(table: Table, group: set<string>, s: State) returns (states: seq<State>)
    requires BetweenRounds(table, group, s) && OneShot(table, group) && Cone(table, group)
    ensures states != [] && states[0] == s && Rounds(table, group, states)
    ensures |states| <= Todo(group, s.queue) + 1
    ensures GroupDone(table, group, states[|states| - 1]) && Leads(table, PLAIN, s, states[|states| - 1])
    decreases Todo(group, s.queue)
  {
    if GroupDone(table, group, s) {
      LeadsNowhere(table, PLAIN, s);
      states := [s];
    } else {
      var next := RoundExists(table, group, s);
      RoundDecreases(table, group, s, next);
      var rest := RoundsExist(table, group, next);
      LeadsTransitive(table, PLAIN, s, next, rest[|rest| - 1]);
      states := OneMoreRound(table, group, s, rest);
    }
  }

  // ---- failed commands are queued again ------------------------------------------------------------------

  function Failures(queue: map<string, Item>, group: set<string>): set<string> {
    set c | c in queue && c in group && queue[c].err
  }

  lemma {:induction false} QueueAgain(table: Table, group: set<string>, s: State, c: string, s': State)
    requires Sound(table, s) && c in s.queue && c in group && s.queue[c].err && s' == AddItem(table, s, c, false, false)
    ensures Elsewhere(group, s, s') && s'.runs == s.runs
    ensures Failures(s'.queue, group) == Failures(s.queue, group) - {c}
  {
    assert ItemStatus(table, s, c) == Some(Error);
    AddShape(table, s, c, false, false, s');
  }

  /** Failed commands of a group can be added again, without force. */
  lemma {:induction false} FailuresQueued(table: Table, group: set<string>, s: State) returns (s': State)
    requires Sound(table, s)
    ensures Leads(table, PLAIN, s, s') && Sound(table, s')
    ensures NoErrors(s'.queue, group) && s'.runs == s.runs && Elsewhere(group, s, s')
    decreases |Failures(s.queue, group)|
  {
    if Failures(s.queue, group) == {} {
      assert forall c :: c in s.queue && c in group && s.queue[c].err ==> c in Failures(s.queue, group);
      LeadsNowhere(table, PLAIN, s);
      s' := s;
    } else {
      var c :| c in Failures(s.queue, group);
      var next := AddItem(table, s, c, false, false);
      QueueAgain(table, group, s, c, next);
      StepKeepsSound(table, s, Add(c, false, false));
      LeadsByStep(table, PLAIN, s, Add(c, false, false), next);
      SubsetSize(Failures(next.queue, group), Failures(s.queue, group));
      s' := FailuresQueued(table, group, next);
      LeadsTransitive(table, PLAIN, s, next, s');
      ElsewhereTwice(group, s, next, s');
    }
  }

  /** Every idle session can be brought between rounds of a one-shot group. */
  lemma {:induction false} GroupSettles(table: Table, group: set<string>, s: State) returns (s': State)
    requires Sound(table, s) && s.pass.Idle? && OneShot(table, group)
    ensures Leads(table, PLAIN, s, s') && BetweenRounds(table, group, s') && Elsewhere(group, s, s')
  {
    var work, ended := RunsComplete(table, group, s);
    WorkLeads(table, s, work, ended);
    s' := FailuresQueued(table, group, ended);
    LeadsTransitive(table, PLAIN, s, ended, s');
    ElsewhereTwice(group, s, ended, s');
  }

  // ---- a requested command is launched ----------------------------------------------------------------------

  /** Since `s0` the item that `c` had then has been launched. */
  ghost predicate LaunchedSince(s0: State, h: seq<Event>, c: string)
    requires c in s0.queue
  {
    exists k :: |s0.history| <= k < |h| && h[k] == Launched(c, s0.queue[c].id, s0.queue[c].waited)
  }

  /** Since `s0` the item of `c` has been launched, and it still runs. */
  ghost predicate NewRun(s0: State, s: State, c: string)
    requires c in s0.queue
  {
    LaunchedSince(s0, s.history, c)
    && exists r :: r in s.runs && r >= s0.nextRun && s.runs[r].cmd == c
                && s.runs[r].item == s0.queue[c].id && s.runs[r].waited == s0.queue[c].waited
  }

  /** Since `s0` the item of `c` has not been touched, except that it may have been launched. */
  ghost predicate Kept(s0: State, s: State, c: string)
    requires c in s0.queue
  {
    && c in s.queue && s.queue[c].id == s0.queue[c].id && s.queue[c].waited == s0.queue[c].waited
    && (s.queue[c] == s0.queue[c] || NewRun(s0, s, c))
    && StatusesOf(s.statuses, c) == StatusesOf(s0.statuses, c)
    && s.nextRun >= s0.nextRun && s.deciding == s0.deciding && s0.history <= s.history
    && (forall r :: r in s.runs && s.runs[r].cmd == c && !(r in s0.runs && s0.runs[r].cmd == c) ==> NewRun(s0, s, c))
    && (forall r :: r in s0.runs && s0.runs[r].cmd == c ==> r in s.runs && s.runs[r] == s0.runs[r])
  }

  lemma {:induction false} NewRunStays(s0: State, s: State, s': State, c: string)
    requires c in s0.queue && NewRun(s0, s, c) && s.history <= s'.history
    requires forall r :: r in s.runs && s.runs[r].cmd == c ==> r in s'.runs && s'.runs[r] == s.runs[r]
    ensures NewRun(s0, s', c)
  {
    var r :| r in s.runs && r >= s0.nextRun && s.runs[r].cmd == c
             && s.runs[r].item == s0.queue[c].id && s.runs[r].waited == s0.queue[c].waited;
    assert r in s'.runs && s'.runs[r] == s.runs[r];
    var k :| |s0.history| <= k < |s.history| && s.history[k] == Launched(c, s0.queue[c].id, s0.queue[c].waited);
    assert s'.history[k] == s.history[k];
  }

  /** What was launched since a later state was launched since an earlier one with the same item. */
  lemma {:induction false} LaunchedEarlier(s0: State, s: State, h: seq<Event>, c: string)
    requires c in s0.queue && c in s.queue && s.queue[c].id == s0.queue[c].id && s.queue[c].waited == s0.queue[c].waited
    requires s0.history <= s.history && LaunchedSince(s, h, c)
    ensures LaunchedSince(s0, h, c)
  {
  }

  lemma {:induction false} NewRunEarlier(s0: State, s: State, s': State, c: string)
    requires c in s0.queue && Kept(s0, s, c) && NewRun(s, s', c)
    ensures NewRun(s0, s', c)
  {
    LaunchedEarlier(s0, s, s'.history, c);
  }

  lemma {:induction false} KeptTwice(s0: State, s: State, s': State, c: string)
    requires c in s0.queue && Kept(s0, s, c) && s.queue[c] == s0.queue[c] && Kept(s, s', c)
    ensures Kept(s0, s', c) && (NewRun(s, s', c) ==> NewRun(s0, s', c))
  {
    if NewRun(s, s', c) {
      NewRunEarlier(s0, s, s', c);
    } else if NewRun(s0, s, c) {
      NewRunStays(s0, s, s', c);
    }
  }

  lemma {:induction false} ElsewhereKept(group: set<string>, s: State, s': State, c: string)
    requires Elsewhere(group, s, s') && c !in group && c in s.queue
    ensures Kept(s, s', c) && s'.queue[c] == s.queue[c]
  {
  }

  lemma {:induction false} LaunchAddsRun(table: Table, s: State, start: nat, s': State)
    requires Valid(table, s) && Checked(table, s) && s' == LaunchChecked(table, s, start)
    ensures s'.nextRun >= s.nextRun && s'.deciding == s.deciding
    ensures forall r :: r in s.runs ==> r in s'.runs && s'.runs[r] == s.runs[r]
    ensures s.pass.visit.ready && s.pass.visit.cmd in s.queue ==> NewRun(s, s', s.pass.visit.cmd)
  {
    LaunchShape(table, s, start, s');
    if s.pass.visit.ready && s.pass.visit.cmd in s.queue {
      assert s.nextRun in s'.runs && s'.runs[s.nextRun].cmd == s.pass.visit.cmd;
      assert s'.history[|s.history|]
             == Launched(s.pass.visit.cmd, s.queue[s.pass.visit.cmd].id, s.queue[s.pass.visit.cmd].waited);
    }
  }

  lemma {:induction false} LaunchKept(table: Table, s0: State, s: State, start: nat, s': State, c: string)
    requires Valid(table, s) && c in s0.queue && Kept(s0, s, c)
    requires Checked(table, s) && s' == LaunchChecked(table, s, start)
    ensures Kept(s0, s', c)
  {
    LaunchShape(table, s, start, s');
    LaunchAddsRun(table, s, start, s');
    assert s.history <= s'.history;
    if s.pass.visit.ready && s.pass.visit.cmd == c {
      NewRunEarlier(s0, s, s', c);
    } else if NewRun(s0, s, c) {
      NewRunStays(s0, s, s', c);
    } else {
      assert forall r :: r in s'.runs && s'.runs[r].cmd == c ==> r in s.runs;
    }
  }

  lemma {:induction false} MissingKept(table: Table, s0: State, s: State, s': State, c: string)
    requires PhaseFresh(table, s.queue, s.pass) && c in s0.queue && Kept(s0, s, c)
    requires AtDependency(table, s) && s.pass.visit.phase == Missing && s' == AdvanceCheck(table, s)
    ensures Kept(s0, s', c)
  {
    var d := table[s.pass.visit.cmd].needs[s.pass.visit.idx];
    var added := AddItem(table, s, d, false, false);
    NewDependency(table, s, d, added);
    AddShape(table, s, d, false, false, added);
    KeptWithout(s0, s, s', c, d);
  }

  /** A new item of another command leaves `c` alone. */
  lemma {:induction false} KeptWithout(s0: State, s: State, s': State, c: string, d: string)
    requires c in s0.queue && Kept(s0, s, c) && d != c
    requires forall e :: e != d && e in s.queue ==> e in s'.queue && s'.queue[e] == s.queue[e]
    requires forall e :: e != d ==> StatusesOf(s'.statuses, e) == StatusesOf(s.statuses, e)
    requires s'.runs == s.runs && s'.nextRun == s.nextRun && s'.deciding == s.deciding && s'.history == s.history
    ensures Kept(s0, s', c)
  {
    if NewRun(s0, s, c) {
      NewRunStays(s0, s, s', c);
    }
  }

  lemma {:induction false} AdvanceKept(table: Table, s0: State, s: State, s': State, c: string)
    requires Valid(table, s) && PhaseFresh(table, s.queue, s.pass) && c in s0.queue && Kept(s0, s, c)
    requires AtDependency(table, s) && s' == AdvanceCheck(table, s)
    ensures Kept(s0, s', c)
  {
    if s.pass.visit.phase == Missing {
      MissingKept(table, s0, s, s', c);
    } else {
      CheckShape(table, s, s');
      assert s'.statuses == s.statuses && s'.nextRun == s.nextRun && s'.deciding == s.deciding;
      assert s'.history == s.history;
    }
  }

  lemma {:induction false} StepKept(table: Table, s0: State, s: State, step: Step, s': State, c: string)
    requires Valid(table, s) && PhaseFresh(table, s.queue, s.pass) && c in s0.queue && Kept(s0, s, c)
    requires InnerStep(step) && Enabled(table, s, step) && s' == Apply(table, s, step)
    ensures Kept(s0, s', c)
  {
    match step
    case VisitCommand(d) => VisitShape(table, s, d, s');
    case Advance => AdvanceKept(table, s0, s, s', c);
    case Launch(start) => LaunchKept(table, s0, s, start, s', c);
  }

  lemma {:induction false} StepsKept(table: Table, s0: State, s: State, steps: seq<Step>, s': State, c: string)
    requires Valid(table, s) && PhaseFresh(table, s.queue, s.pass) && c in s0.queue && Kept(s0, s, c)
    requires Traced(table, s, steps, s')
    ensures Kept(s0, s', c)
    decreases |steps|
  {
    if steps != [] {
      var next := Apply(table, s, steps[0]);
      StepKeepsValid(table, s, steps[0]);
      StepNoMore(table, {}, s, steps[0], next);
      StepKept(table, s0, s, steps[0], next, c);
      StepsKept(table, s0, next, steps[1..], s', c);
    }
  }

  /** A whole pass leaves a queued command alone or launches it. */
  lemma {:induction false} PassKept(table: Table, s: State, steps: seq<Step>, s': State, c: string)
    requires Valid(table, s) && c in s.queue && WholePass(table, s, steps)
             && s' == After(table, s, [BeginPass] + steps + [EndPass])
    ensures Kept(s, s', c)
  {
    var begun, checked := SplitPass(table, s, steps);
    StepKeepsValid(table, s, BeginPass);
    BeginUneventful(table, {}, s);
    StepsKept(table, s, begun, steps, checked, c);
  }

  /** `c` waits for a run, and everything it needs, directly or not, runs once to an end. */
  ghost predicate Waits(table: Table, group: set<string>, s: State, c: string) {
    && BetweenRounds(table, group, s) && OneShot(table, group) && Cone(table, group + {c}) && c !in group
    && c in s.queue && s.queue[c].runRequested && !s.queue[c].inFlight && !s.queue[c].err
  }

  lemma {:induction false} WaitsRested(table: Table, group: set<string>, s: State, c: string)
    requires Waits(table, group, s, c)
    ensures RestedIn(table, group + {c}, s) && RestartsWait(table, group + {c}, s.queue)
  {
    BetweenIsRested(table, group, s);
  }

  /** One round brings a waiting command to its launch or leaves less to do before it. */
  lemma {:induction false} WaitRound(table: Table, group: set<string>, s: State, c: string) returns (s': State)
    requires Waits(table, group, s, c)
    ensures Leads(table, PLAIN, s, s') && Sound(table, s') && s'.pass.Idle? && Kept(s, s', c)
    ensures NewRun(s, s', c)
            || (Waits(table, group, s', c) && s'.queue[c] == s.queue[c]
                && Todo(group + {c}, s'.queue) < Todo(group + {c}, s.queue))
  {
    var pass := PassExists(table, s);
    var passed := After(table, s, [BeginPass] + pass + [EndPass]);
    PassLeads(table, s, pass);
    PassKeepsNoErrors(table, group, s, pass, passed);
    PassKept(table, s, pass, passed, c);
    if NewRun(s, passed, c) {
      s' := passed;
    } else {
      WaitsRested(table, group, s, c);
      PassReducesTodo(table, group + {c}, s, pass, c, passed);
      s' := WorkForWaiting(table, group, passed, c);
      LeadsTransitive(table, PLAIN, s, passed, s');
      KeptTwice(s, passed, s', c);
    }
  }

  lemma {:induction false} WorkForWaiting(table: Table, group: set<string>, s: State, c: string) returns (s': State)
    requires Sound(table, s) && s.pass.Idle? && NoErrors(s.queue, group) && OneShot(table, group)
             && Cone(table, group + {c}) && c !in group
    requires c in s.queue && s.queue[c].runRequested && !s.queue[c].inFlight && !s.queue[c].err
    ensures Leads(table, PLAIN, s, s') && Waits(table, group, s', c) && Kept(s, s', c) && s'.queue[c] == s.queue[c]
    ensures Todo(group + {c}, s'.queue) <= Todo(group + {c}, s.queue)
  {
    var work;
    work, s' := RunsComplete(table, group, s);
    WorkLeads(table, s, work, s');
    WorkNoMore(table, group, s, work, s');
    ElsewhereKept(group, s, s', c);
    TodoWithOne(group, s.queue, s'.queue, c);
  }

  lemma {:induction false} TodoWithOne(group: set<string>, queue: map<string, Item>, queue': map<string, Item>,
                                       c: string)
    requires Todo(group, queue') <= Todo(group, queue) && c !in group && c in queue && c in queue'
             && queue'[c] == queue[c]
    ensures Todo(group + {c}, queue') <= Todo(group + {c}, queue)
  {
    OneMoreTodo(group, queue, c);
    OneMoreTodo(group, queue', c);
  }

  lemma {:induction false} OneMoreTodo(group: set<string>, queue: map<string, Item>, c: string)
    requires c !in group && c in queue
    ensures Todo(group + {c}, queue) == Todo(group, queue) + if queue[c].runRequested then 1 else 0
  {
    assert group + {c} - queue.Keys == group - queue.Keys;
    assert Requested(queue) * (group + {c}) == (Requested(queue) * group) + if queue[c].runRequested then {c} else {};
  }

  /** A waiting command can always be brought to its launch. */
  lemma {:induction false} WaitingIsLaunched(table: Table, group: set<string>, s: State, c: string) returns (s': State)
    requires Waits(table, group, s, c)
    ensures Leads(table, PLAIN, s, s') && Sound(table, s') && s'.pass.Idle? && Kept(s, s', c) && NewRun(s, s', c)
    decreases Todo(group + {c}, s.queue)
  {
    var next := WaitRound(table, group, s, c);
    if NewRun(s, next, c) {
      s' := next;
    } else {
      s' := WaitingIsLaunched(table, group, next, c);
      LeadsTransitive(table, PLAIN, s, next, s');
      KeptTwice(s, next, s', c);
    }
  }

  // ---- however the rounds go -----------------------------------------------------------------------------------

  /** Work on other commands leaves a waiting one alone. */
  lemma {:induction false} WorkStepSpares(table: Table, s: State, step: Step, s': State, c: string)
    requires Sound(table, s) && c in s.queue && !InProgress(s.runs, c)
    requires WorkStep(step) && Enabled(table, s, step) && s' == Apply(table, s, step)
    ensures c in s'.queue && s'.queue[c] == s.queue[c] && !InProgress(s'.runs, c)
  {
    if step.Finish? {
      FinishedItem(table, s, step.run, s');
      assert s'.runs == s.runs - {step.run};
    } else {
      ObserveShape(table, s, step, s');
      SameRunsInProgress(s.runs, s'.runs, c);
    }
  }

  lemma {:induction false} WorkSpares(table: Table, s: State, work: seq<Step>, s': State, c: string)
    requires Sound(table, s) && c in s.queue && !InProgress(s.runs, c) && Worked(table, s, work, s')
    ensures c in s'.queue && s'.queue[c] == s.queue[c] && !InProgress(s'.runs, c) && s.history <= s'.history
    decreases |work|
  {
    if work != [] {
      var next := Apply(table, s, work[0]);
      StepKeepsSound(table, s, work[0]);
      StepGrowsHistory(table, s, work[0], next);
      WorkStepSpares(table, s, work[0], next, c);
      WorkSpares(table, next, work[1..], s', c);
    }
  }

  /** `c` still waits as it did in `s0`, and no run of it is in progress. */
  ghost predicate StillWaits(table: Table, group: set<string>, s0: State, s: State, c: string)
    requires c in s0.queue
  {
    Waits(table, group, s, c) && !InProgress(s.runs, c) && s.queue[c] == s0.queue[c]
  }

  /** Every round launches a waiting command or leaves less to do before it. */
  lemma {:induction false} RoundOfWaiting(table: Table, group: set<string>, s: State, s': State, c: string)
    requires Waits(table, group, s, c) && !InProgress(s.runs, c) && Round(table, group, s, s')
    ensures s.history <= s'.history
    ensures LaunchedSince(s, s'.history, c)
            || (StillWaits(table, group, s, s', c) && Todo(group + {c}, s'.queue) < Todo(group + {c}, s.queue))
  {
    var pass, work :| RoundBy(table, group, s, pass, work, s');
    var passed := After(table, s, [BeginPass] + pass + [EndPass]);
    PassKeepsNoErrors(table, group, s, pass, passed);
    PassKept(table, s, pass, passed, c);
    RunGrowsHistory(table, passed, work);
    if !NewRun(s, passed, c) {
      assert !InProgress(passed.runs, c);
      WaitsRested(table, group, s, c);
      PassReducesTodo(table, group + {c}, s, pass, c, passed);
      WorkNoMore(table, group, passed, work, s');
      WorkSpares(table, passed, work, s', c);
      TodoWithOne(group, passed.queue, s'.queue, c);
    }
  }

  lemma {:induction false} LaunchedWithin(table: Table, group: set<string>, states: seq<State>, c: string)
    requires states != [] && Waits(table, group, states[0], c) && !InProgress(states[0].runs, c)
    requires Rounds(table, group, states)
    ensures |states| > Todo(group + {c}, states[0].queue) ==>
              exists i :: 0 <= i < |states| && LaunchedSince(states[0], states[i].history, c)
    decreases |states|
  {
    if |states| == 1 {
      assert c in Requested(states[0].queue) * (group + {c});
    } else {
      assert Round(table, group, states[0], states[1]);
      RoundOfWaiting(table, group, states[0], states[1], c);
      if !LaunchedSince(states[0], states[1].history, c) {
        LaunchedWithin(table, group, states[1..], c);
        if |states| > Todo(group + {c}, states[0].queue) {
          var i :| 0 <= i < |states[1..]| && LaunchedSince(states[1], states[1..][i].history, c);
          LaunchedEarlier(states[0], states[1], states[i + 1].history, c);
        }
      }
    }
  }

  /** Whatever passes and runs come in between: a waiting command of any mode, of which no run is in
      progress, is launched within two rounds for each command of its one-shot needs, and two more. */
  lemma {:induction false} RoundsLaunch(table: Table, group: set<string>, states: seq<State>, c: string)
    requires states != [] && Waits(table, group, states[0], c) && !InProgress(states[0].runs, c)
    requires Rounds(table, group, states) && |states| > 2 * |group| + 2
    ensures exists i :: 0 <= i < |states| && LaunchedSince(states[0], states[i].history, c)
  {
    TodoBound(group + {c}, states[0].queue);
    LaunchedWithin(table, group, states, c);
  }
}
