/** A stop starts dependencies over: what a command needs has to succeed again before its next launch, but
    for finished run-once commands and for names a walk had read as Done before the stop. */
module SchedulerStop {
  import opened Domain
  import opened CommandStatus
  import opened Scheduler
  import opened SchedulerInvariant
  import opened SchedulerEffects
  import opened SchedulerOrder
  import opened SchedulerDoubleRun

  // ---- no step looks at the history ---------------------------------------------------------------------

  /** `s'` with what happened since `s` put behind `h`. */
  ghost function Since(s: State, s': State, h: seq<Event>): State
    requires s.history <= s'.history
  {
    s'.(history := h + s'.history[|s.history|..])
  }

  lemma {:induction false} AddForgets(table: Table, s: State, c: string, force: bool, waited: bool, h: seq<Event>)
    ensures AddItem(table, s, c, force, waited).history == s.history
    ensures AddItem(table, s.(history := h), c, force, waited)
            == AddItem(table, s, c, force, waited).(history := h)
  {
    AddShape(table, s, c, force, waited, AddItem(table, s, c, force, waited));
    AddShape(table, s.(history := h), c, force, waited, AddItem(table, s.(history := h), c, force, waited));
    assert AddOutcome(table, s.(history := h), c, force) == AddOutcome(table, s, c, force);
  }

  lemma {:induction false} ReadForgets(table: Table, s: State, s': State, h: seq<Event>)
    requires AtDependency(table, s) && s.pass.visit.phase != Missing && s' == AdvanceCheck(table, s)
    ensures s'.history == s.history && AdvanceCheck(table, s.(history := h)) == s'.(history := h)
  {
    var dep := table[s.pass.visit.cmd].needs[s.pass.visit.idx];
    assert ItemStatus(table, s.(history := h), dep) == ItemStatus(table, s, dep);
  }

  lemma {:induction false} AdvanceForgets(table: Table, s: State, s': State, h: seq<Event>)
    requires AtDependency(table, s) && s' == AdvanceCheck(table, s)
    ensures s'.history == s.history && AdvanceCheck(table, s.(history := h)) == s'.(history := h)
  {
    if s.pass.visit.phase == Missing {
      var dep := table[s.pass.visit.cmd].needs[s.pass.visit.idx];
      AddForgets(table, s, dep, false, false, h);
      NextForgets(AddItem(table, s, dep, false, false), h);
    } else {
      ReadForgets(table, s, s', h);
    }
  }

  lemma {:induction false} NextForgets(s: State, h: seq<Event>)
    requires s.pass.Active? && s.pass.visit.Checking?
    ensures NextDep(s.(history := h), false) == NextDep(s, false).(history := h)
  {
  }

  lemma {:induction false} LaunchForgets(table: Table, s: State, start: nat, s': State, h: seq<Event>)
    requires Checked(table, s) && s' == LaunchChecked(table, s, start)
    ensures s.history <= s'.history && LaunchChecked(table, s.(history := h), start) == Since(s, s', h)
  {
    var c := s.pass.visit.cmd;
    if s.pass.visit.ready && c in s.queue {
      assert s'.history[|s.history|..] == [Launched(c, s.queue[c].id, s.queue[c].waited)];
    }
  }

  lemma {:induction false} SettleForgets(table: Table, s: State, c: string, outcome: Outcome, h: seq<Event>)
    requires c in table
    ensures Settle(table, s, c, outcome).history == s.history
    ensures Settle(table, s.(history := h), c, outcome) == Settle(table, s, c, outcome).(history := h)
  {
  }

  lemma {:induction false} EndForgets(table: Table, s: State, rid: nat, outcome: Outcome, s': State, h: seq<Event>)
    requires rid in s.runs && ValidRun(table, s.runs[rid]) && s' == EndRun(table, s, rid, outcome)
    ensures s.history <= s'.history && EndRun(table, s.(history := h), rid, outcome) == Since(s, s', h)
  {
    var r := s.runs[rid];
    var more := [Finished(r.cmd, r.item, outcome == Ok)] + if r.waited then [Closed(r.cmd, r.item)] else [];
    assert s'.history == s.history + more && s'.history[|s.history|..] == more;
    assert h + [Finished(r.cmd, r.item, outcome == Ok)] + (if r.waited then [Closed(r.cmd, r.item)] else [])
           == h + more;
  }

  lemma {:induction false} FinishForgets(table: Table, s: State, rid: nat, outcome: Outcome, s': State, h: seq<Event>)
    requires rid in s.runs && ValidRun(table, s.runs[rid]) && s' == FinishRun(table, s, rid, outcome)
    ensures s.history <= s'.history && FinishRun(table, s.(history := h), rid, outcome) == Since(s, s', h)
  {
    var ended := EndRun(table, s, rid, outcome);
    EndForgets(table, s, rid, outcome, ended, h);
    SettleForgets(table, ended, s.runs[rid].cmd, outcome, h + ended.history[|s.history|..]);
  }

  lemma {:induction false} PassStepForgets(table: Table, s: State, step: Step, s': State, h: seq<Event>)
    requires Enabled(table, s, step) && s' == Apply(table, s, step)
    requires step.BeginPass? || step.VisitCommand? || step.EndPass?
    ensures Enabled(table, s.(history := h), step) && s'.history == s.history
    ensures Apply(table, s.(history := h), step) == s'.(history := h)
  {
    assert Snapshot(table, s.(history := h)) == Snapshot(table, s) by {
      forall c | c in s.queue ensures ItemStatus(table, s.(history := h), c) == ItemStatus(table, s, c) {
      }
    }
  }

  lemma {:induction false} PlainStepForgets(table: Table, s: State, step: Step, s': State, h: seq<Event>)
    requires Enabled(table, s, step) && s' == Apply(table, s, step)
    requires step.DecideRemember? || step.RememberDone? || step.ObserveRunning? || step.ObserveDone?
             || step.StopRuntime?
    ensures Enabled(table, s.(history := h), step) && s'.history == s.history
    ensures Apply(table, s.(history := h), step) == s'.(history := h)
  {
  }

  lemma {:induction false} NothingNew(s: State, s': State, h: seq<Event>)
    requires s'.history == s.history
    ensures Since(s, s', h) == s'.(history := h)
  {
    assert s'.history[|s.history|..] == [];
  }

  /** A step does the same whatever has happened before. */
  lemma {:induction false} StepForgets(table: Table, s: State, step: Step, s': State, h: seq<Event>)
    requires Enabled(table, s, step) && s' == Apply(table, s, step)
    ensures s.history <= s'.history && Enabled(table, s.(history := h), step)
    ensures Apply(table, s.(history := h), step) == Since(s, s', h)
  {
    if step.Add? {
      AddForgets(table, s, step.cmd, step.force, step.waited, h);
      NothingNew(s, s', h);
    } else if step.Advance? {
      AdvanceForgets(table, s, s', h);
      NothingNew(s, s', h);
    } else if step.Launch? {
      LaunchForgets(table, s, step.start, s', h);
    } else if step.Finish? {
      FinishForgets(table, s, step.run, step.outcome, s', h);
    } else if step.BeginPass? || step.VisitCommand? || step.EndPass? {
      PassStepForgets(table, s, step, s', h);
      NothingNew(s, s', h);
    } else {
      PlainStepForgets(table, s, step, s', h);
      NothingNew(s, s', h);
    }
  }

  lemma {:induction false} SinceTwice(s: State, next: State, s': State, h: seq<Event>)
    requires s.history <= next.history <= s'.history
    ensures Since(next, s', h + next.history[|s.history|..]) == Since(s, s', h)
  {
    assert h + s'.history[|s.history|..] == h + next.history[|s.history|..] + s'.history[|next.history|..];
  }

  lemma {:induction false} OneForgets(table: Table, s: State, steps: seq<Step>, next: State, h: seq<Event>)
    requires steps != [] && CanRun(table, s, steps) && next == Apply(table, s, steps[0])
    ensures s.history <= next.history && Enabled(table, s.(history := h), steps[0])
    ensures Apply(table, s.(history := h), steps[0]) == next.(history := h + next.history[|s.history|..])
    ensures CanRun(table, next, steps[1..]) && After(table, s, steps) == After(table, next, steps[1..])
  {
    StepForgets(table, s, steps[0], next, h);
  }

  /** So does a run. */
  lemma {:induction false} RunForgets(table: Table, s: State, steps: seq<Step>, s': State, h: seq<Event>)
    requires CanRun(table, s, steps) && s' == After(table, s, steps)
    ensures s.history <= s'.history && CanRun(table, s.(history := h), steps)
    ensures After(table, s.(history := h), steps) == Since(s, s', h)
    decreases |steps|
  {
    if steps == [] {
      NothingNew(s, s', h);
    } else {
      var next := Apply(table, s, steps[0]);
      OneForgets(table, s, steps, next, h);
      RunForgets(table, next, steps[1..], s', h + next.history[|s.history|..]);
      SinceTwice(s, next, s', h);
    }
  }

  // ---- dependencies after a stop ------------------------------------------------------------------------

  /** The commands that count as done right after a stop: run-once commands whose procedures were all Done, and
      names that a walk has read as Done but not yet remembered. */
  ghost predicate CountsAfterStop(table: Table, s: State, c: string) {
    c in s.deciding
    || (c in table && table[c].run == Once && c in s.statuses && Everywhere(table[c], s.statuses[c], Done))
  }

  ghost function Counting(table: Table, s: State): set<string> {
    s.deciding + set c | c in table && CountsAfterStop(table, s, c)
  }

  lemma {:induction false} StoppedIsOrdered(table: Table, s: State, s0: State)
    requires Valid(table, s) && Enabled(table, s, StopRuntime(true)) && s0 == Apply(table, s, StopRuntime(true))
    ensures OrderInvariant(table, s0.(history := []), Counting(table, s))
  {
    StepKeepsValid(table, s, StopRuntime(true));
    StopForgets(table, s, true, s0);
    forall c | c in table && LastDone(table, s0.statuses, c) ensures c in Counting(table, s) {
      assert c in s0.statuses;
    }
  }

  lemma {:induction false} OrderedSince(table: Table, s: State, s0: State, steps: seq<Step>, s': State)
    requires Valid(table, s) && Enabled(table, s, StopRuntime(true)) && s0 == Apply(table, s, StopRuntime(true))
    requires CanRun(table, s0, steps) && s' == After(table, s0, steps)
    ensures s.history <= s'.history && Ordered(table, s'.history[|s.history|..], Counting(table, s))
  {
    StoppedIsOrdered(table, s, s0);
    RunForgets(table, s0, steps, s', []);
    RunKeepsOrder(table, s0.(history := []), steps, Counting(table, s));
    assert [] + s'.history[|s.history|..] == s'.history[|s.history|..];
  }

  /** A launch in an ordered piece of history, seen from the whole. */
  lemma {:induction false} SucceededSince(table: Table, h: seq<Event>, n: nat, k: nat, c: string, excused: set<string>)
    requires n <= k < |h| && Ordered(table, h[n..], excused)
    requires h[k].Launched? && h[k].cmd in table && c in table[h[k].cmd].needs && c !in excused
    ensures exists j :: n <= j < k && h[j].Finished? && h[j].cmd == c && h[j].ok
  {
    var since := h[n..];
    assert since[k - n] == h[k];
    assert Succeeded(since[..k - n], c);
    var j :| 0 <= j < k - n && since[..k - n][j].Finished? && since[..k - n][j].cmd == c && since[..k - n][j].ok;
    assert h[n + j] == since[j];
  }

  /** After a stop every launch comes after a success, since the stop, of each command it needs directly, but for
      those that count as done by themselves: in particular of every command that does not run just once, unless
      a walk has read it as Done before the stop and remembers it after. */
  lemma {:induction false} NeedsSucceedAgain(table: Table, s: State, steps: seq<Step>, k: nat, c: string)
    requires Valid(table, s) && Enabled(table, s, StopRuntime(true))
    requires CanRun(table, Apply(table, s, StopRuntime(true)), steps)
    requires var h := After(table, Apply(table, s, StopRuntime(true)), steps).history;
             && |s.history| <= k < |h| && h[k].Launched? && h[k].cmd in table && c in table[h[k].cmd].needs
    requires !CountsAfterStop(table, s, c)
    ensures var h := After(table, Apply(table, s, StopRuntime(true)), steps).history;
            exists j :: |s.history| <= j < k && h[j].Finished? && h[j].cmd == c && h[j].ok
  {
    var s0 := Apply(table, s, StopRuntime(true));
    var s' := After(table, s0, steps);
    OrderedSince(table, s, s0, steps, s');
    SucceededSince(table, s'.history, |s.history|, k, c, Counting(table, s));
  }

  // ---- and exactly then ---------------------------------------------------------------------------------

  /** `b` was launched at or after `from` without a success of any command in between. */
  ghost predicate LaunchedUnaided(h: seq<Event>, from: nat, b: string) {
    exists k :: && from <= k < |h| && h[k].Launched? && h[k].cmd == b
                && forall j :: from <= j < k ==> !(h[j].Finished? && h[j].ok)
  }

  /** Some run from `s` does so. */
  ghost predicate CanLaunchUnaided(table: Table, s: State, b: string) {
    exists steps :: CanRun(table, s, steps) && LaunchedUnaided(After(table, s, steps).history, |s.history|, b)
  }

  /** The names in `needs` that a walk had read as Done are remembered, and nothing else is queued. */
  ghost predicate RemembersRead(s: State, needs: seq<string>, s': State) {
    && s' == s.(queue := s'.queue, nextItem := s'.nextItem)
    && (forall d :: d in s'.queue <==> d in needs && d in s.deciding)
    && (forall d :: d in s'.queue ==> s'.queue[d].rememberDone && !s'.queue[d].err && !s'.queue[d].inFlight)
  }

  lemma {:induction false} RememberRead(table: Table, s: State, needs: seq<string>) returns (s': State)
    requires s.queue == map[]
    ensures Leads(table, Licence({}, true), s, s') && RemembersRead(s, needs, s')
    decreases |needs|
  {
    if needs == [] {
      s' := s;
      LeadsNowhere(table, Licence({}, true), s);
    } else {
      var init, last := needs[..|needs| - 1], needs[|needs| - 1];
      assert forall d :: d in needs <==> d in init || d == last;
      s' := RememberRead(table, s, init);
      if last in s.deciding {
        var before := s';
        s' := Remember(before, last);
        LeadsByStep(table, Licence({}, true), before, RememberDone(last), s');
        LeadsTransitive(table, Licence({}, true), s, before, s');
      }
    }
  }

  lemma {:induction false} ReadyAfterStop(table: Table, s: State, s0: State, b: string, s1: State, s2: State)
    requires Valid(table, s) && Enabled(table, s, StopRuntime(true)) && s0 == Apply(table, s, StopRuntime(true))
    requires b in table && b !in table[b].needs && forall c :: c in table[b].needs ==> CountsAfterStop(table, s, c)
    requires RemembersRead(s0, table[b].needs, s1) && s2 == AddItem(table, s1, b, true, false) && Valid(table, s2)
    ensures Launchable(table, s2, b) && s2.history == s.history
  {
    StopForgets(table, s, true, s0);
    AddShape(table, s1, b, true, false, s2);
    assert AddOutcome(table, s1, b, true) == Queued;
    forall d | d in table[b].needs
      ensures if d in s2.queue then ItemStatus(table, s2, d) == Some(Done)
              else DerivedStatus(table, s2.statuses, d) == Some(Done)
    {
      if d !in s.deciding {
        DoneEverywhere(table[d], s.statuses[d]);
        assert StatusesOf(s2.statuses, d) == s.statuses[d];
      }
    }
  }

  lemma {:induction false} LaunchesUnaided(table: Table, s: State, s0: State, b: string)
    requires Valid(table, s) && Enabled(table, s, StopRuntime(true)) && s0 == Apply(table, s, StopRuntime(true))
    requires b in table && b !in table[b].needs && forall c :: c in table[b].needs ==> CountsAfterStop(table, s, c)
    ensures CanLaunchUnaided(table, s0, b)
  {
    var licence := Licence({b}, true);
    StepKeepsValid(table, s, StopRuntime(true));
    var s1 := RememberRead(table, s0, table[b].needs);
    LeadsWider(table, Licence({}, true), licence, s0, s1);
    var first :| LeadsBy(table, Licence({}, true), s0, first, s1);
    RunKeepsValid(table, s0, first);
    var s2 := AddItem(table, s1, b, true, false);
    LeadsByStep(table, licence, s1, Add(b, true, false), s2);
    StepKeepsValid(table, s1, Add(b, true, false));
    ReadyAfterStop(table, s, s0, b, s1, s2);
    LaunchFirst(table, s2, b);
    PlainLeads(table, licence, s1, s2, Relaunched(table, s2, b));
    LeadsTransitive(table, licence, s0, s1, Relaunched(table, s2, b));
    var steps :| LeadsBy(table, licence, s0, steps, Relaunched(table, s2, b));
    var h := After(table, s0, steps).history;
    assert h[|s.history|].Launched? && h[|s.history|].cmd == b;
    assert LaunchedUnaided(h, |s0.history|, b);
  }

  lemma {:induction false} UnaidedCounts(table: Table, s: State, s0: State, b: string, c: string)
    requires Valid(table, s) && Enabled(table, s, StopRuntime(true)) && s0 == Apply(table, s, StopRuntime(true))
    requires b in table && c in table[b].needs && CanLaunchUnaided(table, s0, b)
    ensures CountsAfterStop(table, s, c)
  {
    var steps :| CanRun(table, s0, steps) && LaunchedUnaided(After(table, s0, steps).history, |s0.history|, b);
    var h := After(table, s0, steps).history;
    var k :| && |s0.history| <= k < |h| && h[k].Launched? && h[k].cmd == b
             && forall j :: |s0.history| <= j < k ==> !(h[j].Finished? && h[j].ok);
    if !CountsAfterStop(table, s, c) {
      NeedsSucceedAgain(table, s, steps, k, c);
      assert false;
    }
  }

  /** The exact condition: after a stop a command can be launched before anything has succeeded if and only if
      each of its needs counts as done by itself. Commands that need themselves are left aside. */
  lemma {:induction false} UnaidedExactly(table: Table, s: State, s0: State, b: string)
    requires Valid(table, s) && Enabled(table, s, StopRuntime(true)) && s0 == Apply(table, s, StopRuntime(true))
    requires b in table && b !in table[b].needs
    ensures CanLaunchUnaided(table, s0, b) <==> forall c :: c in table[b].needs ==> CountsAfterStop(table, s, c)
  {
    if CanLaunchUnaided(table, s0, b) {
      forall c | c in table[b].needs ensures CountsAfterStop(table, s, c) {
        UnaidedCounts(table, s, s0, b, c);
      }
    } else if forall c :: c in table[b].needs ==> CountsAfterStop(table, s, c) {
      LaunchesUnaided(table, s, s0, b);
    }
  }
}
