/** The Docker backend running one command: a loop over its procedures that reports every status
    change to an observer and stops at the first failure that is not ignored. */
module DockerProcedures {
  import opened Domain
  import opened CommandStatus
  import opened Scheduler

  datatype Observation = Observation(name: string, status: Status)

  /** What the container engine makes of one procedure. */
  datatype Result = Result(err: bool, exit: Option<int>)

  // ---- what a run means, stated without the loop ------------------------------------------------

  /** What running a procedure comes to: signals have no exit code, a missing image is an error. */
  function ProcedureResult(p: Procedure, r: Result): Result {
    if p.signal then Result(r.err, None)
    else if !p.hasImage then Result(true, None)
    else r
  }

  predicate NonZero(exit: Option<int>) {
    exit.Some? && exit.value != 0
  }

  /** The command goes on after this procedure. */
  predicate Passes(run: RunMode, p: Procedure, r: Result) {
    if run == Persistent then (p.signal || p.hasImage) && !r.err
    else
      var seen := ProcedureResult(p, r);
      (!seen.err && !NonZero(seen.exit)) || (NonZero(seen.exit) && p.ignoreFailure)
  }

  /** What is observed of a procedure the command goes on after. */
  function Completion(run: RunMode, p: Procedure): seq<Observation> {
    [Observation(p.name, Running)] + if run == Persistent && !p.signal then [] else [Observation(p.name, Done)]
  }

  function Completions(run: RunMode, procedures: seq<Procedure>): seq<Observation> {
    if procedures == [] then []
    else Completions(run, procedures[..|procedures| - 1]) + Completion(run, procedures[|procedures| - 1])
  }

  /** What is observed of a procedure the command stops at. */
  function Breakdown(run: RunMode, p: Procedure): seq<Observation> {
    if run == Persistent && !p.signal && !p.hasImage then []
    else [Observation(p.name, Running), Observation(p.name, Error)]
  }

  predicate Succeeds(exit: Option<int>, err: bool) {
    !err && !NonZero(exit)
  }

  // ---- the backend's loop -----------------------------------------------------------------------

  /** The exit code and error a stop at `p` reports. */
  function Reported(run: RunMode, p: Procedure, r: Result): Result {
    if run == Persistent then Result(true, None) else ProcedureResult(p, r)
  }

  /** `RunCommand` of the Docker backend; `results[i]` is what the engine makes of procedure `i`. */
  method RunCommand(command: Command, results: seq<Result>)
    returns (observed: seq<Observation>, completed: nat, exit: Option<int>, err: bool)
    requires |results| == |command.procedures|
    ensures completed <= |command.procedures|
    ensures forall i :: 0 <= i < completed ==> Passes(command.run, command.procedures[i], results[i])
    ensures Succeeds(exit, err) <==> completed == |command.procedures|
    ensures completed < |command.procedures| ==>
              && !Passes(command.run, command.procedures[completed], results[completed])
              && Result(err, exit) == Reported(command.run, command.procedures[completed], results[completed])
    ensures observed == Completions(command.run, command.procedures[..completed])
                        + if completed == |command.procedures| then []
                          else Breakdown(command.run, command.procedures[completed])
    ensures !err && (exit.None? || exit.value == 0) <==> completed == |command.procedures|
    ensures forall i :: 0 <= i < |command.procedures| && command.run != Persistent ==>
              var p, r := command.procedures[i], results[i];
              && (!p.signal && !p.hasImage ==> completed <= i)
              && (p.signal && r.err ==> completed <= i)
              && (!p.signal && p.hasImage && r.exit.Some? && r.exit.value != 0 && !p.ignoreFailure ==> completed <= i)
              && (!p.signal && p.hasImage && r.err && (r.exit.None? || r.exit.value == 0) ==> completed <= i)
    ensures forall i :: 0 <= i < |command.procedures| && command.run == Persistent ==>
              var p, r := command.procedures[i], results[i];
              (r.err || (!p.signal && !p.hasImage) ==> completed <= i)
    ensures completed < |command.procedures| ==>
              var p, r := command.procedures[completed], results[completed];
              if command.run == Persistent then r.err || (!p.signal && !p.hasImage)
              else if p.signal then r.err
              else if p.hasImage && r.exit.Some? && r.exit.value != 0 then !p.ignoreFailure
              else r.err || !p.hasImage
    ensures command.run != Persistent && |command.procedures| > 0 ==>
              forall statuses :: Derive(command, Persisted(statuses, observed))
                     == Some(if Succeeds(exit, err) then Done else Error)
  {
    observed, completed, exit, err := [], 0, None, false;
    while completed < |command.procedures|
      invariant completed <= |command.procedures|
      invariant forall i :: 0 <= i < completed ==> Passes(command.run, command.procedures[i], results[i])
      invariant exit.None? && !err
      invariant observed == Completions(command.run, command.procedures[..completed])
    {
      var p := command.procedures[completed];
      assert command.procedures[..completed + 1] == command.procedures[..completed] + [p];
      assert command.procedures[..completed + 1][..completed] == command.procedures[..completed];
      var more, goOn, result := RunOne(command.run, p, results[completed]);
      observed := observed + more;
      if !goOn {
        TraceDerives(command, completed, observed);
        return observed, completed, result.exit, result.err;
      }
      completed := completed + 1;
    }
    assert command.procedures[..completed] == command.procedures;
    TraceDerives(command, completed, observed);
  }

  /** The body of the loop, which is the same in both backends: what is observed of one procedure,
      whether the command goes on after it, and otherwise what is reported. */
  method RunOne(run: RunMode, p: Procedure, r: Result) returns (observed: seq<Observation>, goOn: bool, result: Result)
    ensures goOn <==> Passes(run, p, r)
    ensures observed == if goOn then Completion(run, p) else Breakdown(run, p)
    ensures !goOn ==> result == Reported(run, p, r) && !Succeeds(result.exit, result.err)
    ensures run == Persistent ==> (goOn <==> !r.err && (p.signal || p.hasImage))
    ensures run != Persistent && p.signal ==> (goOn <==> !r.err)
    ensures run != Persistent && !p.signal && !p.hasImage ==> !goOn
    ensures run != Persistent && !p.signal && p.hasImage ==>
              (goOn <==> if r.exit.Some? && r.exit.value != 0 then p.ignoreFailure else !r.err)
    ensures goOn ==> observed == if run == Persistent && !p.signal then [Observation(p.name, Running)]
                                 else [Observation(p.name, Running), Observation(p.name, Done)]
    ensures !goOn ==> observed == if run == Persistent && !p.signal && !p.hasImage then []
                                  else [Observation(p.name, Running), Observation(p.name, Error)]
    ensures !goOn ==> result.exit == if run == Persistent || p.signal || !p.hasImage then None else r.exit
    ensures !goOn && (run == Persistent || p.signal || !p.hasImage) ==> result.err
    ensures !goOn && run != Persistent && !p.signal && p.hasImage ==> result.err == r.err
  {
    observed, goOn, result := [], true, r;
    if run == Persistent {
      if p.signal {
        observed := [Observation(p.name, Running)];
        if r.err {
          return observed + [Observation(p.name, Error)], false, Result(true, None);
        }
        observed := observed + [Observation(p.name, Done)];
        return;
      }
      if !p.hasImage {
        return [], false, Result(true, None);
      }
      observed := [Observation(p.name, Running)];
      if r.err {
        return observed + [Observation(p.name, Error)], false, Result(true, None);
      }
      return;
    }
    observed := [Observation(p.name, Running)];
    result := RunProcedure(p, r);
    if result.err {
      if result.exit.Some? && result.exit.value != 0 && p.ignoreFailure {
        observed := observed + [Observation(p.name, Done)];
        return;
      }
      return observed + [Observation(p.name, Error)], false, result;
    }
    if result.exit.Some? && result.exit.value != 0 {
      if p.ignoreFailure {
        observed := observed + [Observation(p.name, Done)];
        return;
      }
      return observed + [Observation(p.name, Error)], false, result;
    }
    observed := observed + [Observation(p.name, Done)];
  }

  /** `runProcedure`. */
  method RunProcedure(p: Procedure, r: Result) returns (result: Result)
    ensures result == ProcedureResult(p, r)
  {
    if p.signal {
      return Result(r.err, None);
    }
    if !p.hasImage {
      return Result(true, None);
    }
    return r;
  }

  // ---- what the observations derive to ------------------------------------------------------------

  /** The statuses after the observations were persisted. */
  function Persisted(statuses: ProcedureStatuses, observed: seq<Observation>): ProcedureStatuses {
    if observed == [] then statuses
    else
      var last := observed[|observed| - 1];
      Persisted(statuses, observed[..|observed| - 1])[last.name := last.status]
  }

  lemma {:induction false} PersistedConcat(statuses: ProcedureStatuses, first: seq<Observation>,
                                           second: seq<Observation>)
    ensures Persisted(statuses, first + second) == Persisted(Persisted(statuses, first), second)
    decreases |second|
  {
    if second == [] {
      assert first + second == first;
    } else {
      assert (first + second)[..|first + second| - 1] == first + second[..|second| - 1];
      PersistedConcat(statuses, first, second[..|second| - 1]);
    }
  }

  lemma PersistedPair(statuses: ProcedureStatuses, name: string, status: Status)
    ensures Persisted(statuses, [Observation(name, Running), Observation(name, status)]) == statuses[name := status]
  {
    var pair := [Observation(name, Running), Observation(name, status)];
    assert pair[..1] == [Observation(name, Running)];
    assert [Observation(name, Running)][..0] == [];
    assert Persisted(statuses, pair[..1]) == statuses[name := Running];
    assert Persisted(statuses, pair) == statuses[name := Running][name := status];
  }

  predicate Named(procedures: seq<Procedure>, name: string) {
    exists i :: 0 <= i < |procedures| && procedures[i].name == name
  }

  /** The procedures are Done, and nothing else has changed. */
  predicate DoneBeyond(statuses: ProcedureStatuses, procedures: seq<Procedure>, after: ProcedureStatuses) {
    && (forall i :: 0 <= i < |procedures| ==> procedures[i].name in after && after[procedures[i].name] == Done)
    && (forall name :: name in after && !Named(procedures, name) ==> name in statuses && after[name] == statuses[name])
    && (forall name :: name in statuses ==> name in after)
  }

  lemma OneMoreDone(statuses: ProcedureStatuses, procedures: seq<Procedure>, before: ProcedureStatuses,
                    after: ProcedureStatuses)
    requires procedures != [] && DoneBeyond(statuses, procedures[..|procedures| - 1], before)
    requires after == before[procedures[|procedures| - 1].name := Done]
    ensures DoneBeyond(statuses, procedures, after)
  {
    var init := procedures[..|procedures| - 1];
    forall name | !Named(procedures, name) ensures !Named(init, name) && name != procedures[|procedures| - 1].name {
    }
  }

  /** A completed stretch of procedures is Done, and nothing else has changed. */
  lemma {:induction false} CompletedAreDone(statuses: ProcedureStatuses, run: RunMode, procedures: seq<Procedure>)
    requires run != Persistent
    ensures DoneBeyond(statuses, procedures, Persisted(statuses, Completions(run, procedures)))
    decreases |procedures|
  {
    if procedures != [] {
      var init, last := procedures[..|procedures| - 1], procedures[|procedures| - 1];
      CompletedAreDone(statuses, run, init);
      PersistedConcat(statuses, Completions(run, init), Completion(run, last));
      assert Completion(run, last) == [Observation(last.name, Running), Observation(last.name, Done)];
      PersistedPair(Persisted(statuses, Completions(run, init)), last.name, Done);
      OneMoreDone(statuses, procedures, Persisted(statuses, Completions(run, init)),
                  Persisted(statuses, Completions(run, procedures)));
    }
  }

  /** Whatever was persisted before, a successful run leaves statuses that derive to Done. */
  lemma SuccessDerivesDone(statuses: ProcedureStatuses, command: Command)
    requires command.run != Persistent && |command.procedures| > 0
    ensures Derive(command, Persisted(statuses, Completions(command.run, command.procedures))) == Some(Done)
  {
    CompletedAreDone(statuses, command.run, command.procedures);
  }

  /** Whatever was persisted before, a run that stops at procedure `k` leaves statuses that derive
      to Error, and nothing is observed of a later procedure. */
  lemma FailureDerivesError(statuses: ProcedureStatuses, command: Command, k: nat)
    requires command.run != Persistent && k < |command.procedures|
    ensures var observed := Completions(command.run, command.procedures[..k])
                            + Breakdown(command.run, command.procedures[k]);
            && Derive(command, Persisted(statuses, observed)) == Some(Error)
            && forall i :: 0 <= i < |observed| ==> Named(command.procedures[..k + 1], observed[i].name)
  {
    var before := Completions(command.run, command.procedures[..k]);
    PersistedConcat(statuses, before, Breakdown(command.run, command.procedures[k]));
    PersistedPair(Persisted(statuses, before), command.procedures[k].name, Error);
    ObservedAreNamed(command.run, command.procedures[..k]);
    assert command.procedures[..k + 1][k] == command.procedures[k];
    forall i | 0 <= i < |before| ensures Named(command.procedures[..k + 1], before[i].name) {
      var j :| 0 <= j < k && command.procedures[..k][j].name == before[i].name;
      assert command.procedures[..k + 1][j] == command.procedures[..k][j];
    }
  }

  /** What the observations of a whole run derive to, whatever was persisted before. */
  lemma TraceDerives(command: Command, completed: nat, observed: seq<Observation>)
    requires completed <= |command.procedures|
    requires observed == Completions(command.run, command.procedures[..completed])
                         + if completed == |command.procedures| then []
                           else Breakdown(command.run, command.procedures[completed])
    ensures command.run != Persistent && |command.procedures| > 0 ==>
              forall statuses :: Derive(command, Persisted(statuses, observed))
                     == Some(if completed == |command.procedures| then Done else Error)
  {
    if command.run != Persistent && |command.procedures| > 0 {
      forall statuses
        ensures Derive(command, Persisted(statuses, observed))
                == Some(if completed == |command.procedures| then Done else Error)
      {
        if completed == |command.procedures| {
          assert command.procedures[..completed] == command.procedures;
          assert observed == Completions(command.run, command.procedures);
          SuccessDerivesDone(statuses, command);
        } else {
          FailureDerivesError(statuses, command, completed);
        }
      }
    }
  }

  lemma {:induction false} ObservedAreNamed(run: RunMode, procedures: seq<Procedure>)
    ensures forall i :: 0 <= i < |Completions(run, procedures)| ==>
              Named(procedures, Completions(run, procedures)[i].name)
    decreases |procedures|
  {
    if procedures != [] {
      var init, last := procedures[..|procedures| - 1], procedures[|procedures| - 1];
      ObservedAreNamed(run, init);
      forall i | 0 <= i < |Completions(run, init)| ensures Named(procedures, Completions(run, init)[i].name) {
        var j :| 0 <= j < |init| && init[j].name == Completions(run, init)[i].name;
        assert procedures[j] == init[j];
      }
      assert procedures[|procedures| - 1].name == last.name;
    }
  }

  /** While a run is under way its statuses derive to Done between two procedures exactly when the
      procedures still to come were Done before the run, so never if the last one was reset. */
  lemma DoneTooEarly(statuses: ProcedureStatuses, command: Command, k: nat)
    requires command.run != Persistent && DistinctNames(command.procedures) && k < |command.procedures|
    ensures Derive(command, Persisted(statuses, Completions(command.run, command.procedures[..k]))) == Some(Done)
       <==> forall i :: k <= i < |command.procedures| ==>
              command.procedures[i].name in statuses && statuses[command.procedures[i].name] == Done
  {
    var done := command.procedures[..k];
    var after := Persisted(statuses, Completions(command.run, done));
    CompletedAreDone(statuses, command.run, done);
    forall i | k <= i < |command.procedures| ensures !Named(done, command.procedures[i].name) {
    }
    forall i | 0 <= i < k ensures command.procedures[i].name in after && after[command.procedures[i].name] == Done {
      assert done[i] == command.procedures[i];
    }
    assert AllDone(command, after) <==> forall i :: k <= i < |command.procedures| ==>
              command.procedures[i].name in statuses && statuses[command.procedures[i].name] == Done;
    AllDoneDerives(command, after);
  }

  lemma AllDoneDerives(command: Command, statuses: ProcedureStatuses)
    requires |command.procedures| > 0
    ensures Derive(command, statuses) == Some(Done) <==> AllDone(command, statuses)
  {
  }

  // ---- the same run, seen by the scheduler ----------------------------------------------------------

  lemma PersistedOne(statuses: ProcedureStatuses, name: string, status: Status)
    ensures Persisted(statuses, [Observation(name, status)]) == statuses[name := status]
  {
    assert [Observation(name, status)][..0] == [];
  }

  /** Only the statuses of `c` differ, and they are `own`. */
  ghost predicate OnlyCommand(statuses: map<string, ProcedureStatuses>, statuses': map<string, ProcedureStatuses>,
                              c: string, own: ProcedureStatuses) {
    StatusesOf(statuses', c) == own && forall d :: d != c ==> StatusesOf(statuses', d) == StatusesOf(statuses, d)
  }

  lemma SetTwice(statuses: map<string, ProcedureStatuses>, c: string, name: string, first: Status, second: Status)
    ensures OnlyCommand(statuses, SetProcedure(statuses, c, name, first), c, StatusesOf(statuses, c)[name := first])
    ensures OnlyCommand(statuses, SetProcedure(SetProcedure(statuses, c, name, first), c, name, second), c,
                        StatusesOf(statuses, c)[name := second])
  {
    assert StatusesOf(statuses, c)[name := first][name := second] == StatusesOf(statuses, c)[name := second];
  }

  /** The scheduler completes a procedure with the statuses the backend observed. */
  lemma CompleteObserved(table: Table, s: State, r: Run, mid: map<string, ProcedureStatuses>, own: ProcedureStatuses)
    requires ValidRun(table, r) && own == StatusesOf(s.statuses, r.cmd)
    requires mid == SetProcedure(s.statuses, r.cmd, table[r.cmd].procedures[r.pos].name, Running)
    ensures OnlyCommand(s.statuses, CompleteProcedure(table, s.(statuses := mid), r), r.cmd,
                        Persisted(own, Completion(table[r.cmd].run, table[r.cmd].procedures[r.pos])))
  {
    var p := table[r.cmd].procedures[r.pos];
    SetTwice(s.statuses, r.cmd, p.name, Running, Done);
    if LeftRunning(table[r.cmd], r.pos) {
      assert Completion(table[r.cmd].run, p) == [Observation(p.name, Running)];
      PersistedOne(own, p.name, Running);
    } else {
      assert Completion(table[r.cmd].run, p) == [Observation(p.name, Running), Observation(p.name, Done)];
      PersistedPair(own, p.name, Done);
    }
  }

  /** `s'` is `s` with the run at procedure `n`, everything before observed as the backend does. */
  ghost predicate ObservedUpTo(table: Table, s: State, rid: nat, n: nat, s': State) {
    && rid in s.runs && s.runs[rid].cmd in table && n <= |table[s.runs[rid].cmd].procedures|
    && s' == s.(statuses := s'.statuses, runs := s.runs[rid := s.runs[rid].(pos := n)])
    && OnlyCommand(s.statuses, s'.statuses, s.runs[rid].cmd,
                   Persisted(StatusesOf(s.statuses, s.runs[rid].cmd),
                             Completions(table[s.runs[rid].cmd].run, table[s.runs[rid].cmd].procedures[..n])))
  }

  lemma OneMoreObserved(table: Table, s: State, rid: nat, n: nat, s': State, statuses'': map<string, ProcedureStatuses>)
    requires ObservedUpTo(table, s, rid, n, s') && n < |table[s.runs[rid].cmd].procedures|
    requires OnlyCommand(s'.statuses, statuses'', s.runs[rid].cmd,
                         Persisted(StatusesOf(s'.statuses, s.runs[rid].cmd),
                                   Completion(table[s.runs[rid].cmd].run, table[s.runs[rid].cmd].procedures[n])))
    ensures OnlyCommand(s.statuses, statuses'', s.runs[rid].cmd,
                        Persisted(StatusesOf(s.statuses, s.runs[rid].cmd),
                                  Completions(table[s.runs[rid].cmd].run, table[s.runs[rid].cmd].procedures[..n + 1])))
  {
    var c := s.runs[rid].cmd;
    var ps := table[c].procedures;
    assert ps[..n + 1][..n] == ps[..n] && ps[..n + 1][n] == ps[n];
    PersistedConcat(StatusesOf(s.statuses, c), Completions(table[c].run, ps[..n]), Completion(table[c].run, ps[n]));
  }

  lemma CompleteOne(table: Table, s: State, rid: nat, n: nat, s0: State) returns (s': State)
    requires ObservedUpTo(table, s, rid, n, s0) && n + 1 < |table[s.runs[rid].cmd].procedures|
    ensures Leads(table, PLAIN, s0, s') && ObservedUpTo(table, s, rid, n + 1, s')
  {
    var s1 := Apply(table, s0, ObserveRunning(rid));
    LeadsByStep(table, PLAIN, s0, ObserveRunning(rid), s1);
    s' := Apply(table, s1, ObserveDone(rid));
    LeadsByStep(table, PLAIN, s1, ObserveDone(rid), s');
    LeadsTransitive(table, PLAIN, s0, s1, s');
    CompleteObserved(table, s0, s0.runs[rid], s1.statuses, StatusesOf(s0.statuses, s0.runs[rid].cmd));
    OneMoreObserved(table, s, rid, n, s0, s'.statuses);
  }

  /** Every stretch of completed procedures, but for the last one, is a sequence of scheduler steps. */
  lemma {:induction false} CompletedIsScheduled(table: Table, s: State, rid: nat, n: nat) returns (s': State)
    requires rid in s.runs && ValidRun(table, s.runs[rid]) && s.runs[rid].pos == 0
    requires n < |table[s.runs[rid].cmd].procedures|
    ensures Leads(table, PLAIN, s, s') && ObservedUpTo(table, s, rid, n, s')
  {
    if n == 0 {
      s' := s;
      LeadsNowhere(table, PLAIN, s);
      assert s.runs[rid := s.runs[rid].(pos := 0)] == s.runs;
    } else {
      var s0 := CompletedIsScheduled(table, s, rid, n - 1);
      s' := CompleteOne(table, s, rid, n - 1, s0);
      LeadsTransitive(table, PLAIN, s, s0, s');
    }
  }

  /** A successful Docker run is a run of the scheduler: its observations up to the last Running are
      observe steps, and the end of the run persists what the backend observed in full. */
  lemma SuccessIsScheduled(table: Table, s: State, rid: nat) returns (s': State)
    requires rid in s.runs && ValidRun(table, s.runs[rid]) && s.runs[rid].pos == 0
    ensures Leads(table, PLAIN, s, s') && Enabled(table, s', Finish(rid, Ok))
    ensures var c := s.runs[rid].cmd;
            OnlyCommand(s.statuses, EndRun(table, s', rid, Ok).statuses, c,
                        Persisted(StatusesOf(s.statuses, c), Completions(table[c].run, table[c].procedures)))
  {
    var c := s.runs[rid].cmd;
    var n := |table[c].procedures|;
    var s0 := CompletedIsScheduled(table, s, rid, n - 1);
    s' := Apply(table, s0, ObserveRunning(rid));
    LeadsByStep(table, PLAIN, s0, ObserveRunning(rid), s');
    LeadsTransitive(table, PLAIN, s, s0, s');
    CompleteObserved(table, s0, s0.runs[rid], s'.statuses, StatusesOf(s0.statuses, c));
    OneMoreObserved(table, s, rid, n - 1, s0, CompleteProcedure(table, s', s0.runs[rid]));
    assert table[c].procedures[..n] == table[c].procedures;
  }

  lemma {:induction false} OverriddenByAll(command: Command, own: ProcedureStatuses, k: nat, first: Status,
                                           second: Status, status: Status)
    requires k < |command.procedures|
    ensures own[command.procedures[k].name := first] + AllProcedures(command, status)
            == own[command.procedures[k].name := second] + AllProcedures(command, status)
  {
    assert command.procedures[k].name in AllProcedures(command, status);
  }

  lemma {:induction false} SetOnlyCommand(table: Table, statuses: map<string, ProcedureStatuses>, c: string,
                                          status: Status)
    requires c in table
    ensures OnlyCommand(statuses, SetCommand(table, statuses, c, status), c,
                        StatusesOf(statuses, c) + AllProcedures(table[c], status))
  {
  }

  lemma {:induction false} OnlyTwice(statuses: map<string, ProcedureStatuses>, middle: map<string, ProcedureStatuses>,
                                     after: map<string, ProcedureStatuses>, c: string, own: ProcedureStatuses,
                                       own': ProcedureStatuses)
    requires OnlyCommand(statuses, middle, c, own) && OnlyCommand(middle, after, c, own')
    ensures OnlyCommand(statuses, after, c, own')
  {
  }

  /** What is persisted once a run has stopped at procedure `k`: what the backend observed, then an
      error for every procedure. */
  function AfterFailure(command: Command, own: ProcedureStatuses, k: nat): ProcedureStatuses
    requires k < |command.procedures|
  {
    Persisted(own, Completions(command.run, command.procedures[..k]) + Breakdown(command.run, command.procedures[k]))
    + AllProcedures(command, Error)
  }

  /** It is the same whether or not the breakdown itself was observed. */
  lemma {:induction false} FailureOverrides(command: Command, own: ProcedureStatuses, k: nat)
    requires k < |command.procedures|
    ensures var before, name := Persisted(own, Completions(command.run, command.procedures[..k])),
            command.procedures[k].name;
            && AfterFailure(command, own, k) == before + AllProcedures(command, Error)
            && AfterFailure(command, own, k) == before[name := Running] + AllProcedures(command, Error)
  {
    var completions, p := Completions(command.run, command.procedures[..k]), command.procedures[k];
    var before := Persisted(own, completions);
    PersistedConcat(own, completions, Breakdown(command.run, p));
    if Breakdown(command.run, p) != [] {
      PersistedPair(before, p.name, Error);
    }
    OverriddenByAll(command, before, k, Error, Running, Error);
    assert p.name in AllProcedures(command, Error);
    assert before + AllProcedures(command, Error) == before[p.name := Running] + AllProcedures(command, Error);
  }

  /** The Running observation of the procedure a run stops at, if the backend gets that far. */
  lemma {:induction false} BreakdownIsScheduled(table: Table, s: State, rid: nat, k: nat, s0: State) returns (s': State)
    requires ObservedUpTo(table, s, rid, k, s0) && ValidRun(table, s.runs[rid])
             && k < |table[s.runs[rid].cmd].procedures|
    ensures Leads(table, PLAIN, s0, s') && s'.runs == s0.runs
    ensures var c, own := s.runs[rid].cmd, StatusesOf(s0.statuses, s.runs[rid].cmd);
            (Breakdown(table[c].run, table[c].procedures[k]) == [] && s' == s0)
            || OnlyCommand(s0.statuses, s'.statuses, c, own[table[c].procedures[k].name := Running])
  {
    var c := s.runs[rid].cmd;
    if Breakdown(table[c].run, table[c].procedures[k]) == [] {
      s' := s0;
      LeadsNowhere(table, PLAIN, s0);
    } else {
      s' := Apply(table, s0, ObserveRunning(rid));
      LeadsByStep(table, PLAIN, s0, ObserveRunning(rid), s');
      SetTwice(s0.statuses, c, table[c].procedures[k].name, Running, Running);
    }
  }

  /** A failing Docker run is a run of the scheduler too, wherever it stops: its observations are
      observe steps, and the failing end persists the observed statuses with an error for every
      procedure, so the command derives to Error. */
  lemma {:induction false} FailureIsScheduled(table: Table, s: State, rid: nat, k: nat, outcome: Outcome)
    returns (s': State)
    requires rid in s.runs && ValidRun(table, s.runs[rid]) && s.runs[rid].pos == 0
    requires k < |table[s.runs[rid].cmd].procedures| && outcome != Ok
    ensures Leads(table, PLAIN, s, s') && Enabled(table, s', Finish(rid, outcome))
    ensures var c := s.runs[rid].cmd;
            OnlyCommand(s.statuses, EndRun(table, s', rid, outcome).statuses, c,
                        AfterFailure(table[c], StatusesOf(s.statuses, c), k))
    ensures DerivedStatus(table, EndRun(table, s', rid, outcome).statuses, s.runs[rid].cmd) == Some(Error)
  {
    var c := s.runs[rid].cmd;
    var s0 := CompletedIsScheduled(table, s, rid, k);
    s' := BreakdownIsScheduled(table, s, rid, k, s0);
    LeadsTransitive(table, PLAIN, s, s0, s');
    FailureOverrides(table[c], StatusesOf(s.statuses, c), k);
    SetOnlyCommand(table, s'.statuses, c, Error);
    if s' != s0 {
      OnlyTwice(s.statuses, s0.statuses, s'.statuses, c, StatusesOf(s0.statuses, c), StatusesOf(s'.statuses, c));
    }
    OnlyTwice(s.statuses, s'.statuses, EndRun(table, s', rid, outcome).statuses, c, StatusesOf(s'.statuses, c),
              AfterFailure(table[c], StatusesOf(s.statuses, c), k));
    AllErrorDerives(table[c], AfterFailure(table[c], StatusesOf(s.statuses, c), k), k);
  }

  lemma {:induction false} AllErrorDerives(command: Command, statuses: ProcedureStatuses, k: nat)
    requires k < |command.procedures|
    requires exists own :: statuses == own + AllProcedures(command, Error)
    ensures Derive(command, statuses) == Some(Error)
  {
    assert command.procedures[k].name in AllProcedures(command, Error);
    assert statuses[command.procedures[k].name] == Error;
  }
}
