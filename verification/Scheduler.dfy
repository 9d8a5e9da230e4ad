/** The command scheduler of a runtime session as a step relation. One step is one critical
    section of the session: what happens between taking and releasing its locks. Passes of the
    run queue are serialised; everything else interleaves freely with them. */
module Scheduler {
  import opened Domain
  import opened CommandStatus

  /** A queue item. `id` is its identity: replacing the item of a command allocates a new id.
      `waited` says whether somebody waits on its done channel. */
  datatype Item = Item(id: nat, waited: bool, err: bool, inFlight: bool, rememberDone: bool, runRequested: bool)

  /** A backend run in progress, launched with `item`; the procedures before `pos` are completed. */
  datatype Run = Run(cmd: string, item: nat, waited: bool, pos: nat)

  /** How a backend run ends. A failure is either retryable or marked non-retryable. */
  datatype Outcome = Ok | Failed | FailedForGood

  /** What a pass read about a command when it took its snapshot of the queue. */
  datatype Snap = Snap(status: Status, runRequested: bool)

  /** Where a pass is while it looks at one dependency of the visited command. */
  datatype Phase = Look | Scheduled | Unscheduled | Missing

  datatype Visit = Between | Checking(cmd: string, idx: nat, ready: bool, phase: Phase)

  datatype Pass = Idle | Active(pending: map<string, Snap>, visit: Visit)

  datatype Event =
    | Launched(cmd: string, item: nat, waited: bool)
    | Finished(cmd: string, item: nat, ok: bool)
    | Closed(cmd: string, item: nat)

  datatype State = State(
    queue: map<string, Item>,
    statuses: map<string, ProcedureStatuses>,
    runs: map<nat, Run>,
    pass: Pass,
    deciding: set<string>,
    nextItem: nat,
    nextRun: nat,
    history: seq<Event>)

  /** `DecideRemember` is the read of a Done dependency status in the dependency walk and
      `RememberDone` the later, separately locked, write of the queue item; any number of walks
      may be between the two. `StopRuntime(false)` is a stop that the backend refuses. */
  datatype Step =
    | Add(cmd: string, force: bool, waited: bool)
    | DecideRemember(cmd: string)
    | RememberDone(cmd: string)
    | BeginPass
    | VisitCommand(cmd: string)
    | Advance
    | Launch(start: nat)
    | EndPass
    | ObserveRunning(run: nat)
    | ObserveDone(run: nat)
    | Finish(run: nat, outcome: Outcome)
    | StopRuntime(stopped: bool)

  /** Nothing queued, nothing persisted. */
  const INIT := State(map[], map[], map[], Idle, {}, 0, 0, [])

  // ---- statuses -------------------------------------------------------------------------

  /** The scheduled status of a command: the item's flags win over the persisted statuses. */
  function ItemStatus(table: Table, s: State, c: string): Option<Status> {
    if c in s.queue && s.queue[c].err then Some(Error)
    else if c in s.queue && s.queue[c].inFlight then Some(Running)
    else if c in s.queue && s.queue[c].rememberDone then Some(Done)
    else if DerivedStatus(table, s.statuses, c).Some? then DerivedStatus(table, s.statuses, c)
    else if c in s.queue then Some(Waiting)
    else None
  }

  function AllProcedures(command: Command, status: Status): ProcedureStatuses {
    map i | 0 <= i < |command.procedures| :: command.procedures[i].name := status
  }

  /** Persist one status for every procedure of a command of the table. */
  function SetCommand(table: Table, statuses: map<string, ProcedureStatuses>, c: string, status: Status)
    : map<string, ProcedureStatuses>
  {
    if c !in table then statuses
    else statuses[c := StatusesOf(statuses, c) + AllProcedures(table[c], status)]
  }

  function SetProcedure(statuses: map<string, ProcedureStatuses>, c: string, name: string, status: Status)
    : map<string, ProcedureStatuses>
  {
    statuses[c := StatusesOf(statuses, c)[name := status]]
  }

  // ---- items ----------------------------------------------------------------------------

  /** The item flags after a queue status is set (`setQueueStatusLocked`). */
  function WithStatus(item: Item, status: Status): Item {
    var base := item.(inFlight := status == Running, err := if status == Error then item.err else false);
    match status
    case Done => base.(rememberDone := true, runRequested := false)
    case Waiting => base.(rememberDone := false, runRequested := true)
    case Running => base.(runRequested := false)
    case Error => base.(runRequested := false)
    case Unrecognised => base
  }

  function SetQueueStatus(table: Table, s: State, c: string, status: Status): State {
    if c !in s.queue then s
    else s.(queue := s.queue[c := WithStatus(s.queue[c], status)],
            statuses := if status == Running then s.statuses else SetCommand(table, s.statuses, c, status))
  }

  function SetQueueError(table: Table, s: State, c: string): State {
    s.(queue := if c in s.queue then s.queue[c := s.queue[c].(inFlight := false, err := true)] else s.queue,
       statuses := SetCommand(table, s.statuses, c, Error))
  }

  // ---- adding ---------------------------------------------------------------------------

  datatype AddResult = Queued | NotFound | AlreadyInQueue | DoneOnce

  function AddOutcome(table: Table, s: State, c: string, force: bool): AddResult {
    var status := ItemStatus(table, s, c);
    if c !in table then NotFound
    else if c in s.queue && status != Some(Done) && status != Some(Error) then AlreadyInQueue
    else if status == Some(Done) && table[c].run == Once && !force then DoneOnce
    else Queued
  }

  function AddItem(table: Table, s: State, c: string, force: bool, waited: bool): State {
    if AddOutcome(table, s, c, force) != Queued then s
    else
      var item := Item(s.nextItem, waited, false, false, false, false);
      SetQueueStatus(table, s.(queue := s.queue[c := item], nextItem := s.nextItem + 1), c, Waiting)
  }

  /** `RememberDoneItem`. */
  function Remember(s: State, c: string): State {
    if c in s.queue then
      s.(queue := s.queue[c := s.queue[c].(rememberDone := true, inFlight := false, err := false)])
    else
      s.(queue := s.queue[c := Item(s.nextItem, false, false, false, true, false)], nextItem := s.nextItem + 1)
  }

  // ---- passes ---------------------------------------------------------------------------

  function StatusOr(status: Option<Status>): Status {
    if status.Some? then status.value else Waiting
  }

  function Snapshot(table: Table, s: State): map<string, Snap> {
    map c | c in s.queue :: Snap(StatusOr(ItemStatus(table, s, c)), s.queue[c].runRequested)
  }

  /** Whether a pass goes on to check the dependencies of a command of its snapshot. */
  predicate Eligible(command: Command, snap: Snap) {
    snap.runRequested || snap.status == Waiting || (snap.status == Done && command.run == Restart)
    || snap.status == Unrecognised
  }

  function VisitPending(table: Table, s: State, c: string): State
    requires s.pass.Active? && c in s.pass.pending
  {
    var rest := s.pass.pending - {c};
    var snap := s.pass.pending[c];
    if snap.status == Running && !snap.runRequested then
      s.(pass := Active(rest, Between))
    else if c !in table then
      s.(pass := Active(rest, Between), queue := s.queue - {c})
    else if !Eligible(table[c], snap) then
      s.(pass := Active(rest, Between))
    else
      s.(pass := Active(rest, Checking(c, 0, true, Look)))
  }

  function NextDep(s: State, ready: bool): State
    requires s.pass.Active? && s.pass.visit.Checking?
  {
    s.(pass := s.pass.(visit := s.pass.visit.(idx := s.pass.visit.idx + 1, ready := ready, phase := Look)))
  }

  function InPhase(s: State, ready: bool, phase: Phase): State
    requires s.pass.Active? && s.pass.visit.Checking?
  {
    s.(pass := s.pass.(visit := s.pass.visit.(ready := ready, phase := phase)))
  }

  ghost predicate AtDependency(table: Table, s: State) {
    s.pass.Active? && s.pass.visit.Checking? && s.pass.visit.cmd in table
    && s.pass.visit.idx < |table[s.pass.visit.cmd].needs|
  }

  /** One locked step of the dependency check: is the dependency scheduled, what is its status,
      and, when it is neither scheduled nor done, queue it. */
  function AdvanceCheck(table: Table, s: State): State
    requires AtDependency(table, s)
  {
    var v := s.pass.visit;
    var dep := table[v.cmd].needs[v.idx];
    match v.phase
    case Look => InPhase(s, v.ready, if dep in s.queue then Scheduled else Unscheduled)
    case Scheduled => NextDep(s, v.ready && ItemStatus(table, s, dep) == Some(Done))
    case Unscheduled =>
      if DerivedStatus(table, s.statuses, dep) == Some(Done) then NextDep(s, v.ready)
      else InPhase(s, false, Missing)
    case Missing => NextDep(AddItem(table, s, dep, false, false), false)
  }

  ghost predicate Checked(table: Table, s: State) {
    s.pass.Active? && s.pass.visit.Checking? && s.pass.visit.cmd in table
    && s.pass.visit.idx == |table[s.pass.visit.cmd].needs|
  }

  function LaunchChecked(table: Table, s: State, start: nat): State
    requires Checked(table, s)
  {
    var c := s.pass.visit.cmd;
    var after := s.(pass := s.pass.(visit := Between));
    if !s.pass.visit.ready || c !in s.queue then after
    else
      var item := s.queue[c];
      SetQueueStatus(table, after, c, Running)
      .(runs := s.runs[s.nextRun := Run(c, item.id, item.waited, start)],
        nextRun := s.nextRun + 1,
        history := s.history + [Launched(c, item.id, item.waited)])
  }

  // ---- backend runs ---------------------------------------------------------------------

  /** A persistent container procedure is left running; every other completed one is Done. */
  predicate LeftRunning(command: Command, i: nat)
    requires i < |command.procedures|
  {
    command.run == Persistent && !command.procedures[i].signal
  }

  ghost predicate ValidRun(table: Table, r: Run) {
    r.cmd in table && r.pos < |table[r.cmd].procedures|
  }

  function CompleteProcedure(table: Table, s: State, r: Run): map<string, ProcedureStatuses>
    requires ValidRun(table, r)
  {
    if LeftRunning(table[r.cmd], r.pos) then s.statuses
    else SetProcedure(s.statuses, r.cmd, table[r.cmd].procedures[r.pos].name, Done)
  }

  /** The backend returned: the last observations are persisted and the run is over. */
  function EndRun(table: Table, s: State, rid: nat, outcome: Outcome): State
    requires rid in s.runs && ValidRun(table, s.runs[rid])
  {
    var r := s.runs[rid];
    s.(runs := s.runs - {rid},
       statuses := if outcome == Ok then CompleteProcedure(table, s, r)
                   else SetCommand(table, s.statuses, r.cmd, Error),
       history := s.history + [Finished(r.cmd, r.item, outcome == Ok)]
                  + if r.waited then [Closed(r.cmd, r.item)] else [])
  }

  /** What the scheduler makes of the end of a run of `c`. */
  function Settle(table: Table, s: State, c: string, outcome: Outcome): State
    requires c in table
  {
    if outcome == FailedForGood || (outcome == Failed && table[c].run != Restart) then SetQueueError(table, s, c)
    else if table[c].run == Persistent then s
    else SetQueueStatus(table, s, c, if table[c].run == Restart then Waiting else Done)
  }

  function FinishRun(table: Table, s: State, rid: nat, outcome: Outcome): State
    requires rid in s.runs && ValidRun(table, s.runs[rid])
  {
    Settle(table, EndRun(table, s, rid, outcome), s.runs[rid].cmd, outcome)
  }

  /** What survives a stop: the statuses of finished run-once commands. */
  function KeptByStop(table: Table, statuses: map<string, ProcedureStatuses>): map<string, ProcedureStatuses> {
    map c | c in statuses && c in table && table[c].run == Once && Derive(table[c], statuses[c]) == Some(Done)
          :: statuses[c]
  }

  // ---- the step relation ----------------------------------------------------------------

  /** Some command of the table names `c` as a dependency: only such names does a walk ever read. */
  ghost predicate Needed(table: Table, c: string) {
    exists b :: b in table && c in table[b].needs
  }

  ghost predicate Enabled(table: Table, s: State, step: Step) {
    match step
    case Add(c, force, waited) => true
    case DecideRemember(c) => Needed(table, c) && DerivedStatus(table, s.statuses, c) == Some(Done)
    case RememberDone(c) => c in s.deciding
    case BeginPass => s.pass.Idle?
    case VisitCommand(c) => s.pass.Active? && s.pass.visit.Between? && c in s.pass.pending
    case Advance => AtDependency(table, s)
    case Launch(start) =>
      Checked(table, s) && start < |table[s.pass.visit.cmd].procedures|
      && (start == 0 || table[s.pass.visit.cmd].run == Restart)
    case EndPass => s.pass.Active? && s.pass.visit.Between? && s.pass.pending == map[]
    case ObserveRunning(rid) => rid in s.runs && ValidRun(table, s.runs[rid])
    case ObserveDone(rid) =>
      rid in s.runs && ValidRun(table, s.runs[rid]) && s.runs[rid].pos + 1 < |table[s.runs[rid].cmd].procedures|
    case Finish(rid, outcome) =>
      rid in s.runs && ValidRun(table, s.runs[rid])
      && (outcome == Ok ==> s.runs[rid].pos + 1 == |table[s.runs[rid].cmd].procedures|)
    case StopRuntime(stopped) => s.pass.Idle? && s.runs == map[]
  }

  ghost function Apply(table: Table, s: State, step: Step): State
    requires Enabled(table, s, step)
  {
    match step
    case Add(c, force, waited) => AddItem(table, s, c, force, waited)
    case DecideRemember(c) => s.(deciding := s.deciding + {c})
    case RememberDone(c) => Remember(s, c)
    case BeginPass => s.(pass := Active(Snapshot(table, s), Between))
    case VisitCommand(c) => VisitPending(table, s, c)
    case Advance => AdvanceCheck(table, s)
    case Launch(start) => LaunchChecked(table, s, start)
    case EndPass => s.(pass := Idle)
    case ObserveRunning(rid) =>
      var r := s.runs[rid];
      s.(statuses := SetProcedure(s.statuses, r.cmd, table[r.cmd].procedures[r.pos].name, Running))
    case ObserveDone(rid) =>
      var r := s.runs[rid];
      s.(statuses := CompleteProcedure(table, s, r), runs := s.runs[rid := r.(pos := r.pos + 1)])
    case Finish(rid, outcome) => FinishRun(table, s, rid, outcome)
    case StopRuntime(stopped) =>
      s.(queue := map[], statuses := if stopped then KeptByStop(table, s.statuses) else s.statuses)
  }

  /** `steps` can be taken one after the other from `s`. */
  ghost predicate CanRun(table: Table, s: State, steps: seq<Step>)
    decreases |steps|
  {
    steps == [] || (Enabled(table, s, steps[0]) && CanRun(table, Apply(table, s, steps[0]), steps[1..]))
  }

  ghost function After(table: Table, s: State, steps: seq<Step>): State
    requires CanRun(table, s, steps)
    decreases |steps|
  {
    if steps == [] then s else After(table, Apply(table, s, steps[0]), steps[1..])
  }

  lemma {:induction false} RunConcat(table: Table, s: State, first: seq<Step>, second: seq<Step>)
    requires CanRun(table, s, first)
    requires CanRun(table, After(table, s, first), second)
    ensures CanRun(table, s, first + second)
    ensures After(table, s, first + second) == After(table, After(table, s, first), second)
    decreases |first|
  {
    if first == [] {
      assert first + second == second;
    } else {
      assert (first + second)[0] == first[0] && (first + second)[1..] == first[1..] + second;
      RunConcat(table, Apply(table, s, first[0]), first[1..], second);
    }
  }

  lemma {:induction false} RunSplit(table: Table, s: State, first: seq<Step>, second: seq<Step>)
    requires CanRun(table, s, first + second)
    ensures CanRun(table, s, first)
    ensures CanRun(table, After(table, s, first), second)
    ensures After(table, s, first + second) == After(table, After(table, s, first), second)
    decreases |first|
  {
    if first == [] {
      assert first + second == second;
    } else {
      assert (first + second)[0] == first[0] && (first + second)[1..] == first[1..] + second;
      RunSplit(table, Apply(table, s, first[0]), first[1..], second);
    }
  }

  lemma OneStep(table: Table, s: State, step: Step)
    requires Enabled(table, s, step)
    ensures CanRun(table, s, [step]) && After(table, s, [step]) == Apply(table, s, step)
  {
    assert [step][1..] == [];
  }

  /** What a sequence of steps may do: which commands it may add by force, and whether it may remember
      commands as done. */
  datatype Licence = Licence(forced: set<string>, remembers: bool)

  predicate Permits(licence: Licence, step: Step) {
    (step.Add? && step.force ==> step.cmd in licence.forced) && (step.RememberDone? ==> licence.remembers)
  }

  ghost predicate Permitted(licence: Licence, steps: seq<Step>) {
    forall i :: 0 <= i < |steps| ==> Permits(licence, steps[i])
  }

  /** Neither forced adds nor remembering. */
  const PLAIN := Licence({}, false)

  /** Some permitted sequence of steps leads from `s` to `s'`. */
  ghost predicate Leads(table: Table, licence: Licence, s: State, s': State) {
    exists steps :: LeadsBy(table, licence, s, steps, s')
  }

  ghost predicate LeadsBy(table: Table, licence: Licence, s: State, steps: seq<Step>, s': State) {
    CanRun(table, s, steps) && Permitted(licence, steps) && After(table, s, steps) == s'
  }

  lemma LeadsNowhere(table: Table, licence: Licence, s: State)
    ensures Leads(table, licence, s, s)
  {
    assert LeadsBy(table, licence, s, [], s);
  }

  lemma LeadsByStep(table: Table, licence: Licence, s: State, step: Step, s': State)
    requires Permits(licence, step) && Enabled(table, s, step) && s' == Apply(table, s, step)
    ensures Leads(table, licence, s, s')
  {
    OneStep(table, s, step);
    assert LeadsBy(table, licence, s, [step], s');
  }

  lemma LeadsTransitive(table: Table, licence: Licence, s: State, s': State, s'': State)
    requires Leads(table, licence, s, s') && Leads(table, licence, s', s'')
    ensures Leads(table, licence, s, s'')
  {
    var first :| LeadsBy(table, licence, s, first, s');
    var second :| LeadsBy(table, licence, s', second, s'');
    RunConcat(table, s, first, second);
    assert LeadsBy(table, licence, s, first + second, s'');
  }

  /** A wider licence permits the same steps. */
  lemma LeadsWider(table: Table, licence: Licence, wider: Licence, s: State, s': State)
    requires Leads(table, licence, s, s') && licence.forced <= wider.forced && (licence.remembers ==> wider.remembers)
    ensures Leads(table, wider, s, s')
  {
    var steps :| LeadsBy(table, licence, s, steps, s');
    assert LeadsBy(table, wider, s, steps, s');
  }

  // ---- whole passes ---------------------------------------------------------------------------

  predicate InnerStep(step: Step) {
    step.VisitCommand? || step.Advance? || step.Launch?
  }

  /** `steps` are steps of one pass leading from `s` to `s'`. */
  ghost predicate Traced(table: Table, s: State, steps: seq<Step>, s': State) {
    && CanRun(table, s, steps) && After(table, s, steps) == s'
    && forall i :: 0 <= i < |steps| ==> InnerStep(steps[i])
  }

  lemma TraceNothing(table: Table, s: State)
    ensures Traced(table, s, [], s)
  {
  }

  lemma TraceStep(table: Table, s: State, steps: seq<Step>, s': State, step: Step, s'': State)
    requires Traced(table, s, steps, s') && InnerStep(step)
    requires Enabled(table, s', step) && s'' == Apply(table, s', step)
    ensures Traced(table, s, steps + [step], s'')
  {
    OneStep(table, s', step);
    RunConcat(table, s, steps, [step]);
  }

  lemma TraceConcat(table: Table, s: State, steps: seq<Step>, s': State, more: seq<Step>, s'': State)
    requires Traced(table, s, steps, s') && Traced(table, s', more, s'')
    ensures Traced(table, s, steps + more, s'')
  {
    RunConcat(table, s, steps, more);
  }

  /** The steps of one whole pass with nothing in between. */
  ghost predicate WholePass(table: Table, s: State, steps: seq<Step>) {
    && CanRun(table, s, [BeginPass] + steps + [EndPass])
    && forall i :: 0 <= i < |steps| ==> InnerStep(steps[i])
  }

  lemma TraceIsWholePass(table: Table, s: State, steps: seq<Step>, checked: State, s': State)
    requires s.pass.Idle? && Traced(table, Apply(table, s, BeginPass), steps, checked)
    requires Enabled(table, checked, EndPass) && s' == Apply(table, checked, EndPass)
    ensures WholePass(table, s, steps) && s' == After(table, s, [BeginPass] + steps + [EndPass])
  {
    OneStep(table, s, BeginPass);
    RunConcat(table, s, [BeginPass], steps);
    OneStep(table, checked, EndPass);
    RunConcat(table, s, [BeginPass] + steps, [EndPass]);
  }

  /** The states a whole pass goes through. */
  lemma SplitPass(table: Table, s: State, steps: seq<Step>) returns (begun: State, checked: State)
    requires WholePass(table, s, steps)
    ensures s.pass.Idle? && begun == s.(pass := Pass.Active(Snapshot(table, s), Between))
    ensures Traced(table, begun, steps, checked)
    ensures checked.pass == Pass.Active(map[], Between)
    ensures After(table, s, [BeginPass] + steps + [EndPass]) == checked.(pass := Idle)
  {
    RunSplit(table, s, [BeginPass] + steps, [EndPass]);
    RunSplit(table, s, [BeginPass], steps);
    begun := Apply(table, s, BeginPass);
    OneStep(table, s, BeginPass);
    checked := After(table, begun, steps);
    OneStep(table, checked, EndPass);
  }

  /** A trace and a whole pass are permitted by any licence. */
  lemma TraceLeads(table: Table, s: State, steps: seq<Step>, s': State)
    requires Traced(table, s, steps, s')
    ensures Leads(table, PLAIN, s, s')
  {
    assert LeadsBy(table, PLAIN, s, steps, s');
  }

  lemma PassLeads(table: Table, s: State, steps: seq<Step>)
    requires WholePass(table, s, steps)
    ensures Leads(table, PLAIN, s, After(table, s, [BeginPass] + steps + [EndPass]))
  {
    assert LeadsBy(table, PLAIN, s, [BeginPass] + steps + [EndPass], After(table, s, [BeginPass] + steps + [EndPass]));
  }
}
