/** The runtime session as the daemon runs it: an object whose queue and persisted statuses are
    updated in place. Every method is one or more steps of the scheduler's step relation, so every
    theorem about runs of the scheduler is one about this object. */
module Session {
  import opened Domain
  import opened CommandStatus
  import opened QueueManager
  import opened Needs
  import opened Scheduler
  import opened SchedulerInvariant
  import opened SchedulerEffects
  import opened SchedulerSingleRun

  // ---- statuses of the first procedures of a command -------------------------------------------

  function FirstProcedures(command: Command, n: nat, status: Status): ProcedureStatuses
    requires n <= |command.procedures|
  {
    map i | 0 <= i < n :: command.procedures[i].name := status
  }

  lemma FirstProceduresGrows(command: Command, n: nat, status: Status)
    requires n < |command.procedures|
    ensures FirstProcedures(command, n + 1, status)
            == FirstProcedures(command, n, status)[command.procedures[n].name := status]
  {
  }

  lemma MergeThenPut<K, V>(a: map<K, V>, b: map<K, V>, k: K, v: V)
    ensures a + b[k := v] == (a + b)[k := v]
  {
  }

  /** `after` is `before` with the first `n` procedures of `c` written. */
  ghost predicate Writing(table: Table, before: map<string, ProcedureStatuses>, c: string, n: nat, status: Status,
                          after: map<string, ProcedureStatuses>)
    requires c in table && n <= |table[c].procedures|
  {
    && after.Keys == (if n == 0 then before.Keys else before.Keys + {c})
    && (forall d :: d in before && d != c ==> after[d] == before[d])
    && StatusesOf(after, c) == StatusesOf(before, c) + FirstProcedures(table[c], n, status)
  }

  /** Writing a status one procedure after the other. */
  function WriteFirst(table: Table, statuses: map<string, ProcedureStatuses>, c: string, n: nat, status: Status)
    : map<string, ProcedureStatuses>
    requires c in table && n <= |table[c].procedures|
  {
    if n == 0 then statuses
    else SetProcedure(WriteFirst(table, statuses, c, n - 1, status), c, table[c].procedures[n - 1].name, status)
  }

  lemma {:induction false} WritingGoesOn(table: Table, before: map<string, ProcedureStatuses>, c: string, n: nat,
                                         status: Status, after: map<string, ProcedureStatuses>)
    requires c in table && n < |table[c].procedures| && Writing(table, before, c, n, status, after)
    ensures Writing(table, before, c, n + 1, status, SetProcedure(after, c, table[c].procedures[n].name, status))
  {
    FirstProceduresGrows(table[c], n, status);
    MergeThenPut(StatusesOf(before, c), FirstProcedures(table[c], n, status), table[c].procedures[n].name, status);
  }

  lemma {:induction false} WriteNext(table: Table, statuses: map<string, ProcedureStatuses>, c: string, n: nat,
                                     status: Status)
    requires c in table && n < |table[c].procedures|
    ensures WriteFirst(table, statuses, c, n + 1, status)
            == SetProcedure(WriteFirst(table, statuses, c, n, status), c, table[c].procedures[n].name, status)
  {
  }

  lemma {:induction false} WriteFirstWrites(table: Table, before: map<string, ProcedureStatuses>, c: string, n: nat,
                                            status: Status)
    requires c in table && n <= |table[c].procedures|
    ensures Writing(table, before, c, n, status, WriteFirst(table, before, c, n, status))
  {
    if n > 0 {
      WriteFirstWrites(table, before, c, n - 1, status);
      WritingGoesOn(table, before, c, n - 1, status, WriteFirst(table, before, c, n - 1, status));
    }
  }

  lemma {:induction false} AllFirst(command: Command, status: Status)
    ensures FirstProcedures(command, |command.procedures|, status) == AllProcedures(command, status)
  {
  }

  lemma {:induction false} WritingAll(table: Table, before: map<string, ProcedureStatuses>, c: string, status: Status,
                                      after: map<string, ProcedureStatuses>)
    requires c in table && |table[c].procedures| > 0 && Writing(table, before, c, |table[c].procedures|, status, after)
    ensures after == SetCommand(table, before, c, status)
  {
    AllFirst(table[c], status);
    assert c in after && after[c] == StatusesOf(after, c);
    assert after.Keys == SetCommand(table, before, c, status).Keys;
  }

  /** Writing all procedures one after the other sets the whole command. */
  lemma {:induction false} WriteAllSetsCommand(table: Table, before: map<string, ProcedureStatuses>, c: string,
                                               status: Status)
    requires c in table && |table[c].procedures| > 0
    ensures WriteFirst(table, before, c, |table[c].procedures|, status) == SetCommand(table, before, c, status)
  {
    var n := |table[c].procedures|;
    WriteFirstWrites(table, before, c, n, status);
    WritingAll(table, before, c, status, WriteFirst(table, before, c, n, status));
  }

  /** The persisted statuses without those of commands that no longer exist. */
  function Known(table: Table, statuses: map<string, ProcedureStatuses>): map<string, ProcedureStatuses> {
    map c | c in statuses && c in table :: statuses[c]
  }

  // ---- the dependency walk ----------------------------------------------------------------------

  function AllNeeds(table: Table): set<string> {
    set c, d | c in table && d in table[c].needs :: d
  }

  /** `d` is one of `needs` or reachable from one of them. */
  ghost predicate Below(table: Table, needs: seq<string>, d: string) {
    exists e :: e in needs && (e == d || Reaches(table, e, d))
  }

  lemma BelowNeed(table: Table, needs: seq<string>, e: string, d: string)
    requires e in needs && (e == d || Reaches(table, e, d))
    ensures Below(table, needs, d)
  {
  }

  /** What lies below the needs of a command is what the command reaches. */
  lemma BelowNeeds(table: Table, c: string, d: string)
    requires c in table
    ensures Below(table, table[c].needs, d) <==> Reaches(table, c, d)
  {
    if Below(table, table[c].needs, d) {
      var e :| e in table[c].needs && (e == d || Reaches(table, e, d));
      ReachesStep(table, c, e);
      if e != d {
        ReachesTransitive(table, c, e, d);
      }
    }
    if Reaches(table, c, d) {
      var p :| PathBetween(table, p, c, d);
      assert p[0] in table && p[1] in table[p[0]].needs;
      if |p| > 2 {
        assert PathBetween(table, p[1..], p[1], d);
      }
    }
  }

  /** Every defined command of `seen` outside `base` has all its needs in `seen`. */
  ghost predicate ClosedBeyond(table: Table, seen: set<string>, base: set<string>) {
    forall d, e :: d in seen && d !in base && d in table && e in table[d].needs ==> e in seen
  }

  lemma {:induction false} ClosedContainsPath(table: Table, seen: set<string>, p: seq<string>)
    requires ClosedBeyond(table, seen, {}) && Path(table, p) && p[0] in seen
    ensures p[|p| - 1] in seen
    decreases |p|
  {
    if |p| > 1 {
      assert p[0] in table && p[1] in table[p[0]].needs;
      ClosedContainsPath(table, seen, p[1..]);
    }
  }

  /** A closed set that contains the needs of `c` contains everything `c` reaches. */
  lemma ClosedContainsReachable(table: Table, seen: set<string>, c: string, d: string)
    requires c in table && ClosedBeyond(table, seen, {}) && (forall e :: e in table[c].needs ==> e in seen)
    requires Reaches(table, c, d)
    ensures d in seen
  {
    var p :| PathBetween(table, p, c, d);
    assert p[0] in table && p[1] in table[p[0]].needs;
    assert Path(table, p[1..]);
    ClosedContainsPath(table, seen, p[1..]);
  }

  predicate Remembered(queue: map<string, Item>, d: string) {
    d in queue && queue[d].rememberDone && !queue[d].inFlight && !queue[d].err
  }

  /** The commands of `names` that derive to Done are remembered, every other item is untouched. */
  ghost predicate RemembersDone(table: Table, statuses: map<string, ProcedureStatuses>,
                                queue: map<string, Item>, queue': map<string, Item>, names: set<string>) {
    && (forall d :: d in names && DerivedStatus(table, statuses, d) == Some(Done) ==> Remembered(queue', d))
    && (forall d :: !(d in names && DerivedStatus(table, statuses, d) == Some(Done)) ==>
          (d in queue' <==> d in queue) && (d in queue ==> queue'[d] == queue[d]))
  }

  lemma RemembersMore(table: Table, statuses: map<string, ProcedureStatuses>, queue: map<string, Item>,
                      middle: map<string, Item>, queue': map<string, Item>, names: set<string>, more: set<string>)
    requires RemembersDone(table, statuses, queue, middle, names)
    requires RemembersDone(table, statuses, middle, queue', more)
    ensures RemembersDone(table, statuses, queue, queue', names + more)
  {
  }

  /** The walk adds nothing, and remembers. */
  const WALKING := Licence({}, true)

  lemma SetCommandDerives(table: Table, statuses: map<string, ProcedureStatuses>, c: string, status: Status)
    requires ValidTable(table) && c in table && status == Waiting
    ensures DerivedStatus(table, SetCommand(table, statuses, c, status), c) == Some(status)
  {
    var written := StatusesOf(SetCommand(table, statuses, c, status), c);
    forall i | 0 <= i < |table[c].procedures|
      ensures table[c].procedures[i].name in written && written[table[c].procedures[i].name] == status
    {
      assert table[c].procedures[i].name in AllProcedures(table[c], status);
    }
    AllWaiting(table[c], written);
  }

  lemma AllWaiting(command: Command, statuses: ProcedureStatuses)
    requires |command.procedures| > 0
    requires forall i :: 0 <= i < |command.procedures| ==>
               command.procedures[i].name in statuses && statuses[command.procedures[i].name] == Waiting
    ensures Derive(command, statuses) == Some(Waiting)
  {
    assert command.procedures[0].name in statuses && statuses[command.procedures[0].name] == Waiting;
  }

  /** A forced add leaves an active item behind. */
  lemma ActiveAfterAdd(table: Table, s: State, c: string, s': State)
    requires ValidTable(table) && c in table && s' == AddItem(table, s, c, true, false)
    ensures c in s'.queue && ItemStatus(table, s', c) != Some(Done) && ItemStatus(table, s', c) != Some(Error)
    ensures AddOutcome(table, s, c, true) in {Queued, AlreadyInQueue}
  {
    SetCommandDerives(table, s.statuses, c, Waiting);
  }

  /** What the walk leaves alone. */
  ghost predicate WalkFrame(s: State, s': State) {
    s' == s.(queue := s'.queue, deciding := s'.deciding, nextItem := s'.nextItem)
  }

  /** Exactly the done commands that `c` reaches have been remembered. */
  ghost predicate Walked(table: Table, s: State, c: string, s': State) {
    WalkFrame(s, s')
    && exists seen :: && RemembersDone(table, s.statuses, s.queue, s'.queue, seen)
                      && forall d :: d in seen <==> Reaches(table, c, d)
  }

  /** The item of a command that hydration finds not done, or whose run mode asks for another run. */
  function HydratedItem(queue: map<string, Item>, c: string, item: Item): bool {
    item.runRequested && !item.err && !item.rememberDone
    && (c in queue ==> item == queue[c].(err := false, rememberDone := false, runRequested := true))
    && (c !in queue ==> !item.inFlight && !item.waited)
  }

  ghost predicate StaysDone(table: Table, statuses: map<string, ProcedureStatuses>, c: string)
    requires c in table
  {
    DerivedStatus(table, statuses, c) == Some(Done) && table[c].run != Restart && table[c].run != Persistent
  }

  /** The queue after the persisted statuses of the commands in `names` were hydrated. */
  ghost predicate Hydrates(table: Table, statuses: map<string, ProcedureStatuses>,
                           queue: map<string, Item>, queue': map<string, Item>, names: set<string>)
    requires names <= table.Keys
  {
    && (forall c :: c in names && DerivedStatus(table, statuses, c).Some? ==>
          c in queue'
          && if StaysDone(table, statuses, c) then queue'[c] == Item(queue'[c].id, false, false, false, true, false)
             else HydratedItem(queue, c, queue'[c]))
    && (forall c :: !(c in names && DerivedStatus(table, statuses, c).Some?) ==>
          (c in queue' <==> c in queue) && (c in queue ==> queue'[c] == queue[c]))
  }

  /** A consistent queue in which nothing is in flight: the queue of a session that has not started. */
  ghost predicate Dormant(table: Table, queue: map<string, Item>, nextItem: nat) {
    ValidQueue(table, queue, nextItem) && forall c :: c in queue ==> !queue[c].inFlight
  }

  lemma PutDormant(table: Table, queue: map<string, Item>, nextItem: nat, c: string, item: Item, nextItem': nat)
    requires Dormant(table, queue, nextItem) && c in table && ValidItem(item) && !item.inFlight
    requires nextItem' >= nextItem && item.id < nextItem'
             && ((c in queue && item.id == queue[c].id) || item.id >= nextItem)
    ensures Dormant(table, queue[c := item], nextItem')
  {
    PutItemKeepsQueue(table, queue, c, item, nextItem, nextItem');
  }

  /** A hydrated session is one the single-run theorem starts from. */
  lemma DormantIsQuiet(table: Table, s: State)
    requires ValidTable(table) && Dormant(table, s.queue, s.nextItem) && s.statuses.Keys <= table.Keys
    requires s.runs == map[] && s.pass.Idle? && s.deciding == {}
    ensures Quiet(table, s)
  {
  }

  lemma HydratesMore(table: Table, statuses: map<string, ProcedureStatuses>, queue: map<string, Item>,
                     middle: map<string, Item>, queue': map<string, Item>, names: set<string>, c: string)
    requires names + {c} <= table.Keys && c !in names
    requires Hydrates(table, statuses, queue, middle, names) && Hydrates(table, statuses, middle, queue', {c})
    ensures Hydrates(table, statuses, queue, queue', names + {c})
  {
  }

  /** The procedure a run of a command starts at: the first one, unless the backend resumes a command
      in restart mode. */
  function StartIndex(command: Command, resume: nat): (start: nat)
    requires |command.procedures| > 0
    ensures start < |command.procedures| && (start == 0 || command.run == Restart)
  {
    if command.run == Restart && resume < |command.procedures| then resume else 0
  }

  /** Since `before` only runs were added, each of which starts where it should: at the first procedure or, in
      restart mode, at the one the backend takes the command up at. */
  ghost predicate StartedRight(table: Table, resume: map<string, nat>, before: map<nat, Run>, runs: map<nat, Run>) {
    && (forall r :: r in before ==> r in runs && runs[r] == before[r])
    && forall r :: r in runs && r !in before ==>
         var c := runs[r].cmd;
         && c in table
         && runs[r].pos == if table[c].run == Restart && c in resume && resume[c] < |table[c].procedures| then resume[c]
                           else 0
  }

  lemma StartedRightTwice(table: Table, resume: map<string, nat>, before: map<nat, Run>, middle: map<nat, Run>,
                          runs: map<nat, Run>)
    requires StartedRight(table, resume, before, middle) && StartedRight(table, resume, middle, runs)
    ensures StartedRight(table, resume, before, runs)
  {
  }

  /** A session record as the store has it. */
  datatype Stored = Stored(procedures: map<string, ProcedureStatuses>, status: ScrollStatus)

  class RuntimeSession {
    const table: Table
    const serve: Option<string>
    var queue: map<string, Item>
    var procedures: map<string, ProcedureStatuses>
    var status: ScrollStatus
    /** The goroutines that run commands. */
    var runs: map<nat, Run>
    var nextItem: nat
    var nextRun: nat
    ghost var pass: Pass
    ghost var deciding: set<string>
    ghost var history: seq<Event>

    ghost function Model(): State
      reads this
    {
      State(queue, procedures, runs, pass, deciding, nextItem, nextRun, history)
    }

    constructor (table: Table, serve: Option<string>)
      ensures this.table == table && this.serve == serve && Model() == INIT && status == ScrollCreated
    {
      this.table, this.serve := table, serve;
      queue, procedures, status, runs, nextItem, nextRun := map[], map[], ScrollCreated, map[], 0, 0;
      pass, deciding, history := Idle, {}, [];
    }

    // ---- persisted statuses -------------------------------------------------------------------

    method DropUnknown()
      modifies `procedures
      ensures procedures == Known(table, old(procedures))
      ensures forall c :: c in procedures <==> c in old(procedures) && c in table
      ensures forall c :: c in procedures ==> procedures[c] == old(procedures)[c]
    {
      var names := procedures.Keys;
      while names != {}
        invariant names <= old(procedures).Keys
        invariant forall c :: c in procedures <==> c in old(procedures) && (c in names || c in table)
        invariant forall c :: c in procedures ==> procedures[c] == old(procedures)[c]
        decreases |names|
      {
        var c :| c in names;
        names := names - {c};
        if c !in table {
          procedures := procedures - {c};
        }
      }
    }

    /** Writes one status for every procedure of a command, in place. */
    method WriteCommand(c: string, st: Status)
      requires c in table && |table[c].procedures| > 0
      modifies `procedures
      ensures procedures == SetCommand(table, old(procedures), c, st)
    {
      ghost var before := procedures;
      for i := 0 to |table[c].procedures|
        invariant procedures == WriteFirst(table, before, c, i, st)
      {
        WriteNext(table, before, c, i, st);
        procedures := SetProcedure(procedures, c, table[c].procedures[i].name, st);
      }
      WriteAllSetsCommand(table, before, c, st);
    }

    /** `persistCommandStatus`. A running status is never written here. */
    method PersistCommandStatus(c: string, st: Status)
      requires ValidTable(table)
      modifies `procedures, `status
      ensures procedures == if st == Running || c !in table then old(procedures)
                            else SetCommand(table, Known(table, old(procedures)), c, st)
      ensures status == if st == Running || c !in table then old(status) else ScrollStatusOf(table, procedures)
      ensures old(procedures).Keys <= table.Keys && st != Running ==>
                procedures == SetCommand(table, old(procedures), c, st)
      ensures st == Running || c !in table ==> procedures == old(procedures)
      ensures st != Running && c in table ==>
                && Everywhere(table[c], StatusesOf(procedures, c), st)
                && forall d :: d != c ==>
                     (d in procedures <==> d in old(procedures) && d in table)
                     && (d in procedures ==> procedures[d] == old(procedures)[d])
    {
      if st == Running || c !in table {
        return;
      }
      DropUnknown();
      assert old(procedures).Keys <= table.Keys ==> procedures == old(procedures);
      ghost var known := procedures;
      WriteCommand(c, st);
      SetCommandEverywhere(table, known, c, st, procedures);
      status := DeriveScrollStatus(procedures, table);
    }

    /** `persistProcedureStatus`, the observer the backend reports to. */
    method PersistProcedureStatus(c: string, name: string, st: Status)
      modifies `procedures, `status
      ensures procedures == if c in table then SetProcedure(old(procedures), c, name, st) else old(procedures)
      ensures status == if c in table then ScrollStatusOf(table, procedures) else old(status)
    {
      if c !in table {
        return;
      }
      if c !in procedures {
        procedures := procedures[c := map[]];
      }
      procedures := procedures[c := procedures[c][name := st]];
      status := DeriveScrollStatus(procedures, table);
    }

    /** `setCommandProcedureStatus`: what a failed run leaves behind, one procedure at a time. */
    method SetCommandProcedureStatus(c: string, st: Status)
      requires c in table && |table[c].procedures| > 0
      modifies `procedures, `status
      ensures procedures == SetCommand(table, old(procedures), c, st)
    {
      ghost var before := procedures;
      for i := 0 to |table[c].procedures|
        invariant procedures == WriteFirst(table, before, c, i, st)
      {
        WriteNext(table, before, c, i, st);
        PersistProcedureStatus(c, table[c].procedures[i].name, st);
      }
      WriteAllSetsCommand(table, before, c, st);
    }

    /** `refreshCommandState`: the session takes over what the store has, without commands that no longer
        exist; if there were any, the store is cleaned too (`saved`). Nothing happens if the record
        cannot be read. */
    method RefreshCommandState(fetched: Option<Stored>) returns (saved: Option<Stored>)
      modifies `procedures, `status
      ensures fetched.None? ==> procedures == old(procedures) && status == old(status) && saved == None
      ensures fetched.Some? ==>
                && procedures == Known(table, fetched.value.procedures) && status == fetched.value.status
                && saved == if fetched.value.procedures.Keys <= table.Keys then None
                  else Some(Stored(procedures, status))
      ensures fetched.Some? ==>
                && (forall c :: c in procedures <==> c in fetched.value.procedures && c in table)
                && (forall c :: c in procedures ==> procedures[c] == fetched.value.procedures[c])
      ensures fetched == Some(Stored(old(procedures), old(status))) && old(procedures).Keys <= table.Keys ==>
                Model() == old(Model()) && status == old(status)
    {
      saved := None;
      if fetched.None? {
        return;
      }
      var kept := fetched.value.procedures;
      var names := kept.Keys;
      var removed := false;
      while names != {}
        invariant names <= fetched.value.procedures.Keys
        invariant forall c :: c in kept <==> c in fetched.value.procedures && (c in names || c in table)
        invariant forall c :: c in kept ==> kept[c] == fetched.value.procedures[c]
        invariant removed <==> exists c :: c in fetched.value.procedures && c !in names && c !in table
        decreases |names|
      {
        var c :| c in names;
        names := names - {c};
        if c !in table {
          kept, removed := kept - {c}, true;
        }
      }
      if removed {
        saved := Some(Stored(kept, fetched.value.status));
      }
      procedures, status := kept, fetched.value.status;
    }

    // ---- queue items --------------------------------------------------------------------------

    /** `setQueueStatusLocked`. */
    method SetQueueStatusLocked(c: string, st: Status)
      requires ValidTable(table) && c in queue && procedures.Keys <= table.Keys
      modifies `queue, `procedures, `status
      ensures Model() == SetQueueStatus(table, old(Model()), c, st)
      ensures queue == old(queue)[c := queue[c]] && StatusSet(old(queue)[c], queue[c], st)
      ensures st == Running ==> procedures == old(procedures)
      ensures st != Running && c in table ==> Everywhere(table[c], StatusesOf(procedures, c), st)
      ensures forall d :: d != c ==> StatusesOf(procedures, d) == old(StatusesOf(procedures, d))
    {
      WithStatusSets(queue[c], st);
      var item := queue[c].(inFlight := st == Running);
      if st != Error {
        item := item.(err := false);
      }
      match st {
        case Done => item := item.(rememberDone := true, runRequested := false);
        case Waiting => item := item.(rememberDone := false, runRequested := true);
        case Running => item := item.(runRequested := false);
        case Error => item := item.(runRequested := false);
        case Unrecognised =>
      }
      queue := queue[c := item];
      if st != Running {
        PersistCommandStatus(c, st);
      }
    }

    /** `setQueueStatus`: nothing happens when the item is gone. */
    method SetStatus(c: string, st: Status)
      requires ValidTable(table) && procedures.Keys <= table.Keys
      modifies `queue, `procedures, `status
      ensures Model() == SetQueueStatus(table, old(Model()), c, st)
    {
      if c in queue {
        SetQueueStatusLocked(c, st);
      }
    }

    /** `setQueueError`: the command's statuses become errors even when the item is gone. */
    method SetError(c: string)
      requires ValidTable(table) && procedures.Keys <= table.Keys
      modifies `queue, `procedures, `status
      ensures Model() == SetQueueError(table, old(Model()), c)
      ensures queue == if c in old(queue) then old(queue)[c := old(queue)[c].(inFlight := false, err := true)]
                       else old(queue)
      ensures c in table ==> Everywhere(table[c], StatusesOf(procedures, c), Error)
      ensures forall d :: d != c ==> StatusesOf(procedures, d) == old(StatusesOf(procedures, d))
    {
      if c in queue {
        queue := queue[c := queue[c].(inFlight := false, err := true)];
      }
      PersistCommandStatus(c, Error);
    }

    /** `derivedScheduledStatusLocked`. */
    method DerivedScheduledStatus(c: string) returns (result: Option<Status>)
      ensures result == ItemStatus(table, Model(), c)
      ensures c in queue && queue[c].err ==> result == Some(Error)
      ensures c in queue && !queue[c].err && queue[c].inFlight ==> result == Some(Running)
      ensures c in queue && !queue[c].err && !queue[c].inFlight && queue[c].rememberDone ==> result == Some(Done)
      ensures c !in queue || !(queue[c].err || queue[c].inFlight || queue[c].rememberDone) ==>
                result == if DerivedStatus(table, procedures, c).Some? then DerivedStatus(table, procedures, c)
                          else if c in queue then Some(Waiting) else None
    {
      if c in queue {
        if queue[c].err {
          return Some(Error);
        }
        if queue[c].inFlight {
          return Some(Running);
        }
        if queue[c].rememberDone {
          return Some(Done);
        }
      }
      var command := if c in table then Some(table[c]) else None;
      var st, ok := DeriveCommandStatusFromProcedures(command, StatusesOf(procedures, c));
      if ok {
        return Some(st);
      }
      return if c in queue then Some(Waiting) else None;
    }

    /** `addQueueItemWithEnv` up to the point where it triggers the queue. */
    method AddQueueItem(c: string, force: bool, wait: bool) returns (result: AddResult)
      requires ValidTable(table) && procedures.Keys <= table.Keys
      modifies `queue, `procedures, `status, `nextItem
      ensures result == AddOutcome(table, old(Model()), c, force)
      ensures Model() == AddItem(table, old(Model()), c, force, wait)
      ensures result == NotFound <==> c !in table
      ensures result == AlreadyInQueue <==>
                && c in table && c in old(queue) && !old(queue)[c].err
                && (old(queue)[c].inFlight
                    || (!old(queue)[c].rememberDone
                        && old(DerivedStatus(table, procedures, c)) != Some(Done)
                        && old(DerivedStatus(table, procedures, c)) != Some(Error)))
      ensures result == DoneOnce <==>
                && c in table && table[c].run == Once && !force
                && (c in old(queue) ==> !old(queue)[c].err && !old(queue)[c].inFlight)
                && ((c in old(queue) && old(queue)[c].rememberDone)
                    || old(DerivedStatus(table, procedures, c)) == Some(Done))
      ensures result != Queued ==> Model() == old(Model()) && status == old(status)
      ensures result == Queued ==>
                && queue == old(queue)[c := Item(old(nextItem), wait, false, false, false, true)]
                && nextItem == old(nextItem) + 1 && Everywhere(table[c], StatusesOf(procedures, c), Waiting)
                && forall d :: d != c ==> StatusesOf(procedures, d) == old(StatusesOf(procedures, d))
    {
      if c !in table {
        return NotFound;
      }
      var current := DerivedScheduledStatus(c);
      if c in queue && current != Some(Done) && current != Some(Error) {
        return AlreadyInQueue;
      }
      if current == Some(Done) && table[c].run == Once && !force {
        return DoneOnce;
      }
      queue := queue[c := Item(nextItem, wait, false, false, false, false)];
      nextItem := nextItem + 1;
      SetQueueStatusLocked(c, Waiting);
      return Queued;
    }

    /** `RememberDoneItem`. */
    method RememberDoneItem(c: string)
      modifies `queue, `nextItem
      ensures Model() == Remember(old(Model()), c)
      ensures queue == old(queue)[c := queue[c]] && queue[c].rememberDone && !queue[c].inFlight && !queue[c].err
      ensures c in old(queue) ==>
                && queue[c].id == old(queue)[c].id && queue[c].waited == old(queue)[c].waited
                && queue[c].runRequested == old(queue)[c].runRequested && nextItem == old(nextItem)
      ensures c !in old(queue) ==>
                queue[c].id == old(nextItem) && !queue[c].waited && !queue[c].runRequested
                && nextItem == old(nextItem) + 1
    {
      if c !in queue {
        queue := queue[c := Item(nextItem, false, false, false, false, false)];
        nextItem := nextItem + 1;
      }
      queue := queue[c := queue[c].(rememberDone := true, inFlight := false, err := false)];
    }

    // ---- hydration ------------------------------------------------------------------------------

    method RememberHydratedItem(c: string)
      modifies `queue, `nextItem
      ensures c in queue && HydratedItem(old(queue), c, queue[c])
      ensures forall d :: d != c ==> (d in queue <==> d in old(queue)) && (d in queue ==> queue[d] == old(queue)[d])
      ensures nextItem == if c in old(queue) then old(nextItem) else old(nextItem) + 1
      ensures queue[c].id == if c in old(queue) then old(queue)[c].id else old(nextItem)
    {
      if c !in queue {
        queue := queue[c := Item(nextItem, false, false, false, false, false)];
        nextItem := nextItem + 1;
      }
      queue := queue[c := queue[c].(err := false, rememberDone := false, runRequested := true)];
    }

    /** Hydrates one command. */
    method HydrateCommand(c: string, statuses: map<string, ProcedureStatuses>)
      requires c in statuses && c in table
      modifies `queue, `nextItem
      ensures Hydrates(table, statuses, old(queue), queue, {c})
      ensures Derive(table[c], statuses[c]) == None ==> queue == old(queue)
      ensures Derive(table[c], statuses[c]) == Some(Done) && table[c].run in {Always, Once} ==>
                queue == old(queue)[c := Item(old(nextItem), false, false, false, true, false)]
      ensures Derive(table[c], statuses[c]).Some?
              && (Derive(table[c], statuses[c]) != Some(Done) || table[c].run in {Restart, Persistent}) ==>
                && queue == old(queue)[c := queue[c]]
                && queue[c].runRequested && !queue[c].err && !queue[c].rememberDone
                && (c in old(queue) ==>
                      queue[c].id == old(queue)[c].id && queue[c].waited == old(queue)[c].waited
                      && queue[c].inFlight == old(queue)[c].inFlight)
                && (c !in old(queue) ==> queue[c].id == old(nextItem) && !queue[c].waited && !queue[c].inFlight)
      ensures old(Dormant(table, queue, nextItem)) ==> Dormant(table, queue, nextItem)
    {
      var st, found := DeriveCommandStatusFromProcedures(Some(table[c]), statuses[c]);
      if !found {
        return;
      }
      ghost var before, next := queue, nextItem;
      if st == Done && table[c].run != Restart && table[c].run != Persistent {
        queue := queue[c := Item(nextItem, false, false, false, true, false)];
        nextItem := nextItem + 1;
      } else {
        RememberHydratedItem(c);
        assert queue == before[c := queue[c]];
      }
      if Dormant(table, before, next) {
        PutDormant(table, before, next, c, queue[c], nextItem);
      }
    }

    /** `HydrateFromState`: queues the persisted commands, in any order, and stops with an error at a
        command that is not in the table. */
    method HydrateFromState(statuses: map<string, ProcedureStatuses>) returns (ok: bool)
      modifies `queue, `nextItem
      ensures ok <==> statuses.Keys <= table.Keys
      ensures ok ==> Hydrates(table, statuses, old(queue), queue, statuses.Keys)
      ensures old(Dormant(table, queue, nextItem)) ==> Dormant(table, queue, nextItem)
    {
      var rest := statuses.Keys;
      while rest != {}
        invariant rest <= statuses.Keys && statuses.Keys - rest <= table.Keys
        invariant Hydrates(table, statuses, old(queue), queue, statuses.Keys - rest)
        invariant old(Dormant(table, queue, nextItem)) ==> Dormant(table, queue, nextItem)
        decreases |rest|
      {
        var c :| c in rest;
        if c !in table {
          return false;
        }
        ghost var middle := queue;
        HydrateCommand(c, statuses);
        HydratesMore(table, statuses, old(queue), middle, queue, statuses.Keys - rest, c);
        assert (statuses.Keys - rest) + {c} == statuses.Keys - (rest - {c});
        rest := rest - {c};
      }
      assert statuses.Keys - rest == statuses.Keys;
      return true;
    }

    // ---- remembering finished dependencies --------------------------------------------------------

    /** `rememberDoneDependencies`. The walk ends on every graph of needs, cyclic or not: each step
        into a dependency takes one name out of those not yet seen. */
    method RememberDoneDependencies(command: Command, seen: set<string>) returns (seen': set<string>)
      requires forall e :: e in command.needs ==> e in AllNeeds(table)
      modifies `queue, `nextItem, `deciding
      ensures seen <= seen' && (forall e :: e in command.needs ==> e in seen')
      ensures ClosedBeyond(table, seen', seen)
      ensures forall d :: d in seen' && d !in seen ==> Below(table, command.needs, d)
      ensures WalkFrame(old(Model()), Model())
      ensures RemembersDone(table, procedures, old(queue), queue, seen' - seen)
      ensures Leads(table, WALKING, old(Model()), Model())
      decreases AllNeeds(table) - seen, 1
    {
      seen' := seen;
      LeadsNowhere(table, WALKING, Model());
      for i := 0 to |command.needs|
        invariant seen <= seen' && (forall j :: 0 <= j < i ==> command.needs[j] in seen')
        invariant ClosedBeyond(table, seen', seen)
        invariant forall d :: d in seen' && d !in seen ==> Below(table, command.needs, d)
        invariant WalkFrame(old(Model()), Model())
        invariant RemembersDone(table, procedures, old(queue), queue, seen' - seen)
        invariant Leads(table, WALKING, old(Model()), Model())
      {
        var dependency := command.needs[i];
        if dependency in seen' {
          continue;
        }
        assert AllNeeds(table) - seen' <= AllNeeds(table) - seen;
        ghost var before, middle := seen', Model();
        seen' := RememberDependency(dependency, seen');
        forall d | d in seen' && d !in before ensures Below(table, command.needs, d) {
          BelowNeed(table, command.needs, dependency, d);
        }
        assert seen' - seen == (before - seen) + (seen' - before);
        RemembersMore(table, procedures, old(queue), middle.queue, queue, before - seen, seen' - before);
        LeadsTransitive(table, WALKING, old(Model()), middle, Model());
      }
    }

    /** The body of the walk's loop. */
    method RememberDependency(dependency: string, seen: set<string>) returns (seen': set<string>)
      requires dependency in AllNeeds(table) && dependency !in seen
      modifies `queue, `nextItem, `deciding
      ensures seen <= seen' && dependency in seen'
      ensures ClosedBeyond(table, seen', seen)
      ensures forall d :: d in seen' && d !in seen ==> d == dependency || Reaches(table, dependency, d)
      ensures WalkFrame(old(Model()), Model())
      ensures RemembersDone(table, procedures, old(queue), queue, seen' - seen)
      ensures Leads(table, WALKING, old(Model()), Model())
      decreases AllNeeds(table) - seen, 0
    {
      seen' := seen + {dependency};
      ghost var visited := seen';
      assert Needed(table, dependency);
      var st := DeriveCommandStatus(StatusesOf(procedures, dependency),
                                    if dependency in table then Some(table[dependency]) else None);
      RememberIfDone(dependency, st);
      if dependency in table {
        assert AllNeeds(table) - visited < AllNeeds(table) - seen;
        ghost var middle := Model();
        seen' := RememberDoneDependencies(table[dependency], seen');
        forall d | d in seen' && d !in visited ensures Reaches(table, dependency, d) {
          BelowNeeds(table, dependency, d);
        }
        RemembersMore(table, procedures, old(queue), middle.queue, queue, {dependency}, seen' - visited);
        assert {dependency} + (seen' - visited) == seen' - seen;
        LeadsTransitive(table, WALKING, old(Model()), middle, Model());
      } else {
        assert seen' - seen == {dependency};
      }
    }

    method RememberIfDone(dependency: string, st: Option<Status>)
      requires Needed(table, dependency) && st == DerivedStatus(table, procedures, dependency)
      modifies `queue, `nextItem, `deciding
      ensures WalkFrame(old(Model()), Model())
      ensures RemembersDone(table, procedures, old(queue), queue, {dependency})
      ensures Leads(table, WALKING, old(Model()), Model())
    {
      LeadsNowhere(table, WALKING, Model());
      if st == Some(Done) {
        deciding := deciding + {dependency};
        ghost var decided := Model();
        LeadsByStep(table, WALKING, old(Model()), DecideRemember(dependency), decided);
        RememberDoneItem(dependency);
        LeadsByStep(table, WALKING, decided, RememberDone(dependency), Model());
        LeadsTransitive(table, WALKING, old(Model()), decided, Model());
      }
    }

    /** A whole walk from `c`: it sees exactly what `c` reaches in one or more steps, and remembers
        exactly the done commands among them. */
    method RememberReachable(c: string) returns (seen: set<string>)
      requires c in table
      modifies `queue, `nextItem, `deciding
      ensures forall d :: d in seen <==> Reaches(table, c, d)
      ensures RemembersDone(table, procedures, old(queue), queue, seen)
      ensures WalkFrame(old(Model()), Model())
      ensures Leads(table, WALKING, old(Model()), Model())
    {
      seen := RememberDoneDependencies(table[c], {});
      assert seen - {} == seen;
      forall d ensures d in seen <==> Reaches(table, c, d) {
        BelowNeeds(table, c, d);
        if Reaches(table, c, d) {
          ClosedContainsReachable(table, seen, c, d);
        }
      }
    }

    /** A persistent command that needs no start. */
    ghost predicate UpAlready(c: string)
      requires c in table
      reads this
    {
      table[c].run == Persistent && status == ScrollRunning
      && (DerivedStatus(table, procedures, c) == Some(Done) || DerivedStatus(table, procedures, c) == Some(Running))
    }

    function Starting(): Licence {
      Licence(if serve.Some? then {serve.value} else {}, true)
    }

    /** `AutoStartServe`: after the walk, a persistent serve command that is up already is left alone,
        and any other is added by force, which never fails otherwise. Nothing else is added. `walked` is
        the state after the walk. */
    method AutoStartServe() returns (ok: bool, ghost walked: State)
      requires ValidTable(table) && procedures.Keys <= table.Keys
      modifies `queue, `nextItem, `deciding, `procedures, `status
      ensures ok && Leads(table, Starting(), old(Model()), Model())
      ensures serve.None? || serve.value !in table ==> Model() == old(Model())
      ensures serve.Some? && serve.value in table ==>
                && Walked(table, old(Model()), serve.value, walked)
                && Model() == if old(UpAlready(serve.value)) then walked
                  else AddItem(table, walked, serve.value, true, false)
      ensures serve.Some? && serve.value in table && table[serve.value].run == Persistent
              && old(status) == ScrollRunning
              && old(DerivedStatus(table, procedures, serve.value)) in {Some(Done), Some(Running)} ==>
                Model() == walked
      ensures serve.Some? && serve.value in table
              && (table[serve.value].run != Persistent || old(status) != ScrollRunning
                  || old(DerivedStatus(table, procedures, serve.value)) !in {Some(Done), Some(Running)}) ==>
                serve.value in queue && ItemStatus(table, Model(), serve.value) != Some(Done)
                && ItemStatus(table, Model(), serve.value) != Some(Error)
    {
      walked := Model();
      LeadsNowhere(table, Starting(), walked);
      if serve.None? || serve.value !in table {
        return true, walked;
      }
      var c := serve.value;
      var seen := RememberReachable(c);
      walked := Model();
      LeadsWider(table, WALKING, Starting(), old(Model()), walked);
      assert procedures == old(procedures);
      ok := true;
      if table[c].run == Persistent {
        var st := DeriveCommandStatus(StatusesOf(procedures, c), Some(table[c]));
        if (st == Some(Done) || st == Some(Running)) && status == ScrollRunning {
          return;
        }
      }
      var result := AddQueueItem(c, true, false);
      ok := result == Queued || result == AlreadyInQueue;
      LeadsByStep(table, Starting(), walked, Add(c, true, false), Model());
      LeadsTransitive(table, Starting(), old(Model()), walked, Model());
      ActiveAfterAdd(table, walked, c, Model());
    }

    // ---- passes ------------------------------------------------------------------------------------

    /** `isScheduled`. */
    method IsScheduled(c: string, i: nat, ready: bool) returns (scheduled: bool)
      requires c in table && i < |table[c].needs| && pass.Active? && pass.visit == Checking(c, i, ready, Look)
      modifies `pass
      ensures scheduled <==> table[c].needs[i] in queue
      ensures Enabled(table, old(Model()), Advance) && Model() == Apply(table, old(Model()), Advance)
      ensures pass == old(pass).(visit := Checking(c, i, ready, if scheduled then Scheduled else Unscheduled))
    {
      scheduled := table[c].needs[i] in queue;
      pass := pass.(visit := Checking(c, i, ready, if scheduled then Scheduled else Unscheduled));
    }

    /** `getQueueStatus` of a scheduled dependency. */
    method ReadScheduled(c: string, i: nat, ready: bool) returns (ready': bool)
      requires c in table && i < |table[c].needs| && pass.Active? && pass.visit == Checking(c, i, ready, Scheduled)
      modifies `pass
      ensures Enabled(table, old(Model()), Advance) && Model() == Apply(table, old(Model()), Advance)
      ensures pass == old(pass).(visit := Checking(c, i + 1, ready', Look))
    {
      var st := DerivedScheduledStatus(table[c].needs[i]);
      ready' := ready && st == Some(Done);
      pass := pass.(visit := Checking(c, i + 1, ready', Look));
    }

    /** `derivedQueueStatus` of an unscheduled dependency. */
    method ReadUnscheduled(c: string, i: nat, ready: bool) returns (done: bool)
      requires c in table && i < |table[c].needs| && pass.Active? && pass.visit == Checking(c, i, ready, Unscheduled)
      modifies `pass
      ensures Enabled(table, old(Model()), Advance) && Model() == Apply(table, old(Model()), Advance)
      ensures pass == old(pass).(visit := if done then Checking(c, i + 1, ready, Look)
                                 else Checking(c, i, false, Missing))
    {
      var dep := table[c].needs[i];
      var command := if dep in table then Some(table[dep]) else None;
      var st, ok := DeriveCommandStatusFromProcedures(command, StatusesOf(procedures, dep));
      done := ok && st == Done;
      pass := pass.(visit := if done then Checking(c, i + 1, ready, Look) else Checking(c, i, false, Missing));
    }

    /** `AddTempItem` for a missing dependency; its errors are ignored. */
    method AddMissing(c: string, i: nat)
      requires ValidTable(table) && procedures.Keys <= table.Keys
      requires c in table && i < |table[c].needs| && pass.Active? && pass.visit == Checking(c, i, false, Missing)
      modifies this
      ensures Enabled(table, old(Model()), Advance) && Model() == Apply(table, old(Model()), Advance)
      ensures pass == old(pass).(visit := Checking(c, i + 1, false, Look))
      ensures procedures.Keys <= table.Keys
      ensures table[c].needs[i] in table && table[c].needs[i] !in old(queue)
              && !(table[table[c].needs[i]].run == Once
                   && old(DerivedStatus(table, procedures, table[c].needs[i])) == Some(Done)) ==>
                queue == old(queue)[table[c].needs[i] := Item(old(nextItem), false, false, false, false, true)]
      ensures runs == old(runs) && nextRun == old(nextRun)
    {
      var result := AddQueueItem(table[c].needs[i], false, false);
      pass := pass.(visit := Checking(c, i + 1, false, Look));
    }

    /** The check of one dependency: two locked reads at most, and one add. */
    method CheckDependency(c: string, i: nat, ready: bool) returns (ready': bool, ghost steps: seq<Step>)
      requires ValidTable(table) && procedures.Keys <= table.Keys && c in table && i < |table[c].needs|
      requires pass.Active? && pass.visit == Checking(c, i, ready, Look)
      modifies this
      ensures Traced(table, old(Model()), steps, Model())
      ensures pass == old(pass).(visit := Checking(c, i + 1, ready', Look))
      ensures procedures.Keys <= table.Keys
      ensures runs == old(runs) && nextRun == old(nextRun)
    {
      ghost var s0 := Model();
      TraceNothing(table, s0);
      var scheduled := IsScheduled(c, i, ready);
      ghost var s1 := Model();
      TraceStep(table, s0, [], s0, Advance, s1);
      steps := [] + [Advance];
      if scheduled {
        ready' := ReadScheduled(c, i, ready);
      } else {
        var done := ReadUnscheduled(c, i, ready);
        if !done {
          ghost var s2 := Model();
          TraceStep(table, s0, steps, s1, Advance, s2);
          steps, s1 := steps + [Advance], s2;
          AddMissing(c, i);
        }
        ready' := ready && done;
      }
      TraceStep(table, s0, steps, s1, Advance, Model());
      steps := steps + [Advance];
    }

    /** All dependencies of `c`, in the order of its needs. */
    method CheckDependencies(c: string) returns (ready: bool, ghost steps: seq<Step>)
      requires ValidTable(table) && procedures.Keys <= table.Keys && c in table
      requires pass.Active? && pass.visit == Checking(c, 0, true, Look)
      modifies this
      ensures Traced(table, old(Model()), steps, Model())
      ensures pass == old(pass).(visit := Checking(c, |table[c].needs|, ready, Look))
      ensures procedures.Keys <= table.Keys
      ensures runs == old(runs) && nextRun == old(nextRun)
    {
      ready, steps := true, [];
      TraceNothing(table, Model());
      for i := 0 to |table[c].needs|
        invariant Traced(table, old(Model()), steps, Model())
        invariant pass == old(pass).(visit := Checking(c, i, ready, Look))
        invariant runs == old(runs) && nextRun == old(nextRun)
        invariant procedures.Keys <= table.Keys
      {
        ghost var middle := Model();
        ghost var more;
        ready, more := CheckDependency(c, i, ready);
        TraceConcat(table, old(Model()), steps, middle, more, Model());
        steps := steps + more;
      }
    }

    /** The launch of a checked command: the item may have gone in between. */
    method LaunchIfReady(c: string, ready: bool, start: nat)
      requires ValidTable(table) && procedures.Keys <= table.Keys && c in table
      requires start < |table[c].procedures| && (start == 0 || table[c].run == Restart)
      requires pass.Active? && pass.visit == Checking(c, |table[c].needs|, ready, Look)
      modifies this
      ensures Enabled(table, old(Model()), Launch(start)) && Model() == Apply(table, old(Model()), Launch(start))
      ensures !ready || c !in old(queue) ==> queue == old(queue) && runs == old(runs) && history == old(history)
      ensures ready && c in old(queue) ==>
                && queue == old(queue)[c := old(queue)[c].(inFlight := true, err := false, runRequested := false)]
                && runs == old(runs)[old(nextRun) := Run(c, old(queue)[c].id, old(queue)[c].waited, start)]
      ensures procedures == old(procedures) && pass == old(pass).(visit := Between)
    {
      pass := pass.(visit := Between);
      if !ready || c !in queue {
        return;
      }
      var item := queue[c];
      SetQueueStatusLocked(c, Running);
      runs := runs[nextRun := Run(c, item.id, item.waited, start)];
      nextRun := nextRun + 1;
      history := history + [Launched(c, item.id, item.waited)];
    }

    /** Whether a command of the snapshot is checked any further; an unknown one is dropped. */
    method IsCandidate(c: string, st: Status, requested: bool) returns (candidate: bool)
      requires pass.Active? && pass.visit.Between? && c in pass.pending && pass.pending[c] == Snap(st, requested)
      modifies `pass, `queue
      ensures Model() == Apply(table, old(Model()), VisitCommand(c))
      ensures pass == Active(old(pass).pending - {c}, if candidate then Checking(c, 0, true, Look) else Between)
      ensures candidate <==>
                && c in table
                && (requested || st == Waiting || st == Unrecognised || (st == Done && table[c].run == Restart))
      ensures queue == if c !in table && (requested || st != Running) then old(queue) - {c} else old(queue)
    {
      pass := Active(pass.pending - {c}, Between);
      if st == Running && !requested {
        return false;
      }
      if c !in table {
        queue := queue - {c};
        return false;
      }
      if st == Error && !requested {
        return false;
      }
      if st == Done && table[c].run != Restart && !requested {
        return false;
      }
      pass := pass.(visit := Checking(c, 0, true, Look));
      return true;
    }

    /** One command of the snapshot. */
    method VisitQueued(c: string, st: Status, requested: bool, resume: map<string, nat>)
      returns (ghost steps: seq<Step>)
      requires ValidTable(table) && procedures.Keys <= table.Keys
      requires pass.Active? && pass.visit.Between? && c in pass.pending && pass.pending[c] == Snap(st, requested)
      requires forall r :: r in runs ==> r < nextRun
      modifies this
      ensures Traced(table, old(Model()), steps, Model())
      ensures pass == Active(old(pass).pending - {c}, Between)
      ensures procedures.Keys <= table.Keys
      ensures StartedRight(table, resume, old(runs), runs) && forall r :: r in runs ==> r < nextRun
    {
      ghost var s0 := Model();
      TraceNothing(table, s0);
      var candidate := IsCandidate(c, st, requested);
      ghost var s1 := Model();
      steps := [] + [VisitCommand(c)];
      TraceStep(table, s0, [], s0, VisitCommand(c), s1);
      if candidate {
        ghost var more := CheckAndLaunch(c, resume);
        TraceConcat(table, s0, steps, s1, more, Model());
        steps := steps + more;
      }
    }

    method CheckAndLaunch(c: string, resume: map<string, nat>) returns (ghost steps: seq<Step>)
      requires ValidTable(table) && procedures.Keys <= table.Keys && c in table
      requires pass.Active? && pass.visit == Checking(c, 0, true, Look)
      requires forall r :: r in runs ==> r < nextRun
      modifies this
      ensures Traced(table, old(Model()), steps, Model())
      ensures pass == old(pass).(visit := Between)
      ensures procedures.Keys <= table.Keys
      ensures StartedRight(table, resume, old(runs), runs) && forall r :: r in runs ==> r < nextRun
    {
      var ready;
      ready, steps := CheckDependencies(c);
      ghost var s := Model();
      var start := StartIndex(table[c], if c in resume then resume[c] else 0);
      LaunchIfReady(c, ready, start);
      TraceStep(table, old(Model()), steps, s, Launch(start), Model());
      steps := steps + [Launch(start)];
    }

    /** What a pass reads before it looks at any command. */
    method TakeSnapshot() returns (queueKeys: map<string, Status>, runRequested: map<string, bool>)
      ensures queueKeys.Keys == runRequested.Keys == queue.Keys
      ensures forall c :: c in queue ==> Snapshot(table, Model())[c] == Snap(queueKeys[c], runRequested[c])
      ensures forall c :: c in queue ==> runRequested[c] == queue[c].runRequested
      ensures forall c :: c in queue && ItemStatus(table, Model(), c).Some? ==>
                ItemStatus(table, Model(), c) == Some(queueKeys[c])
    {
      queueKeys, runRequested := map[], map[];
      var rest := queue.Keys;
      while rest != {}
        invariant rest <= queue.Keys && queueKeys.Keys == runRequested.Keys == queue.Keys - rest
        invariant forall c :: c in queueKeys ==> Snapshot(table, Model())[c] == Snap(queueKeys[c], runRequested[c])
        decreases |rest|
      {
        var c :| c in rest;
        rest := rest - {c};
        var st := DerivedScheduledStatus(c);
        queueKeys := queueKeys[c := StatusOr(st)];
        runRequested := runRequested[c := queue[c].runRequested];
      }
    }

    /** The loop over the snapshot, in any order. */
    method VisitAll(queueKeys: map<string, Status>, runRequested: map<string, bool>, resume: map<string, nat>)
      returns (ghost steps: seq<Step>)
      requires ValidTable(table) && procedures.Keys <= table.Keys && queueKeys.Keys == runRequested.Keys
      requires pass.Active? && pass.visit.Between? && pass.pending.Keys == queueKeys.Keys
      requires forall c :: c in queueKeys ==> pass.pending[c] == Snap(queueKeys[c], runRequested[c])
      requires forall r :: r in runs ==> r < nextRun
      modifies this
      ensures Traced(table, old(Model()), steps, Model()) && pass == Active(map[], Between)
      ensures procedures.Keys <= table.Keys
      ensures StartedRight(table, resume, old(runs), runs) && forall r :: r in runs ==> r < nextRun
    {
      steps := [];
      TraceNothing(table, Model());
      var rest := queueKeys.Keys;
      while rest != {}
        invariant rest <= queueKeys.Keys && pass.Active? && pass.visit.Between? && pass.pending.Keys == rest
        invariant forall c :: c in rest ==> pass.pending[c] == Snap(queueKeys[c], runRequested[c])
        invariant Traced(table, old(Model()), steps, Model())
        invariant StartedRight(table, resume, old(runs), runs) && forall r :: r in runs ==> r < nextRun
        invariant procedures.Keys <= table.Keys
        decreases |rest|
      {
        var c :| c in rest;
        rest := rest - {c};
        ghost var middle := Model();
        ghost var more;
        more := VisitQueued(c, queueKeys[c], runRequested[c], resume);
        TraceConcat(table, old(Model()), steps, middle, more, Model());
        StartedRightTwice(table, resume, old(runs), middle.runs, runs);
        steps := steps + more;
      }
    }

    /** `RunQueue`, undisturbed: it is a whole pass of the step relation, whatever the order in which
        the snapshot is visited. `resume` holds the procedures at which the backend takes up restart
        commands. */
    method RunQueue(resume: map<string, nat>) returns (ghost steps: seq<Step>)
      requires ValidTable(table) && procedures.Keys <= table.Keys && pass.Idle?
      requires forall r :: r in runs ==> r < nextRun
      modifies this
      ensures WholePass(table, old(Model()), steps)
      ensures Model() == After(table, old(Model()), [BeginPass] + steps + [EndPass])
      ensures procedures.Keys <= table.Keys
      ensures StartedRight(table, resume, old(runs), runs) && forall r :: r in runs ==> r < nextRun
    {
      var queueKeys, runRequested := TakeSnapshot();
      pass := Active(Snapshot(table, Model()), Between);
      steps := VisitAll(queueKeys, runRequested, resume);
      ghost var checked := Model();
      pass := Idle;
      TraceIsWholePass(table, old(Model()), steps, checked, Model());
    }

    // ---- the end of a run and of a session -----------------------------------------------------------

    /** The first half of the end of a run: it is over and what it leaves behind is persisted. */
    method PersistEnd(rid: nat, outcome: Outcome)
      requires ValidTable(table) && procedures.Keys <= table.Keys && rid in runs && ValidRun(table, runs[rid])
      modifies this
      ensures Model() == EndRun(table, old(Model()), rid, outcome) && procedures.Keys <= table.Keys
    {
      var c, r := runs[rid].cmd, runs[rid];
      runs := runs - {rid};
      history := history + [Finished(c, r.item, outcome == Ok)] + if r.waited then [Closed(c, r.item)] else [];
      if outcome != Ok {
        SetCommandProcedureStatus(c, Error);
      } else if !LeftRunning(table[c], r.pos) {
        PersistProcedureStatus(c, table[c].procedures[r.pos].name, Done);
      }
    }

    /** The second half: what becomes of the item. */
    method SettleItem(c: string, outcome: Outcome)
      requires ValidTable(table) && procedures.Keys <= table.Keys && c in table
      modifies `queue, `procedures, `status
      ensures Model() == Settle(table, old(Model()), c, outcome)
    {
      if outcome != Ok && (table[c].run != Restart || outcome == FailedForGood) {
        SetError(c);
        return;
      }
      if table[c].run == Persistent {
        return;
      } else if table[c].run == Restart {
        SetStatus(c, Waiting);
      } else {
        SetStatus(c, Done);
      }
    }

    /** The goroutine of a run after the backend returned: the last observation or the failure is
        persisted, then the scheduler settles the item. */
    method FinishCommand(rid: nat, outcome: Outcome)
      requires ValidTable(table) && procedures.Keys <= table.Keys && rid in runs && ValidRun(table, runs[rid])
      modifies this
      ensures Model() == FinishRun(table, old(Model()), rid, outcome)
      ensures (outcome == Ok ==> old(runs)[rid].pos + 1 == |table[old(runs)[rid].cmd].procedures|) ==>
                && Enabled(table, old(Model()), Finish(rid, outcome))
                && Model() == Apply(table, old(Model()), Finish(rid, outcome))
      ensures runs == old(runs) - {rid} && OthersAlone(old(Model()), Model(), old(runs)[rid].cmd)
      ensures var c := old(runs)[rid].cmd;
              var last := LastOf(table[c]);
              table[c].run == Persistent && outcome == Ok && old(runs)[rid].pos + 1 == |table[c].procedures| ==>
                && queue == old(queue)
                && if last.signal then StatusesOf(procedures, c) == old(StatusesOf(procedures, c))[last.name := Done]
                   else procedures == old(procedures)
      ensures var c := old(runs)[rid].cmd;
              table[c].run in {Always, Once} && outcome == Ok && c in old(queue) ==>
                && Flags(old(Model()), Model(), c, false, true, false)
                && Everywhere(table[c], StatusesOf(procedures, c), Done)
      ensures var c := old(runs)[rid].cmd;
              table[c].run == Restart && outcome != FailedForGood && c in old(queue) ==>
                && Flags(old(Model()), Model(), c, false, false, true)
                && Everywhere(table[c], StatusesOf(procedures, c), Waiting)
      ensures var c := old(runs)[rid].cmd;
              outcome == FailedForGood || (outcome == Failed && table[c].run != Restart) ==>
                && (c in old(queue) ==>
                      Flags(old(Model()), Model(), c, true, old(queue)[c].rememberDone, old(queue)[c].runRequested))
                && Everywhere(table[c], StatusesOf(procedures, c), Error)
      ensures old(runs)[rid].cmd !in old(queue) ==> queue == old(queue)
      ensures history == old(history) + [Finished(old(runs)[rid].cmd, old(runs)[rid].item, outcome == Ok)]
                         + if old(runs)[rid].waited then [Closed(old(runs)[rid].cmd, old(runs)[rid].item)] else []
    {
      var c := runs[rid].cmd;
      FinishEffect(table, Model(), rid, outcome, FinishRun(table, Model(), rid, outcome));
      PersistEnd(rid, outcome);
      SettleItem(c, outcome);
    }

    /** Drops every persisted status but those of finished run-once commands. */
    method DropStopped()
      modifies `procedures
      ensures procedures == KeptByStop(table, old(procedures))
      ensures forall c :: c in procedures <==>
                && c in old(procedures) && c in table && table[c].run == Once && |table[c].procedures| > 0
                && Everywhere(table[c], old(procedures)[c], Done)
      ensures forall c :: c in procedures ==> procedures[c] == old(procedures)[c]
    {
      var rest := procedures.Keys;
      while rest != {}
        invariant rest <= procedures.Keys <= old(procedures).Keys
        invariant forall c :: c in procedures <==>
                    c in old(procedures) && (c in rest || c in KeptByStop(table, old(procedures)))
        invariant forall c :: c in procedures ==> procedures[c] == old(procedures)[c]
        decreases |rest|
      {
        var c :| c in rest;
        rest := rest - {c};
        var st := DeriveCommandStatus(procedures[c], if c in table then Some(table[c]) else None);
        if st == Some(Done) && c in table && table[c].run == Once {
          continue;
        }
        procedures := procedures - {c};
      }
      assert procedures == KeptByStop(table, old(procedures));
      KeptExactly(table, old(procedures));
    }

    /** `StopRuntime` after the queue work has drained: the queue is emptied even when the backend
        refuses to stop; if it stops, only finished run-once commands keep their statuses. */
    method StopRuntime(stopped: bool)
      requires pass.Idle? && runs == map[]
      modifies `queue, `procedures, `status
      ensures Enabled(table, old(Model()), Step.StopRuntime(stopped))
      ensures Model() == Apply(table, old(Model()), Step.StopRuntime(stopped))
      ensures status == if stopped then ScrollStopped else old(status)
      ensures queue == map[] && (!stopped ==> procedures == old(procedures))
      ensures stopped ==>
                && (forall c :: c in procedures <==>
                      && c in old(procedures) && c in table && table[c].run == Once && |table[c].procedures| > 0
                      && Everywhere(table[c], old(procedures)[c], Done))
                && (forall c :: c in procedures ==> procedures[c] == old(procedures)[c])
    {
      queue := map[];
      if !stopped {
        return;
      }
      DropStopped();
      status := ScrollStopped;
    }
  }
}
