/** Deriving one command status from the persisted statuses of its procedures, and one scroll
    status from all commands. */
module CommandStatus {
  import opened Domain

  /** Some procedure of `command` has a persisted status equal to `status`. */
  predicate Has(command: Command, statuses: ProcedureStatuses, status: Status) {
    exists i :: 0 <= i < |command.procedures| && command.procedures[i].name in statuses
                && statuses[command.procedures[i].name] == status
  }

  predicate AnySeen(command: Command, statuses: ProcedureStatuses) {
    exists i :: 0 <= i < |command.procedures| && command.procedures[i].name in statuses
  }

  predicate AllDone(command: Command, statuses: ProcedureStatuses) {
    forall i :: 0 <= i < |command.procedures| ==>
                  command.procedures[i].name in statuses && statuses[command.procedures[i].name] == Done
  }

  /** The precedence of statuses, stated without regard to the order of the procedures:
      an error wins, then a running procedure; a command is done only when every procedure is. */
  function Derive(command: Command, statuses: ProcedureStatuses): Option<Status> {
    if |command.procedures| == 0 then None
    else if Has(command, statuses, Error) then Some(Error)
    else if Has(command, statuses, Running) then Some(Running)
    else if AllDone(command, statuses) then Some(Done)
    else if AnySeen(command, statuses) then Some(Waiting)
    else None
  }

  /** `deriveCommandStatus` of the daemon. */
  method DeriveCommandStatus(statuses: ProcedureStatuses, command: Option<Command>) returns (result: Option<Status>)
    ensures command.None? ==> result == None
    ensures command.Some? ==> result == Derive(command.value, statuses)
    ensures result == Some(Error) <==>
              command.Some? && exists p ::
                p in command.value.procedures && p.name in statuses && statuses[p.name] == Error
    ensures result == Some(Running) <==>
              && command.Some?
              && (exists p :: p in command.value.procedures && p.name in statuses && statuses[p.name] == Running)
              && (forall p :: p in command.value.procedures && p.name in statuses ==> statuses[p.name] != Error)
    ensures result == Some(Done) <==>
              && command.Some? && |command.value.procedures| > 0
              && forall p :: p in command.value.procedures ==> p.name in statuses && statuses[p.name] == Done
    ensures result == Some(Waiting) <==>
              && command.Some? && (exists p :: p in command.value.procedures && p.name in statuses)
              && (exists p :: p in command.value.procedures && (p.name in statuses ==> statuses[p.name] != Done))
              && (forall p :: p in command.value.procedures && p.name in statuses ==>
                    statuses[p.name] != Error && statuses[p.name] != Running)
    ensures result == None <==> command.None? || forall p :: p in command.value.procedures ==> p.name !in statuses
  {
    if command.None? || |command.value.procedures| == 0 {
      return None;
    }
    var procedures := command.value.procedures;
    var seen, allDone, hasRunning, hasWaiting := false, true, false, false;
    for i := 0 to |procedures|
      invariant forall j :: 0 <= j < i ==> procedures[j].name in statuses ==> statuses[procedures[j].name] != Error
      invariant seen <==> exists j :: 0 <= j < i && procedures[j].name in statuses
      invariant allDone <==> forall j :: 0 <= j < i ==>
                  procedures[j].name in statuses && statuses[procedures[j].name] == Done
      invariant hasRunning <==>
                  exists j :: 0 <= j < i && procedures[j].name in statuses && statuses[procedures[j].name] == Running
      invariant hasWaiting ==> seen && !allDone
      invariant i > 0 && allDone ==> seen
    {
      var name := procedures[i].name;
      if name !in statuses {
        allDone := false;
        continue;
      }
      seen := true;
      match statuses[name] {
        case Error => return Some(Error);
        case Running => hasRunning, allDone := true, false;
        case Waiting => hasWaiting, allDone := true, false;
        case Done =>
        case Unrecognised => allDone := false;
      }
    }
    if hasRunning {
      return Some(Running);
    }
    if hasWaiting || (seen && !allDone) {
      return Some(Waiting);
    }
    if seen && allDone {
      return Some(Done);
    }
    return None;
  }

  /** The status a command of the table derives to from the persisted statuses of the scroll. */
  function DerivedStatus(table: Table, statuses: map<string, ProcedureStatuses>, c: string): Option<Status> {
    if c !in table then None
    else Derive(table[c], StatusesOf(statuses, c))
  }

  function StatusesOf(statuses: map<string, ProcedureStatuses>, c: string): ProcedureStatuses {
    if c in statuses then statuses[c] else map[]
  }

  datatype ScrollStatus = ScrollCreated | ScrollRunning | ScrollStopped | ScrollError

  /** Some command of the table derives to `status`. */
  ghost predicate SomeCommand(table: Table, statuses: map<string, ProcedureStatuses>, status: Status) {
    exists c :: c in table && DerivedStatus(table, statuses, c) == Some(status)
  }

  /** The status of a whole scroll, stated without regard to the order of the commands: nothing
      persisted is `created`, an error wins, then anything running or waiting; otherwise every
      command with a status is done. */
  ghost function ScrollStatusOf(table: Table, statuses: map<string, ProcedureStatuses>): ScrollStatus {
    if statuses == map[] || (forall c :: c in table ==> DerivedStatus(table, statuses, c) == None) then ScrollCreated
    else if SomeCommand(table, statuses, Error) then ScrollError
    else if SomeCommand(table, statuses, Running) || SomeCommand(table, statuses, Waiting) then ScrollRunning
    else ScrollStopped
  }

  lemma {:induction false} NothingDerives(command: Command)
    ensures Derive(command, map[]) == None
  {
    if |command.procedures| > 0 {
      var nothing: ProcedureStatuses := map[];
      assert command.procedures[0].name !in nothing;
    }
  }

  /** Each scroll status exactly, from the derived statuses of the commands. */
  lemma {:induction false} ScrollStatusExactly(table: Table, statuses: map<string, ProcedureStatuses>,
                                               result: ScrollStatus)
    requires result == ScrollStatusOf(table, statuses)
    ensures result == ScrollCreated <==> forall c :: c in table ==> DerivedStatus(table, statuses, c) == None
    ensures result == ScrollError <==> exists c :: c in table && DerivedStatus(table, statuses, c) == Some(Error)
    ensures result == ScrollRunning <==>
              && (exists c :: && c in table
                              && (DerivedStatus(table, statuses, c) == Some(Running)
                                  || DerivedStatus(table, statuses, c) == Some(Waiting)))
              && forall c :: c in table ==> DerivedStatus(table, statuses, c) != Some(Error)
  {
    if statuses == map[] {
      forall c | c in table ensures DerivedStatus(table, statuses, c) == None {
        NothingDerives(table[c]);
      }
    }
  }

  /** `deriveCommandStatuses`: exactly the commands that derive to a status. */
  method DeriveCommandStatuses(statuses: map<string, ProcedureStatuses>, table: Table)
    returns (queue: map<string, Status>)
    ensures forall c :: c in queue <==> c in table && DerivedStatus(table, statuses, c).Some?
    ensures forall c :: c in queue ==> DerivedStatus(table, statuses, c) == Some(queue[c])
  {
    queue := map[];
    var rest := table.Keys;
    while rest != {}
      invariant rest <= table.Keys
      invariant forall c :: c in queue <==> c in table && c !in rest && DerivedStatus(table, statuses, c).Some?
      invariant forall c :: c in queue ==> DerivedStatus(table, statuses, c) == Some(queue[c])
      decreases |rest|
    {
      var c :| c in rest;
      var status := DeriveCommandStatus(StatusesOf(statuses, c), Some(table[c]));
      if status.Some? {
        queue := queue[c := status.value];
      }
      rest := rest - {c};
    }
  }

  /** `deriveRuntimeScrollStatus`; the commands are visited in any order. */
  method DeriveScrollStatus(statuses: map<string, ProcedureStatuses>, table: Table) returns (result: ScrollStatus)
    ensures result == ScrollStatusOf(table, statuses)
    ensures result == ScrollCreated <==> forall c :: c in table ==> DerivedStatus(table, statuses, c) == None
    ensures result == ScrollError <==> exists c :: c in table && DerivedStatus(table, statuses, c) == Some(Error)
    ensures result == ScrollRunning <==>
              && (exists c :: && c in table
                              && (DerivedStatus(table, statuses, c) == Some(Running)
                                  || DerivedStatus(table, statuses, c) == Some(Waiting)))
              && forall c :: c in table ==> DerivedStatus(table, statuses, c) != Some(Error)
  {
    ScrollStatusExactly(table, statuses, ScrollStatusOf(table, statuses));
    if |statuses| == 0 {
      return ScrollCreated;
    }
    var queue := DeriveCommandStatuses(statuses, table);
    if |queue| == 0 {
      assert forall c :: c in table ==> c !in queue;
      return ScrollCreated;
    }
    assert queue.Keys != {};
    var hasActive := false;
    var left := queue.Keys;
    while left != {}
      invariant left <= queue.Keys
      invariant forall c :: c in queue && c !in left ==> queue[c] != Error
      invariant hasActive <==> exists c :: c in queue && c !in left && (queue[c] == Running || queue[c] == Waiting)
      decreases |left|
    {
      var c :| c in left;
      match queue[c] {
        case Error =>
          assert DerivedStatus(table, statuses, c) == Some(Error);
          return ScrollError;
        case Running => hasActive := true;
        case Waiting => hasActive := true;
        case Done =>
        case Unrecognised =>
      }
      left := left - {c};
    }
    ActiveCommands(table, statuses, queue, hasActive);
    return if hasActive then ScrollRunning else ScrollStopped;
  }

  lemma ActiveCommands(table: Table, statuses: map<string, ProcedureStatuses>, queue: map<string, Status>,
                       hasActive: bool)
    requires forall c :: c in queue <==> c in table && DerivedStatus(table, statuses, c).Some?
    requires forall c :: c in queue ==> DerivedStatus(table, statuses, c) == Some(queue[c])
    requires queue.Keys != {} && forall c :: c in queue ==> queue[c] != Error
    requires hasActive <==> exists c :: c in queue && (queue[c] == Running || queue[c] == Waiting)
    ensures hasActive <==> SomeCommand(table, statuses, Running) || SomeCommand(table, statuses, Waiting)
    ensures !SomeCommand(table, statuses, Error)
    ensures exists c :: c in table && DerivedStatus(table, statuses, c) != None
  {
    var k :| k in queue;
    assert DerivedStatus(table, statuses, k) != None;
    if hasActive {
      var c :| c in queue && (queue[c] == Running || queue[c] == Waiting);
      assert DerivedStatus(table, statuses, c) == Some(queue[c]);
    }
  }

  // ---- the derivation ignores the order of procedures -----------------------------------------

  ghost predicate SameProcedures(p: seq<Procedure>, q: seq<Procedure>) {
    forall x :: x in p <==> x in q
  }

  lemma SameHas(p: Command, q: Command, statuses: ProcedureStatuses, status: Status)
    requires SameProcedures(p.procedures, q.procedures) && Has(p, statuses, status)
    ensures Has(q, statuses, status)
  {
    var i :| 0 <= i < |p.procedures| && p.procedures[i].name in statuses && statuses[p.procedures[i].name] == status;
    assert p.procedures[i] in q.procedures;
  }

  lemma SameAnySeen(p: Command, q: Command, statuses: ProcedureStatuses)
    requires SameProcedures(p.procedures, q.procedures) && AnySeen(p, statuses)
    ensures AnySeen(q, statuses)
  {
    var i :| 0 <= i < |p.procedures| && p.procedures[i].name in statuses;
    assert p.procedures[i] in q.procedures;
  }

  lemma SameAllDone(p: Command, q: Command, statuses: ProcedureStatuses)
    requires SameProcedures(p.procedures, q.procedures) && AllDone(p, statuses)
    ensures AllDone(q, statuses)
  {
    forall i | 0 <= i < |q.procedures|
      ensures q.procedures[i].name in statuses && statuses[q.procedures[i].name] == Done
    {
      assert q.procedures[i] in p.procedures;
    }
  }

  /** Reordering or repeating procedures never changes the derived status. */
  lemma DeriveIgnoresOrder(p: Command, q: Command, statuses: ProcedureStatuses)
    requires SameProcedures(p.procedures, q.procedures)
    ensures Derive(p, statuses) == Derive(q, statuses)
  {
    if |p.procedures| > 0 {
      assert p.procedures[0] in q.procedures;
    }
    if |q.procedures| > 0 {
      assert q.procedures[0] in p.procedures;
    }
    forall status ensures Has(p, statuses, status) <==> Has(q, statuses, status) {
      if Has(p, statuses, status) {
        SameHas(p, q, statuses, status);
      }
      if Has(q, statuses, status) {
        SameHas(q, p, statuses, status);
      }
    }
    if AnySeen(p, statuses) {
      SameAnySeen(p, q, statuses);
    }
    if AnySeen(q, statuses) {
      SameAnySeen(q, p, statuses);
    }
    if AllDone(p, statuses) {
      SameAllDone(p, q, statuses);
    }
    if AllDone(q, statuses) {
      SameAllDone(q, p, statuses);
    }
  }
}
