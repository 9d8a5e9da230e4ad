/** The second copy of the status derivation, the one the queue uses. */
module QueueManager {
  import opened Domain
  import opened CommandStatus

  /** `DeriveCommandStatusFromProcedures`: it agrees with the daemon's own copy on every input. */
  method DeriveCommandStatusFromProcedures(command: Option<Command>, statuses: ProcedureStatuses)
    returns (status: Status, ok: bool)
    ensures ok <==> command.Some? && Derive(command.value, statuses).Some?
    ensures ok ==> Derive(command.value, statuses) == Some(status)
    ensures ok && status == Error <==>
              command.Some? && exists p ::
                p in command.value.procedures && p.name in statuses && statuses[p.name] == Error
    ensures ok && status == Running <==>
              && command.Some?
              && (exists p :: p in command.value.procedures && p.name in statuses && statuses[p.name] == Running)
              && (forall p :: p in command.value.procedures && p.name in statuses ==> statuses[p.name] != Error)
    ensures ok && status == Done <==>
              && command.Some? && |command.value.procedures| > 0
              && forall p :: p in command.value.procedures ==> p.name in statuses && statuses[p.name] == Done
    ensures ok && status == Waiting <==>
              && command.Some? && (exists p :: p in command.value.procedures && p.name in statuses)
              && (exists p :: p in command.value.procedures && (p.name in statuses ==> statuses[p.name] != Done))
              && (forall p :: p in command.value.procedures && p.name in statuses ==>
                    statuses[p.name] != Error && statuses[p.name] != Running)
    ensures !ok <==> command.None? || forall p :: p in command.value.procedures ==> p.name !in statuses
  {
    status := Waiting;
    if command.None? || |command.value.procedures| == 0 {
      return status, false;
    }
    var procedures := command.value.procedures;
    var seen, allDone, hasRunning, hasWaiting := false, true, false, false;
    for i := 0 to |procedures|
      invariant forall j :: 0 <= j < i && procedures[j].name in statuses ==> statuses[procedures[j].name] != Error
      invariant seen <==> exists j :: 0 <= j < i && procedures[j].name in statuses
      invariant allDone <==> forall j :: 0 <= j < i ==>
                  procedures[j].name in statuses && statuses[procedures[j].name] == Done
      invariant hasRunning <==>
                  exists j :: 0 <= j < i && procedures[j].name in statuses && statuses[procedures[j].name] == Running
      invariant hasWaiting ==> seen && !allDone
      invariant i > 0 && allDone ==> seen
    {
      var name := procedures[i].name;
      if name !in statuses {
        allDone := false;
        continue;
      }
      seen := true;
      match statuses[name] {
        case Error => return Error, true;
        case Running => hasRunning, allDone := true, false;
        case Waiting => hasWaiting, allDone := true, false;
        case Done =>
        case Unrecognised => allDone := false;
      }
    }
    if hasRunning {
      return Running, true;
    }
    if hasWaiting || (seen && !allDone) {
      return Waiting, true;
    }
    if seen && allDone {
      return Done, true;
    }
    return Waiting, false;
  }
}
