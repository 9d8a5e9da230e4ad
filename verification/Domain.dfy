/** Values shared by the scheduler and the two runtime backends: commands, procedures and
    the statuses that are persisted for each procedure. */
module Domain {

  datatype Option<+T> = None | Some(value: T)

  /** How often a command runs. The empty run mode of a scroll behaves like `Always`. */
  datatype RunMode = Always | Once | Restart | Persistent

  /** `Unrecognised` stands for any persisted status string that is none of the four known ones. */
  datatype Status = Running | Done | Error | Waiting | Unrecognised

  /** A procedure under its resolved name (its id, or "<command>.<index>"). */
  datatype Procedure = Procedure(name: string, signal: bool, hasImage: bool, ignoreFailure: bool)

  datatype Command = Command(procedures: seq<Procedure>, needs: seq<string>, run: RunMode)

  type Table = map<string, Command>

  /** Statuses of the procedures of one command, by procedure name. */
  type ProcedureStatuses = map<string, Status>

  ghost predicate DistinctNames(procedures: seq<Procedure>) {
    forall i, j :: 0 <= i < j < |procedures| ==> procedures[i].name != procedures[j].name
  }

  /** What scroll validation demands of a command table: no command without procedures. Names are
      distinct within a command. */
  ghost predicate ValidTable(table: Table) {
    forall c :: c in table ==> |table[c].procedures| > 0 && DistinctNames(table[c].procedures)
  }
}
