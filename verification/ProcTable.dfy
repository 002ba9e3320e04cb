/** The table of cleaning processes, keyed by PV name, and its counters.

    `Table` is the value of the table; `ProcTableImpl` is the mutex-protected object that
    the deleter, the discoverer and the cleaner goroutines share. Every method body is one
    critical section, so each method is specified by one function on `Table`.
 */
module ProcTables {
  import opened Common

  datatype CleanupState = CSUnknown | CSNotFound | CSRunning | CSFailed | CSSucceeded

  /** `startTime` is a reading of a clock that only moves forward. */
  datatype ProcEntry = ProcEntry(startTime: nat, status: CleanupState)

  datatype Removal = Removal(table: Table, state: CleanupState, startTime: Option<nat>, failed: bool)

  datatype Table = Table(entries: map<string, ProcEntry>, succeeded: nat, failed: nat) {

    predicate IsRunning(name: string) {
      name in entries && entries[name].status == CSRunning
    }

    /** The names whose cleaning is in progress. */
    ghost function Running(): set<string> {
      set name | name in entries && entries[name].status == CSRunning
    }

    predicate CanMarkRunning(name: string) {
      name !in entries
    }

    function MarkRunning(name: string, now: nat): Table {
      if name in entries then this
      else this.(entries := entries[name := ProcEntry(now, CSRunning)])
    }

    /** The counters move even when the entry is missing. */
    function MarkStatus(name: string, status: CleanupState): Table {
      Table(if name in entries then entries[name := entries[name].(status := status)] else entries,
            if status == CSSucceeded then succeeded + 1 else succeeded,
            if status == CSFailed then failed + 1 else failed)
    }

    function RemoveEntry(name: string): Removal {
      if name !in entries then Removal(this, CSNotFound, None, false)
      else if entries[name].status == CSRunning || entries[name].status == CSUnknown then
        Removal(this, CSUnknown, None, true)
      else
        Removal(this.(entries := entries - {name}), entries[name].status, Some(entries[name].startTime), false)
    }
  }

  class ProcTableImpl {
    var procTable: map<string, ProcEntry>
    var succeeded: nat
    var failed: nat

    ghost function Model(): Table
      reads this
    {
      Table(procTable, succeeded, failed)
    }

    constructor ()
      ensures Model() == Table(map[], 0, 0)
    {
      procTable, succeeded, failed := map[], 0, 0;
    }

    method IsRunning(name: string) returns (running: bool)
      ensures running <==> name in Model().Running()
    {
      running := name in procTable && procTable[name].status == CSRunning;
    }

    method IsEmpty() returns (empty: bool)
      ensures empty <==> Model().entries == map[]
    {
      empty := |procTable| == 0;
    }

    method MarkRunning(name: string, now: nat) returns (ok: bool)
      modifies this
      ensures ok <==> old(Model()).CanMarkRunning(name)
      ensures Model() == old(Model()).MarkRunning(name, now)
      ensures ok <==> name !in old(procTable)
      ensures procTable == if ok then old(procTable)[name := ProcEntry(now, CSRunning)] else old(procTable)
      ensures succeeded == old(succeeded) && failed == old(failed)
    {
      if name in procTable {
        return false;
      }
      procTable := procTable[name := ProcEntry(now, CSRunning)];
      return true;
    }

    method MarkStatus(name: string, status: CleanupState) returns (ok: bool)
      modifies this
      ensures ok <==> name in old(procTable)
      ensures Model() == old(Model()).MarkStatus(name, status)
      ensures procTable == if ok then old(procTable)[name := ProcEntry(old(procTable)[name].startTime, status)]
                           else old(procTable)
      ensures succeeded == old(succeeded) + if status == CSSucceeded then 1 else 0
      ensures failed == old(failed) + if status == CSFailed then 1 else 0
    {
      ok := name in procTable;
      if ok {
        procTable := procTable[name := procTable[name].(status := status)];
      }
      if status == CSSucceeded {
        succeeded := succeeded + 1;
      } else if status == CSFailed {
        failed := failed + 1;
      }
    }

    method RemoveEntry(name: string) returns (state: CleanupState, startTime: Option<nat>, err: bool)
      modifies this
      ensures Removal(Model(), state, startTime, err) == old(Model()).RemoveEntry(name)
      ensures err <==> name in old(procTable) && old(procTable)[name].status in {CSRunning, CSUnknown}
      ensures err ==> state == CSUnknown && startTime == None && procTable == old(procTable)
      ensures !err ==> procTable == old(procTable) - {name}
      ensures !err && name in old(procTable) ==>
                state == old(procTable)[name].status && startTime == Some(old(procTable)[name].startTime)
      ensures name !in old(procTable) ==> state == CSNotFound && startTime == None
      ensures succeeded == old(succeeded) && failed == old(failed)
    {
      if name !in procTable {
        return CSNotFound, None, false;
      }
      var entry := procTable[name];
      if entry.status == CSRunning {
        return CSUnknown, None, true;
      }
      if entry.status == CSUnknown {
        return CSUnknown, None, true;
      }
      procTable := procTable - {name};
      return entry.status, Some(entry.startTime), false;
    }

    method Stats() returns (running: nat, ok: nat, bad: nat)
      ensures running == |Model().Running()|
      ensures ok == succeeded && bad == failed
    {
      running := 0;
      var todo := procTable.Keys;
      ghost var seen: set<string> := {};
      while todo != {}
        invariant todo <= procTable.Keys
        invariant seen == set n | n in Model().Running() && n !in todo
        invariant running == |seen|
        decreases |todo|
      {
        var name :| name in todo;
        todo := todo - {name};
        if procTable[name].status == CSRunning {
          seen := seen + {name};
          running := running + 1;
        }
      }
      assert seen == Model().Running();
      ok, bad := succeeded, failed;
    }
  }
}
