/** The admin fleet pages of internal/handlers/admin.go; the route admits admins only
    (cmd/server/main.go), so neither handler checks ownership. */
module Admin {
  import opened Wrappers
  import opened Models
  import opened Snapshots
  import opened Notes
  import opened Http
  import Store

  const AdminMachinesPath: string := "/admin/machines"

  /** AdminMachines: the fleet listing for the `owner` and `machine` query values exactly
      as given, which the page also shows back. */
  method AdminMachines(db: Store.DB, filterOwner: string, filterMachine: string) returns (resp: Response)
    requires db.Valid()
    ensures resp.Page? && resp.view.FleetView?
    ensures resp.view.filterOwner == filterOwner && resp.view.filterMachine == filterMachine
    ensures db.IsFleet(filterOwner, filterMachine, resp.view.machines)
  {
    var machines := db.GetAllMachinesWithOwners(filterOwner, filterMachine);
    resp := Page(FleetView(machines, filterOwner, filterMachine));
  }

  /** The checks of AdminDeleteMachine, in order: a non-empty id, then the machine (a store
      error reads as not found). */
  function AdminDeletion(id: string, machine: Lookup<Machine>): (g: Gate<Machine>)
    ensures id == "" ==> g == Deny(Error(StatusBadRequest, "Machine ID required"))
    ensures id != "" && !machine.Found? ==> g == Deny(Error(StatusNotFound, "Machine not found"))
    ensures g.Pass? <==> id != "" && machine.Found?
    ensures g.Pass? ==> g.value == machine.value
  {
    if id == "" then Deny(Error(StatusBadRequest, "Machine ID required"))
    else if !machine.Found? then Deny(Error(StatusNotFound, "Machine not found"))
    else Pass(machine.value)
  }

  /** AdminDeleteMachine: a refused request changes nothing; any existing machine, whoever
      owns it, is deleted with its snapshots and notes, and the admin is sent back to the
      fleet page. */
  method AdminDeleteMachine(db: Store.DB, id: string) returns (resp: Response)
    requires db.Valid()
    modifies db`machines, db`snapshots, db`notes
    ensures db.Valid()
    ensures var g := AdminDeletion(id, FromOption(old(db.GetMachine(id))));
      (g.Deny? ==> (
        resp == g.response &&
        db.machines == old(db.machines) && db.snapshots == old(db.snapshots) && db.notes == old(db.notes))) &&
      (g.Pass? ==> (
        resp == Redirect(AdminMachinesPath) && db.machines == old(db.machines) - {id} &&
        db.snapshots == SnapshotsNotOf(old(db.snapshots), id) && db.notes == NotesNotOf(old(db.notes), id)))
  {
    var g := AdminDeletion(id, FromOption(db.GetMachine(id)));
    if g.Deny? {
      return g.response;
    }
    db.DeleteMachine(id);
    resp := Redirect(AdminMachinesPath);
  }

  /** After an admin deletion the machine is gone: looking it up finds nothing, and none of
      its snapshots or notes is left. */
  lemma DeletedMachineGone(db: Store.DB, id: string)
    requires db.Valid() && id !in db.machines
    ensures db.GetMachine(id).None?
    ensures forall s :: s in db.snapshots ==> s.machineId != id
    ensures forall n :: n in db.notes ==> n.machineId != id
  {
  }
}
