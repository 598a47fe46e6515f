/** The record types of the persistence layer (internal/db/models.go).
    Timestamps are whole seconds on an integer clock, the granularity of SQLite's
    CURRENT_TIMESTAMP; Go `int`/`int64` fields are unbounded integers here. */
module Models {
  import opened Wrappers

  /** A person known from the identity provider; `id` is the provider's subject. */
  datatype User = User(id: string, email: string, name: string, isAdmin: bool, createdAt: int)

  /** An enrolled machine; `enrollmentToken` is its only ingestion credential. */
  datatype Machine = Machine(id: string, userId: string, name: string, enrollmentToken: string, createdAt: int)

  /** One immutable compliance observation: identity (id, machine, collection time), the twelve
      reported fields, and the request body kept verbatim in `rawData`. */
  datatype InventorySnapshot = InventorySnapshot(
    id: int,
    machineId: string,
    collectedAt: int,
    hostname: string,
    os: string,
    osVersion: string,
    diskEncrypted: bool,
    diskEncryptionDetails: string,
    antivirusEnabled: bool,
    antivirusDetails: string,
    firewallEnabled: bool,
    firewallDetails: string,
    screenLockEnabled: bool,
    screenLockTimeout: int,
    screenLockDetails: string,
    rawData: string)

  /** A machine with its current state; `latest == None` means no snapshot yet. */
  datatype MachineWithLatest = MachineWithLatest(machine: Machine, latest: Option<InventorySnapshot>)

  /** A machine as the fleet views show it: owner details, current state and notes. */
  datatype MachineWithOwner = MachineWithOwner(
    machine: Machine,
    ownerEmail: string,
    ownerName: string,
    latest: Option<InventorySnapshot>,
    notes: seq<MachineNote>)

  /** An admin note as read back: the author's id and, joined from users, display name. */
  datatype MachineNote = MachineNote(
    id: int,
    machineId: string,
    authorId: string,
    author: string,
    content: string,
    createdAt: int,
    updatedAt: int)

  /** A time-limited capability granting read access to the whole fleet view. */
  datatype ShareLink = ShareLink(id: string, createdBy: string, expiresAt: int, createdAt: int)
}
