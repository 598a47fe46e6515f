/** Snapshot ingestion, `POST /api/v1/inventory` (internal/handlers/api.go): the agent
    authenticates with its enrollment token as a bearer credential and posts its report as
    JSON, which becomes one snapshot row. JSON decoding itself is a parameter: `decode`
    gives the keys present in the body, or `None` for a body that is not valid JSON for
    the payload. */
module Api {
  import opened Wrappers
  import opened Models
  import opened Text
  import opened Http
  import Store

  /** The reported fields, each as decoded from the body: `None` for a key that is absent
      (or null), which leaves the Go field at its zero value. */
  datatype PayloadFields = PayloadFields(
    hostname: Option<string>,
    os: Option<string>,
    osVersion: Option<string>,
    diskEncrypted: Option<bool>,
    diskEncryptionDetails: Option<string>,
    antivirusEnabled: Option<bool>,
    antivirusDetails: Option<string>,
    firewallEnabled: Option<bool>,
    firewallDetails: Option<string>,
    screenLockEnabled: Option<bool>,
    screenLockTimeout: Option<int>,
    screenLockDetails: Option<string>)

  /** InventoryPayload, the report as the handler holds it after decoding. */
  datatype InventoryPayload = InventoryPayload(
    hostname: string,
    os: string,
    osVersion: string,
    diskEncrypted: bool,
    diskEncryptionDetails: string,
    antivirusEnabled: bool,
    antivirusDetails: string,
    firewallEnabled: bool,
    firewallDetails: string,
    screenLockEnabled: bool,
    screenLockTimeout: int,
    screenLockDetails: string)

  /** Decoding into a zero-valued payload: present keys set their field, absent ones leave
      "", false or 0. */
  function Unmarshal(f: PayloadFields): (p: InventoryPayload)
    ensures p.hostname == f.hostname.GetOr("") && p.os == f.os.GetOr("") && p.osVersion == f.osVersion.GetOr("")
    ensures p.diskEncrypted == f.diskEncrypted.GetOr(false) && p.diskEncryptionDetails == f.diskEncryptionDetails.GetOr("")
    ensures p.antivirusEnabled == f.antivirusEnabled.GetOr(false) && p.antivirusDetails == f.antivirusDetails.GetOr("")
    ensures p.firewallEnabled == f.firewallEnabled.GetOr(false) && p.firewallDetails == f.firewallDetails.GetOr("")
    ensures p.screenLockEnabled == f.screenLockEnabled.GetOr(false) && p.screenLockTimeout == f.screenLockTimeout.GetOr(0)
    ensures p.screenLockDetails == f.screenLockDetails.GetOr("")
  {
    InventoryPayload(
      f.hostname.GetOr(""), f.os.GetOr(""), f.osVersion.GetOr(""),
      f.diskEncrypted.GetOr(false), f.diskEncryptionDetails.GetOr(""),
      f.antivirusEnabled.GetOr(false), f.antivirusDetails.GetOr(""),
      f.firewallEnabled.GetOr(false), f.firewallDetails.GetOr(""),
      f.screenLockEnabled.GetOr(false), f.screenLockTimeout.GetOr(0), f.screenLockDetails.GetOr(""))
  }

  /** The keys of a body that states every field of `p`. */
  function FieldsOf(p: InventoryPayload): PayloadFields {
    PayloadFields(
      Some(p.hostname), Some(p.os), Some(p.osVersion),
      Some(p.diskEncrypted), Some(p.diskEncryptionDetails),
      Some(p.antivirusEnabled), Some(p.antivirusDetails),
      Some(p.firewallEnabled), Some(p.firewallDetails),
      Some(p.screenLockEnabled), Some(p.screenLockTimeout), Some(p.screenLockDetails))
  }

  /** A body with no recognised key gives the all-zero payload. */
  const NoFields := PayloadFields(None, None, None, None, None, None, None, None, None, None, None, None)

  /** The snapshot the handler builds: the twelve reported fields and the body verbatim as
      raw data. Id, machine and collection time are left zero for the store to fill. */
  function ToSnapshot(p: InventoryPayload, body: string): InventorySnapshot {
    InventorySnapshot(
      0, "", 0,
      p.hostname, p.os, p.osVersion,
      p.diskEncrypted, p.diskEncryptionDetails,
      p.antivirusEnabled, p.antivirusDetails,
      p.firewallEnabled, p.firewallDetails,
      p.screenLockEnabled, p.screenLockTimeout, p.screenLockDetails,
      body)
  }

  /** The reported fields read back from a snapshot. */
  function ReportedBy(s: InventorySnapshot): InventoryPayload {
    InventoryPayload(
      s.hostname, s.os, s.osVersion,
      s.diskEncrypted, s.diskEncryptionDetails,
      s.antivirusEnabled, s.antivirusDetails,
      s.firewallEnabled, s.firewallDetails,
      s.screenLockEnabled, s.screenLockTimeout, s.screenLockDetails)
  }

  /** Nothing is lost between the report and the stored row: a body stating all fields
      decodes to exactly them, the snapshot reports them back unchanged, and it keeps the
      body byte for byte, whatever id, machine and time the store then assigns. */
  lemma MappingRoundTrip(p: InventoryPayload, body: string, id: int, machineId: string, now: int)
    ensures Unmarshal(FieldsOf(p)) == p
    ensures ReportedBy(ToSnapshot(p, body).(id := id, machineId := machineId, collectedAt := now)) == p
    ensures ToSnapshot(p, body).(id := id, machineId := machineId, collectedAt := now).rawData == body
  {
  }

  /** Absent keys take zero values. */
  lemma AbsentFieldsAreZero(body: string)
    ensures var s := ToSnapshot(Unmarshal(NoFields), body);
      s.hostname == "" && s.os == "" && s.osVersion == "" && !s.diskEncrypted && !s.antivirusEnabled &&
      !s.firewallEnabled && !s.screenLockEnabled && s.screenLockTimeout == 0 && s.rawData == body
  {
  }

  const BearerPrefix: string := "Bearer "

  /** The Authorization header: absent, not a bearer credential, or the token it carries. */
  datatype Credential = NoHeader | BadFormat | Bearer(token: string)

  /** `TrimPrefix(header, "Bearer ")`, refused when that changes nothing. */
  function ParseAuthorization(header: string): (c: Credential)
    ensures c.NoHeader? <==> header == ""
    ensures c.Bearer? <==> header != "" && HasPrefix(header, BearerPrefix)
    ensures c.Bearer? ==> header == BearerPrefix + c.token
  {
    if header == "" then NoHeader
    else
      var token := TrimPrefix(header, BearerPrefix);
      TrimPrefixUnchangedIff(header, BearerPrefix);
      if token == header then BadFormat else Bearer(token)
  }

  /** The prefix is case-sensitive: "bearer " and "BEARER " are format errors. */
  lemma PrefixIsCaseSensitive(token: string)
    ensures ParseAuthorization("bearer " + token) == BadFormat
    ensures ParseAuthorization("BEARER " + token) == BadFormat
  {
    assert !HasPrefix("bearer " + token, BearerPrefix) by {
      assert ("bearer " + token)[0] == 'b';
    }
    assert !HasPrefix("BEARER " + token, BearerPrefix) by {
      assert ("BEARER " + token)[1] == 'E';
    }
  }

  /** Parsing gives back the token a well-formed header was built from. */
  lemma BearerRoundTrip(token: string)
    ensures ParseAuthorization(BearerPrefix + token) == Bearer(token)
  {
    assert (BearerPrefix + token)[..|BearerPrefix|] == BearerPrefix;
  }

  /** The checks before the insert, in the handler's order. `lookup` is the token lookup;
      `body` is `None` when reading the body failed. */
  datatype Admission = Refuse(response: Response) | Admit(machine: Machine, row: InventorySnapshot)

  function CheckRequest(header: string, lookup: string -> Lookup<Machine>, body: Option<string>,
                        decode: string -> Option<PayloadFields>): (a: Admission)
    ensures header == "" ==> a == Refuse(Error(StatusUnauthorized, "Missing Authorization header"))
    ensures ParseAuthorization(header).BadFormat? ==> a == Refuse(Error(StatusUnauthorized, "Invalid Authorization header format"))
    ensures a.Admit? <==> (
      ParseAuthorization(header).Bearer? && lookup(ParseAuthorization(header).token).Found? &&
      body.Some? && decode(body.value).Some?)
    ensures a.Admit? ==> (
      a.machine == lookup(ParseAuthorization(header).token).value &&
      a.row == ToSnapshot(Unmarshal(decode(body.value).value), body.value))
    ensures ParseAuthorization(header).Bearer? ==> (
      var l := lookup(ParseAuthorization(header).token);
      (l.Failed? ==> a == Refuse(Error(StatusInternalServerError, "Database error"))) &&
      (l.Missing? ==> a == Refuse(Error(StatusUnauthorized, "Invalid token"))) &&
      (l.Found? && body.None? ==> a == Refuse(Error(StatusBadRequest, "Failed to read body"))) &&
      (l.Found? && body.Some? && decode(body.value).None? ==> a == Refuse(Error(StatusBadRequest, "Invalid JSON"))))
  {
    match ParseAuthorization(header)
    case NoHeader => Refuse(Error(StatusUnauthorized, "Missing Authorization header"))
    case BadFormat => Refuse(Error(StatusUnauthorized, "Invalid Authorization header format"))
    case Bearer(token) =>
      match lookup(token)
      case Failed => Refuse(Error(StatusInternalServerError, "Database error"))
      case Missing => Refuse(Error(StatusUnauthorized, "Invalid token"))
      case Found(machine) =>
        if body.None? then Refuse(Error(StatusBadRequest, "Failed to read body"))
        else
          match decode(body.value)
          case None => Refuse(Error(StatusBadRequest, "Invalid JSON"))
          case Some(fields) => Admit(machine, ToSnapshot(Unmarshal(fields), body.value))
  }

  /** The token is checked before the body is read: an unknown token is refused with 401
      whatever the body is, even one that is not JSON or could not be read. */
  lemma UnknownTokenIgnoresBody(token: string, lookup: string -> Lookup<Machine>,
                                body1: Option<string>, decode1: string -> Option<PayloadFields>,
                                body2: Option<string>, decode2: string -> Option<PayloadFields>)
    requires lookup(token).Missing?
    ensures CheckRequest(BearerPrefix + token, lookup, body1, decode1) == CheckRequest(BearerPrefix + token, lookup, body2, decode2)
    ensures Status(CheckRequest(BearerPrefix + token, lookup, body1, decode1).response) == StatusUnauthorized
  {
    BearerRoundTrip(token);
  }

  /** The reply after the insert: 500 if it failed, otherwise 200 with status "ok" and the
      machine's name, and nothing else (the token is not echoed). */
  function Reply(machine: Machine, saved: Option<Store.DbError>): (r: Response)
    ensures saved.Some? <==> r == Error(StatusInternalServerError, "Failed to save snapshot")
    ensures saved.None? ==> r.Json? && r.fields.Keys == {"status", "machine"}
    ensures saved.None? ==> r.fields["status"] == "ok" && r.fields["machine"] == machine.name
  {
    if saved.Some? then Error(StatusInternalServerError, "Failed to save snapshot")
    else Json(map["status" := "ok", "machine" := machine.name])
  }

  /** The machine holding `token` in `machines`, as GetMachineByToken finds it. */
  ghost function TokenLookup(machines: map<string, Machine>, token: string): Lookup<Machine> {
    if Store.TokenTaken(machines, token) then
      var k :| k in machines && machines[k].enrollmentToken == token;
      Found(machines[k])
    else Missing
  }

  /** With tokens unique, the machine found is the one holding the token. */
  lemma TokenLookupFinds(machines: map<string, Machine>, users: map<string, User>, m: Machine)
    requires Store.MachinesOk(machines, users)
    requires m.id in machines && machines[m.id] == m
    ensures TokenLookup(machines, m.enrollmentToken) == Found(m)
  {
  }

  /** The handler over the store. Every refusal leaves the snapshot table as it was; an
      admitted report appends exactly one row for the token's machine, stamped by the
      clock, and nothing else changes. */
  method SubmitInventory(db: Store.DB, header: string, body: Option<string>,
                         decode: string -> Option<PayloadFields>, now: int) returns (resp: Response)
    requires db.Valid()
    modifies db`snapshots, db`nextSnapshotId
    ensures db.Valid()
    ensures var ms := old(db.machines);
      var a := CheckRequest(header, (t: string) => TokenLookup(ms, t), body, decode);
      (a.Refuse? ==> resp == a.response && db.snapshots == old(db.snapshots) && db.nextSnapshotId == old(db.nextSnapshotId)) &&
      (a.Admit? ==> (
        resp == Reply(a.machine, None) && db.nextSnapshotId == old(db.nextSnapshotId) + 1 &&
        db.snapshots == old(db.snapshots) + [a.row.(id := old(db.nextSnapshotId), machineId := a.machine.id, collectedAt := now)]))
  {
    var credential := ParseAuthorization(header);
    if credential.NoHeader? {
      return Error(StatusUnauthorized, "Missing Authorization header");
    }
    if credential.BadFormat? {
      return Error(StatusUnauthorized, "Invalid Authorization header format");
    }
    var machine := db.GetMachineByToken(credential.token);
    if machine.None? {
      return Error(StatusUnauthorized, "Invalid token");
    }
    TokenLookupFinds(db.machines, db.users, machine.value);
    if body.None? {
      return Error(StatusBadRequest, "Failed to read body");
    }
    var fields := decode(body.value);
    if fields.None? {
      return Error(StatusBadRequest, "Invalid JSON");
    }
    var row := ToSnapshot(Unmarshal(fields.value), body.value);
    var err := db.CreateSnapshot(machine.value.id, row, now);
    resp := Reply(machine.value, err);
  }
}
