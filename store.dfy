/** The persistence layer of internal/db/sqlite.go as an object whose fields are its tables.
    Each operation is one atomic step; the schema's keys, UNIQUE columns and foreign keys
    (internal/db/sqlite.go:38-89) are the invariant `Valid`, and a write that would break
    one of them fails with the constraint error instead. Random ids and tokens and the
    clock are parameters. */
module Store {
  import opened Wrappers
  import opened Models
  import opened Ordering
  import opened Text
  import opened Snapshots
  import opened Dashboard
  import opened Notes

  /** The constraint a refused write would have broken. */
  datatype DbError =
    | PrimaryKeyViolation(table: string)
    | UniqueViolation(column: string)
    | ForeignKeyViolation(table: string)

  function MachineIdOf(m: Machine): string { m.id }
  function ListedIdOf(r: MachineWithLatest): string { r.machine.id }
  function OwnedRowIdOf(r: MachineWithOwner): string { r.machine.id }

  /** users: keyed by subject id, `email` UNIQUE. */
  predicate UsersOk(users: map<string, User>) {
    (forall k :: k in users ==> users[k].id == k) &&
    (forall a, b :: a in users && b in users && users[a].email == users[b].email ==> a == b)
  }

  /** machines: keyed by id, `enrollment_token` UNIQUE, `user_id` REFERENCES users. */
  predicate MachinesOk(machines: map<string, Machine>, users: map<string, User>) {
    (forall k :: k in machines ==> machines[k].id == k && machines[k].userId in users) &&
    (forall a, b :: a in machines && b in machines && machines[a].enrollmentToken == machines[b].enrollmentToken ==> a == b)
  }

  /** inventory_snapshots: AUTOINCREMENT ids below the next one, `machine_id` REFERENCES machines. */
  predicate SnapshotsOk(snaps: seq<InventorySnapshot>, next: int, machines: map<string, Machine>) {
    0 < next && Snapshots.IdsIncreasing(snaps) &&
    forall s :: s in snaps ==> 0 < s.id < next && s.machineId in machines
  }

  /** machine_notes: AUTOINCREMENT ids below the next one, `machine_id` and `author_id` REFERENCE
      machines and users. */
  predicate NotesOk(notes: seq<NoteRow>, next: int, machines: map<string, Machine>, users: map<string, User>) {
    0 < next && Notes.IdsIncreasing(notes) &&
    forall n :: n in notes ==> 0 < n.id < next && n.machineId in machines && n.authorId in users
  }

  /** A machine already uses `token`. */
  predicate TokenTaken(machines: map<string, Machine>, token: string) {
    exists k :: k in machines && machines[k].enrollmentToken == token
  }

  /** Another user than `id` already has `email`. */
  predicate EmailTakenByOther(users: map<string, User>, id: string, email: string) {
    exists k :: k in users && k != id && users[k].email == email
  }

  /** The ids of the machines of `userId` (`WHERE user_id = ?`). */
  function OwnedBy(machines: map<string, Machine>, userId: string): set<string> {
    set k | k in machines && machines[k].userId == userId
  }

  /** The owner filter: `u.email LIKE %f% OR u.name LIKE %f%`, no constraint when empty. */
  predicate OwnerMatches(owner: User, filter: string) {
    filter == "" || ContainsFold(owner.email, filter) || ContainsFold(owner.name, filter)
  }

  /** The machine filter: `m.name LIKE %f%`, no constraint when empty. */
  predicate MachineMatches(m: Machine, filter: string) {
    filter == "" || ContainsFold(m.name, filter)
  }

  /** The fleet query's row condition: the owner row exists (inner join) and both filters pass. */
  predicate InFleet(users: map<string, User>, m: Machine, filterOwner: string, filterMachine: string) {
    m.userId in users && OwnerMatches(users[m.userId], filterOwner) && MachineMatches(m, filterMachine)
  }

  /** `SELECT … FROM machine_notes n JOIN users u ON n.author_id = u.id WHERE n.id = ?`. */
  function NoteById(notes: seq<NoteRow>, users: map<string, User>, id: int): Option<MachineNote> {
    var row := FindNote(notes, id);
    if row.Some? && row.value.authorId in users then Some(Joined(row.value, users[row.value.authorId])) else None
  }

  /** The two filters combine with AND, and an empty filter constrains nothing. */
  lemma FiltersCombine(users: map<string, User>, m: Machine, filterOwner: string, filterMachine: string)
    ensures InFleet(users, m, filterOwner, filterMachine) <==>
      InFleet(users, m, filterOwner, "") && InFleet(users, m, "", filterMachine)
    ensures InFleet(users, m, "", "") <==> m.userId in users
  {
  }

  /** Both filters ignore letter case: lower-casing them selects the same machines. */
  lemma FiltersIgnoreCase(users: map<string, User>, m: Machine, filterOwner: string, filterMachine: string)
    ensures InFleet(users, m, filterOwner, filterMachine) <==> InFleet(users, m, Lower(filterOwner), Lower(filterMachine))
  {
    LowerIdempotent(filterOwner);
    LowerIdempotent(filterMachine);
  }

  class DB {
    var users: map<string, User>
    var machines: map<string, Machine>
    var snapshots: seq<InventorySnapshot>
    var nextSnapshotId: int
    var notes: seq<NoteRow>
    var nextNoteId: int
    var shareLinks: map<string, ShareLink>

    ghost predicate Valid()
      reads this
    {
      UsersOk(users) &&
      MachinesOk(machines, users) &&
      SnapshotsOk(snapshots, nextSnapshotId, machines) &&
      NotesOk(notes, nextNoteId, machines, users) &&
      (forall k :: k in shareLinks ==> shareLinks[k].id == k)
    }

    /** A freshly migrated, empty database. */
    constructor ()
      ensures Valid()
      ensures users == map[] && machines == map[] && snapshots == [] && notes == [] && shareLinks == map[]
    {
      users := map[];
      machines := map[];
      snapshots := [];
      nextSnapshotId := 1;
      notes := [];
      nextNoteId := 1;
      shareLinks := map[];
    }

    // ---- users ----

    /** `INSERT … ON CONFLICT(id) DO UPDATE SET email, name, is_admin`, then read back. */
    method UpsertUser(id: string, email: string, name: string, isAdmin: bool, now: int) returns (r: Result<User, DbError>)
      requires Valid()
      modifies this`users
      ensures Valid()
      ensures r.Err? <==> EmailTakenByOther(old(users), id, email)
      ensures r.Err? ==> r.error == UniqueViolation("users.email") && users == old(users)
      ensures r.Ok? ==> users == old(users)[id := r.value]
      ensures r.Ok? ==> r.value.id == id && r.value.email == email && r.value.name == name && r.value.isAdmin == isAdmin
      ensures r.Ok? && id in old(users) ==> r.value.createdAt == old(users)[id].createdAt
      ensures r.Ok? && id !in old(users) ==> r.value.createdAt == now
    {
      if exists k :: k in users && k != id && users[k].email == email {
        return Err(UniqueViolation("users.email"));
      }
      var createdAt := if id in users then users[id].createdAt else now;
      var u := User(id, email, name, isAdmin, createdAt);
      users := users[id := u];
      r := Ok(u);
    }

    /** `SELECT … FROM users WHERE id = ?`: absent, not an error, for an unknown id. */
    function GetUser(id: string): (r: Option<User>)
      reads this
      requires Valid()
      ensures r.None? <==> id !in users
      ensures r.Some? ==> r.value.id == id && r.value in users.Values
    {
      if id in users then Some(users[id]) else None
    }

    // ---- machines ----

    /** Inserts a machine with id `freshId` and token `freshToken` for `userId`, then reads
        it back. A reused id or token, or an unknown owner, is refused. */
    method CreateMachine(userId: string, name: string, now: int, freshId: string, freshToken: string)
      returns (r: Result<Machine, DbError>)
      requires Valid()
      modifies this`machines
      ensures Valid()
      ensures r.Err? <==> freshId in old(machines) || TokenTaken(old(machines), freshToken) || userId !in users
      ensures r.Err? ==> machines == old(machines)
      ensures r.Ok? ==> r.value == Machine(freshId, userId, name, freshToken, now)
      ensures r.Ok? ==> machines == old(machines)[freshId := r.value]
    {
      if freshId in machines {
        return Err(PrimaryKeyViolation("machines"));
      }
      if exists k :: k in machines && machines[k].enrollmentToken == freshToken {
        return Err(UniqueViolation("machines.enrollment_token"));
      }
      if userId !in users {
        return Err(ForeignKeyViolation("users"));
      }
      var m := Machine(freshId, userId, name, freshToken, now);
      machines := machines[freshId := m];
      r := Ok(m);
    }

    /** `SELECT … FROM machines WHERE id = ?`. */
    function GetMachine(id: string): (r: Option<Machine>)
      reads this
      requires Valid()
      ensures r.None? <==> id !in machines
      ensures r.Some? ==> r.value.id == id && r.value in machines.Values
    {
      if id in machines then Some(machines[id]) else None
    }

    /** The machines `keep` selects, each exactly once, in no particular order. */
    method SelectMachines(keep: Machine -> bool) returns (rows: seq<Machine>)
      requires Valid()
      ensures forall m :: m in rows <==> m.id in machines && machines[m.id] == m && keep(m)
      ensures DistinctBy(rows, MachineIdOf)
    {
      rows := [];
      var todo := machines.Keys;
      while todo != {}
        invariant todo <= machines.Keys
        invariant forall m :: m in rows <==> m.id in machines && m.id !in todo && machines[m.id] == m && keep(m)
        invariant forall i :: 0 <= i < |rows| ==> rows[i].id !in todo
        invariant DistinctBy(rows, MachineIdOf)
        decreases todo
      {
        var k :| k in todo;
        var m := machines[k];
        if keep(m) {
          rows := rows + [m];
        }
        todo := todo - {k};
      }
    }

    /** `SELECT … FROM machines WHERE enrollment_token = ?`: the one machine holding the token. */
    method GetMachineByToken(token: string) returns (r: Option<Machine>)
      requires Valid()
      ensures r.None? <==> !TokenTaken(machines, token)
      ensures r.Some? ==> r.value.id in machines && machines[r.value.id] == r.value && r.value.enrollmentToken == token
    {
      var rows := SelectMachines((m: Machine) => m.enrollmentToken == token);
      assert TokenTaken(machines, token) ==> rows != [] by {
        if TokenTaken(machines, token) {
          var k :| k in machines && machines[k].enrollmentToken == token;
          assert machines[k] in rows;
        }
      }
      if rows == [] {
        r := None;
      } else {
        r := Some(rows[0]);
      }
    }

    /** A user's machines, each once, most recently active first
        (`ORDER BY COALESCE(MAX(collected_at), created_at) DESC`). */
    method GetMachinesByUser(userId: string) returns (rows: seq<Machine>)
      requires Valid()
      ensures forall m :: m in rows <==> m.id in machines && machines[m.id] == m && m.userId == userId
      ensures DistinctBy(rows, MachineIdOf)
      ensures forall i, j :: 0 <= i < j < |rows| ==> LastActivity(snapshots, rows[i]) >= LastActivity(snapshots, rows[j])
    {
      var pool := SelectMachines((m: Machine) => m.userId == userId);
      var snaps := snapshots;
      var key := (m: Machine) => LastActivity(snaps, m);
      rows := TopByKey(pool, key, |pool|);
      PermutationKeepsDistinct(pool, rows, MachineIdOf);
      assert forall m :: m in rows <==> m in multiset(pool);
      forall i, j | 0 <= i < j < |rows|
        ensures LastActivity(snapshots, rows[i]) >= LastActivity(snapshots, rows[j])
      {
        assert key(rows[i]) >= key(rows[j]);
      }
    }

    /** A user's machines, each once with its latest row, ordered by
        `COALESCE(s.collected_at, m.created_at) DESC`. */
    method GetMachinesWithLatestByUser(userId: string) returns (rows: seq<MachineWithLatest>)
      requires Valid()
      ensures forall r :: r in rows ==>
        r.machine.id in machines && machines[r.machine.id] == r.machine && r.machine.userId == userId &&
        IsBulkLatest(snapshots, r.machine.id, r.latest)
      ensures forall k :: k in OwnedBy(machines, userId) ==> exists i :: 0 <= i < |rows| && rows[i].machine == machines[k]
      ensures DistinctBy(rows, ListedIdOf)
      ensures NonIncreasingBy(rows, RowActivity)
    {
      var pool := SelectMachines((m: Machine) => m.userId == userId);
      var listed: seq<MachineWithLatest> := [];
      for i := 0 to |pool|
        invariant |listed| == i
        invariant forall j :: 0 <= j < i ==> listed[j].machine == pool[j] && IsBulkLatest(snapshots, pool[j].id, listed[j].latest)
      {
        var latest := ResolveBulkLatest(snapshots, pool[i].id);
        listed := listed + [MachineWithLatest(pool[i], latest)];
      }
      assert DistinctBy(listed, ListedIdOf) by {
        forall i, j | 0 <= i < j < |listed|
          ensures ListedIdOf(listed[i]) != ListedIdOf(listed[j])
        {
          assert MachineIdOf(pool[i]) != MachineIdOf(pool[j]);
        }
      }
      rows := TopByKey(listed, RowActivity, |listed|);
      PermutationKeepsDistinct(listed, rows, ListedIdOf);
      forall r | r in rows
        ensures r in listed
      {
        assert r in multiset(rows);
      }
      forall k | k in OwnedBy(machines, userId)
        ensures exists i :: 0 <= i < |rows| && rows[i].machine == machines[k]
      {
        assert machines[k] in pool;
        var j :| 0 <= j < |pool| && pool[j] == machines[k];
        assert listed[j] in multiset(rows);
        var i :| 0 <= i < |rows| && rows[i] == listed[j];
      }
    }

    /** Deletes the machine's snapshots, then the machine, in one transaction; its notes go
        with it through `ON DELETE CASCADE`. A missing id deletes nothing and is no error. */
    method DeleteMachine(id: string)
      requires Valid()
      modifies this`machines, this`snapshots, this`notes
      ensures Valid()
      ensures machines == old(machines) - {id}
      ensures snapshots == SnapshotsNotOf(old(snapshots), id)
      ensures notes == NotesNotOf(old(notes), id)
    {
      snapshots := SnapshotsNotOf(snapshots, id);
      machines := machines - {id};
      notes := NotesNotOf(notes, id);
    }

    /** `r` is the fleet row of machine `m`: its owner's email and name, some latest row
        without the raw payload, and its notes newest first. */
    ghost predicate DescribesMachine(r: MachineWithOwner, m: Machine)
      reads this
    {
      r.machine == m && m.userId in users &&
      r.ownerEmail == users[m.userId].email && r.ownerName == users[m.userId].name &&
      IsBulkLatest(snapshots, m.id, r.latest) &&
      IsNoteListing(notes, users, m.id, r.notes)
    }

    /** The fleet row of one machine. */
    method DescribeMachine(m: Machine) returns (r: MachineWithOwner)
      requires Valid() && m.userId in users
      ensures DescribesMachine(r, m)
    {
      var owner := users[m.userId];
      var latest := ResolveBulkLatest(snapshots, m.id);
      var ns := GetMachineNotes(m.id);
      r := MachineWithOwner(m, owner.email, owner.name, latest, ns);
    }

    /** `rows` is an admissible fleet listing: every machine whose owner row exists (inner
        join) and that passes both filters, each once, described with its owner, latest row
        and notes. */
    ghost predicate IsFleet(filterOwner: string, filterMachine: string, rows: seq<MachineWithOwner>)
      reads this
    {
      (forall r :: r in rows ==>
        r.machine.id in machines && machines[r.machine.id] == r.machine &&
        InFleet(users, r.machine, filterOwner, filterMachine) && DescribesMachine(r, r.machine)) &&
      (forall k :: k in machines && InFleet(users, machines[k], filterOwner, filterMachine) ==>
        exists i :: 0 <= i < |rows| && rows[i].machine == machines[k]) &&
      DistinctBy(rows, OwnedRowIdOf)
    }

    /** Unfiltered, the fleet listing shows every machine: the foreign key gives each one
        its owner row, so the inner join drops none. */
    lemma UnfilteredFleetIsComplete(rows: seq<MachineWithOwner>)
      requires Valid() && IsFleet("", "", rows)
      ensures forall k :: k in machines ==> exists i :: 0 <= i < |rows| && rows[i].machine == machines[k]
      ensures |rows| == |machines|
    {
      assert forall k :: k in machines ==> InFleet(users, machines[k], "", "");
      assert IdsOf(rows, OwnedRowIdOf) == machines.Keys by {
        forall k | k in machines
          ensures k in IdsOf(rows, OwnedRowIdOf)
        {
          var i :| 0 <= i < |rows| && rows[i].machine == machines[k];
          assert OwnedRowIdOf(rows[i]) == k;
        }
        forall k | k in IdsOf(rows, OwnedRowIdOf)
          ensures k in machines
        {
          var i :| 0 <= i < |rows| && OwnedRowIdOf(rows[i]) == k;
          assert rows[i] in rows;
        }
      }
      DistinctCount(rows, OwnedRowIdOf);
    }

    /** The fleet listing; its order (`ORDER BY LOWER(name), LOWER(email)`) is not modelled. */
    method GetAllMachinesWithOwners(filterOwner: string, filterMachine: string) returns (rows: seq<MachineWithOwner>)
      requires Valid()
      ensures IsFleet(filterOwner, filterMachine, rows)
    {
      var us := users;
      var pool := SelectMachines((m: Machine) => InFleet(us, m, filterOwner, filterMachine));
      rows := [];
      for i := 0 to |pool|
        invariant |rows| == i
        invariant forall j :: 0 <= j < i ==> DescribesMachine(rows[j], pool[j])
      {
        var r := DescribeMachine(pool[i]);
        rows := rows + [r];
      }
      forall i, j | 0 <= i < j < |rows|
        ensures OwnedRowIdOf(rows[i]) != OwnedRowIdOf(rows[j])
      {
        assert MachineIdOf(pool[i]) != MachineIdOf(pool[j]);
      }
      forall r | r in rows
        ensures r.machine in pool && DescribesMachine(r, r.machine)
      {
        var j :| 0 <= j < |rows| && rows[j] == r;
      }
      forall k | k in machines && InFleet(users, machines[k], filterOwner, filterMachine)
        ensures exists i :: 0 <= i < |rows| && rows[i].machine == machines[k]
      {
        assert machines[k] in pool;
        var j :| 0 <= j < |pool| && pool[j] == machines[k];
        assert rows[j].machine == machines[k];
      }
    }

    // ---- snapshots ----

    /** Appends one row for `machineId`: the next AUTOINCREMENT id, `collected_at` from the
        clock, the thirteen reported columns and the raw payload from `fields`. An unknown
        machine is refused by the foreign key. */
    method CreateSnapshot(machineId: string, fields: InventorySnapshot, now: int) returns (err: Option<DbError>)
      requires Valid()
      modifies this`snapshots, this`nextSnapshotId
      ensures Valid()
      ensures err.Some? <==> machineId !in machines
      ensures err.Some? ==> snapshots == old(snapshots) && nextSnapshotId == old(nextSnapshotId)
      ensures err.None? ==> nextSnapshotId == old(nextSnapshotId) + 1
      ensures err.None? ==> snapshots == old(snapshots) + [fields.(id := old(nextSnapshotId), machineId := machineId, collectedAt := now)]
    {
      if machineId !in machines {
        return Some(ForeignKeyViolation("machines"));
      }
      var row := fields.(id := nextSnapshotId, machineId := machineId, collectedAt := now);
      assert forall s :: s in snapshots + [row] ==> s in snapshots || s == row;
      assert Snapshots.IdsIncreasing(snapshots + [row]) by {
        var t := snapshots + [row];
        forall i, j | 0 <= i < j < |t|
          ensures t[i].id < t[j].id
        {
          assert t[i] == snapshots[i] && snapshots[i] in snapshots;
        }
      }
      snapshots := snapshots + [row];
      nextSnapshotId := nextSnapshotId + 1;
      err := None;
    }

    /** `WHERE machine_id = ? ORDER BY collected_at DESC LIMIT 1`, raw payload included. */
    method GetLatestSnapshot(machineId: string) returns (r: Option<InventorySnapshot>)
      requires Valid()
      ensures IsLatestResult(snapshots, machineId, r)
    {
      r := ResolveLatest(snapshots, machineId);
    }

    /** `WHERE machine_id = ? ORDER BY collected_at DESC LIMIT ?` with a limit of at most
        zero replaced by the default. */
    method GetSnapshotHistory(machineId: string, limit: int) returns (rows: seq<InventorySnapshot>)
      requires Valid()
      ensures IsHistory(snapshots, machineId, EffectiveLimit(limit), rows)
    {
      var cap := if limit <= 0 then DefaultHistoryLimit else limit;
      var pool := SnapshotsOf(snapshots, machineId);
      rows := TopByKey(pool, CollectedAt, cap);
      assert cap == EffectiveLimit(limit);
    }

    /** The counters of the user's dashboard. */
    method GetUserDashboardStats(userId: string) returns (st: DashboardStats)
      requires Valid()
      ensures StatsFor(snapshots, OwnedBy(machines, userId), st)
    {
      st := Tally(snapshots, OwnedBy(machines, userId));
    }

    // ---- notes ----

    /** Inserts a note with the next AUTOINCREMENT id and both times from the clock, then
        reads it back joined with its author. Unknown machine or author is refused. */
    method CreateMachineNote(machineId: string, authorId: string, content: string, now: int)
      returns (r: Result<MachineNote, DbError>)
      requires Valid()
      modifies this`notes, this`nextNoteId
      ensures Valid()
      ensures r.Err? <==> machineId !in machines || authorId !in users
      ensures r.Err? ==> notes == old(notes) && nextNoteId == old(nextNoteId)
      ensures r.Ok? ==> nextNoteId == old(nextNoteId) + 1
      ensures r.Ok? ==> notes == old(notes) + [NoteRow(old(nextNoteId), machineId, authorId, content, now, now)]
      ensures r.Ok? ==> r.value == MachineNote(old(nextNoteId), machineId, authorId, users[authorId].name, content, now, now)
    {
      if machineId !in machines {
        return Err(ForeignKeyViolation("machines"));
      }
      if authorId !in users {
        return Err(ForeignKeyViolation("users"));
      }
      var row := NoteRow(nextNoteId, machineId, authorId, content, now, now);
      assert forall n :: n in notes + [row] ==> n in notes || n == row;
      assert Notes.IdsIncreasing(notes + [row]) by {
        var t := notes + [row];
        forall i, j | 0 <= i < j < |t|
          ensures t[i].id < t[j].id
        {
          assert t[i] == notes[i] && notes[i] in notes;
        }
      }
      notes := notes + [row];
      nextNoteId := nextNoteId + 1;
      r := Ok(Joined(row, users[authorId]));
    }

    /** `WHERE n.id = ?` joined with the author: absent for an unknown id. */
    function GetMachineNote(id: int): (r: Option<MachineNote>)
      reads this
      requires Valid()
      ensures r.None? <==> forall n :: n in notes ==> n.id != id
      ensures r.Some? ==> r.value.id == id && r.value.authorId in users && r.value.author == users[r.value.authorId].name
      ensures r.Some? ==> exists n :: n in notes && n.authorId in users && r.value == Joined(n, users[n.authorId])
    {
      NoteById(notes, users, id)
    }

    /** A machine's notes joined with their authors, newest first. */
    method GetMachineNotes(machineId: string) returns (rows: seq<MachineNote>)
      requires Valid()
      ensures IsNoteListing(notes, users, machineId, rows)
    {
      var pool := NoteListing(notes, users, machineId);
      rows := TopByKey(pool, NoteCreatedAt, |pool|);
    }

    /** Sets a note's content and update time; an unknown id changes nothing. */
    method UpdateMachineNote(id: int, content: string, now: int)
      requires Valid()
      modifies this`notes
      ensures Valid()
      ensures notes == Edited(old(notes), id, content, now)
    {
      EditChangesOnlyTarget(notes, id, content, now);
      var edited := Edited(notes, id, content, now);
      assert forall n :: n in edited ==>
        (exists i :: 0 <= i < |notes| && n.id == notes[i].id && n.machineId == notes[i].machineId && n.authorId == notes[i].authorId);
      notes := edited;
    }

    /** Deletes the note with that id; an unknown id changes nothing. */
    method DeleteMachineNote(id: int)
      requires Valid()
      modifies this`notes
      ensures Valid()
      ensures notes == WithoutNote(old(notes), id)
    {
      notes := WithoutNote(notes, id);
    }

    // ---- share links ----

    /** Stores a link with id `freshId` created by `createdBy`, expiring at `expiresAt`. */
    method CreateShareLink(createdBy: string, expiresAt: int, now: int, freshId: string) returns (r: Result<ShareLink, DbError>)
      requires Valid()
      modifies this`shareLinks
      ensures Valid()
      ensures r.Err? <==> freshId in old(shareLinks)
      ensures r.Err? ==> shareLinks == old(shareLinks)
      ensures r.Ok? ==> r.value == ShareLink(freshId, createdBy, expiresAt, now) && shareLinks == old(shareLinks)[freshId := r.value]
    {
      if freshId in shareLinks {
        return Err(PrimaryKeyViolation("share_links"));
      }
      var link := ShareLink(freshId, createdBy, expiresAt, now);
      shareLinks := shareLinks[freshId := link];
      r := Ok(link);
    }

    /** The link with that id if it has not expired at `now`. */
    function GetValidShareLink(id: string, now: int): (r: Option<ShareLink>)
      reads this
      requires Valid()
      ensures r.Some? <==> id in shareLinks && now < shareLinks[id].expiresAt
      ensures r.Some? ==> r.value.id == id && r.value == shareLinks[id]
    {
      if id in shareLinks && now < shareLinks[id].expiresAt then Some(shareLinks[id]) else None
    }

    /** Every stored link, each once. */
    method GetAllShareLinks() returns (links: seq<ShareLink>)
      requires Valid()
      ensures forall l :: l in links <==> l in shareLinks.Values
      ensures |links| == |shareLinks|
    {
      links := [];
      var todo := shareLinks.Keys;
      ghost var done: set<string> := {};
      while todo != {}
        invariant todo <= shareLinks.Keys && done == shareLinks.Keys - todo
        invariant forall l :: l in links <==> l.id in done && l == shareLinks[l.id]
        invariant |links| == |done|
        decreases todo
      {
        var k :| k in todo;
        links := links + [shareLinks[k]];
        todo := todo - {k};
        done := done + {k};
      }
      assert done == shareLinks.Keys;
    }

    /** Deletes the link with that id; deleting a missing link is no error. */
    method DeleteShareLink(id: string)
      requires Valid()
      modifies this`shareLinks
      ensures Valid()
      ensures shareLinks == old(shareLinks) - {id}
    {
      shareLinks := shareLinks - {id};
    }
  }
}
