/** The machine and note handlers of internal/handlers/enrollment.go. Each runs behind a
    session gate (the `Context` carries the user it let through) and checks its request
    against the store before it changes anything. Random machine ids and tokens and the
    clock are parameters; the HTMX fragment replies are not modelled. */
module Enrollment {
  import opened Wrappers
  import opened Models
  import opened Text
  import opened Snapshots
  import opened Notes
  import opened Http
  import opened Middleware
  import Store

  const MachineHistoryLimit := 20

  function MachinePath(id: string): string {
    "/machines/" + id
  }

  /** EnrollMachine: without a user, to the login page; an empty name is refused with 400
      and nothing is created; otherwise a machine owned by the current user is created (500
      if the store refuses it) and the user is sent to its page. */
  method EnrollMachine(db: Store.DB, ctx: Context, name: string, now: int, freshId: string, freshToken: string)
    returns (resp: Response)
    requires db.Valid()
    modifies db`machines
    ensures db.Valid()
    ensures ContextUser(ctx).None? ==> resp == Redirect(LoginPath) && db.machines == old(db.machines)
    ensures ContextUser(ctx).Some? && name == "" ==> (
      resp == Error(StatusBadRequest, "Machine name is required") && db.machines == old(db.machines))
    ensures ContextUser(ctx).Some? && name != "" ==> (
      var owner := ContextUser(ctx).value.id;
      var refused := freshId in old(db.machines) || Store.TokenTaken(old(db.machines), freshToken) || owner !in db.users;
      (refused ==> resp == Error(StatusInternalServerError, "Failed to create machine") && db.machines == old(db.machines)) &&
      (!refused ==> (
        resp == Redirect(MachinePath(freshId)) &&
        db.machines == old(db.machines)[freshId := Machine(freshId, owner, name, freshToken, now)])))
  {
    var user := ContextUser(ctx);
    if user.None? {
      return Redirect(LoginPath);
    }
    if name == "" {
      return Error(StatusBadRequest, "Machine name is required");
    }
    var machine := db.CreateMachine(user.value.id, name, now, freshId, freshToken);
    if machine.Err? {
      return Error(StatusInternalServerError, "Failed to create machine");
    }
    resp := Redirect(MachinePath(machine.value.id));
  }

  /** The checks of MachineDetail and DeleteMachine, in order: a user, then the machine
      (a store error reads as not found), then ownership unless the session is an admin's. */
  function MachineAccess(ctx: Context, machine: Lookup<Machine>, forbidden: string): (g: Gate<Machine>)
    ensures ContextUser(ctx).None? ==> g == Deny(Redirect(LoginPath))
    ensures ContextUser(ctx).Some? && !machine.Found? ==> g == Deny(Error(StatusNotFound, "Machine not found"))
    ensures ContextUser(ctx).Some? && machine.Found? && machine.value.userId != ContextUser(ctx).value.id && !ContextIsAdmin(ctx) ==>
      g == Deny(Error(StatusForbidden, forbidden))
    ensures g.Pass? <==> (
      ContextUser(ctx).Some? && machine.Found? &&
      (machine.value.userId == ContextUser(ctx).value.id || ContextIsAdmin(ctx)))
    ensures g.Pass? ==> g.value == machine.value
  {
    var user := ContextUser(ctx);
    if user.None? then Deny(Redirect(LoginPath))
    else if !machine.Found? then Deny(Error(StatusNotFound, "Machine not found"))
    else if machine.value.userId != user.value.id && !ContextIsAdmin(ctx) then Deny(Error(StatusForbidden, forbidden))
    else Pass(machine.value)
  }

  /** A user who is not an admin gets through to their own machines only. */
  lemma OwnersOnlyUnlessAdmin(u: User, machine: Lookup<Machine>, forbidden: string, isAdmin: Option<bool>)
    requires isAdmin != Some(true)
    ensures MachineAccess(Context(Some(u), isAdmin), machine, forbidden).Pass? <==> machine.Found? && machine.value.userId == u.id
  {
  }

  /** MachineDetail: past the checks, the machine with some latest row, at most 20 history
      rows newest first, and its notes newest first. */
  method MachineDetail(db: Store.DB, ctx: Context, id: string) returns (resp: Response)
    requires db.Valid()
    ensures var g := MachineAccess(ctx, FromOption(db.GetMachine(id)), "You don't have permission to view this machine");
      (g.Deny? ==> resp == g.response) &&
      (g.Pass? ==> (
        resp.Page? && resp.view.MachineView? && resp.view.machine == db.machines[id] &&
        IsLatestResult(db.snapshots, id, resp.view.latest) &&
        IsHistory(db.snapshots, id, MachineHistoryLimit, resp.view.history) &&
        IsNoteListing(db.notes, db.users, id, resp.view.notes)))
  {
    var g := MachineAccess(ctx, FromOption(db.GetMachine(id)), "You don't have permission to view this machine");
    if g.Deny? {
      return g.response;
    }
    var latest := db.GetLatestSnapshot(id);
    var history := db.GetSnapshotHistory(id, MachineHistoryLimit);
    var notes := db.GetMachineNotes(id);
    resp := Page(MachineView(g.value, latest, history, notes));
  }

  /** The detail page never shows more than 20 history rows, all of that machine. */
  lemma DetailHistoryBounded(snaps: seq<InventorySnapshot>, id: string, history: seq<InventorySnapshot>)
    requires IsHistory(snaps, id, MachineHistoryLimit, history)
    ensures |history| <= MachineHistoryLimit
    ensures forall s :: s in history ==> s.machineId == id
  {
    HistoryRows(snaps, id, MachineHistoryLimit, history);
  }

  /** DeleteMachine: every check runs before the store is touched, so a refused request
      changes nothing; otherwise the machine goes with its snapshots and notes. */
  method DeleteMachine(db: Store.DB, ctx: Context, id: string) returns (resp: Response)
    requires db.Valid()
    modifies db`machines, db`snapshots, db`notes
    ensures db.Valid()
    ensures var g := MachineAccess(ctx, FromOption(old(db.GetMachine(id))), "You don't have permission to delete this machine");
      (g.Deny? ==> (
        resp == g.response &&
        db.machines == old(db.machines) && db.snapshots == old(db.snapshots) && db.notes == old(db.notes))) &&
      (g.Pass? ==> (
        resp == Redirect("/") && db.machines == old(db.machines) - {id} &&
        db.snapshots == SnapshotsNotOf(old(db.snapshots), id) && db.notes == NotesNotOf(old(db.notes), id)))
  {
    var g := MachineAccess(ctx, FromOption(db.GetMachine(id)), "You don't have permission to delete this machine");
    if g.Deny? {
      return g.response;
    }
    db.DeleteMachine(id);
    resp := Redirect("/");
  }

  /** The checks of AddMachineNote, in order: a user, the machine (a store error reads as
      not found), non-empty content. There is no ownership check: the route admits admins
      only. */
  function NoteAdmission(ctx: Context, machine: Lookup<Machine>, content: string): (g: Gate<User>)
    ensures ContextUser(ctx).None? ==> g == Deny(Redirect(LoginPath))
    ensures ContextUser(ctx).Some? && !machine.Found? ==> g == Deny(Error(StatusNotFound, "Machine not found"))
    ensures ContextUser(ctx).Some? && machine.Found? && content == "" ==> g == Deny(Error(StatusBadRequest, "Note content is required"))
    ensures g.Pass? <==> ContextUser(ctx).Some? && machine.Found? && content != ""
    ensures g.Pass? ==> g.value == ContextUser(ctx).value
  {
    var user := ContextUser(ctx);
    if user.None? then Deny(Redirect(LoginPath))
    else if !machine.Found? then Deny(Error(StatusNotFound, "Machine not found"))
    else if content == "" then Deny(Error(StatusBadRequest, "Note content is required"))
    else Pass(user.value)
  }

  /** AddMachineNote: a refused request stores nothing; otherwise one note by the current
      user, stamped by the clock, is appended (500 if the store refuses it) and the user is
      sent back to the machine's page. */
  method AddMachineNote(db: Store.DB, ctx: Context, machineId: string, content: string, now: int) returns (resp: Response)
    requires db.Valid()
    modifies db`notes, db`nextNoteId
    ensures db.Valid()
    ensures var g := NoteAdmission(ctx, FromOption(old(db.GetMachine(machineId))), content);
      (g.Deny? ==> resp == g.response && db.notes == old(db.notes) && db.nextNoteId == old(db.nextNoteId)) &&
      (g.Pass? && g.value.id in db.users ==> (
        resp == Redirect(MachinePath(machineId)) && db.nextNoteId == old(db.nextNoteId) + 1 &&
        db.notes == old(db.notes) + [NoteRow(old(db.nextNoteId), machineId, g.value.id, content, now, now)])) &&
      (g.Pass? && g.value.id !in db.users ==> (
        resp == Error(StatusInternalServerError, "Failed to add note") &&
        db.notes == old(db.notes) && db.nextNoteId == old(db.nextNoteId)))
  {
    var g := NoteAdmission(ctx, FromOption(db.GetMachine(machineId)), content);
    if g.Deny? {
      return g.response;
    }
    var note := db.CreateMachineNote(machineId, g.value.id, content, now);
    if note.Err? {
      return Error(StatusInternalServerError, "Failed to add note");
    }
    resp := Redirect(MachinePath(machineId));
  }

  /** The user lookup of the session gates, over a snapshot of the user table. */
  function UserLookup(users: map<string, User>): string -> Lookup<User> {
    (id: string) => FromOption(if id in users then Some(users[id]) else None)
  }

  /** `POST /machines/{id}/notes` as routed: RequireAdmin in front of AddMachineNote. */
  method AddMachineNoteRoute(db: Store.DB, session: Option<Session>, machineId: string, content: string, now: int)
    returns (resp: Response, clearSession: bool)
    requires db.Valid()
    modifies db`notes, db`nextNoteId
    ensures db.Valid()
    ensures var d := RequireAdmin(session, UserLookup(old(db.users)));
      (d.Reject? ==> (
        resp == d.response && clearSession == d.clearSession &&
        db.notes == old(db.notes) && db.nextNoteId == old(db.nextNoteId))) &&
      (d.Next? ==> !clearSession)
    ensures var d := RequireAdmin(session, UserLookup(old(db.users)));
      d.Next? ==> (
        var g := NoteAdmission(d.ctx, FromOption(old(db.GetMachine(machineId))), content);
        (g.Deny? ==> resp == g.response && db.notes == old(db.notes) && db.nextNoteId == old(db.nextNoteId)) &&
        (g.Pass? ==> (
          g.value.id == session.value.userId &&
          resp == Redirect(MachinePath(machineId)) && db.nextNoteId == old(db.nextNoteId) + 1 &&
          db.notes == old(db.notes) + [NoteRow(old(db.nextNoteId), machineId, g.value.id, content, now, now)])))
    ensures session.Some? && !session.value.isAdmin ==> (
      resp == Error(StatusForbidden, "Forbidden") && db.notes == old(db.notes) && db.nextNoteId == old(db.nextNoteId))
  {
    var d := RequireAdmin(session, UserLookup(db.users));
    if d.Reject? {
      return d.response, d.clearSession;
    }
    resp := AddMachineNote(db, d.ctx, machineId, content, now);
    clearSession := false;
  }

  /** The checks of DeleteMachineNote, in order: a user, an integer note id, then a note
      with that id on this machine (a store error reads as not found). */
  function NoteRemoval(ctx: Context, machineId: string, noteIdText: string, lookup: int -> Lookup<MachineNote>): (g: Gate<int>)
    ensures ContextUser(ctx).None? ==> g == Deny(Redirect(LoginPath))
    ensures ContextUser(ctx).Some? && ParseInt64(noteIdText).None? ==> g == Deny(Error(StatusBadRequest, "Invalid note ID"))
    ensures ContextUser(ctx).Some? && ParseInt64(noteIdText).Some? ==> (
      var l := lookup(ParseInt64(noteIdText).value);
      (!l.Found? || l.value.machineId != machineId ==> g == Deny(Error(StatusNotFound, "Note not found"))))
    ensures g.Pass? <==> (
      ContextUser(ctx).Some? && ParseInt64(noteIdText).Some? &&
      lookup(ParseInt64(noteIdText).value).Found? && lookup(ParseInt64(noteIdText).value).value.machineId == machineId)
    ensures g.Pass? ==> g.value == ParseInt64(noteIdText).value
  {
    if ContextUser(ctx).None? then Deny(Redirect(LoginPath))
    else
      var noteId := ParseInt64(noteIdText);
      if noteId.None? then Deny(Error(StatusBadRequest, "Invalid note ID"))
      else
        var note := lookup(noteId.value);
        if !note.Found? || note.value.machineId != machineId then Deny(Error(StatusNotFound, "Note not found"))
        else Pass(noteId.value)
  }

  /** The note lookup of DeleteMachineNote, over a snapshot of the note and user tables. */
  function NoteLookup(notes: seq<NoteRow>, users: map<string, User>): int -> Lookup<MachineNote> {
    (id: int) => FromOption(Store.NoteById(notes, users, id))
  }

  /** DeleteMachineNote: a refused request deletes nothing, so a note cannot be deleted
      through another machine's URL; otherwise that note is removed. */
  method DeleteMachineNote(db: Store.DB, ctx: Context, machineId: string, noteIdText: string) returns (resp: Response)
    requires db.Valid()
    modifies db`notes
    ensures db.Valid()
    ensures var g := NoteRemoval(ctx, machineId, noteIdText, NoteLookup(old(db.notes), old(db.users)));
      (g.Deny? ==> resp == g.response && db.notes == old(db.notes)) &&
      (g.Pass? ==> resp == Redirect(MachinePath(machineId)) && db.notes == WithoutNote(old(db.notes), g.value))
  {
    var g := NoteRemoval(ctx, machineId, noteIdText, NoteLookup(db.notes, db.users));
    if g.Deny? {
      return g.response;
    }
    db.DeleteMachineNote(g.value);
    resp := Redirect(MachinePath(machineId));
  }

  /** A note that belongs to another machine is never deleted through this machine's URL,
      whatever text names it: the canonical decimal id, "+5", "007" or anything else. */
  lemma OtherMachinesNoteKept(notes: seq<NoteRow>, users: map<string, User>, ctx: Context,
                              machineId: string, noteIdText: string, n: NoteRow)
    requires Notes.IdsIncreasing(notes)
    requires n in notes && n.machineId != machineId
    ensures var g := NoteRemoval(ctx, machineId, noteIdText, NoteLookup(notes, users));
      g.Pass? ==> g.value != n.id
    ensures ParseInt64(noteIdText) == Some(n.id) ==> NoteRemoval(ctx, machineId, noteIdText, NoteLookup(notes, users)).Deny?
    ensures NoteRemoval(ctx, machineId, FormatDecimal(n.id), NoteLookup(notes, users)).Deny?
  {
    ParseFormatRoundTrip(n.id);
    var r := FindNote(notes, n.id);
    assert r.Some?;
    var i :| 0 <= i < |notes| && notes[i] == n;
    var j :| 0 <= j < |notes| && notes[j] == r.value;
    assert i == j;
  }
}
