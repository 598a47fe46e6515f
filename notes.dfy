/** The machine_notes table (internal/db/sqlite.go): rows as stored, the joined view the
    read paths return, and the deletions and edits the write paths make. */
module Notes {
  import opened Wrappers
  import opened Models
  import opened Ordering

  /** A machine_notes row; the author's display name is not stored but joined on read. */
  datatype NoteRow = NoteRow(id: int, machineId: string, authorId: string, content: string, createdAt: int, updatedAt: int)

  /** Row ids strictly increase along the table, as AUTOINCREMENT hands them out. */
  predicate IdsIncreasing(notes: seq<NoteRow>) {
    forall i, j :: 0 <= i < j < |notes| ==> notes[i].id < notes[j].id
  }

  /** A row joined with its author's user row. */
  function Joined(row: NoteRow, author: User): MachineNote {
    MachineNote(row.id, row.machineId, row.authorId, author.name, row.content, row.createdAt, row.updatedAt)
  }

  /** `WHERE n.id = ?`: the row with that id, if any. */
  function FindNote(notes: seq<NoteRow>, id: int): (r: Option<NoteRow>)
    ensures r.None? <==> forall i :: 0 <= i < |notes| ==> notes[i].id != id
    ensures r.Some? ==> r.value in notes && r.value.id == id
  {
    if notes == [] then None
    else if notes[0].id == id then Some(notes[0])
    else
      var r := FindNote(notes[1..], id);
      assert forall i :: 1 <= i < |notes| ==> notes[i] == notes[1..][i - 1];
      r
  }

  /** The rows of machine `mid` whose author has a user row, joined with it:
      `FROM machine_notes n JOIN users u ON n.author_id = u.id WHERE n.machine_id = ?`. */
  function NoteListing(notes: seq<NoteRow>, users: map<string, User>, mid: string): (r: seq<MachineNote>)
    ensures forall n :: n in r <==> exists row :: row in notes && row.machineId == mid && row.authorId in users && n == Joined(row, users[row.authorId])
  {
    if notes == [] then []
    else
      var rest := NoteListing(notes[1..], users, mid);
      assert forall row :: row in notes[1..] ==> row in notes;
      assert forall row :: row in notes ==> row == notes[0] || row in notes[1..];
      var row := notes[0];
      if row.machineId == mid && row.authorId in users then [Joined(row, users[row.authorId])] + rest else rest
  }

  /** The key of `ORDER BY n.created_at`. */
  function NoteCreatedAt(n: MachineNote): int {
    n.createdAt
  }

  /** `rows` is an admissible answer to the note listing of `mid`: its joined rows, each
      once, newest first (equal creation times in either order). */
  ghost predicate IsNoteListing(notes: seq<NoteRow>, users: map<string, User>, mid: string, rows: seq<MachineNote>) {
    var pool := NoteListing(notes, users, mid);
    IsTop(pool, NoteCreatedAt, |pool|, rows)
  }

  /** A note listing holds only notes of the requested machine, newest first. */
  lemma ListingRows(notes: seq<NoteRow>, users: map<string, User>, mid: string, rows: seq<MachineNote>)
    requires IsNoteListing(notes, users, mid, rows)
    ensures forall n :: n in rows ==> n.machineId == mid && n.authorId in users && n.author == users[n.authorId].name
    ensures forall i, j :: 0 <= i < j < |rows| ==> rows[i].createdAt >= rows[j].createdAt
  {
    forall n | n in rows
      ensures n.machineId == mid && n.authorId in users && n.author == users[n.authorId].name
    {
      assert n in multiset(rows);
      assert n in NoteListing(notes, users, mid);
    }
    forall i, j | 0 <= i < j < |rows|
      ensures rows[i].createdAt >= rows[j].createdAt
    {
      assert NoteCreatedAt(rows[i]) >= NoteCreatedAt(rows[j]);
    }
  }

  /** The table after `ON DELETE CASCADE` from machine `mid`'s deletion. */
  function NotesNotOf(notes: seq<NoteRow>, mid: string): (r: seq<NoteRow>)
    ensures |r| <= |notes|
    ensures forall n :: n in r <==> n in notes && n.machineId != mid
    ensures IdsIncreasing(notes) ==> IdsIncreasing(r)
  {
    if notes == [] then []
    else if notes[0].machineId != mid then [notes[0]] + NotesNotOf(notes[1..], mid)
    else NotesNotOf(notes[1..], mid)
  }

  /** The table after `DELETE FROM machine_notes WHERE id = ?`. */
  function WithoutNote(notes: seq<NoteRow>, id: int): (r: seq<NoteRow>)
    ensures |r| <= |notes|
    ensures forall n :: n in r <==> n in notes && n.id != id
    ensures IdsIncreasing(notes) ==> IdsIncreasing(r)
  {
    if notes == [] then []
    else if notes[0].id != id then [notes[0]] + WithoutNote(notes[1..], id)
    else WithoutNote(notes[1..], id)
  }

  /** The table after `UPDATE machine_notes SET content = ?, updated_at = now WHERE id = ?`. */
  function Edited(notes: seq<NoteRow>, id: int, content: string, now: int): seq<NoteRow> {
    seq(|notes|, i requires 0 <= i < |notes| =>
      if notes[i].id == id then notes[i].(content := content, updatedAt := now) else notes[i])
  }

  /** An edit changes only the content and update time of the row with that id: every
      row keeps its place, id, machine, author and creation time, and a missing id
      changes nothing. */
  lemma EditChangesOnlyTarget(notes: seq<NoteRow>, id: int, content: string, now: int)
    ensures |Edited(notes, id, content, now)| == |notes|
    ensures forall i :: 0 <= i < |notes| ==>
      var e := Edited(notes, id, content, now)[i];
      e.id == notes[i].id && e.machineId == notes[i].machineId && e.authorId == notes[i].authorId &&
      e.createdAt == notes[i].createdAt &&
      (notes[i].id == id ==> e.content == content && e.updatedAt == now) &&
      (notes[i].id != id ==> e == notes[i])
    ensures FindNote(notes, id).None? ==> Edited(notes, id, content, now) == notes
  {
  }
}
