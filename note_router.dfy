/** The `/notes` routes. A note document stores its blocks as the dumps of
    validated `Note` trees. */
module NoteRouter {
  import opened Common
  import opened Listing
  import opened NoteSchema
  import opened Database

  const NO_NOTE: string := "Note not found"
  const BAD_NOTE_ID: string := "Invalid note_id format"

  /** The document `create_note` inserts. */
  function NewNote(notebookId: string, now: int): (d: NoteDoc)
    ensures d.title == "New note" && d.notebookId == notebookId && d.blocks == []
    ensures d.created_at == d.updated_at == now
  {
    NoteDoc("New note", notebookId, [], now, now)
  }

  /** `create_note`: `newId` is the id the insert is given. */
  method CreateNote(db: Db, notebookId: string, newId: string, now: int) returns (r: Response<string>)
    requires IsCanonicalId(newId) && newId !in db.notes
    modifies db
    ensures ParseObjectId(notebookId).Some? <==> r.Ok?
    ensures r.Fail? ==> r == Fail(400, "Invalid notebookId format")
    ensures r.Fail? ==> db.notes == old(db.notes)
    ensures r.Ok? ==> r.body == newId && db.notes == old(db.notes)[newId := NewNote(notebookId, now)]
    ensures db.notebooks == old(db.notebooks) && db.files == old(db.files) && db.conversations == old(db.conversations)
  {
    if ParseObjectId(notebookId).None? {
      return Fail(400, "Invalid notebookId format");
    }
    db.notes := db.notes[newId := NewNote(notebookId, now)];
    r := Ok(newId);
  }

  /** `update_note_blocks`: the blocks are replaced wholesale. Nothing is
      modified, and the answer is 404, when the note is missing or already
      holds exactly these blocks with this `updated_at`. */
  method UpdateNoteBlocks(db: Db, noteId: string, blocks: seq<Note>, now: int) returns (r: Response<()>)
    modifies db
    ensures ParseObjectId(noteId).None? ==> r == Fail(400, BAD_NOTE_ID) && db.notes == old(db.notes)
    ensures ParseObjectId(noteId).Some? ==>
      var key := ParseObjectId(noteId).value;
      && (r.Ok? <==> key in old(db.notes) && old(db.notes)[key].(blocks := DumpNotes(blocks), updated_at := now) != old(db.notes)[key])
      && (r.Ok? ==> db.notes == old(db.notes)[key := old(db.notes)[key].(blocks := DumpNotes(blocks), updated_at := now)])
      && (r.Fail? ==> r == Fail(404, NO_NOTE) && db.notes == old(db.notes))
    ensures db.notebooks == old(db.notebooks) && db.files == old(db.files) && db.conversations == old(db.conversations)
  {
    var id := ParseObjectId(noteId);
    if id.None? {
      return Fail(400, BAD_NOTE_ID);
    }
    var key := id.value;
    if key in db.notes && db.notes[key].(blocks := DumpNotes(blocks), updated_at := now) != db.notes[key] {
      db.notes := db.notes[key := db.notes[key].(blocks := DumpNotes(blocks), updated_at := now)];
      r := Ok(());
    } else {
      r := Fail(404, NO_NOTE);
    }
  }

  /** `get_all_notes`: the notebook's notes, newest first, as id and title. */
  method GetAllNotes(db: Db, notebookId: string) returns (rows: seq<Row>)
    ensures forall i :: 0 <= i < |rows| ==>
      rows[i].id in db.notes && db.notes[rows[i].id].notebookId == notebookId
      && rows[i].title == db.notes[rows[i].id].title
    ensures forall k :: k in db.notes && db.notes[k].notebookId == notebookId ==>
      exists i :: 0 <= i < |rows| && rows[i].id == k
    ensures forall i, j :: 0 <= i < j < |rows| ==> rows[i].id != rows[j].id
    ensures forall i, j :: 0 <= i < j < |rows| ==>
      db.notes[rows[i].id].updated_at >= db.notes[rows[j].id].updated_at
  {
    var notes := db.notes;
    var ids := NewestFirst(notes, (d: NoteDoc) => d.notebookId == notebookId, (d: NoteDoc) => d.updated_at);
    rows := [];
    var i := 0;
    while i < |ids|
      invariant 0 <= i <= |ids|
      invariant |rows| == i
      invariant forall j :: 0 <= j < i ==> rows[j] == Row(ids[j], notes[ids[j]].title)
    {
      rows := rows + [Row(ids[i], notes[ids[i]].title)];
      i := i + 1;
    }
    forall k | k in notes && notes[k].notebookId == notebookId ensures exists i :: 0 <= i < |rows| && rows[i].id == k {
      var i :| 0 <= i < |ids| && ids[i] == k;
      assert rows[i].id == k;
    }
  }

  /** What `get_note` answers. */
  datatype NoteView = NoteView(id: string, title: string, notebookId: string, blocks: seq<Note>,
                               created_at: int, updated_at: int)

  /** `get_note` as written: it validates `doc.get("notes", [])`, a field no
      route ever writes (the blocks live in `blocks`), so every note comes
      back without blocks. */
  function GetNoteAsWritten(notes: map<string, NoteDoc>, noteId: string): (r: Response<NoteView>)
    ensures ParseObjectId(noteId).None? <==> r == Fail(400, BAD_NOTE_ID)
    ensures ParseObjectId(noteId).Some? && ParseObjectId(noteId).value !in notes ==> r == Fail(404, NO_NOTE)
    ensures r.Ok? ==> r.body.blocks == []
  {
    match ParseObjectId(noteId)
    case None => Fail(400, BAD_NOTE_ID)
    case Some(key) =>
      if key !in notes then Fail(404, NO_NOTE)
      else
        var d := notes[key];
        Ok(NoteView(key, d.title, d.notebookId, [], d.created_at, d.updated_at))
  }

  /** `get_note` reading the stored `blocks`. A block that does not validate
      is an error the route does not catch: 500. */
  function GetNote(notes: map<string, NoteDoc>, noteId: string): (r: Response<NoteView>)
    ensures ParseObjectId(noteId).None? <==> r == Fail(400, BAD_NOTE_ID)
    ensures ParseObjectId(noteId).Some? && ParseObjectId(noteId).value !in notes ==> r == Fail(404, NO_NOTE)
    ensures ParseObjectId(noteId).Some? && ParseObjectId(noteId).value in notes ==>
      var d := notes[ParseObjectId(noteId).value];
      && (ParseNotes(d.blocks).None? ==> r.Fail? && r.status == 500)
      && (ParseNotes(d.blocks).Some? ==>
            r == Ok(NoteView(ParseObjectId(noteId).value, d.title, d.notebookId, ParseNotes(d.blocks).value, d.created_at, d.updated_at)))
  {
    match ParseObjectId(noteId)
    case None => Fail(400, BAD_NOTE_ID)
    case Some(key) =>
      if key !in notes then Fail(404, NO_NOTE)
      else
        var d := notes[key];
        match ParseNotes(d.blocks)
        case None => Fail(500, "Internal Server Error")
        case Some(blocks) => Ok(NoteView(key, d.title, d.notebookId, blocks, d.created_at, d.updated_at))
  }

  /** Blocks saved by `update_note_blocks` are read back by the corrected
      `get_note`, tree for tree. */
  lemma UpdateThenGet(notes: map<string, NoteDoc>, noteId: string, blocks: seq<Note>, now: int)
    requires ParseObjectId(noteId).Some? && ParseObjectId(noteId).value in notes
    ensures var key := ParseObjectId(noteId).value;
      var after := notes[key := notes[key].(blocks := DumpNotes(blocks), updated_at := now)];
      GetNote(after, noteId).Ok? && GetNote(after, noteId).body.blocks == blocks
      && GetNote(after, noteId).body.updated_at == now
  {
    NotesRoundTrip(blocks);
  }

  /** The route as written loses them: a note saved with any block is read
      back with none. */
  lemma UpdateThenGetAsWritten(notes: map<string, NoteDoc>, noteId: string, blocks: seq<Note>, now: int)
    requires ParseObjectId(noteId).Some? && ParseObjectId(noteId).value in notes && |blocks| > 0
    ensures var key := ParseObjectId(noteId).value;
      var after := notes[key := notes[key].(blocks := DumpNotes(blocks), updated_at := now)];
      GetNoteAsWritten(after, noteId).Ok? && GetNoteAsWritten(after, noteId).body.blocks != blocks
  {
  }

  /** `update_note_title`: title and `updated_at`; 404 when nothing changes. */
  method UpdateNoteTitle(db: Db, noteId: string, title: string, now: int) returns (r: Response<()>)
    modifies db
    ensures ParseObjectId(noteId).None? ==> r == Fail(400, BAD_NOTE_ID) && db.notes == old(db.notes)
    ensures ParseObjectId(noteId).Some? ==>
      var key := ParseObjectId(noteId).value;
      && (r.Ok? <==> key in old(db.notes) && old(db.notes)[key].(title := title, updated_at := now) != old(db.notes)[key])
      && (r.Ok? ==> db.notes == old(db.notes)[key := old(db.notes)[key].(title := title, updated_at := now)])
      && (r.Fail? ==> r == Fail(404, NO_NOTE) && db.notes == old(db.notes))
    ensures db.notebooks == old(db.notebooks) && db.files == old(db.files) && db.conversations == old(db.conversations)
  {
    var id := ParseObjectId(noteId);
    if id.None? {
      return Fail(400, BAD_NOTE_ID);
    }
    var key := id.value;
    if key in db.notes && db.notes[key].(title := title, updated_at := now) != db.notes[key] {
      db.notes := db.notes[key := db.notes[key].(title := title, updated_at := now)];
      r := Ok(());
    } else {
      r := Fail(404, NO_NOTE);
    }
  }

  /** `delete_note`: a hard delete. */
  method DeleteNote(db: Db, noteId: string) returns (r: Response<()>)
    modifies db
    ensures ParseObjectId(noteId).None? ==> r == Fail(400, BAD_NOTE_ID) && db.notes == old(db.notes)
    ensures ParseObjectId(noteId).Some? ==>
      var key := ParseObjectId(noteId).value;
      && (r.Ok? <==> key in old(db.notes))
      && (r.Ok? ==> db.notes == old(db.notes) - {key})
      && (r.Fail? ==> r == Fail(404, NO_NOTE) && db.notes == old(db.notes))
    ensures db.notebooks == old(db.notebooks) && db.files == old(db.files) && db.conversations == old(db.conversations)
  {
    var id := ParseObjectId(noteId);
    if id.None? {
      return Fail(400, BAD_NOTE_ID);
    }
    var key := id.value;
    if key in db.notes {
      db.notes := db.notes - {key};
      r := Ok(());
    } else {
      r := Fail(404, NO_NOTE);
    }
  }

  /** After a delete the note is gone for good. */
  lemma DeleteThenGet(notes: map<string, NoteDoc>, noteId: string)
    requires ParseObjectId(noteId).Some?
    ensures GetNote(notes - {ParseObjectId(noteId).value}, noteId) == Fail(404, NO_NOTE)
  {
  }
}
