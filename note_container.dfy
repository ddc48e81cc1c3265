/** `NoteContainer`: the note list and the note editor dialog. The editor's
    document is its `blocks` field; the editor library's own block
    operations are left out. None of `handleEdit`, `handleCreate` and
    `handleUpdate` catches, so a failed request is `thrown` and the rest of
    the handler does not run. */
module NoteContainer {
  import opened Common
  import opened ClientTypes
  import opened KeyedList
  import opened UseNotes

  const NEW_NOTE_TITLE: string := "New note"

  /** What the component renders. */
  datatype View = Spinner | Editor

  /** Which request the dialog's save button sends. */
  datatype Save = SaveUpdate | SaveCreate

  /** `editingNoteId ? handleUpdate() : handleCreate()`: only the empty
      string is falsy. */
  function SaveAction(editingNoteId: string): (s: Save)
    ensures s == SaveUpdate <==> editingNoteId != ""
  {
    if editingNoteId != "" then SaveUpdate else SaveCreate
  }

  class NoteContainer {
    const notebookId: string
    var notes: seq<ClientNote>
    var editingNoteId: string
    var noteTitle: string
    var loading: bool
    var isDialogOpen: bool
    var blocks: seq<Value>

    constructor(initialNotes: seq<ClientNote>, notebookId: string)
      ensures notes == initialNotes && this.notebookId == notebookId
      ensures editingNoteId == "" && noteTitle == NEW_NOTE_TITLE && loading && !isDialogOpen && blocks == []
    {
      this.notebookId := notebookId;
      notes := initialNotes;
      editingNoteId := "";
      noteTitle := NEW_NOTE_TITLE;
      loading := true;
      isDialogOpen := false;
      blocks := [];
    }

    /** The component's output: the spinner while `loading`. */
    function Render(): (v: View)
      reads this
      ensures v == Spinner <==> loading
    {
      if loading then Spinner else Editor
    }

    /** `resetImport()`. */
    method ResetImport()
      modifies this
      ensures blocks == [] && editingNoteId == ""
      ensures notes == old(notes) && noteTitle == old(noteTitle) && loading == old(loading)
      ensures isDialogOpen == old(isDialogOpen)
    {
      blocks := [];
      editingNoteId := "";
    }

    /** `handleEdit(noteId)`: `answer` is the loaded note. */
    method HandleEdit(noteId: string, answer: Option<ClientNote>) returns (thrown: bool)
      modifies this
      ensures editingNoteId == noteId
      ensures thrown <==> answer.None?
      ensures answer.Some? ==> blocks == answer.value.blocks && noteTitle == answer.value.title
      ensures answer.None? ==> blocks == old(blocks) && noteTitle == old(noteTitle)
      ensures notes == old(notes) && loading == old(loading) && isDialogOpen == old(isDialogOpen)
    {
      editingNoteId := noteId;
      if answer.None? {
        return true;
      }
      blocks := answer.value.blocks;
      noteTitle := answer.value.title;
      return false;
    }

    /** `handleCreate()`: the dialog closes before the POST. */
    method HandleCreate(now: int, answer: Option<ClientNote>) returns (body: CreateBody, thrown: bool)
      modifies this
      ensures body == CreateBody(notebookId, old(noteTitle), old(blocks), now)
      ensures !isDialogOpen && (thrown <==> answer.None?)
      ensures answer.Some? ==> notes == [answer.value] + old(notes) && blocks == [] && editingNoteId == ""
      ensures answer.None? ==> notes == old(notes) && blocks == old(blocks) && editingNoteId == old(editingNoteId)
      ensures noteTitle == old(noteTitle) && loading == old(loading)
    {
      body := CreateBody(notebookId, noteTitle, blocks, now);
      isDialogOpen := false;
      if answer.None? {
        return body, true;
      }
      notes := [answer.value] + notes;
      ResetImport();
      thrown := false;
    }

    /** `handleUpdate()`: the PATCH goes to `editingNoteId`; the answer moves
        to the front in place of every entry with that id. */
    method HandleUpdate(answer: Option<ClientNote>) returns (target: string, body: UpdateBody, thrown: bool)
      modifies this
      ensures target == old(editingNoteId) && body == UpdateBody(old(noteTitle), old(blocks))
      ensures !isDialogOpen && (thrown <==> answer.None?)
      ensures answer.Some? ==> notes == MoveToFront(old(notes), old(editingNoteId), answer.value)
      ensures answer.Some? ==> blocks == [] && editingNoteId == ""
      ensures answer.None? ==> notes == old(notes) && blocks == old(blocks) && editingNoteId == old(editingNoteId)
      ensures noteTitle == old(noteTitle) && loading == old(loading)
    {
      target := editingNoteId;
      body := UpdateBody(noteTitle, blocks);
      isDialogOpen := false;
      if answer.None? {
        return target, body, true;
      }
      notes := MoveToFront(notes, editingNoteId, answer.value);
      ResetImport();
      thrown := false;
    }

    /** `handleDelete(noteId)`: a failure shows a toast (`toast`). */
    method HandleDelete(noteId: string, ok: bool) returns (toast: bool)
      modifies this
      ensures ok ==> notes == Without(old(notes), NoteId, noteId)
      ensures !ok ==> notes == old(notes)
      ensures toast <==> !ok
      ensures editingNoteId == old(editingNoteId) && blocks == old(blocks) && noteTitle == old(noteTitle)
      ensures loading == old(loading) && isDialogOpen == old(isDialogOpen)
    {
      if ok {
        notes := Without(notes, NoteId, noteId);
      }
      toast := !ok;
    }

    /** The save button. `answer` is the outcome of whichever request it
        sends. */
    method OnSave(now: int, answer: Option<ClientNote>) returns (sent: Save, thrown: bool)
      modifies this
      ensures sent == SaveAction(old(editingNoteId))
      ensures sent == SaveCreate && answer.Some? ==> notes == [answer.value] + old(notes)
      ensures sent == SaveUpdate && answer.Some? ==> notes == MoveToFront(old(notes), old(editingNoteId), answer.value)
      ensures answer.None? ==> notes == old(notes) && thrown
      ensures answer.Some? ==> !thrown && editingNoteId == "" && blocks == []
      ensures !isDialogOpen && loading == old(loading)
    {
      sent := SaveAction(editingNoteId);
      if sent == SaveUpdate {
        var _, _, t := HandleUpdate(answer);
        thrown := t;
      } else {
        var _, t := HandleCreate(now, answer);
        thrown := t;
      }
    }
  }
}
