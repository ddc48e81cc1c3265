/** `useNotes`: the notes hook. Each request's outcome is a parameter:
    `None` when it threw, `Some` of the note the server answered with. */
module UseNotes {
  import opened Common
  import opened ClientTypes
  import opened KeyedList

  /** The body of the create request. `updated_at` is the client clock
      (`now`) as an ISO string, kept here as whole milliseconds. */
  datatype CreateBody = CreateBody(notebookId: string, title: string, blocks: seq<Value>, updated_at: int)

  /** The body of the update request. */
  datatype UpdateBody = UpdateBody(title: string, blocks: seq<Value>)

  /** The list after an update answered with `updated`. */
  function MoveToFront(notes: seq<ClientNote>, id: string, updated: ClientNote): (r: seq<ClientNote>)
    ensures |r| > 0 && r[0] == updated && |r| <= |notes| + 1
    ensures !HasKey(r[1..], NoteId, id)
    ensures forall n :: n in r[1..] <==> n in notes && n.id != id
  {
    MoveToFrontShape(notes, NoteId, id, updated);
    [updated] + Without(notes, NoteId, id)
  }

  class UseNotes {
    const notebookId: string
    var notes: seq<ClientNote>

    constructor(initialNotes: seq<ClientNote>, notebookId: string)
      ensures notes == initialNotes && this.notebookId == notebookId
    {
      this.notebookId := notebookId;
      notes := initialNotes;
    }

    /** `create(title, blocks)`. */
    method Create(title: string, blocks: seq<Value>, now: int, answer: Option<ClientNote>)
      returns (body: CreateBody, result: Option<ClientNote>)
      modifies this
      ensures body == CreateBody(notebookId, title, blocks, now)
      ensures result == answer
      ensures answer.Some? ==> notes == [answer.value] + old(notes)
      ensures answer.None? ==> notes == old(notes)
    {
      body := CreateBody(notebookId, title, blocks, now);
      if answer.Some? {
        notes := [answer.value] + notes;
      }
      result := answer;
    }

    /** `update(id, title, blocks)`. */
    method Update(id: string, title: string, blocks: seq<Value>, answer: Option<ClientNote>)
      returns (body: UpdateBody, result: Option<ClientNote>)
      modifies this
      ensures body == UpdateBody(title, blocks)
      ensures result == answer
      ensures answer.Some? ==> notes == MoveToFront(old(notes), id, answer.value)
      ensures answer.None? ==> notes == old(notes)
    {
      body := UpdateBody(title, blocks);
      if answer.Some? {
        notes := MoveToFront(notes, id, answer.value);
      }
      result := answer;
    }

    /** `remove(id)`. */
    method Remove(id: string, ok: bool)
      modifies this
      ensures ok ==> notes == Without(old(notes), NoteId, id)
      ensures !ok ==> notes == old(notes)
    {
      if ok {
        notes := Without(notes, NoteId, id);
      }
    }
  }

  /** Creating a note whose id is new and then removing that id gives back
      the earlier list. */
  lemma CreateThenRemoveNote(notes: seq<ClientNote>, created: ClientNote)
    requires !HasKey(notes, NoteId, created.id)
    ensures Without([created] + notes, NoteId, created.id) == notes
  {
    CreateThenRemove(notes, NoteId, created);
  }

  /** Updating the note at the head of the list, when its id occurs only
      there, swaps it in place. */
  lemma {:induction false} UpdateHead(n: ClientNote, rest: seq<ClientNote>, updated: ClientNote)
    requires !HasKey(rest, NoteId, n.id)
    ensures MoveToFront([n] + rest, n.id, updated) == [updated] + rest
  {
    assert ([n] + rest)[1..] == rest;
    WithoutAbsent(rest, NoteId, n.id);
  }

  /** A second update of the same id replaces the first. */
  lemma UpdateTwice(notes: seq<ClientNote>, id: string, u1: ClientNote, u2: ClientNote)
    requires u1.id == id
    ensures MoveToFront(MoveToFront(notes, id, u1), id, u2) == MoveToFront(notes, id, u2)
  {
    var once := MoveToFront(notes, id, u1);
    assert once == [u1] + Without(notes, NoteId, id);
    WithoutIdempotent(notes, NoteId, id);
  }
}
