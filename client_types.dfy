/** The records the browser keeps in its lists: files (keyed by
    `public_id`), notes and conversations (keyed by `id`). Dates are whole
    milliseconds, `None` for `null`. */
module ClientTypes {
  import opened Common

  /** The client's `SingleFile`. */
  datatype ClientFile = ClientFile(
    public_id: string,
    title: string,
    url: string,
    format: string,
    checked: bool,
    created_at: Option<int>,
    updated_at: Option<int>)

  /** A note as the server returns it: its id, title and stored blocks. */
  datatype ClientNote = ClientNote(id: string, title: string, blocks: seq<Value>)

  /** A `ConversationList` entry. */
  datatype Conversation = Conversation(id: string, title: string)

  function FileId(f: ClientFile): string { f.public_id }
  function NoteId(n: ClientNote): string { n.id }
  function ConversationId(c: Conversation): string { c.id }

  /** `list.every(f => f.checked)`. */
  predicate AllChecked(files: seq<ClientFile>) {
    forall i :: 0 <= i < |files| ==> files[i].checked
  }

  predicate NoneChecked(files: seq<ClientFile>) {
    forall i :: 0 <= i < |files| ==> !files[i].checked
  }

  /** The route a conversation is shown at. */
  function ConversationRoute(notebookId: string, id: string): string {
    "/notebook/" + notebookId + "/" + id
  }

  /** `router.push(route)`: a new history entry. */
  function Push(history: seq<string>, route: string): (h: seq<string>)
    ensures |h| == |history| + 1 && h[..|history|] == history && h[|history|] == route
  {
    history + [route]
  }

  /** `router.replace(route)`: the current entry is replaced; the history
      keeps its length (an empty one gets its first entry). */
  function Replace(history: seq<string>, route: string): (h: seq<string>)
    ensures |history| > 0 ==> |h| == |history| && h[..|h| - 1] == history[..|history| - 1]
    ensures |history| == 0 ==> h == [route]
    ensures h[|h| - 1] == route
  {
    if |history| == 0 then [route] else history[..|history| - 1] + [route]
  }
}
