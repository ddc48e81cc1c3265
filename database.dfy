/** The server's MongoDB database: four collections, each a map from a
    document's key to the document. Conversations, notes and notebooks are
    keyed by the canonical form of their ObjectId. File storage documents are
    keyed by `notebookId`, the only way the server ever looks them up. */
module Database {
  import opened Common
  import opened FileSchema
  import opened Pydantic
  import opened NotebookSchema

  datatype ConversationDoc = ConversationDoc(
    notebookId: string, title: string, messages: seq<Value>,
    created_at: int, updated_at: int, deleted: bool, deleted_at: Option<int>, expireAt: int)

  /** `blocks` holds the dumped blocks exactly as they were stored. */
  datatype NoteDoc = NoteDoc(
    title: string, notebookId: string, blocks: seq<Value>, created_at: int, updated_at: int)

  /** A storage document created by an upsert has no `created_at`. */
  datatype StorageDoc = StorageDoc(file_list: seq<SingleFile>, created_at: Option<int>, updated_at: int)

  class Db {
    /** Notebooks are stored as the documents the routes wrote, since
        `update_notebook` sets arbitrary subsets of their fields. */
    var notebooks: map<string, seq<Field>>
    var conversations: map<string, ConversationDoc>
    var notes: map<string, NoteDoc>
    var files: map<string, StorageDoc>

    /** What every route keeps: each notebook document reads back as a
        `Notebook`, and each stored file has been stamped with `updated_at`. */
    predicate Valid()
      reads this
    {
      NotebooksRead(notebooks) && (forall k :: k in files ==> Stamped(files[k].file_list))
    }

    constructor ()
      ensures Valid()
      ensures notebooks == map[] && conversations == map[] && notes == map[] && files == map[]
    {
      notebooks := map[];
      conversations := map[];
      notes := map[];
      files := map[];
    }
  }

  /** Every notebook document reads back as a `Notebook`. */
  predicate NotebooksRead(m: map<string, seq<Field>>) {
    forall k :: k in m ==> ReadNotebook(m[k]).Some?
  }

  lemma NotebooksReadPut(m: map<string, seq<Field>>, k: string, doc: seq<Field>)
    requires NotebooksRead(m) && ReadNotebook(doc).Some?
    ensures NotebooksRead(m[k := doc])
  {
  }

  lemma NotebooksReadRemove(m: map<string, seq<Field>>, k: string)
    requires NotebooksRead(m)
    ensures NotebooksRead(m - {k})
  {
  }

  predicate Stamped(fs: seq<SingleFile>) {
    forall i :: 0 <= i < |fs| ==> fs[i].updated_at.Some?
  }

  /** `doc.get(k, d)`. */
  function GetOr(doc: seq<Field>, k: string, d: Value): (r: Value)
    ensures Get(doc, k).Some? ==> Some(r) == Get(doc, k)
    ensures Get(doc, k).None? ==> r == d
  {
    match Get(doc, k)
    case Some(v) => v
    case None => d
  }

  /** `Notebook(title=doc["title"], avatar=doc.get("avatar", ""),
      bgcolor=doc.get("bgcolor", ""), created_at=doc["created_at"],
      updated_at=doc.get("updated_at"))`: `None` when a required key is
      missing or a value does not validate. */
  function ReadNotebook(doc: seq<Field>): (r: Option<Notebook>)
    ensures r.Some? ==> Get(doc, "title") == Some(Str(r.value.title)) && Get(doc, "created_at") == Some(Time(r.value.created_at))
  {
    var title := ReqStr(doc, "title");
    var avatar := StrOr(doc, "avatar", "");
    var bgcolor := StrOr(doc, "bgcolor", "");
    var createdAt := ReqTime(doc, "created_at");
    var updatedAt := OptTime(doc, "updated_at");
    if title.None? || avatar.None? || bgcolor.None? || createdAt.None? || updatedAt.None? then None
    else Some(Notebook(title.value, avatar.value, bgcolor.value, createdAt.value, updatedAt.value))
  }

  /** A stored dump reads back as the notebook that was dumped. */
  lemma ReadDumped(n: Notebook)
    ensures ReadNotebook(DumpNotebook(n).fields) == Some(n)
  {
    FieldsOfDump(n);
    NotebookFields(n, 0);
  }

  /** `{"$set": fs}` on a document with distinct keys in `fs`: each named
      field takes its new value, in place if present and at the end if not,
      and every other field is kept. */
  function SetAll(doc: seq<Field>, fs: seq<Field>): (r: seq<Field>)
    ensures forall k :: Get(r, k) == if Get(fs, k).Some? then Get(fs, k) else Get(doc, k)
  {
    if |fs| == 0 then doc
    else
      var rest := SetAll(doc, fs[1..]);
      var r := Put(rest, fs[0].key, fs[0].value);
      assert fs == [fs[0]] + fs[1..];
      forall k ensures Get(r, k) == if Get(fs, k).Some? then Get(fs, k) else Get(doc, k) {
        GetCons(fs[0], fs[1..], k);
      }
      r
  }
}
