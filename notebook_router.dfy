/** The `/notebooks` routes. Notebook documents are kept field by field,
    because `update_notebook` sets whichever fields the request supplied. */
module NotebookRouter {
  import opened Common
  import opened Listing
  import opened Pydantic
  import opened NotebookSchema
  import opened Database
  import ConversationsRouter
  import FilesRouter

  const NO_NOTEBOOK: string := "Notebook not found"

  /** What an uncaught exception turns into. */
  const SERVER_ERROR: string := "Internal Server Error"

  datatype NotebookRow = NotebookRow(id: string, notebook: Notebook)

  /** `get_all_notebooks`: every notebook once, with "" for a missing
      `avatar` or `bgcolor`. The order is the store's. */
  method GetAllNotebooks(db: Db) returns (rows: seq<NotebookRow>)
    requires db.Valid()
    ensures forall i :: 0 <= i < |rows| ==>
      rows[i].id in db.notebooks && Some(rows[i].notebook) == ReadNotebook(db.notebooks[rows[i].id])
    ensures forall k :: k in db.notebooks ==> exists i :: 0 <= i < |rows| && rows[i].id == k
    ensures forall i, j :: 0 <= i < j < |rows| ==> rows[i].id != rows[j].id
  {
    var docs := db.notebooks;
    var ids := Enumerate(docs);
    rows := [];
    var i := 0;
    while i < |ids|
      invariant 0 <= i <= |ids|
      invariant |rows| == i
      invariant forall j :: 0 <= j < i ==> rows[j].id == ids[j] && Some(rows[j].notebook) == ReadNotebook(docs[ids[j]])
    {
      rows := rows + [NotebookRow(ids[i], ReadNotebook(docs[ids[i]]).value)];
      i := i + 1;
    }
    forall k | k in docs ensures exists i :: 0 <= i < |rows| && rows[i].id == k {
      var i :| 0 <= i < |ids| && ids[i] == k;
      assert rows[i].id == k;
    }
  }

  datatype NotebookInfo = NotebookInfo(conversationId: string, created_at: int, updated_at: Option<int>)

  /** The conversation filter of `get_notebook` compares the id as the
      client wrote it, and has no `deleted` condition. */
  predicate OfNotebook(d: ConversationDoc, notebookId: string) {
    d.notebookId == notebookId
  }

  /** `get_notebook`: a malformed id and a notebook without a conversation
      both raise outside any handler (500). Otherwise the answer names a most
      recently updated conversation of the notebook, deleted or not. */
  method GetNotebook(db: Db, notebookId: string) returns (r: Response<NotebookInfo>)
    requires db.Valid()
    ensures ParseObjectId(notebookId).None? ==> r == Fail(500, SERVER_ERROR)
    ensures ParseObjectId(notebookId).Some? && ParseObjectId(notebookId).value !in db.notebooks ==> r == Fail(404, NO_NOTEBOOK)
    ensures ParseObjectId(notebookId).Some? && ParseObjectId(notebookId).value in db.notebooks ==>
      var n := ReadNotebook(db.notebooks[ParseObjectId(notebookId).value]).value;
      && (r.Ok? <==> exists k :: k in db.conversations && OfNotebook(db.conversations[k], notebookId))
      && (r.Fail? ==> r == Fail(500, SERVER_ERROR))
      && (r.Ok? ==> (r.body.created_at == n.created_at && r.body.updated_at == n.updated_at
                     && r.body.conversationId in db.conversations
                     && OfNotebook(db.conversations[r.body.conversationId], notebookId)
                     && forall k :: k in db.conversations && OfNotebook(db.conversations[k], notebookId) ==>
                          db.conversations[k].updated_at <= db.conversations[r.body.conversationId].updated_at))
  {
    var id := ParseObjectId(notebookId);
    if id.None? {
      return Fail(500, SERVER_ERROR);
    }
    if id.value !in db.notebooks {
      return Fail(404, NO_NOTEBOOK);
    }
    var n := ReadNotebook(db.notebooks[id.value]).value;
    var convs := db.conversations;
    var ids := NewestFirst(convs, (d: ConversationDoc) => OfNotebook(d, notebookId), (d: ConversationDoc) => d.updated_at);
    if |ids| == 0 {
      return Fail(500, SERVER_ERROR);
    }
    forall k | k in convs && OfNotebook(convs[k], notebookId) ensures convs[k].updated_at <= convs[ids[0]].updated_at {
      var i :| 0 <= i < |ids| && ids[i] == k;
    }
    r := Ok(NotebookInfo(ids[0], n.created_at, n.updated_at));
  }

  datatype Created = Created(notebookId: string, conversationId: string, fileStorageId: string)

  /** The document `create_notebook` inserts: the validated body with both
      stamps set to the time of the request. */
  function NewNotebook(upload: Notebook, now: int): (n: Notebook)
    ensures n.title == upload.title && n.avatar == upload.avatar && n.bgcolor == upload.bgcolor
    ensures n.created_at == now && n.updated_at == Some(now)
  {
    upload.(created_at := now, updated_at := Some(now))
  }

  /** `create_notebook`: the notebook, then its first conversation and its
      file storage, each under the new notebook's id. The three ids are the
      ones the inserts are given. */
  method CreateNotebook(db: Db, upload: Notebook, notebookId: string, conversationId: string,
                        fileStorageId: string, now: int) returns (r: Created)
    requires db.Valid()
    requires IsCanonicalId(notebookId) && notebookId !in db.notebooks
    requires IsCanonicalId(conversationId) && conversationId !in db.conversations
    modifies db
    ensures db.Valid()
    ensures r == Created(notebookId, conversationId, fileStorageId)
    ensures db.notebooks == old(db.notebooks)[notebookId := DumpNotebook(NewNotebook(upload, now)).fields]
    ensures db.conversations == old(db.conversations)[conversationId := ConversationsRouter.NewConversation(notebookId, now)]
    ensures notebookId !in old(db.files) ==> db.files == old(db.files)[notebookId := StorageDoc([], Some(now), now)]
    ensures notebookId in old(db.files) ==> db.files == old(db.files)
    ensures db.notes == old(db.notes)
  {
    ReadDumped(NewNotebook(upload, now));
    NotebooksReadPut(db.notebooks, notebookId, DumpNotebook(NewNotebook(upload, now)).fields);
    db.notebooks := db.notebooks[notebookId := DumpNotebook(NewNotebook(upload, now)).fields];
    assert ParseObjectId(notebookId).Some?;
    var conversation := ConversationsRouter.CreateConversation(db, notebookId, conversationId, now);
    assert conversation.Ok?;
    var storage := FilesRouter.CreateFileStorage(db, notebookId, fileStorageId, now);
    r := Created(notebookId, conversation.body, storage);
  }

  /** A new notebook reads back with the uploaded fields and both stamps. */
  lemma CreatedReadsBack(upload: Notebook, now: int)
    ensures ReadNotebook(DumpNotebook(NewNotebook(upload, now)).fields)
      == Some(Notebook(upload.title, upload.avatar, upload.bgcolor, now, Some(now)))
  {
    ReadDumped(NewNotebook(upload, now));
  }

  /** `update_title`: only the title is set; its 404 says "Conversation not
      found". */
  method UpdateTitle(db: Db, notebookId: string, title: string) returns (r: Response<()>)
    requires db.Valid()
    modifies db
    ensures db.Valid()
    ensures ParseObjectId(notebookId).None? ==> r == Fail(400, "Invalid notebook_id format") && db.notebooks == old(db.notebooks)
    ensures ParseObjectId(notebookId).Some? ==>
      var key := ParseObjectId(notebookId).value;
      && (r.Ok? <==> key in old(db.notebooks) && Get(old(db.notebooks)[key], "title") != Some(Str(title)))
      && (r.Ok? ==> db.notebooks == old(db.notebooks)[key := Put(old(db.notebooks)[key], "title", Str(title))])
      && (r.Fail? ==> r == Fail(404, "Conversation not found") && db.notebooks == old(db.notebooks))
    ensures db.conversations == old(db.conversations) && db.files == old(db.files) && db.notes == old(db.notes)
  {
    var id := ParseObjectId(notebookId);
    if id.None? {
      return Fail(400, "Invalid notebook_id format");
    }
    var key := id.value;
    if key in db.notebooks && Get(db.notebooks[key], "title") != Some(Str(title)) {
      var doc := db.notebooks[key];
      RetitleReads(doc, title);
      StoreNotebook(db, key, Put(doc, "title", Str(title)));
      r := Ok(());
    } else {
      r := Fail(404, "Conversation not found");
    }
  }

  /** A retitled notebook reads back with the new title and nothing else
      changed. */
  lemma RetitleReads(doc: seq<Field>, title: string)
    requires ReadNotebook(doc).Some?
    ensures ReadNotebook(Put(doc, "title", Str(title))) == Some(ReadNotebook(doc).value.(title := title))
  {
    var m := ReadNotebook(doc).value.(title := title);
    var d2 := Put(doc, "title", Str(title));
    ReadParts(doc);
    assert ReqStr(d2, "title") == Some(title);
    assert Get(d2, "avatar") == Get(doc, "avatar");
    assert Get(d2, "bgcolor") == Get(doc, "bgcolor");
    assert Get(d2, "created_at") == Get(doc, "created_at");
    assert Get(d2, "updated_at") == Get(doc, "updated_at");
    ReadFromParts(d2, m);
  }

  /** `{**upload.model_dump(exclude_unset=True), "updated_at": now}`. */
  function UpdateSet(body: seq<Field>, u: Notebook, now: int): seq<Field> {
    Put(DumpSet(body, u), "updated_at", Time(now))
  }

  /** The notebook after `update_notebook`: each field the body supplied,
      the old value of every other one, and the new `updated_at`. */
  function Updated(n: Notebook, body: seq<Field>, u: Notebook, now: int): Notebook {
    Notebook(if Get(body, "title").Some? then u.title else n.title,
             if Get(body, "avatar").Some? then u.avatar else n.avatar,
             if Get(body, "bgcolor").Some? then u.bgcolor else n.bgcolor,
             if Get(body, "created_at").Some? then u.created_at else n.created_at,
             Some(now))
  }

  /** `update_notebook`: a body that does not validate is refused (422)
      before the route runs. */
  method UpdateNotebook(db: Db, notebookId: string, body: seq<Field>, now: int) returns (r: Response<Notebook>)
    requires db.Valid()
    modifies db
    ensures db.Valid()
    ensures ParseNotebook(Obj(body), now).None? ==> r == Fail(422, "Unprocessable Entity") && db.notebooks == old(db.notebooks)
    ensures ParseNotebook(Obj(body), now).Some? && ParseObjectId(notebookId).None? ==>
      r == Fail(400, "Invalid notebookId format") && db.notebooks == old(db.notebooks)
    ensures ParseNotebook(Obj(body), now).Some? && ParseObjectId(notebookId).Some? ==>
      var u := ParseNotebook(Obj(body), now).value;
      var key := ParseObjectId(notebookId).value;
      && (r.Ok? <==> key in old(db.notebooks) && SetAll(old(db.notebooks)[key], UpdateSet(body, u, now)) != old(db.notebooks)[key])
      && (r.Ok? ==> db.notebooks == old(db.notebooks)[key := SetAll(old(db.notebooks)[key], UpdateSet(body, u, now))]
                    && r.body == Updated(ReadNotebook(old(db.notebooks)[key]).value, body, u, now))
      && (r.Fail? ==> r == Fail(404, NO_NOTEBOOK) && db.notebooks == old(db.notebooks))
    ensures db.conversations == old(db.conversations) && db.files == old(db.files) && db.notes == old(db.notes)
  {
    var upload := ParseNotebook(Obj(body), now);
    if upload.None? {
      return Fail(422, "Unprocessable Entity");
    }
    var id := ParseObjectId(notebookId);
    if id.None? {
      return Fail(400, "Invalid notebookId format");
    }
    r := SetNotebook(db, id.value, body, upload.value, now);
  }

  /** The `$set` of `update_notebook` on the notebook stored under `key`,
      and the re-read that follows it. */
  method SetNotebook(db: Db, key: string, body: seq<Field>, u: Notebook, now: int) returns (r: Response<Notebook>)
    requires db.Valid()
    modifies db
    ensures db.Valid()
    ensures r.Ok? <==> key in old(db.notebooks) && SetAll(old(db.notebooks)[key], UpdateSet(body, u, now)) != old(db.notebooks)[key]
    ensures r.Ok? ==> db.notebooks == old(db.notebooks)[key := SetAll(old(db.notebooks)[key], UpdateSet(body, u, now))]
                      && r.body == Updated(ReadNotebook(old(db.notebooks)[key]).value, body, u, now)
    ensures r.Fail? ==> r == Fail(404, NO_NOTEBOOK) && db.notebooks == old(db.notebooks)
    ensures db.conversations == old(db.conversations) && db.files == old(db.files) && db.notes == old(db.notes)
  {
    if key !in db.notebooks {
      return Fail(404, NO_NOTEBOOK);
    }
    var doc := db.notebooks[key];
    var updated := SetAll(doc, UpdateSet(body, u, now));
    if updated == doc {
      return Fail(404, NO_NOTEBOOK);
    }
    UpdateReads(doc, body, u, now);
    StoreNotebook(db, key, updated);
    r := Ok(ReadNotebook(updated).value);
  }

  /** Stores a notebook document that reads back. */
  method StoreNotebook(db: Db, key: string, doc: seq<Field>)
    requires db.Valid() && ReadNotebook(doc).Some?
    modifies db
    ensures db.Valid() && db.notebooks == old(db.notebooks)[key := doc]
    ensures db.conversations == old(db.conversations) && db.files == old(db.files) && db.notes == old(db.notes)
  {
    NotebooksReadPut(db.notebooks, key, doc);
    db.notebooks := db.notebooks[key := doc];
  }

  /** What the update sets, key by key. */
  lemma UpdateSetGet(body: seq<Field>, u: Notebook, now: int)
    ensures Get(UpdateSet(body, u, now), "updated_at") == Some(Time(now))
    ensures Get(UpdateSet(body, u, now), "title") == if Get(body, "title").Some? then Some(Str(u.title)) else None
    ensures Get(UpdateSet(body, u, now), "avatar") == if Get(body, "avatar").Some? then Some(Str(u.avatar)) else None
    ensures Get(UpdateSet(body, u, now), "bgcolor") == if Get(body, "bgcolor").Some? then Some(Str(u.bgcolor)) else None
    ensures Get(UpdateSet(body, u, now), "created_at") == if Get(body, "created_at").Some? then Some(Time(u.created_at)) else None
  {
  }

  /** The updated document reads back as `Updated`. */
  lemma UpdateReads(doc: seq<Field>, body: seq<Field>, u: Notebook, now: int)
    requires ReadNotebook(doc).Some?
    ensures ReadNotebook(SetAll(doc, UpdateSet(body, u, now))) == Some(Updated(ReadNotebook(doc).value, body, u, now))
  {
    var n := ReadNotebook(doc).value;
    var m := Updated(n, body, u, now);
    var fs := UpdateSet(body, u, now);
    UpdateSetGet(body, u, now);
    var d2 := SetAll(doc, fs);
    ReadParts(doc);
    assert ReqStr(d2, "title") == Some(m.title) by {
      assert Get(d2, "title") == if Get(body, "title").Some? then Some(Str(u.title)) else Get(doc, "title");
    }
    assert StrOr(d2, "avatar", "") == Some(m.avatar) by {
      assert Get(d2, "avatar") == if Get(body, "avatar").Some? then Some(Str(u.avatar)) else Get(doc, "avatar");
    }
    assert StrOr(d2, "bgcolor", "") == Some(m.bgcolor) by {
      assert Get(d2, "bgcolor") == if Get(body, "bgcolor").Some? then Some(Str(u.bgcolor)) else Get(doc, "bgcolor");
    }
    assert ReqTime(d2, "created_at") == Some(m.created_at) by {
      assert Get(d2, "created_at") == if Get(body, "created_at").Some? then Some(Time(u.created_at)) else Get(doc, "created_at");
    }
    assert OptTime(d2, "updated_at") == Some(m.updated_at) by {
      assert Get(d2, "updated_at") == Some(Time(now));
    }
    ReadFromParts(d2, m);
  }

  /** What each field's validation gave, for a document that reads back. */
  lemma ReadParts(doc: seq<Field>)
    requires ReadNotebook(doc).Some?
    ensures var n := ReadNotebook(doc).value;
      ReqStr(doc, "title") == Some(n.title) && StrOr(doc, "avatar", "") == Some(n.avatar)
      && StrOr(doc, "bgcolor", "") == Some(n.bgcolor) && ReqTime(doc, "created_at") == Some(n.created_at)
      && OptTime(doc, "updated_at") == Some(n.updated_at)
  {
  }

  lemma ReadFromParts(doc: seq<Field>, n: Notebook)
    requires ReqStr(doc, "title") == Some(n.title) && StrOr(doc, "avatar", "") == Some(n.avatar)
    requires StrOr(doc, "bgcolor", "") == Some(n.bgcolor) && ReqTime(doc, "created_at") == Some(n.created_at)
    requires OptTime(doc, "updated_at") == Some(n.updated_at)
    ensures ReadNotebook(doc) == Some(n)
  {
  }

  /** `delete_notebook`: a malformed id raises outside any handler (500).
      Only the notebook goes; its conversations and file storage stay. */
  method DeleteNotebook(db: Db, notebookId: string) returns (r: Response<()>)
    requires db.Valid()
    modifies db
    ensures db.Valid()
    ensures ParseObjectId(notebookId).None? ==> r == Fail(500, SERVER_ERROR) && db.notebooks == old(db.notebooks)
    ensures ParseObjectId(notebookId).Some? ==>
      var key := ParseObjectId(notebookId).value;
      && (r.Ok? <==> key in old(db.notebooks))
      && (r.Ok? ==> db.notebooks == old(db.notebooks) - {key})
      && (r.Fail? ==> r == Fail(404, NO_NOTEBOOK) && db.notebooks == old(db.notebooks))
    ensures db.conversations == old(db.conversations) && db.files == old(db.files) && db.notes == old(db.notes)
  {
    var id := ParseObjectId(notebookId);
    if id.None? {
      return Fail(500, SERVER_ERROR);
    }
    if id.value in db.notebooks {
      NotebooksReadRemove(db.notebooks, id.value);
      db.notebooks := db.notebooks - {id.value};
      r := Ok(());
    } else {
      r := Fail(404, NO_NOTEBOOK);
    }
  }
}
