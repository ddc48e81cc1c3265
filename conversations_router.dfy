/** The `/conversations` routes. Messages are kept as the documents
    `MessageItem.model_dump()` produced. The RAG pipeline's answer is a
    parameter, and so are the ids Mongo and `uuid4` hand out. */
module ConversationsRouter {
  import opened Common
  import opened Listing
  import opened Database

  const TTL_DAYS: int := 3
  const NO_CONVERSATION: string := "Conversation not found"

  /** `now + timedelta(days=3)`. */
  function ExpireAt(now: int): int { now + TTL_DAYS * DAY }

  /** The document `create_conversation` inserts. */
  function NewConversation(notebookId: string, now: int): (d: ConversationDoc)
    ensures d.title == "New chat" && d.notebookId == notebookId && d.messages == []
    ensures d.created_at == d.updated_at == now && !d.deleted && d.deleted_at.None? && d.expireAt == now + 3 * DAY
  {
    ConversationDoc(notebookId, "New chat", [], now, now, false, None, ExpireAt(now))
  }

  /** `$push` of one message with `$set` of `updated_at` and `expireAt`. */
  function Pushed(d: ConversationDoc, message: Value, now: int): (r: ConversationDoc)
    ensures r.messages == d.messages + [message] && r.updated_at == now && r.expireAt == now + 3 * DAY
    ensures r.title == d.title && r.notebookId == d.notebookId && r.created_at == d.created_at
    ensures r.deleted == d.deleted && r.deleted_at == d.deleted_at
    ensures r != d
  {
    d.(messages := d.messages + [message], updated_at := now, expireAt := ExpireAt(now))
  }

  /** The soft delete's `$set`. */
  function SoftDeleted(d: ConversationDoc, now: int): (r: ConversationDoc)
    ensures r.deleted && r.deleted_at == Some(now) && r.expireAt == now + 3 * DAY
    ensures r.messages == d.messages && r.title == d.title && r.notebookId == d.notebookId
    ensures r.created_at == d.created_at && r.updated_at == d.updated_at
  {
    d.(deleted := true, deleted_at := Some(now), expireAt := ExpireAt(now))
  }

  // ------------------------------------------------------------------ routes

  /** `create_conversation`: `newId` is the id the insert is given. */
  method CreateConversation(db: Db, notebookId: string, newId: string, now: int) returns (r: Response<string>)
    requires IsCanonicalId(newId) && newId !in db.conversations
    modifies db
    ensures ParseObjectId(notebookId).Some? <==> r.Ok?
    ensures r.Fail? ==> r == Fail(400, "Invalid notebookId format")
    ensures r.Fail? ==> db.conversations == old(db.conversations)
    ensures r.Ok? ==> r.body == newId && db.conversations == old(db.conversations)[newId := NewConversation(notebookId, now)]
    ensures db.notebooks == old(db.notebooks) && db.files == old(db.files) && db.notes == old(db.notes)
  {
    if ParseObjectId(notebookId).None? {
      return Fail(400, "Invalid notebookId format");
    }
    db.conversations := db.conversations[newId := NewConversation(notebookId, now)];
    r := Ok(newId);
  }

  /** `update_conversation`: the push always changes a document it finds, so
      the only 404 is a missing conversation. */
  method UpdateConversation(db: Db, conversationId: string, message: Value, now: int) returns (r: Response<()>)
    modifies db
    ensures ParseObjectId(conversationId).None? ==> r == Fail(400, "Invalid conversationId format") && db.conversations == old(db.conversations)
    ensures ParseObjectId(conversationId).Some? ==>
      var key := ParseObjectId(conversationId).value;
      && (r.Ok? <==> key in old(db.conversations))
      && (r.Ok? ==> db.conversations == old(db.conversations)[key := Pushed(old(db.conversations)[key], message, now)])
      && (r.Fail? ==> r == Fail(404, NO_CONVERSATION) && db.conversations == old(db.conversations))
    ensures db.notebooks == old(db.notebooks) && db.files == old(db.files) && db.notes == old(db.notes)
  {
    var id := ParseObjectId(conversationId);
    if id.None? {
      return Fail(400, "Invalid conversationId format");
    }
    var key := id.value;
    if key in db.conversations {
      db.conversations := db.conversations[key := Pushed(db.conversations[key], message, now)];
      r := Ok(());
    } else {
      r := Fail(404, NO_CONVERSATION);
    }
  }

  /** The filter `{"notebookId": notebookId, "deleted": {"$ne": True}}`. */
  predicate Listed(d: ConversationDoc, notebookId: string) {
    d.notebookId == notebookId && !d.deleted
  }

  /** `get_all_conversation`: the notebook's conversations that are not
      deleted, newest first, each as its id and title. */
  method GetAllConversation(db: Db, notebookId: string) returns (rows: seq<Row>)
    ensures forall i :: 0 <= i < |rows| ==>
      rows[i].id in db.conversations && Listed(db.conversations[rows[i].id], notebookId)
      && rows[i].title == db.conversations[rows[i].id].title
    ensures forall k :: k in db.conversations && Listed(db.conversations[k], notebookId) ==>
      exists i :: 0 <= i < |rows| && rows[i].id == k
    ensures forall i, j :: 0 <= i < j < |rows| ==> rows[i].id != rows[j].id
    ensures forall i, j :: 0 <= i < j < |rows| ==>
      db.conversations[rows[i].id].updated_at >= db.conversations[rows[j].id].updated_at
  {
    var convs := db.conversations;
    var ids := NewestFirst(convs, (d: ConversationDoc) => Listed(d, notebookId), (d: ConversationDoc) => d.updated_at);
    rows := [];
    var i := 0;
    while i < |ids|
      invariant 0 <= i <= |ids|
      invariant |rows| == i
      invariant forall j :: 0 <= j < i ==> rows[j] == Row(ids[j], convs[ids[j]].title)
    {
      rows := rows + [Row(ids[i], convs[ids[i]].title)];
      i := i + 1;
    }
    forall k | k in convs && Listed(convs[k], notebookId) ensures exists i :: 0 <= i < |rows| && rows[i].id == k {
      var i :| 0 <= i < |ids| && ids[i] == k;
      assert rows[i].id == k;
    }
  }

  datatype Chat = Chat(title: string, messages: seq<Value>)

  /** `get_conversation`: the title and the messages in stored order. */
  function GetConversation(convs: map<string, ConversationDoc>, sessionId: string): (r: Response<Chat>)
    ensures ParseObjectId(sessionId).None? <==> r == Fail(400, "Invalid session_id format")
    ensures ParseObjectId(sessionId).Some? ==>
      var key := ParseObjectId(sessionId).value;
      && (key !in convs ==> r == Fail(404, NO_CONVERSATION))
      && (key in convs ==> r == Ok(Chat(convs[key].title, convs[key].messages)))
  {
    match ParseObjectId(sessionId)
    case None => Fail(400, "Invalid session_id format")
    case Some(key) => if key in convs then Ok(Chat(convs[key].title, convs[key].messages)) else Fail(404, NO_CONVERSATION)
  }

  /** `update_title`: only the title changes, and setting the title a
      conversation already has modifies nothing and is a 404. */
  method UpdateTitle(db: Db, sessionId: string, title: string) returns (r: Response<()>)
    modifies db
    ensures ParseObjectId(sessionId).None? ==> r == Fail(400, "Invalid session_id format") && db.conversations == old(db.conversations)
    ensures ParseObjectId(sessionId).Some? ==>
      var key := ParseObjectId(sessionId).value;
      && (r.Ok? <==> key in old(db.conversations) && old(db.conversations)[key].title != title)
      && (r.Ok? ==> db.conversations == old(db.conversations)[key := old(db.conversations)[key].(title := title)])
      && (r.Fail? ==> r == Fail(404, NO_CONVERSATION) && db.conversations == old(db.conversations))
    ensures db.notebooks == old(db.notebooks) && db.files == old(db.files) && db.notes == old(db.notes)
  {
    var id := ParseObjectId(sessionId);
    if id.None? {
      return Fail(400, "Invalid session_id format");
    }
    var key := id.value;
    if key in db.conversations && db.conversations[key].title != title {
      db.conversations := db.conversations[key := db.conversations[key].(title := title)];
      r := Ok(());
    } else {
      r := Fail(404, NO_CONVERSATION);
    }
  }

  /** `delete_conversation`: a soft delete; the document stays until its
      `expireAt`. Deleting again at the same instant modifies nothing. */
  method DeleteConversation(db: Db, sessionId: string, now: int) returns (r: Response<()>)
    modifies db
    ensures ParseObjectId(sessionId).None? ==> r == Fail(400, "Invalid session_id format") && db.conversations == old(db.conversations)
    ensures ParseObjectId(sessionId).Some? ==>
      var key := ParseObjectId(sessionId).value;
      && (r.Ok? <==> key in old(db.conversations) && SoftDeleted(old(db.conversations)[key], now) != old(db.conversations)[key])
      && (r.Ok? ==> db.conversations == old(db.conversations)[key := SoftDeleted(old(db.conversations)[key], now)])
      && (r.Fail? ==> r == Fail(404, NO_CONVERSATION) && db.conversations == old(db.conversations))
    ensures db.notebooks == old(db.notebooks) && db.files == old(db.files) && db.notes == old(db.notes)
  {
    var id := ParseObjectId(sessionId);
    if id.None? {
      return Fail(400, "Invalid session_id format");
    }
    var key := id.value;
    if key in db.conversations && SoftDeleted(db.conversations[key], now) != db.conversations[key] {
      db.conversations := db.conversations[key := SoftDeleted(db.conversations[key], now)];
      r := Ok(());
    } else {
      r := Fail(404, NO_CONVERSATION);
    }
  }

  /** A soft-deleted conversation is kept, still readable by id, and no longer
      listed. */
  lemma DeletedNotListed(convs: map<string, ConversationDoc>, key: string, notebookId: string, now: int)
    requires key in convs
    ensures var after := convs[key := SoftDeleted(convs[key], now)];
      !Listed(after[key], notebookId) && after[key].messages == convs[key].messages
      && forall k :: k in convs && k != key ==> (Listed(after[k], notebookId) <==> Listed(convs[k], notebookId))
  {
  }

  /** A message added by `update_conversation` is read back last. */
  lemma UpdateThenGet(convs: map<string, ConversationDoc>, conversationId: string, message: Value, now: int)
    requires ParseObjectId(conversationId).Some? && ParseObjectId(conversationId).value in convs
    ensures var key := ParseObjectId(conversationId).value;
      GetConversation(convs[key := Pushed(convs[key], message, now)], conversationId)
        == Ok(Chat(convs[key].title, convs[key].messages + [message]))
  {
  }

  // ------------------------------------------------------------------ query_rag

  /** What the intent classifier and `rag.query` answer. */
  datatype RagAnswer = RagAnswer(intent: string, text: string)

  datatype QueryResponse = QueryResponse(response_message: Value, intent: string, mode: string)

  /** The assistant's message: one text part. */
  function AssistantMessage(id: string, text: string): (m: Value)
    ensures m.Obj? && Get(m.fields, "role") == Some(Str("assistant")) && Get(m.fields, "id") == Some(Str(id))
    ensures Get(m.fields, "parts") == Some(Arr([Obj([Field("type", Str("text")), Field("text", Str(text))])]))
  {
    var fs := [Field("id", Str(id)), Field("role", Str("assistant")),
               Field("parts", Arr([Obj([Field("type", Str("text")), Field("text", Str(text))])]))];
    GetAt(fs, 0, "id");
    GetAt(fs, 1, "role");
    GetAt(fs, 2, "parts");
    Obj(fs)
  }

  /** `query_rag`: every error, including its own 400 and 404, is re-raised
      as 500 with the text of the original error. The user's message is
      stored before the RAG call, so it stays when that call fails. */
  method QueryRag(db: Db, conversationId: string, userMessage: Value, rag: Response<RagAnswer>,
                  messageId: string, now: int) returns (r: Response<QueryResponse>)
    modifies db
    ensures ParseObjectId(conversationId).None? ==> r == Fail(500, "400: Invalid conversationId") && db.conversations == old(db.conversations)
    ensures ParseObjectId(conversationId).Some? && ParseObjectId(conversationId).value !in old(db.conversations) ==>
      r == Fail(500, "404: " + NO_CONVERSATION) && db.conversations == old(db.conversations)
    ensures ParseObjectId(conversationId).Some? && ParseObjectId(conversationId).value in old(db.conversations) ==>
      var key := ParseObjectId(conversationId).value;
      var asked := Pushed(old(db.conversations)[key], userMessage, now);
      && (rag.Fail? ==> r == Fail(500, rag.detail) && db.conversations == old(db.conversations)[key := asked])
      && (rag.Ok? ==>
            var answer := AssistantMessage(messageId, rag.body.text);
            r == Ok(QueryResponse(answer, rag.body.intent, "Hybrid/Full"))
            && db.conversations == old(db.conversations)[key := Pushed(asked, answer, now)])
    ensures db.notebooks == old(db.notebooks) && db.files == old(db.files) && db.notes == old(db.notes)
  {
    var id := ParseObjectId(conversationId);
    if id.None? {
      return Fail(500, "400: Invalid conversationId");
    }
    var key := id.value;
    if key !in db.conversations {
      return Fail(500, "404: " + NO_CONVERSATION);
    }
    db.conversations := db.conversations[key := Pushed(db.conversations[key], userMessage, now)];
    if rag.Fail? {
      return Fail(500, rag.detail);
    }
    var answer := AssistantMessage(messageId, rag.body.text);
    db.conversations := db.conversations[key := Pushed(db.conversations[key], answer, now)];
    r := Ok(QueryResponse(answer, rag.body.intent, "Hybrid/Full"));
  }

  /** After a successful query the conversation ends with the user's message
      followed by the assistant's. */
  lemma QueryAppendsInOrder(d: ConversationDoc, userMessage: Value, answer: Value, now: int)
    ensures var after := Pushed(Pushed(d, userMessage, now), answer, now);
      after.messages == d.messages + [userMessage, answer]
      && after.messages[|after.messages| - 2] == userMessage && after.messages[|after.messages| - 1] == answer
  {
  }
}
