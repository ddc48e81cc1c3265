/** The `POST /api/search` route: asks a language model for web sources,
    strips the Markdown code fence around its JSON answer, parses it and
    gives every item a fresh `public_id`. The model call, `JSON.parse` and
    `uuidv4` are parameters: `generated` is the model's text (`None` when
    the call threw), `parse` is `JSON.parse` (`None` when it throws), and
    `newId(k)` is the id of the `k`-th item. */
module SearchRoute {
  import opened Common
  import opened Text

  const MISSING_QUERY: string := "Missing 'query' in request body"
  const SEARCH_FAILED: string := "Failed to fetch AI search results"
  const OPEN_FENCE: string := "```json"
  const CLOSE_FENCE: string := "```"

  /** What the route hands back: a JSON answer with its status, or an
      exception thrown before the `try`, which the framework answers for. */
  datatype Answer = Json(status: int, body: Value) | Thrown

  function Error(status: int, message: string): (a: Answer)
    ensures a.Json? && a.status == status
  {
    Json(status, Obj([Field("error", Str(message))]))
  }

  /** JavaScript truthiness of a JSON value; `None` is `undefined`. */
  predicate Truthy(v: Option<Value>) {
    match v
    case None => false
    case Some(Null) => false
    case Some(Bool(b)) => b
    case Some(Int(i)) => i != 0
    case Some(Float(r)) => r != 0.0
    case Some(Str(s)) => s != ""
    case Some(_) => true
  }

  /** `body.query` on a parsed body that is not `null`: only objects have
      fields. */
  function QueryOf(body: Value): Option<Value>
    requires !body.Null?
  {
    if body.Obj? then Get(body.fields, "query") else None
  }

  /** The first `replace`: a leading "```json" and the white space after
      it. */
  function StripOpen(raw: string): (r: string)
    ensures |raw| >= 7 && raw[..7] == OPEN_FENCE ==> r == TrimStart(raw[7..])
    ensures !(|raw| >= 7 && raw[..7] == OPEN_FENCE) ==> r == raw
  {
    if |raw| >= 7 && raw[..7] == OPEN_FENCE then TrimStart(raw[7..]) else raw
  }

  /** The second `replace`: a final "```" and the white space before it.
      The leftmost match starts where that white space run starts. */
  function StripClose(raw: string): (r: string)
    ensures |raw| >= 3 && raw[|raw| - 3..] == CLOSE_FENCE ==> r == TrimEnd(raw[..|raw| - 3])
    ensures !(|raw| >= 3 && raw[|raw| - 3..] == CLOSE_FENCE) ==> r == raw
  {
    if |raw| >= 3 && raw[|raw| - 3..] == CLOSE_FENCE then TrimEnd(raw[..|raw| - 3]) else raw
  }

  function StripFences(raw: string): string {
    StripClose(StripOpen(raw))
  }

  /** `{...item, public_id: id}`: an object keeps its fields, an existing
      `public_id` keeps its place and takes the new value. Any other item
      spreads to no fields. */
  function Tag(item: Value, id: string): (r: Value)
    ensures r.Obj? && Get(r.fields, "public_id") == Some(Str(id))
    ensures item.Obj? ==> forall k :: k != "public_id" ==> Get(r.fields, k) == Get(item.fields, k)
    ensures !item.Obj? ==> r.fields == [Field("public_id", Str(id))]
  {
    if item.Obj? then Obj(Put(item.fields, "public_id", Str(id)))
    else Obj([Field("public_id", Str(id))])
  }

  /** `data.map(item => ({...item, public_id: uuidv4()}))`. */
  function TagAll(items: seq<Value>, newId: nat -> string): (r: seq<Value>)
    ensures |r| == |items|
    ensures forall k :: 0 <= k < |r| ==> r[k] == Tag(items[k], newId(k))
  {
    seq(|items|, k requires 0 <= k < |items| => Tag(items[k], newId(k)))
  }

  /** The route. `body` is `await req.json()`, `None` when the request body
      is not JSON; `called` says whether the model was asked. */
  method Post(body: Option<Value>, generated: Option<string>, parse: string -> Option<Value>, newId: nat -> string)
    returns (answer: Answer, called: bool)
    ensures body.None? || body == Some(Null) ==> answer == Thrown && !called
    ensures body.Some? && !body.value.Null? && !Truthy(QueryOf(body.value)) ==>
      answer == Error(400, MISSING_QUERY) && !called
    ensures called <==> body.Some? && !body.value.Null? && Truthy(QueryOf(body.value))
    ensures called ==>
      match generated
      case None => answer == Error(500, SEARCH_FAILED)
      case Some(text) =>
        match parse(StripFences(text))
        case Some(Arr(items)) => answer == Json(200, Arr(TagAll(items, newId)))
        case _ => answer == Error(500, SEARCH_FAILED)
  {
    if body.None? || body.value.Null? {
      return Thrown, false;
    }
    var query := QueryOf(body.value);
    if !Truthy(query) {
      return Error(400, MISSING_QUERY), false;
    }
    called := true;
    if generated.None? {
      return Error(500, SEARCH_FAILED), called;
    }
    var raw := generated.value;
    raw := StripClose(StripOpen(raw));
    var data := parse(raw);
    if data.None? || !data.value.Arr? {
      return Error(500, SEARCH_FAILED), called;
    }
    var result := TagAll(data.value.items, newId);
    answer := Json(200, Arr(result));
  }

  /** A fenced answer gives back exactly what the fences enclose, when that
      neither starts nor ends with white space. */
  lemma FencesRoundTrip(ws1: string, t: string, ws2: string)
    requires IsBlank(ws1) && IsBlank(ws2)
    requires |t| > 0 && !IsJsWhitespace(t[0]) && !IsJsWhitespace(t[|t| - 1])
    ensures StripFences(OPEN_FENCE + ws1 + t + ws2 + CLOSE_FENCE) == t
  {
    var inner := ws1 + t + ws2 + CLOSE_FENCE;
    var raw := OPEN_FENCE + ws1 + t + ws2 + CLOSE_FENCE;
    assert raw == OPEN_FENCE + inner;
    var afterOpen := TrimStart(inner);
    assert StripOpen(raw) == afterOpen by { StripOpenPrefix(inner); }
    assert afterOpen == (t + ws2) + CLOSE_FENCE by { OpenContent(ws1, t, ws2); }
    assert StripClose(afterOpen) == TrimEnd(t + ws2) by { StripCloseSuffix(t + ws2); }
    BlankSuffix(t, ws2);
  }

  /** Fences around white space only give the empty text. */
  lemma FencesAroundBlank(ws: string)
    requires IsBlank(ws)
    ensures StripFences(OPEN_FENCE + ws + CLOSE_FENCE) == ""
  {
    var inner := ws + CLOSE_FENCE;
    assert OPEN_FENCE + ws + CLOSE_FENCE == OPEN_FENCE + inner;
    StripOpenPrefix(inner);
    BlankPrefix(ws, CLOSE_FENCE);
    CloseAlone();
  }

  lemma CloseAlone()
    ensures StripClose(CLOSE_FENCE) == ""
  {
    assert CLOSE_FENCE[..0] == [];
  }

  lemma OpenContent(ws1: string, t: string, ws2: string)
    requires IsBlank(ws1) && |t| > 0 && !IsJsWhitespace(t[0])
    ensures TrimStart(ws1 + t + ws2 + CLOSE_FENCE) == (t + ws2) + CLOSE_FENCE
  {
    assert ws1 + t + ws2 + CLOSE_FENCE == ws1 + ((t + ws2) + CLOSE_FENCE);
    assert ((t + ws2) + CLOSE_FENCE)[0] == t[0];
    BlankPrefix(ws1, (t + ws2) + CLOSE_FENCE);
  }

  lemma StripOpenPrefix(s: string)
    ensures StripOpen(OPEN_FENCE + s) == TrimStart(s)
  {
    assert (OPEN_FENCE + s)[..7] == OPEN_FENCE;
    assert (OPEN_FENCE + s)[7..] == s;
  }

  lemma StripCloseSuffix(s: string)
    ensures StripClose(s + CLOSE_FENCE) == TrimEnd(s)
  {
    var raw := s + CLOSE_FENCE;
    assert raw[|raw| - 3..] == CLOSE_FENCE;
    assert raw[..|raw| - 3] == s;
  }

  /** Trimming the start removes a white-space prefix and stops at the first
      other character. */
  lemma {:induction false} BlankPrefix(ws: string, rest: string)
    requires IsBlank(ws)
    requires |rest| > 0 ==> !IsJsWhitespace(rest[0])
    ensures TrimStart(ws + rest) == rest
  {
    if |ws| > 0 {
      assert (ws + rest)[1..] == ws[1..] + rest;
      BlankPrefix(ws[1..], rest);
    } else {
      assert ws + rest == rest;
    }
  }

  /** Trimming the end removes a white-space suffix and stops at the last
      other character. */
  lemma {:induction false} BlankSuffix(rest: string, ws: string)
    requires IsBlank(ws)
    requires |rest| > 0 ==> !IsJsWhitespace(rest[|rest| - 1])
    ensures TrimEnd(rest + ws) == rest
  {
    if |ws| > 0 {
      assert (rest + ws)[..|rest + ws| - 1] == rest + ws[..|ws| - 1];
      BlankSuffix(rest, ws[..|ws| - 1]);
    } else {
      assert rest + ws == rest;
    }
  }

  /** Text without the fences is left alone. */
  lemma NoFencesUnchanged(raw: string)
    requires !(|raw| >= 7 && raw[..7] == OPEN_FENCE)
    requires !(|raw| >= 3 && raw[|raw| - 3..] == CLOSE_FENCE)
    ensures StripFences(raw) == raw
  {
  }

  /** Tagging keeps the items in order: item `k` of the answer is item `k`
      of the model's list with only its `public_id` set, and the ids come
      from the supply in order. */
  lemma TagKeepsFields(items: seq<Value>, newId: nat -> string, k: nat, key: string)
    requires k < |items| && items[k].Obj? && key != "public_id"
    ensures TagAll(items, newId)[k].Obj?
    ensures Get(TagAll(items, newId)[k].fields, key) == Get(items[k].fields, key)
    ensures Get(TagAll(items, newId)[k].fields, "public_id") == Some(Str(newId(k)))
  {
  }
}
