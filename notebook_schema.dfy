/** A notebook as the server validates and stores it. */
module NotebookSchema {
  import opened Common
  import opened Pydantic

  /** `avatar` and `bgcolor` default to "", `created_at` to the time of
      validation and `updated_at` to null. */
  datatype Notebook = Notebook(
    title: string, avatar: string, bgcolor: string, created_at: int, updated_at: Option<int>)

  /** `Notebook.model_dump()`. */
  function DumpNotebook(n: Notebook): Value {
    Obj([Field("title", Str(n.title)), Field("avatar", Str(n.avatar)), Field("bgcolor", Str(n.bgcolor)),
         Field("created_at", Time(n.created_at)), Field("updated_at", DumpOptTime(n.updated_at))])
  }

  /** `Notebook(**d)` at time `now`: only `title` is required. */
  function ParseNotebook(v: Value, now: int): Option<Notebook> {
    if !v.Obj? then None
    else
      var title := ReqStr(v.fields, "title");
      var avatar := StrOr(v.fields, "avatar", "");
      var bgcolor := StrOr(v.fields, "bgcolor", "");
      var createdAt := TimeOr(v.fields, "created_at", now);
      var updatedAt := OptTime(v.fields, "updated_at");
      if title.None? || avatar.None? || bgcolor.None? || createdAt.None? || updatedAt.None? then None
      else Some(Notebook(title.value, avatar.value, bgcolor.value, createdAt.value, updatedAt.value))
  }

  lemma NotebookFields(n: Notebook, now: int)
    ensures ReqStr(DumpNotebook(n).fields, "title") == Some(n.title)
    ensures StrOr(DumpNotebook(n).fields, "avatar", "") == Some(n.avatar)
    ensures StrOr(DumpNotebook(n).fields, "bgcolor", "") == Some(n.bgcolor)
    ensures TimeOr(DumpNotebook(n).fields, "created_at", now) == Some(n.created_at)
    ensures OptTime(DumpNotebook(n).fields, "updated_at") == Some(n.updated_at)
  {
    var fs := DumpNotebook(n).fields;
    GetAt(fs, 0, "title");
    GetAt(fs, 1, "avatar");
    GetAt(fs, 2, "bgcolor");
    GetAt(fs, 3, "created_at");
    GetAt(fs, 4, "updated_at");
  }

  /** Validating a dumped notebook gives it back. */
  lemma NotebookRoundTrip(n: Notebook, now: int)
    ensures ParseNotebook(DumpNotebook(n), now) == Some(n)
  {
    NotebookFields(n, now);
  }

  /** A body with only a title takes every default. */
  lemma NotebookDefaults(title: string, now: int)
    ensures ParseNotebook(Obj([Field("title", Str(title))]), now) == Some(Notebook(title, "", "", now, None))
  {
    var fs := [Field("title", Str(title))];
    assert Get(fs, "avatar").None?;
    assert Get(fs, "bgcolor").None?;
    assert Get(fs, "created_at").None?;
    assert Get(fs, "updated_at").None?;
  }

  /** A body without a title string is rejected. */
  lemma NotebookRequiresTitle(v: Value, now: int)
    requires v.Obj? && ReqStr(v.fields, "title").None?
    ensures ParseNotebook(v, now).None?
  {
  }

  /** `n.model_dump(exclude_unset=True)` for `n` validated from the body
      `body`: the schema fields the body supplied, in declaration order. */
  function DumpSet(body: seq<Field>, n: Notebook): (r: seq<Field>)
    ensures forall k :: Get(r, k).Some? <==> k in NotebookKeys && Get(body, k).Some?
    ensures Get(body, "title").Some? ==> Get(r, "title") == Some(Str(n.title))
    ensures Get(body, "avatar").Some? ==> Get(r, "avatar") == Some(Str(n.avatar))
    ensures Get(body, "bgcolor").Some? ==> Get(r, "bgcolor") == Some(Str(n.bgcolor))
    ensures Get(body, "created_at").Some? ==> Get(r, "created_at") == Some(Time(n.created_at))
  {
    var all := DumpNotebook(n).fields;
    FieldsOfDump(n);
    var r := Keep(all, body);
    KeepGet(all, body);
    r
  }

  /** The schema fields in declaration order. */
  const NotebookKeys: seq<string> := ["title", "avatar", "bgcolor", "created_at", "updated_at"]

  lemma FieldsOfDump(n: Notebook)
    ensures forall k :: Get(DumpNotebook(n).fields, k).Some? <==> k in NotebookKeys
    ensures Get(DumpNotebook(n).fields, "title") == Some(Str(n.title))
    ensures Get(DumpNotebook(n).fields, "avatar") == Some(Str(n.avatar))
    ensures Get(DumpNotebook(n).fields, "bgcolor") == Some(Str(n.bgcolor))
    ensures Get(DumpNotebook(n).fields, "created_at") == Some(Time(n.created_at))
  {
    var fs := DumpNotebook(n).fields;
    GetAt(fs, 0, "title");
    GetAt(fs, 1, "avatar");
    GetAt(fs, 2, "bgcolor");
    GetAt(fs, 3, "created_at");
    GetAt(fs, 4, "updated_at");
    GetKeys(fs, NotebookKeys);
  }

  /** The fields of `all` whose key also occurs in `body`. */
  function Keep(all: seq<Field>, body: seq<Field>): seq<Field> {
    if |all| == 0 then []
    else if Get(body, all[0].key).Some? then [all[0]] + Keep(all[1..], body)
    else Keep(all[1..], body)
  }

  lemma {:induction false} KeepGet(all: seq<Field>, body: seq<Field>)
    ensures forall k :: Get(Keep(all, body), k) == if Get(body, k).Some? then Get(all, k) else None
  {
    if |all| > 0 {
      KeepGet(all[1..], body);
      forall k ensures Get(Keep(all, body), k) == if Get(body, k).Some? then Get(all, k) else None {
        GetCons(all[0], all[1..], k);
        if Get(body, all[0].key).Some? {
          GetCons(all[0], Keep(all[1..], body), k);
        }
      }
    }
  }
}
