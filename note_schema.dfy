/** The note editor's block documents as the server validates them: a `Note`
    is a block with properties, optional content (a list of inline pieces or a
    table) and child blocks, so a note body is a finite tree. The field
    `type` of the source is called `kind` here. */
module NoteSchema {
  import opened Common
  import opened Pydantic

  /** `Styles = Dict[str, bool]`; `styles` may be null and defaults to `{}`. */
  datatype StyledText = StyledText(kind: string, text: string, styles: Option<seq<Entry<bool>>>)

  datatype Link = Link(kind: string, content: seq<StyledText>, href: string)

  /** `Union[bool, int, float, str]`. */
  datatype PropValue = PBool(b: bool) | PInt(i: int) | PFloat(r: real) | PStr(s: string)

  datatype CustomInlineContent = CustomInlineContent(
    kind: string, content: Option<seq<StyledText>>, props: seq<Entry<PropValue>>)

  /** `Union[Link, StyledText, CustomInlineContent]`. */
  datatype InlineContent =
    | LinkContent(link: Link)
    | TextContent(styled: StyledText)
    | CustomContent(custom: CustomInlineContent)

  datatype TableContent = TableContent(rows: Option<seq<seq<StyledText>>>)

  /** `Union[List[InlineContent], TableContent]`. */
  datatype BlockContent = InlineList(items: seq<InlineContent>) | Table(table: TableContent)

  datatype Note = Note(
    id: string, kind: string, props: seq<Entry<PropValue>>,
    content: Option<BlockContent>, children: seq<Note>)

  datatype NoteContainer = NoteContainer(
    title: string, notebookId: string, blocks: seq<Note>, created_at: int, updated_at: int)

  // ---------------------------------------------------------------- values

  function DumpBool(b: bool): Value { Bool(b) }

  function ParseBool(v: Value): Option<bool> {
    if v.Bool? then Some(v.b) else None
  }

  function DumpProp(p: PropValue): Value {
    match p
    case PBool(b) => Bool(b)
    case PInt(i) => Int(i)
    case PFloat(r) => Float(r)
    case PStr(s) => Str(s)
  }

  /** Each JSON scalar validates as the union member of its own type. */
  function ParseProp(v: Value): (r: Option<PropValue>)
    ensures forall p :: r == Some(p) ==> DumpProp(p) == v
  {
    match v
    case Bool(b) => Some(PBool(b))
    case Int(i) => Some(PInt(i))
    case Float(x) => Some(PFloat(x))
    case Str(s) => Some(PStr(s))
    case _ => None
  }

  lemma PropRoundTrip(p: PropValue)
    ensures ParseProp(DumpProp(p)) == Some(p)
  {
  }

  // ---------------------------------------------------------------- StyledText

  function DumpStyles(s: Option<seq<Entry<bool>>>): Value {
    match s
    case None => Null
    case Some(es) => Obj(DumpDict(es, DumpBool))
  }

  function DumpText(t: StyledText): Value {
    Obj([Field("type", Str(t.kind)), Field("text", Str(t.text)), Field("styles", DumpStyles(t.styles))])
  }

  /** `type` defaults to "text", `text` is required, `styles` defaults to `{}`. */
  function ParseText(v: Value): Option<StyledText> {
    if !v.Obj? then None
    else
      var kind := StrOr(v.fields, "type", "text");
      var text := ReqStr(v.fields, "text");
      var styles := match Get(v.fields, "styles")
        case None => Some(Some([]))
        case Some(Null) => Some(None)
        case Some(Obj(fs)) => (var d := ParseDict(fs, ParseBool); if d.None? then None else Some(Some(d.value)))
        case Some(_) => None;
      if kind.None? || text.None? || styles.None? then None
      else Some(StyledText(kind.value, text.value, styles.value))
  }

  lemma TextFields(t: StyledText)
    ensures StrOr(DumpText(t).fields, "type", "text") == Some(t.kind)
    ensures ReqStr(DumpText(t).fields, "text") == Some(t.text)
    ensures Get(DumpText(t).fields, "styles") == Some(DumpStyles(t.styles))
  {
    var fs := DumpText(t).fields;
    GetAt(fs, 0, "type");
    GetAt(fs, 1, "text");
    GetAt(fs, 2, "styles");
  }

  lemma TextRoundTrip(t: StyledText)
    ensures ParseText(DumpText(t)) == Some(t)
  {
    TextFields(t);
    if t.styles.Some? {
      DictRoundTrip(t.styles.value, DumpBool, ParseBool);
    }
  }

  lemma TextsRoundTrip(ts: seq<StyledText>)
    ensures ParseList(DumpList(ts, DumpText), ParseText) == Some(ts)
  {
    forall i | 0 <= i < |ts| ensures ParseText(DumpText(ts[i])) == Some(ts[i]) {
      TextRoundTrip(ts[i]);
    }
    ListRoundTrip(ts, DumpText, ParseText);
  }

  /** Only `text` is required. */
  lemma TextDefaults(text: string)
    ensures ParseText(Obj([Field("text", Str(text))])) == Some(StyledText("text", text, Some([])))
  {
    var fs := [Field("text", Str(text))];
    assert Get(fs, "type").None?;
    assert Get(fs, "styles").None?;
  }

  // ---------------------------------------------------------------- Link

  function DumpTexts(ts: seq<StyledText>): Value {
    Arr(DumpList(ts, DumpText))
  }

  function DumpLink(l: Link): Value {
    Obj([Field("type", Str(l.kind)), Field("content", DumpTexts(l.content)), Field("href", Str(l.href))])
  }

  /** `type` defaults to "link"; `content` and `href` are required. */
  function ParseLink(v: Value): Option<Link> {
    if !v.Obj? then None
    else
      var kind := StrOr(v.fields, "type", "link");
      var content := match Get(v.fields, "content")
        case Some(Arr(items)) => ParseList(items, ParseText)
        case _ => None;
      var href := ReqStr(v.fields, "href");
      if kind.None? || content.None? || href.None? then None
      else Some(Link(kind.value, content.value, href.value))
  }

  lemma LinkFields(l: Link)
    ensures StrOr(DumpLink(l).fields, "type", "link") == Some(l.kind)
    ensures Get(DumpLink(l).fields, "content") == Some(DumpTexts(l.content))
    ensures ReqStr(DumpLink(l).fields, "href") == Some(l.href)
  {
    var fs := DumpLink(l).fields;
    GetAt(fs, 0, "type");
    GetAt(fs, 1, "content");
    GetAt(fs, 2, "href");
  }

  lemma LinkRoundTrip(l: Link)
    ensures ParseLink(DumpLink(l)) == Some(l)
  {
    LinkFields(l);
    TextsRoundTrip(l.content);
  }

  // ---------------------------------------------------------------- custom inline content

  function DumpOptTexts(c: Option<seq<StyledText>>): Value {
    match c
    case None => Null
    case Some(ts) => DumpTexts(ts)
  }

  function DumpCustom(c: CustomInlineContent): Value {
    Obj([Field("type", Str(c.kind)), Field("content", DumpOptTexts(c.content)),
         Field("props", Obj(DumpDict(c.props, DumpProp)))])
  }

  function ParseOptTexts(v: Option<Value>): Option<Option<seq<StyledText>>> {
    match v
    case None => Some(None)
    case Some(Null) => Some(None)
    case Some(Arr(items)) => (var l := ParseList(items, ParseText); if l.None? then None else Some(Some(l.value)))
    case Some(_) => None
  }

  function ParseProps(v: Option<Value>): Option<seq<Entry<PropValue>>> {
    match v
    case None => Some([])
    case Some(Obj(fs)) => ParseDict(fs, ParseProp)
    case Some(_) => None
  }

  /** `type` is required, `content` defaults to null and `props` to `{}`. */
  function ParseCustom(v: Value): Option<CustomInlineContent> {
    if !v.Obj? then None
    else
      var kind := ReqStr(v.fields, "type");
      var content := ParseOptTexts(Get(v.fields, "content"));
      var props := ParseProps(Get(v.fields, "props"));
      if kind.None? || content.None? || props.None? then None
      else Some(CustomInlineContent(kind.value, content.value, props.value))
  }

  lemma CustomFields(c: CustomInlineContent)
    ensures ReqStr(DumpCustom(c).fields, "type") == Some(c.kind)
    ensures Get(DumpCustom(c).fields, "content") == Some(DumpOptTexts(c.content))
    ensures Get(DumpCustom(c).fields, "props") == Some(Obj(DumpDict(c.props, DumpProp)))
  {
    var fs := DumpCustom(c).fields;
    GetAt(fs, 0, "type");
    GetAt(fs, 1, "content");
    GetAt(fs, 2, "props");
  }

  lemma CustomRoundTrip(c: CustomInlineContent)
    ensures ParseCustom(DumpCustom(c)) == Some(c)
  {
    CustomFields(c);
    OptTextsRoundTrip(c.content);
    PropsRoundTrip(c.props);
  }


  lemma OptTextsRoundTrip(o: Option<seq<StyledText>>)
    ensures ParseOptTexts(Some(DumpOptTexts(o))) == Some(o)
  {
    if o.Some? {
      TextsRoundTrip(o.value);
    }
  }

  // ---------------------------------------------------------------- inline union

  function DumpInline(x: InlineContent): Value {
    match x
    case LinkContent(l) => DumpLink(l)
    case TextContent(t) => DumpText(t)
    case CustomContent(c) => DumpCustom(c)
  }

  /** The union tries `Link`, then `StyledText`, then `CustomInlineContent`. */
  function ParseInline(v: Value): Option<InlineContent> {
    var l := ParseLink(v);
    if l.Some? then Some(LinkContent(l.value))
    else
      var t := ParseText(v);
      if t.Some? then Some(TextContent(t.value))
      else
        var c := ParseCustom(v);
        if c.Some? then Some(CustomContent(c.value)) else None
  }

  /** A dumped styled text has no `href`, and a dumped custom piece has
      neither `href` nor `text`, so each validates back as its own member. */
  lemma InlineRoundTrip(x: InlineContent)
    ensures ParseInline(DumpInline(x)) == Some(x)
  {
    match x
    case LinkContent(l) => LinkRoundTrip(l);
    case TextContent(t) =>
      var fs := DumpText(t).fields;
      assert Get(fs, "href").None?;
      TextRoundTrip(t);
    case CustomContent(c) =>
      var fs := DumpCustom(c).fields;
      assert Get(fs, "href").None?;
      assert Get(fs, "text").None?;
      CustomRoundTrip(c);
  }

  lemma InlinesRoundTrip(xs: seq<InlineContent>)
    ensures ParseList(DumpList(xs, DumpInline), ParseInline) == Some(xs)
  {
    forall i | 0 <= i < |xs| ensures ParseInline(DumpInline(xs[i])) == Some(xs[i]) {
      InlineRoundTrip(xs[i]);
    }
    ListRoundTrip(xs, DumpInline, ParseInline);
  }

  // ---------------------------------------------------------------- tables and block content

  function DumpRow(r: seq<StyledText>): Value {
    DumpTexts(r)
  }

  function ParseRow(v: Value): Option<seq<StyledText>> {
    if v.Arr? then ParseList(v.items, ParseText) else None
  }

  function DumpTable(t: TableContent): Value {
    match t.rows
    case None => Obj([Field("rows", Null)])
    case Some(rs) => Obj([Field("rows", Arr(DumpList(rs, DumpRow)))])
  }

  /** `rows` defaults to null; any object validates as a table. */
  function ParseTable(v: Value): Option<TableContent> {
    if !v.Obj? then None
    else
      match Get(v.fields, "rows")
      case None => Some(TableContent(None))
      case Some(Null) => Some(TableContent(None))
      case Some(Arr(items)) => (var rs := ParseList(items, ParseRow); if rs.None? then None else Some(TableContent(Some(rs.value))))
      case Some(_) => None
  }

  lemma TableRoundTrip(t: TableContent)
    ensures ParseTable(DumpTable(t)) == Some(t)
  {
    GetAt(DumpTable(t).fields, 0, "rows");
    if t.rows.Some? {
      var rs := t.rows.value;
      forall i | 0 <= i < |rs| ensures ParseRow(DumpRow(rs[i])) == Some(rs[i]) {
        TextsRoundTrip(rs[i]);
      }
      ListRoundTrip(rs, DumpRow, ParseRow);
    }
  }

  function DumpContent(c: Option<BlockContent>): Value {
    match c
    case None => Null
    case Some(InlineList(xs)) => Arr(DumpList(xs, DumpInline))
    case Some(Table(t)) => DumpTable(t)
  }

  /** An array is an inline list, an object is a table, null or absence is none. */
  function ParseContent(v: Option<Value>): Option<Option<BlockContent>> {
    match v
    case None => Some(None)
    case Some(Null) => Some(None)
    case Some(Arr(items)) => (var xs := ParseList(items, ParseInline); if xs.None? then None else Some(Some(InlineList(xs.value))))
    case Some(Obj(fs)) => (var t := ParseTable(Obj(fs)); if t.None? then None else Some(Some(Table(t.value))))
    case Some(_) => None
  }

  lemma ContentRoundTrip(c: Option<BlockContent>)
    ensures ParseContent(Some(DumpContent(c))) == Some(c)
  {
    match c
    case None =>
    case Some(InlineList(xs)) => InlinesRoundTrip(xs);
    case Some(Table(t)) => TableRoundTrip(t);
  }

  // ---------------------------------------------------------------- the block tree

  function DumpNote(n: Note): Value
    decreases n, 1
  {
    Obj([Field("id", Str(n.id)), Field("type", Str(n.kind)), Field("props", Obj(DumpDict(n.props, DumpProp))),
         Field("content", DumpContent(n.content)), Field("children", Arr(DumpNotes(n.children)))])
  }

  function DumpNotes(ns: seq<Note>): (r: seq<Value>)
    ensures |r| == |ns|
    decreases ns, 0
  {
    if |ns| == 0 then [] else [DumpNote(ns[0])] + DumpNotes(ns[1..])
  }

  /** `id` and `type` are required; `props` defaults to `{}`, `content` to
      null and `children` to `[]`. */
  function ParseNote(v: Value): Option<Note>
    decreases v, 1
  {
    if !v.Obj? then None
    else
      var id := ReqStr(v.fields, "id");
      var kind := ReqStr(v.fields, "type");
      var props := ParseProps(Get(v.fields, "props"));
      var content := ParseContent(Get(v.fields, "content"));
      var children := ParseChildren(v.fields);
      if id.None? || kind.None? || props.None? || content.None? || children.None? then None
      else Some(Note(id.value, kind.value, props.value, content.value, children.value))
  }

  function ParseChildren(fields: seq<Field>): Option<seq<Note>>
    decreases fields, 0
  {
    var j := Find(fields, "children");
    if j < 0 then Some([])
    else if fields[j].value.Arr? then ParseNotes(fields[j].value.items)
    else None
  }

  function ParseNotes(items: seq<Value>): (r: Option<seq<Note>>)
    ensures r.Some? ==> |r.value| == |items|
    decreases items, 0
  {
    if |items| == 0 then Some([])
    else
      var n := ParseNote(items[0]);
      var rest := ParseNotes(items[1..]);
      if n.None? || rest.None? then None else Some([n.value] + rest.value)
  }

  lemma NoteFields(n: Note)
    ensures ReqStr(DumpNote(n).fields, "id") == Some(n.id)
    ensures ReqStr(DumpNote(n).fields, "type") == Some(n.kind)
    ensures Get(DumpNote(n).fields, "props") == Some(Obj(DumpDict(n.props, DumpProp)))
    ensures Get(DumpNote(n).fields, "content") == Some(DumpContent(n.content))
    ensures Find(DumpNote(n).fields, "children") == 4
  {
    var fs := DumpNote(n).fields;
    GetAt(fs, 0, "id");
    GetAt(fs, 1, "type");
    GetAt(fs, 2, "props");
    GetAt(fs, 3, "content");
    GetAt(fs, 4, "children");
  }

  lemma PropsRoundTrip(ps: seq<Entry<PropValue>>)
    ensures ParseProps(Some(Obj(DumpDict(ps, DumpProp)))) == Some(ps)
  {
    forall i | 0 <= i < |ps| ensures ParseProp(DumpProp(ps[i].value)) == Some(ps[i].value) {
      PropRoundTrip(ps[i].value);
    }
    DictRoundTrip(ps, DumpProp, ParseProp);
  }

  /** Validating a dumped block tree gives the tree back, at every depth. */
  lemma {:induction false} NoteRoundTrip(n: Note)
    ensures ParseNote(DumpNote(n)) == Some(n)
    decreases n, 1
  {
    NoteFields(n);
    PropsRoundTrip(n.props);
    ContentRoundTrip(n.content);
    NotesRoundTrip(n.children);
  }

  lemma {:induction false} NotesRoundTrip(ns: seq<Note>)
    ensures ParseNotes(DumpNotes(ns)) == Some(ns)
    decreases ns, 0
  {
    if |ns| > 0 {
      NoteRoundTrip(ns[0]);
      NotesRoundTrip(ns[1..]);
      assert ns == [ns[0]] + ns[1..];
    }
  }

  /** A block needs only its `id` and `type`. */
  lemma NoteDefaults(id: string, kind: string)
    ensures ParseNote(Obj([Field("id", Str(id)), Field("type", Str(kind))])) == Some(Note(id, kind, [], None, []))
  {
    var fs := [Field("id", Str(id)), Field("type", Str(kind))];
    assert Get(fs, "props").None?;
    assert Get(fs, "content").None?;
    assert Find(fs, "children") < 0;
  }

  /** Every block of a tree, in pre-order. A tree is finite, so this is a
      finite list. */
  function Blocks(ns: seq<Note>): (r: seq<Note>)
    ensures |r| >= |ns|
    ensures forall i :: 0 <= i < |ns| ==> ns[i] in r
    decreases ns
  {
    if |ns| == 0 then [] else [ns[0]] + Blocks(ns[0].children) + Blocks(ns[1..])
  }

  /** The list of blocks is closed under taking children: every child of a
      listed block is listed too. */
  lemma {:induction false} BlocksClosed(ns: seq<Note>, n: Note, c: Note)
    requires n in Blocks(ns) && c in n.children
    ensures c in Blocks(ns)
    decreases ns
  {
    var head, rest := Blocks(ns[0].children), Blocks(ns[1..]);
    assert Blocks(ns) == [ns[0]] + head + rest;
    if n == ns[0] {
      var i :| 0 <= i < |ns[0].children| && ns[0].children[i] == c;
    } else if n in head {
      BlocksClosed(ns[0].children, n, c);
    } else {
      BlocksClosed(ns[1..], n, c);
    }
  }

  // ---------------------------------------------------------------- the stored container

  function DumpContainer(c: NoteContainer): Value {
    Obj([Field("title", Str(c.title)), Field("notebookId", Str(c.notebookId)),
         Field("blocks", Arr(DumpNotes(c.blocks))), Field("created_at", Time(c.created_at)),
         Field("updated_at", Time(c.updated_at))])
  }

  /** `title`, `notebookId` and `updated_at` are required; `blocks` defaults
      to `[]` and `created_at` to the time of validation. */
  function ParseContainer(v: Value, now: int): Option<NoteContainer> {
    if !v.Obj? then None
    else
      var title := ReqStr(v.fields, "title");
      var notebookId := ReqStr(v.fields, "notebookId");
      var blocks := match Get(v.fields, "blocks")
        case None => Some([])
        case Some(Arr(items)) => ParseNotes(items)
        case Some(_) => None;
      var createdAt := TimeOr(v.fields, "created_at", now);
      var updatedAt := ReqTime(v.fields, "updated_at");
      if title.None? || notebookId.None? || blocks.None? || createdAt.None? || updatedAt.None? then None
      else Some(NoteContainer(title.value, notebookId.value, blocks.value, createdAt.value, updatedAt.value))
  }

  lemma ContainerFields(c: NoteContainer, now: int)
    ensures ReqStr(DumpContainer(c).fields, "title") == Some(c.title)
    ensures ReqStr(DumpContainer(c).fields, "notebookId") == Some(c.notebookId)
    ensures Get(DumpContainer(c).fields, "blocks") == Some(Arr(DumpNotes(c.blocks)))
    ensures TimeOr(DumpContainer(c).fields, "created_at", now) == Some(c.created_at)
    ensures ReqTime(DumpContainer(c).fields, "updated_at") == Some(c.updated_at)
  {
    var fs := DumpContainer(c).fields;
    GetAt(fs, 0, "title");
    GetAt(fs, 1, "notebookId");
    GetAt(fs, 2, "blocks");
    GetAt(fs, 3, "created_at");
    GetAt(fs, 4, "updated_at");
  }

  lemma ContainerRoundTrip(c: NoteContainer, now: int)
    ensures ParseContainer(DumpContainer(c), now) == Some(c)
  {
    ContainerFields(c, now);
    NotesRoundTrip(c.blocks);
  }

  /** `blocks` defaults to the empty list. */
  lemma ContainerDefaults(title: string, notebookId: string, updatedAt: int, now: int)
    ensures ParseContainer(Obj([Field("title", Str(title)), Field("notebookId", Str(notebookId)),
                                Field("updated_at", Time(updatedAt))]), now)
         == Some(NoteContainer(title, notebookId, [], now, updatedAt))
  {
    var fs := [Field("title", Str(title)), Field("notebookId", Str(notebookId)), Field("updated_at", Time(updatedAt))];
    GetAt(fs, 0, "title");
    GetAt(fs, 1, "notebookId");
    GetAt(fs, 2, "updated_at");
    assert Get(fs, "blocks").None?;
    assert Get(fs, "created_at").None?;
  }
}
