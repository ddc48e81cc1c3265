/** The server's file records: `SingleFile`, one entry of a notebook's
    `file_list`, and `FileListStorage`, the per-notebook document that holds
    them. Timestamps are whole seconds. */
module FileSchema {
  import opened Common
  import opened Pydantic

  /** `public_id` may be null; `checked` defaults to true, `created_at` to the
      time of validation, `updated_at` to null. */
  datatype SingleFile = SingleFile(
    public_id: Option<string>,
    title: string,
    url: string,
    checked: bool,
    format: string,
    created_at: int,
    updated_at: Option<int>)

  datatype FileListStorage = FileListStorage(
    notebookId: string,
    file_list: seq<SingleFile>,
    created_at: int,
    updated_at: int)

  /** `SingleFile.model_dump()`. */
  function DumpFile(f: SingleFile): Value {
    Obj([
      Field("public_id", DumpOptStr(f.public_id)),
      Field("title", Str(f.title)),
      Field("url", Str(f.url)),
      Field("checked", Bool(f.checked)),
      Field("format", Str(f.format)),
      Field("created_at", Time(f.created_at)),
      Field("updated_at", DumpOptTime(f.updated_at))])
  }

  /** `SingleFile(**d)` at time `now`; unknown keys are ignored. */
  function ParseFile(v: Value, now: int): Option<SingleFile> {
    if !v.Obj? then None
    else
      var publicId := OptStrOr(v.fields, "public_id", "");
      var title := ReqStr(v.fields, "title");
      var url := ReqStr(v.fields, "url");
      var checked := BoolOr(v.fields, "checked", true);
      var format := ReqStr(v.fields, "format");
      var createdAt := TimeOr(v.fields, "created_at", now);
      var updatedAt := OptTime(v.fields, "updated_at");
      if publicId.None? || title.None? || url.None? || checked.None? || format.None?
         || createdAt.None? || updatedAt.None?
      then None
      else Some(SingleFile(publicId.value, title.value, url.value, checked.value,
                           format.value, createdAt.value, updatedAt.value))
  }

  /** Validating a dumped record gives the record back, whatever the clock says. */
  lemma FileRoundTrip(f: SingleFile, now: int)
    ensures ParseFile(DumpFile(f), now) == Some(f)
  {
    DumpFileHead(f);
    DumpFileTail(f, now);
  }

  lemma DumpFileHead(f: SingleFile)
    ensures OptStrOr(DumpFile(f).fields, "public_id", "") == Some(f.public_id)
    ensures ReqStr(DumpFile(f).fields, "title") == Some(f.title)
    ensures ReqStr(DumpFile(f).fields, "url") == Some(f.url)
  {
    var fs := DumpFile(f).fields;
    GetAt(fs, 0, "public_id");
    GetAt(fs, 1, "title");
    GetAt(fs, 2, "url");
  }

  lemma DumpFileTail(f: SingleFile, now: int)
    ensures BoolOr(DumpFile(f).fields, "checked", true) == Some(f.checked)
    ensures ReqStr(DumpFile(f).fields, "format") == Some(f.format)
    ensures TimeOr(DumpFile(f).fields, "created_at", now) == Some(f.created_at)
    ensures OptTime(DumpFile(f).fields, "updated_at") == Some(f.updated_at)
  {
    DumpFileFlags(f);
    DumpFileTimes(f);
    TailReaders(DumpFile(f).fields, f, now);
  }

  lemma TailReaders(fs: seq<Field>, f: SingleFile, now: int)
    requires Get(fs, "checked") == Some(Bool(f.checked)) && Get(fs, "format") == Some(Str(f.format))
    requires Get(fs, "created_at") == Some(Time(f.created_at))
    requires Get(fs, "updated_at") == Some(DumpOptTime(f.updated_at))
    ensures BoolOr(fs, "checked", true) == Some(f.checked)
    ensures ReqStr(fs, "format") == Some(f.format)
    ensures TimeOr(fs, "created_at", now) == Some(f.created_at)
    ensures OptTime(fs, "updated_at") == Some(f.updated_at)
  {
  }

  lemma DumpFileFlags(f: SingleFile)
    ensures Get(DumpFile(f).fields, "checked") == Some(Bool(f.checked))
    ensures Get(DumpFile(f).fields, "format") == Some(Str(f.format))
  {
    var fs := DumpFile(f).fields;
    GetAt(fs, 3, "checked");
    GetAt(fs, 4, "format");
  }

  lemma DumpFileTimes(f: SingleFile)
    ensures Get(DumpFile(f).fields, "created_at") == Some(Time(f.created_at))
    ensures Get(DumpFile(f).fields, "updated_at") == Some(DumpOptTime(f.updated_at))
  {
    var fs := DumpFile(f).fields;
    GetAt(fs, 5, "created_at");
    GetAt(fs, 6, "updated_at");
  }

  /** Only `title`, `url` and `format` are required; the rest take their defaults. */
  lemma FileDefaults(title: string, url: string, format: string, now: int)
    ensures ParseFile(Obj([Field("title", Str(title)), Field("url", Str(url)), Field("format", Str(format))]), now)
         == Some(SingleFile(Some(""), title, url, true, format, now, None))
  {
    var fs := [Field("title", Str(title)), Field("url", Str(url)), Field("format", Str(format))];
    GetAt(fs, 0, "title");
    GetAt(fs, 1, "url");
    GetAt(fs, 2, "format");
    assert Get(fs, "public_id").None?;
    assert Get(fs, "checked").None?;
    assert Get(fs, "created_at").None?;
    assert Get(fs, "updated_at").None?;
  }

  /** A body without a `title`, a `url` or a `format` string is rejected. */
  lemma FileRequiresTitleUrlFormat(v: Value, now: int)
    requires v.Obj?
    requires ReqStr(v.fields, "title").None? || ReqStr(v.fields, "url").None? || ReqStr(v.fields, "format").None?
    ensures ParseFile(v, now).None?
  {
  }

  function FileParser(now: int): Value -> Option<SingleFile> {
    v => ParseFile(v, now)
  }

  /** `FileListStorage.model_dump()`. */
  function DumpStorage(s: FileListStorage): Value {
    Obj([
      Field("notebookId", Str(s.notebookId)),
      Field("file_list", Arr(DumpList(s.file_list, DumpFile))),
      Field("created_at", Time(s.created_at)),
      Field("updated_at", Time(s.updated_at))])
  }

  /** `FileListStorage(**d)`: `notebookId` and `updated_at` are required,
      `file_list` defaults to empty. */
  function ParseStorage(v: Value, now: int): Option<FileListStorage> {
    if !v.Obj? then None
    else
      var notebookId := ReqStr(v.fields, "notebookId");
      var list := match Get(v.fields, "file_list")
        case None => Some([])
        case Some(Arr(items)) => ParseList(items, FileParser(now))
        case Some(_) => None;
      var createdAt := TimeOr(v.fields, "created_at", now);
      var updatedAt := ReqTime(v.fields, "updated_at");
      if notebookId.None? || list.None? || createdAt.None? || updatedAt.None? then None
      else Some(FileListStorage(notebookId.value, list.value, createdAt.value, updatedAt.value))
  }

  /** Validating a dumped storage document gives it back. */
  lemma StorageRoundTrip(s: FileListStorage, now: int)
    ensures ParseStorage(DumpStorage(s), now) == Some(s)
  {
    DumpStorageFields(s, now);
    FileListRoundTrip(s.file_list, now);
  }

  lemma FileListRoundTrip(fs: seq<SingleFile>, now: int)
    ensures ParseList(DumpList(fs, DumpFile), FileParser(now)) == Some(fs)
  {
    forall i | 0 <= i < |fs|
      ensures FileParser(now)(DumpFile(fs[i])) == Some(fs[i])
    {
      FileRoundTrip(fs[i], now);
    }
    ListRoundTrip(fs, DumpFile, FileParser(now));
  }

  lemma DumpStorageFields(s: FileListStorage, now: int)
    ensures ReqStr(DumpStorage(s).fields, "notebookId") == Some(s.notebookId)
    ensures Get(DumpStorage(s).fields, "file_list") == Some(Arr(DumpList(s.file_list, DumpFile)))
    ensures TimeOr(DumpStorage(s).fields, "created_at", now) == Some(s.created_at)
    ensures ReqTime(DumpStorage(s).fields, "updated_at") == Some(s.updated_at)
  {
    var fs := DumpStorage(s).fields;
    GetAt(fs, 0, "notebookId");
    GetAt(fs, 1, "file_list");
    GetAt(fs, 2, "created_at");
    GetAt(fs, 3, "updated_at");
  }

  /** A storage document needs only `notebookId` and `updated_at`. */
  lemma StorageDefaults(notebookId: string, updatedAt: int, now: int)
    ensures ParseStorage(Obj([Field("notebookId", Str(notebookId)), Field("updated_at", Time(updatedAt))]), now)
         == Some(FileListStorage(notebookId, [], now, updatedAt))
  {
    var fs := [Field("notebookId", Str(notebookId)), Field("updated_at", Time(updatedAt))];
    GetAt(fs, 0, "notebookId");
    GetAt(fs, 1, "updated_at");
    assert Get(fs, "file_list").None?;
    assert Get(fs, "created_at").None?;
    assert ReqStr(fs, "notebookId") == Some(notebookId);
    assert TimeOr(fs, "created_at", now) == Some(now);
    assert ReqTime(fs, "updated_at") == Some(updatedAt);
  }
}
