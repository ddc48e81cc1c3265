/** `SourceFileUpload`: the notebook's source list. Its `files` state is the
    list the `useFileSelect` hook writes, so the component holds that hook
    (`select`) and its list is `select.files`. Request outcomes are
    parameters: `None` for a failed request, `Some` of the answer's body
    otherwise. */
module SourceFileUpload {
  import opened Common
  import opened ClientTypes
  import opened KeyedList
  import opened FileSelect

  /** The format-to-icon table, in its order. */
  const ICONS: seq<(string, string)> := [
    ("pdf", "/icon/format/pdf.png"),
    ("docx", "/icon/format/docx.png"),
    ("pptx", "/icon/format/pptx.png"),
    ("txt", "/icon/format/txt.png"),
    ("md", "/icon/format/md.png"),
    ("csv", "/icon/format/csv.png"),
    ("json", "/icon/format/json.png"),
    ("url", "/icon/format/url.png")]

  const OTHER_ICON: string := "/icon/format/other.png"

  /** `table.find(icon => icon.format === format)?.source`. */
  function Find(table: seq<(string, string)>, format: string): (r: Option<string>)
    ensures r.None? <==> forall i :: 0 <= i < |table| ==> table[i].0 != format
    ensures r.Some? ==> exists i :: (0 <= i < |table| && table[i] == (format, r.value)
      && forall j :: 0 <= j < i ==> table[j].0 != format)
  {
    if |table| == 0 then None
    else if table[0].0 == format then Some(table[0].1)
    else
      var r := Find(table[1..], format);
      if r.Some? then
        ghost var i :| (0 <= i < |table[1..]| && table[1..][i] == (format, r.value)
          && forall j :: 0 <= j < i ==> table[1..][j].0 != format);
        assert table[i + 1] == (format, r.value);
        r
      else r
  }

  /** Every table entry points at the image named after its format. */
  predicate NamedAfterFormat(table: seq<(string, string)>) {
    forall i :: 0 <= i < |table| ==> table[i].1 == "/icon/format/" + table[i].0 + ".png"
  }

  lemma IconsNamed()
    ensures NamedAfterFormat(ICONS)
  {
  }

  /** In a table named after its formats, a lookup that succeeds finds the
      image named after the format asked for. */
  lemma {:induction false} FindNamed(table: seq<(string, string)>, format: string)
    requires NamedAfterFormat(table)
    ensures Find(table, format).Some? ==> Find(table, format).value == "/icon/format/" + format + ".png"
  {
    if |table| > 0 && table[0].0 != format {
      assert NamedAfterFormat(table[1..]) by {
        forall i | 0 <= i < |table[1..]|
          ensures table[1..][i].1 == "/icon/format/" + table[1..][i].0 + ".png"
        {
          assert table[1..][i] == table[i + 1];
        }
      }
      FindNamed(table[1..], format);
    }
  }

  /** The icon shown for a file. No table source is empty, so `|| other`
      only applies when the format is not in the table. */
  function Icon(format: string): (src: string)
    ensures Find(ICONS, format).Some? ==> src == Find(ICONS, format).value
    ensures Find(ICONS, format).None? ==> src == OTHER_ICON
  {
    IconsNamed();
    FindNamed(ICONS, format);
    match Find(ICONS, format)
    case Some(s) => if s != "" then s else OTHER_ICON
    case None => OTHER_ICON
  }

  /** Each listed format shows the icon named after it. */
  lemma IconOfListed(k: nat)
    requires k < |ICONS|
    ensures Icon(ICONS[k].0) == "/icon/format/" + ICONS[k].0 + ".png"
  {
    var format := ICONS[k].0;
    IconsNamed();
    FindNamed(ICONS, format);
    assert Find(ICONS, format).Some?;
  }

  /** Any other format, `svg` included, shows the fallback icon. */
  lemma IconOfUnlisted(format: string)
    requires format !in ["pdf", "docx", "pptx", "txt", "md", "csv", "json", "url"]
    ensures Icon(format) == OTHER_ICON
  {
    assert forall i :: 0 <= i < |ICONS| ==> ICONS[i].0 != format;
  }

  /** The header checkbox: `files.length > 0 && files.every(f => f.checked)`. */
  predicate SelectAllBox(files: seq<ClientFile>) {
    |files| > 0 && AllChecked(files)
  }

  /** The box is ticked exactly when clicking it would untick everything,
      and after a click with no failed request it shows the click's target. */
  lemma SelectAllBoxTarget(files: seq<ClientFile>)
    ensures |files| > 0 ==> (SelectAllBox(files) <==> !SelectAllTarget(files))
    ensures SelectAllBox(SelectAllResult(files, AllOk(|files|))) <==> |files| > 0 && SelectAllTarget(files)
  {
    var r := SelectAllResult(files, AllOk(|files|));
    if |files| > 0 && !SelectAllTarget(files) {
      assert !r[0].checked;
    }
  }

  /** The per-file action button. */
  datatype FileAction = OpenLink(url: string) | Download(public_id: string)

  function Action(f: ClientFile): (a: FileAction)
    ensures a.OpenLink? <==> f.format == "url"
    ensures a.OpenLink? ==> a.url == f.url
    ensures a.Download? ==> a.public_id == f.public_id
  {
    if f.format != "url" then Download(f.public_id) else OpenLink(f.url)
  }

  class SourceFileUpload {
    /** `process.env.NEXT_PUBLIC_API_URL`, fixed when the page is built. */
    const apiUrl: string
    const noteId: string
    const select: FileSelect
    var loadingAdd: bool
    var loadingDownload: Option<string>

    constructor(apiUrl: string, noteId: string)
      ensures this.apiUrl == apiUrl && this.noteId == noteId && fresh(select) && select.files == []
      ensures !loadingAdd && loadingDownload.None?
    {
      this.apiUrl := apiUrl;
      this.noteId := noteId;
      select := new FileSelect([]);
      loadingAdd := false;
      loadingDownload := None;
    }

    /** The mount effect: a successful GET replaces the list; a failure is
        logged. */
    method FetchData(answer: Option<seq<ClientFile>>)
      modifies select
      ensures answer.Some? ==> select.files == answer.value
      ensures answer.None? ==> select.files == old(select.files)
    {
      if answer.Some? {
        select.files := answer.value;
      }
    }

    /** `handleAddFile(e)`: `chosen` is `e.target.files`, `None` for `null`;
        `requested` says whether the upload was sent. */
    method HandleAddFile(chosen: Option<seq<string>>, answer: Option<seq<ClientFile>>) returns (requested: bool)
      modifies this, select
      ensures requested <==> chosen.Some?
      ensures !requested ==> select.files == old(select.files) && loadingAdd == old(loadingAdd)
      ensures requested ==> !loadingAdd
      ensures requested && answer.Some? ==> select.files == answer.value + old(select.files)
      ensures requested && answer.None? ==> select.files == old(select.files)
      ensures loadingDownload == old(loadingDownload)
    {
      if chosen.None? {
        return false;
      }
      loadingAdd := true;
      if answer.Some? {
        select.files := answer.value + select.files;
      }
      loadingAdd := false;
      return true;
    }

    /** `handleDownloadFile(id)`: marks the download and returns the link it
        clicks; the list is not touched. */
    method HandleDownloadFile(publicId: string) returns (href: string)
      modifies this
      ensures loadingDownload == Some(publicId) && loadingAdd == old(loadingAdd)
      ensures href == apiUrl + "/files/download_file/" + noteId + "/" + publicId
    {
      loadingDownload := Some(publicId);
      href := apiUrl + "/files/download_file/" + noteId + "/" + publicId;
    }

    /** The one-second timer after a download. */
    method DownloadSettled()
      modifies this
      ensures loadingDownload.None? && loadingAdd == old(loadingAdd)
    {
      loadingDownload := None;
    }

    /** `handleDeleteFile(id, format)`, `ok` the DELETE's outcome. */
    method HandleDeleteFile(publicId: string, format: string, ok: bool)
      modifies select
      ensures ok ==> select.files == Without(old(select.files), FileId, publicId)
      ensures !ok ==> select.files == old(select.files)
    {
      if ok {
        select.files := Without(select.files, FileId, publicId);
      }
    }

    /** `onImportComplete(newFiles)`: the imported files go first. */
    method OnImportComplete(newFiles: seq<ClientFile>)
      modifies select
      ensures select.files == newFiles + old(select.files)
    {
      select.files := newFiles + select.files;
    }
  }

  /** An upload of records with new ids, then a delete of each of them,
      gives back the earlier list. */
  lemma {:induction false} UploadThenDelete(files: seq<ClientFile>, added: seq<ClientFile>)
    requires forall i :: 0 <= i < |added| ==> !HasKey(files, FileId, added[i].public_id)
    ensures WithoutAll(added + files, FileId, Keys(added, FileId)) == files
  {
    WithoutAllFresh(files, Keys(added, FileId));
    WithoutAllDrops(added, files, Keys(added, FileId));
  }

  lemma {:induction false} WithoutAllDrops(added: seq<ClientFile>, files: seq<ClientFile>, ids: set<string>)
    requires forall i :: 0 <= i < |added| ==> added[i].public_id in ids
    ensures WithoutAll(added + files, FileId, ids) == WithoutAll(files, FileId, ids)
  {
    if |added| > 0 {
      assert (added + files)[0] == added[0];
      assert (added + files)[1..] == added[1..] + files;
      WithoutAllDrops(added[1..], files, ids);
    } else {
      assert added + files == files;
    }
  }

  lemma {:induction false} WithoutAllFresh(files: seq<ClientFile>, ids: set<string>)
    requires forall id :: id in ids ==> !HasKey(files, FileId, id)
    ensures WithoutAll(files, FileId, ids) == files
  {
    if |files| > 0 {
      assert HasKey(files, FileId, files[0].public_id);
      WithoutAllFresh(files[1..], ids);
      assert files == [files[0]] + files[1..];
    }
  }
}
