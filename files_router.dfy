/** The `/files` routes: each notebook's storage document holds its
    `file_list`. Outcomes of foreign calls are parameters: `destroy` for
    Cloudinary deletes, `upload` for Cloudinary uploads, `ioOk` for writing
    the upload to disk and ingesting it, `guessType` for `mimetypes`, and
    `fetched` for downloading the stored URL. */
module FilesRouter {
  import opened Common
  import opened Text
  import opened KeyedList
  import opened Sorting
  import opened FileSchema
  import opened Cloudinary
  import opened Database

  const KEEP_DAYS: int := 7

  function PublicId(f: SingleFile): Option<string> { f.public_id }

  function UpdatedKey(f: SingleFile): int {
    if f.updated_at.Some? then f.updated_at.value else 0
  }

  /** `updated_at + timedelta(days=7) < now`: strictly older than a week. */
  predicate Expired(f: SingleFile, now: int) {
    f.updated_at.Some? && f.updated_at.value + KEEP_DAYS * DAY < now
  }

  /** The text of a `public_id` in the f-string that builds the delete target. */
  function IdText(pid: Option<string>): string {
    if pid.Some? then pid.value else "None"
  }

  // ------------------------------------------------------------------ cleanup

  /** What cleanup leaves of `cur` after the remaining snapshot entries
      `snap`: each expired entry is deleted from the cloud and then pulled by
      its `public_id`; the first failed cloud delete ends the cleanup. */
  function CleanupFrom(cur: seq<SingleFile>, snap: seq<SingleFile>, now: int, destroy: string -> Destroyed): seq<SingleFile>
    decreases |snap|
  {
    if |snap| == 0 then cur
    else if !Expired(snap[0], now) then CleanupFrom(cur, snap[1..], now, destroy)
    else if DeleteCloudFile(IdText(snap[0].public_id), "raw", destroy).Fail? then cur
    else CleanupFrom(Without(cur, PublicId, snap[0].public_id), snap[1..], now, destroy)
  }

  /** The ids of the expired entries. */
  function ExpiredIds(s: seq<SingleFile>, now: int): (r: set<Option<string>>)
    ensures forall pid :: pid in r <==> exists i :: 0 <= i < |s| && Expired(s[i], now) && s[i].public_id == pid
  {
    set i | 0 <= i < |s| && Expired(s[i], now) :: s[i].public_id
  }

  predicate CloudDeletesSucceed(s: seq<SingleFile>, now: int, destroy: string -> Destroyed) {
    forall i :: 0 <= i < |s| && Expired(s[i], now) ==> DeleteCloudFile(IdText(s[i].public_id), "raw", destroy).Ok?
  }

  /** When every cloud delete succeeds, cleanup removes every entry that
      shares its `public_id` with an expired entry, and keeps the others in
      their order. */
  lemma {:induction false} CleanupRemovesExpiredIds(cur: seq<SingleFile>, snap: seq<SingleFile>, ids: set<Option<string>>,
                                                    now: int, destroy: string -> Destroyed)
    requires CloudDeletesSucceed(snap, now, destroy)
    ensures CleanupFrom(WithoutAll(cur, PublicId, ids), snap, now, destroy) == WithoutAll(cur, PublicId, ids + ExpiredIds(snap, now))
  {
    if |snap| == 0 {
      assert ids + ExpiredIds(snap, now) == ids;
    } else {
      var rest := snap[1..];
      assert CloudDeletesSucceed(rest, now, destroy) by {
        forall i | 0 <= i < |rest| && Expired(rest[i], now)
          ensures DeleteCloudFile(IdText(rest[i].public_id), "raw", destroy).Ok?
        {
          assert rest[i] == snap[i + 1];
        }
      }
      if Expired(snap[0], now) {
        var more := ids + {snap[0].public_id};
        WithoutAfterWithoutAll(cur, PublicId, ids, snap[0].public_id);
        CleanupRemovesExpiredIds(cur, rest, more, now, destroy);
        assert more + ExpiredIds(rest, now) == ids + ExpiredIds(snap, now) by {
          assert forall i :: 0 <= i < |rest| ==> rest[i] == snap[i + 1];
        }
      } else {
        CleanupRemovesExpiredIds(cur, rest, ids, now, destroy);
        assert ExpiredIds(rest, now) == ExpiredIds(snap, now) by {
          assert forall i :: 0 <= i < |rest| ==> rest[i] == snap[i + 1];
        }
      }
    }
  }

  /** The cleanup of a whole list, with every cloud delete succeeding: no
      expired entry remains, and an entry survives iff no expired entry has
      its `public_id`. */
  lemma CleanupResult(s: seq<SingleFile>, now: int, destroy: string -> Destroyed)
    requires CloudDeletesSucceed(s, now, destroy)
    ensures CleanupFrom(s, s, now, destroy) == WithoutAll(s, PublicId, ExpiredIds(s, now))
    ensures forall f :: f in CleanupFrom(s, s, now, destroy) ==> !Expired(f, now)
    ensures forall f :: f in CleanupFrom(s, s, now, destroy) <==> f in s && f.public_id !in ExpiredIds(s, now)
  {
    WithoutAllEmpty(s, PublicId);
    CleanupRemovesExpiredIds(s, s, {}, now, destroy);
    assert {} + ExpiredIds(s, now) == ExpiredIds(s, now);
    forall f | f in CleanupFrom(s, s, now, destroy) ensures !Expired(f, now) {
      var i :| 0 <= i < |s| && s[i] == f;
    }
  }

  /** Cleanup pulls entries and changes nothing else of them. */
  lemma {:induction false} CleanupKeepsStamps(cur: seq<SingleFile>, snap: seq<SingleFile>, now: int, destroy: string -> Destroyed)
    ensures forall f :: f in CleanupFrom(cur, snap, now, destroy) ==> f in cur
    decreases |snap|
  {
    if |snap| > 0 && Expired(snap[0], now) && DeleteCloudFile(IdText(snap[0].public_id), "raw", destroy).Ok? {
      CleanupKeepsStamps(Without(cur, PublicId, snap[0].public_id), snap[1..], now, destroy);
    } else if |snap| > 0 {
      CleanupKeepsStamps(cur, snap[1..], now, destroy);
    }
  }

  /** `cleanup_expired_files`: nothing happens without a storage document. */
  method CleanupExpiredFiles(db: Db, notebookId: string, now: int, destroy: string -> Destroyed)
    requires db.Valid()
    modifies db
    ensures db.Valid()
    ensures notebookId !in old(db.files) ==> db.files == old(db.files)
    ensures notebookId in old(db.files) ==>
      db.files == old(db.files)[notebookId := old(db.files)[notebookId].(file_list :=
        CleanupFrom(old(db.files)[notebookId].file_list, old(db.files)[notebookId].file_list, now, destroy))]
    ensures db.notebooks == old(db.notebooks) && db.conversations == old(db.conversations) && db.notes == old(db.notes)
  {
    if notebookId !in db.files {
      return;
    }
    var snap := db.files[notebookId].file_list;
    var i := 0;
    while i < |snap|
      invariant 0 <= i <= |snap|
      invariant notebookId in db.files && db.Valid()
      invariant db.files == old(db.files)[notebookId := db.files[notebookId]]
      invariant db.files[notebookId] == old(db.files)[notebookId].(file_list := db.files[notebookId].file_list)
      invariant CleanupFrom(db.files[notebookId].file_list, snap[i..], now, destroy) == CleanupFrom(snap, snap, now, destroy)
      invariant forall f :: f in db.files[notebookId].file_list ==> f in snap
      invariant db.notebooks == old(db.notebooks) && db.conversations == old(db.conversations) && db.notes == old(db.notes)
    {
      var file := snap[i];
      assert snap[i..][1..] == snap[i + 1..];
      if Expired(file, now) {
        var deleted := DeleteCloudFile(IdText(file.public_id), "raw", destroy);
        if deleted.Fail? {
          return;
        }
        var doc := db.files[notebookId];
        StampedWithout(doc.file_list, file.public_id);
        db.files := db.files[notebookId := doc.(file_list := Without(doc.file_list, PublicId, file.public_id))];
      }
      i := i + 1;
    }
  }

  // ------------------------------------------------------------------ listing

  /** `get_all_files` answers with the stored list newest first, as it was
      before the cleanup it schedules runs. */
  method GetAllFiles(db: Db, notebookId: string, now: int, destroy: string -> Destroyed)
    returns (r: seq<SingleFile>)
    requires db.Valid()
    modifies db
    ensures db.Valid()
    ensures notebookId !in old(db.files) ==> r == []
    ensures notebookId in old(db.files) ==> r == SortDesc(old(db.files)[notebookId].file_list, UpdatedKey)
    ensures notebookId !in old(db.files) ==> db.files == old(db.files)
    ensures notebookId in old(db.files) ==>
      db.files == old(db.files)[notebookId := old(db.files)[notebookId].(file_list :=
        CleanupFrom(old(db.files)[notebookId].file_list, old(db.files)[notebookId].file_list, now, destroy))]
    ensures db.notebooks == old(db.notebooks) && db.conversations == old(db.conversations) && db.notes == old(db.notes)
  {
    if notebookId in db.files {
      r := SortDesc(db.files[notebookId].file_list, UpdatedKey);
    } else {
      r := [];
    }
    CleanupExpiredFiles(db, notebookId, now, destroy);
  }

  // ------------------------------------------------------------------ adding files

  /** `$push` with `$each` and `$set` of `updated_at`; with `upsert` a missing
      document is created from the filter, without `created_at`. */
  function PushFiles(files: map<string, StorageDoc>, notebookId: string, added: seq<SingleFile>, now: int, upsert: bool)
    : (r: map<string, StorageDoc>)
    ensures notebookId in files ==>
      r == files[notebookId := StorageDoc(files[notebookId].file_list + added, files[notebookId].created_at, now)]
    ensures notebookId !in files ==> r == if upsert then files[notebookId := StorageDoc(added, None, now)] else files
  {
    if notebookId in files then
      files[notebookId := files[notebookId].(file_list := files[notebookId].file_list + added, updated_at := now)]
    else if upsert then files[notebookId := StorageDoc(added, None, now)]
    else files
  }

  /** Pulling entries keeps every remaining entry stamped. */
  lemma StampedWithout(s: seq<SingleFile>, pid: Option<string>)
    requires Stamped(s)
    ensures Stamped(Without(s, PublicId, pid))
  {
    var r := Without(s, PublicId, pid);
    forall i | 0 <= i < |r| ensures r[i].updated_at.Some? {
      assert r[i] in s;
    }
  }

  lemma StampedAppend(a: seq<SingleFile>, b: seq<SingleFile>)
    requires Stamped(a) && Stamped(b)
    ensures Stamped(a + b)
  {
  }

  datatype UploadResult = UploadResult(uploaded_files: seq<SingleFile>, ingested_files: seq<string>)

  /** `os.path.basename(os.path.join("uploads", name))`. */
  function SavedName(filename: string): (r: string)
    ensures r == AfterLast(filename, '/')
  {
    AfterLastOfJoin("uploads", '/', filename);
    AfterLast("uploads" + "/" + filename, '/')
  }

  /** `upload_endpoint`, store part: every failure, including the 500 of the
      Cloudinary upload, surfaces as 400 "Upload File Error". */
  method UploadEndpoint(db: Db, notebookId: string, filenames: seq<string>, ioOk: bool,
                        upload: nat -> Uploaded, now: int)
    returns (r: Response<UploadResult>)
    requires db.Valid()
    modifies db
    ensures db.Valid()
    ensures !ioOk || UploadSpec(filenames, upload, now).Fail? <==> r == Fail(400, "Upload File Error")
    ensures r.Fail? ==> db.files == old(db.files)
    ensures r.Ok? ==> UploadSpec(filenames, upload, now) == Ok(r.body.uploaded_files)
    ensures r.Ok? ==> db.files == PushFiles(old(db.files), notebookId, r.body.uploaded_files, now, true)
    ensures r.Ok? ==> r.body.ingested_files == seq(|filenames|, i requires 0 <= i < |filenames| => AfterLast(filenames[i], '/'))
    ensures db.notebooks == old(db.notebooks) && db.conversations == old(db.conversations) && db.notes == old(db.notes)
  {
    if !ioOk {
      return Fail(400, "Upload File Error");
    }
    var uploaded := UploadFiles(filenames, upload, now);
    if uploaded.Fail? {
      return Fail(400, "Upload File Error");
    }
    UploadRecords(filenames, upload, now);
    var added := uploaded.body;
    assert Stamped(added);
    if notebookId in db.files {
      StampedAppend(db.files[notebookId].file_list, added);
    }
    db.files := PushFiles(db.files, notebookId, added, now, true);
    r := Ok(UploadResult(added, seq(|filenames|, i requires 0 <= i < |filenames| => SavedName(filenames[i]))));
  }

  /** Each source with `created_at` and `updated_at` set to `now`. */
  function StampAll(sources: seq<SingleFile>, now: int): (r: seq<SingleFile>)
    ensures |r| == |sources| && Stamped(r)
    ensures forall i :: 0 <= i < |r| ==> r[i] == sources[i].(created_at := now, updated_at := Some(now))
  {
    seq(|sources|, i requires 0 <= i < |sources| => sources[i].(created_at := now, updated_at := Some(now)))
  }

  /** `upload_url_endpoint`: the stamped sources are returned whether or not a
      storage document exists; without `upsert` nothing is stored otherwise. */
  method UploadUrlEndpoint(db: Db, notebookId: string, sources: seq<SingleFile>, now: int)
    returns (r: seq<SingleFile>)
    requires db.Valid()
    modifies db
    ensures db.Valid()
    ensures r == StampAll(sources, now)
    ensures db.files == PushFiles(old(db.files), notebookId, r, now, false)
    ensures db.notebooks == old(db.notebooks) && db.conversations == old(db.conversations) && db.notes == old(db.notes)
  {
    r := StampAll(sources, now);
    if notebookId in db.files {
      StampedAppend(db.files[notebookId].file_list, r);
    }
    db.files := PushFiles(db.files, notebookId, r, now, false);
  }

  /** `create_file_storage`: a new empty document. If the notebook already has
      one, the new document is never the one the routes find, so what they see
      does not change. */
  method CreateFileStorage(db: Db, notebookId: string, newId: string, now: int)
    returns (fileStorageId: string)
    requires db.Valid()
    modifies db
    ensures db.Valid()
    ensures fileStorageId == newId
    ensures notebookId !in old(db.files) ==> db.files == old(db.files)[notebookId := StorageDoc([], Some(now), now)]
    ensures notebookId in old(db.files) ==> db.files == old(db.files)
    ensures db.notebooks == old(db.notebooks) && db.conversations == old(db.conversations) && db.notes == old(db.notes)
  {
    if notebookId !in db.files {
      db.files := db.files[notebookId := StorageDoc([], Some(now), now)];
    }
    fileStorageId := newId;
  }

  // ------------------------------------------------------------------ deleting and updating one file

  /** `delete_single_file`: the cloud copy is deleted first unless the file is
      a link; then every entry with the id is pulled. */
  method DeleteSingleFile(db: Db, notebookId: string, publicId: string, format: string, destroy: string -> Destroyed)
    returns (r: Response<()>)
    requires db.Valid()
    modifies db
    ensures db.Valid()
    ensures format != "url" && DeleteCloudFile(publicId, "raw", destroy).Fail? ==>
      r == Fail(500, DeleteCloudFile(publicId, "raw", destroy).detail) && db.files == old(db.files)
    ensures (format == "url" || DeleteCloudFile(publicId, "raw", destroy).Ok?) ==>
      && (r.Ok? <==> notebookId in old(db.files) && HasKey(old(db.files)[notebookId].file_list, PublicId, Some(publicId)))
      && (r.Fail? ==> r == Fail(404, "File upload not found") && db.files == old(db.files))
      && (r.Ok? ==> db.files == old(db.files)[notebookId := old(db.files)[notebookId].(file_list :=
                       Without(old(db.files)[notebookId].file_list, PublicId, Some(publicId)))])
    ensures db.notebooks == old(db.notebooks) && db.conversations == old(db.conversations) && db.notes == old(db.notes)
  {
    if format != "url" {
      var deleted := DeleteCloudFile(publicId, "raw", destroy);
      if deleted.Fail? {
        return Fail(deleted.status, deleted.detail);
      }
    }
    if notebookId in db.files && HasKey(db.files[notebookId].file_list, PublicId, Some(publicId)) {
      var doc := db.files[notebookId];
      StampedWithout(doc.file_list, Some(publicId));
      db.files := db.files[notebookId := doc.(file_list := Without(doc.file_list, PublicId, Some(publicId)))];
      r := Ok(());
    } else {
      r := Fail(404, "File upload not found");
    }
  }

  /** The positional `file_list.$` update: the first entry with the id is
      replaced by `change` of it. */
  function SetFirst(s: seq<SingleFile>, publicId: string, change: SingleFile -> SingleFile): (r: seq<SingleFile>)
    requires HasKey(s, PublicId, Some(publicId))
    ensures |r| == |s|
    ensures var j := IndexOf(s, PublicId, Some(publicId));
      r[j] == change(s[j]) && forall i :: 0 <= i < |s| && i != j ==> r[i] == s[i]
  {
    var j := IndexOf(s, PublicId, Some(publicId));
    s[j := change(s[j])]
  }

  /** The result of a positional update: `None` when no document has a
      matching entry or nothing changed (`modified_count == 0`). */
  function UpdateFirst(files: map<string, StorageDoc>, notebookId: string, publicId: string,
                       change: SingleFile -> SingleFile): (r: Option<map<string, StorageDoc>>)
    ensures r.Some? <==> notebookId in files && HasKey(files[notebookId].file_list, PublicId, Some(publicId))
                         && var s := files[notebookId].file_list; var j := IndexOf(s, PublicId, Some(publicId));
                            change(s[j]) != s[j]
    ensures r.Some? ==> r.value == files[notebookId := files[notebookId].(file_list :=
                          SetFirst(files[notebookId].file_list, publicId, change))]
  {
    if notebookId !in files || !HasKey(files[notebookId].file_list, PublicId, Some(publicId)) then None
    else
      var s := files[notebookId].file_list;
      var j := IndexOf(s, PublicId, Some(publicId));
      if change(s[j]) == s[j] then None
      else Some(files[notebookId := files[notebookId].(file_list := SetFirst(s, publicId, change))])
  }

  lemma StampedSetFirst(s: seq<SingleFile>, publicId: string, change: SingleFile -> SingleFile)
    requires Stamped(s) && HasKey(s, PublicId, Some(publicId))
    requires forall f :: change(f).updated_at.Some?
    ensures Stamped(SetFirst(s, publicId, change))
  {
  }

  function Retitle(title: string, now: int): SingleFile -> SingleFile {
    (f: SingleFile) => f.(title := title, updated_at := Some(now))
  }

  function Recheck(checked: bool, now: int): SingleFile -> SingleFile {
    (f: SingleFile) => f.(checked := checked, updated_at := Some(now))
  }

  /** `update_title`: its own 404 is caught by the broad handler and
      re-raised as 500 with the text of the 404. */
  method UpdateTitle(db: Db, notebookId: string, publicId: string, title: string, now: int)
    returns (r: Response<()>)
    requires db.Valid()
    modifies db
    ensures db.Valid()
    ensures var u := UpdateFirst(old(db.files), notebookId, publicId, Retitle(title, now));
      (r.Ok? <==> u.Some?) && (u.Some? ==> db.files == u.value)
      && (u.None? ==> r == Fail(500, "404: File not found") && db.files == old(db.files))
    ensures db.notebooks == old(db.notebooks) && db.conversations == old(db.conversations) && db.notes == old(db.notes)
  {
    var u := UpdateFirst(db.files, notebookId, publicId, Retitle(title, now));
    if u.Some? {
      StampedSetFirst(db.files[notebookId].file_list, publicId, Retitle(title, now));
      db.files := u.value;
      r := Ok(());
    } else {
      r := Fail(500, "404: File not found");
    }
  }

  /** `update_checked`. */
  method UpdateChecked(db: Db, notebookId: string, publicId: string, checked: bool, now: int)
    returns (r: Response<()>)
    requires db.Valid()
    modifies db
    ensures db.Valid()
    ensures var u := UpdateFirst(old(db.files), notebookId, publicId, Recheck(checked, now));
      (r.Ok? <==> u.Some?) && (u.Some? ==> db.files == u.value)
      && (u.None? ==> r == Fail(404, "File not found") && db.files == old(db.files))
    ensures db.notebooks == old(db.notebooks) && db.conversations == old(db.conversations) && db.notes == old(db.notes)
  {
    var u := UpdateFirst(db.files, notebookId, publicId, Recheck(checked, now));
    if u.Some? {
      StampedSetFirst(db.files[notebookId].file_list, publicId, Recheck(checked, now));
      db.files := u.value;
      r := Ok(());
    } else {
      r := Fail(404, "File not found");
    }
  }

  /** Only the first entry with the id changes, and only in `checked` and
      `updated_at`. */
  lemma UpdateCheckedFirstOnly(s: seq<SingleFile>, publicId: string, checked: bool, now: int)
    requires HasKey(s, PublicId, Some(publicId))
    ensures var r := SetFirst(s, publicId, Recheck(checked, now)); var j := IndexOf(s, PublicId, Some(publicId));
      r[j] == s[j].(checked := checked, updated_at := Some(now))
      && (forall i :: 0 <= i < j ==> s[i].public_id != Some(publicId))
      && forall i :: 0 <= i < |s| && i != j ==> r[i] == s[i]
  {
  }

  // ------------------------------------------------------------------ download

  datatype Download = Download(url: string, title: string, content_type: string)

  const DefaultContentType: string := "application/octet-stream"

  /** The content type guessed from the title, or the generic binary type. */
  function ContentType(title: string, guessType: string -> Option<string>): (r: string)
    ensures guessType(title).Some? && guessType(title).value != "" ==> r == guessType(title).value
    ensures guessType(title).None? || guessType(title).value == "" ==> r == DefaultContentType
  {
    match guessType(title)
    case Some(t) => if t != "" then t else DefaultContentType
    case None => DefaultContentType
  }

  /** `download_file`, lookup part: the first entry with the id is served. */
  function DownloadFile(files: map<string, StorageDoc>, notebookId: string, publicId: string,
                        guessType: string -> Option<string>, fetched: bool): (r: Response<Download>)
    ensures notebookId !in files ==> r == Fail(404, "Notebook not found")
    ensures notebookId in files && !HasKey(files[notebookId].file_list, PublicId, Some(publicId)) ==> r == Fail(404, "File not found")
    ensures notebookId in files && HasKey(files[notebookId].file_list, PublicId, Some(publicId)) ==>
      var s := files[notebookId].file_list; var j := IndexOf(s, PublicId, Some(publicId));
      (forall i :: 0 <= i < j ==> s[i].public_id != Some(publicId))
      && r == if fetched then Ok(Download(s[j].url, s[j].title, ContentType(s[j].title, guessType)))
              else Fail(500, "Failed to fetch file")
  {
    if notebookId !in files then Fail(404, "Notebook not found")
    else
      var s := files[notebookId].file_list;
      var j := IndexOf(s, PublicId, Some(publicId));
      if j < 0 then Fail(404, "File not found")
      else if !fetched then Fail(500, "Failed to fetch file")
      else Ok(Download(s[j].url, s[j].title, ContentType(s[j].title, guessType)))
  }
}
