/** Uploading documents to, and deleting them from, the Cloudinary folder
    `Note_Learning`. The SDK calls are parameters: `upload(i)` is the outcome
    of uploading the `i`-th chosen file, and `destroy(id)` the outcome of
    deleting `id`; a call that raises gives the text of its exception. */
module Cloudinary {
  import opened Common
  import opened Text
  import opened FileSchema

  const Folder: string := "Note_Learning"

  /** The accepted extensions, compared after lower-casing. */
  const AcceptExt: seq<string> := ["pdf", "docx", "pptx", "txt", "md", "svg", "csv", "json"]

  /** `filename.split(".")[-1]`: a name without a dot is its own extension. */
  function Extension(filename: string): string {
    AfterLast(filename, '.')
  }

  predicate AcceptedExt(ext: string) {
    ext in AcceptExt
  }

  /** A file is uploaded iff its lower-cased extension is accepted. */
  predicate Accepted(filename: string) {
    AcceptedExt(LowerAscii(Extension(filename)))
  }

  /** What the SDK's `upload` answers: the id (with its folder) and the URL. */
  datatype CloudUpload = CloudUpload(public_id: string, secure_url: string)

  /** An `upload` call: its answer, or the text of what it raised. */
  datatype Uploaded = Uploaded(up: CloudUpload) | UploadRaised(error: string)

  /** What the SDK's `destroy` answers: its `result` field (absent when the
      answer has none) and the answer printed as `str` prints it. */
  datatype CloudAnswer = CloudAnswer(result: Option<string>, text: string)

  /** A `destroy` call: its answer, or the text of what it raised. */
  datatype Destroyed = Answered(answer: CloudAnswer) | DestroyRaised(error: string)

  /** The record stored for an uploaded file. */
  function Record(filename: string, up: CloudUpload, now: int): (r: SingleFile)
    ensures r.public_id == Some(AfterLast(up.public_id, '/')) && '/' !in r.public_id.value
    ensures r.title == filename && r.url == up.secure_url && r.format == Extension(filename)
    ensures r.checked && r.created_at == now && r.updated_at == Some(now)
  {
    SingleFile(Some(AfterLast(up.public_id, '/')), filename, up.secure_url, true, Extension(filename), now, Some(now))
  }

  /** The outcome of uploading `files`: the records of the accepted ones, or
      500 as soon as one upload raises. */
  function UploadSpec(files: seq<string>, upload: nat -> Uploaded, now: int): Response<seq<SingleFile>>
  {
    if |files| == 0 then Ok([])
    else
      var prev := UploadSpec(files[..|files| - 1], upload, now);
      var last := files[|files| - 1];
      if prev.Fail? || !Accepted(last) then prev
      else match upload(|files| - 1)
        case UploadRaised(e) => Fail(500, "Error uploading files: " + e)
        case Uploaded(u) => Ok(prev.body + [Record(last, u, now)])
  }

  /** The accepted file names, in order. */
  function AcceptedFiles(files: seq<string>): (r: seq<string>)
    ensures |r| <= |files|
    ensures forall k :: 0 <= k < |r| ==> Accepted(r[k])
  {
    if |files| == 0 then []
    else AcceptedFiles(files[..|files| - 1]) + (if Accepted(files[|files| - 1]) then [files[|files| - 1]] else [])
  }

  /** `upload(i)` answered for every accepted file among the first `n`. */
  predicate UploadedUpTo(files: seq<string>, upload: nat -> Uploaded, n: nat)
    requires n <= |files|
  {
    forall i :: 0 <= i < n && Accepted(files[i]) ==> upload(i).Uploaded?
  }

  /** The upload succeeds iff no accepted file's upload raises. */
  lemma {:induction false} UploadOkIff(files: seq<string>, upload: nat -> Uploaded, now: int)
    ensures UploadSpec(files, upload, now).Ok?
        <==> forall i :: 0 <= i < |files| && Accepted(files[i]) ==> upload(i).Uploaded?
  {
    UploadOkUpTo(files, upload, now);
  }

  lemma {:induction false} UploadOkUpTo(files: seq<string>, upload: nat -> Uploaded, now: int)
    ensures UploadSpec(files, upload, now).Ok? <==> UploadedUpTo(files, upload, |files|)
  {
    if |files| > 0 {
      var n := |files|;
      var init := files[..n - 1];
      UploadOkUpTo(init, upload, now);
      UploadedPrefix(files, init, upload);
      UploadedStep(files, upload, n - 1);
    }
  }

  /** A failed upload quotes the error of the first accepted file whose
      upload raised: every accepted file before it was answered. */
  lemma {:induction false} UploadFailsAtFirst(files: seq<string>, upload: nat -> Uploaded, now: int)
    requires UploadSpec(files, upload, now).Fail?
    ensures exists i ::
              && 0 <= i < |files| && Accepted(files[i]) && upload(i).UploadRaised?
              && UploadedUpTo(files, upload, i)
              && UploadSpec(files, upload, now) == Fail(500, "Error uploading files: " + upload(i).error)
  {
    var n := |files|;
    var init := files[..n - 1];
    var prev := UploadSpec(init, upload, now);
    if prev.Fail? {
      assert UploadSpec(files, upload, now) == prev;
      UploadFailsAtFirst(init, upload, now);
      var i :|
        && 0 <= i < |init| && Accepted(init[i]) && upload(i).UploadRaised?
        && UploadedUpTo(init, upload, i)
        && prev == Fail(500, "Error uploading files: " + upload(i).error);
      UploadedSamePrefix(files, init, upload, i);
      assert files[i] == init[i];
      assert Accepted(files[i]) && UploadedUpTo(files, upload, i);
    } else {
      assert Accepted(files[n - 1]) && upload(n - 1).UploadRaised?;
      assert UploadSpec(files, upload, now) == Fail(500, "Error uploading files: " + upload(n - 1).error);
      UploadOkUpTo(init, upload, now);
      UploadedPrefix(files, init, upload);
      assert UploadedUpTo(files, upload, n - 1);
    }
  }

  /** Being answered up to `i` is the same in a list and in its prefix. */
  lemma UploadedSamePrefix(files: seq<string>, init: seq<string>, upload: nat -> Uploaded, i: nat)
    requires |files| > 0 && init == files[..|files| - 1] && i <= |init|
    ensures UploadedUpTo(init, upload, i) <==> UploadedUpTo(files, upload, i)
  {
    assert forall j :: 0 <= j < i ==> init[j] == files[j];
  }

  /** Being answered up to `n` depends only on the first `n` files. */
  lemma UploadedPrefix(files: seq<string>, init: seq<string>, upload: nat -> Uploaded)
    requires |files| > 0 && init == files[..|files| - 1]
    ensures UploadedUpTo(init, upload, |init|) <==> UploadedUpTo(files, upload, |files| - 1)
  {
    assert forall i :: 0 <= i < |init| ==> init[i] == files[i];
  }

  lemma UploadedStep(files: seq<string>, upload: nat -> Uploaded, m: nat)
    requires m < |files|
    ensures UploadedUpTo(files, upload, m + 1)
        <==> UploadedUpTo(files, upload, m) && (Accepted(files[m]) ==> upload(m).Uploaded?)
  {
  }

  /** The record stored for the file named `name`: titled with its name,
      its original-case extension as `format`, checked, stamped with `now`,
      and with an id that has no folder in it. */
  predicate RecordOf(r: SingleFile, name: string, now: int) {
    r.title == name && r.format == Extension(name) && r.checked
    && r.created_at == now && r.updated_at == Some(now)
    && r.public_id.Some? && '/' !in r.public_id.value
  }

  /** On success there is one record per accepted file, in input order. */
  lemma {:induction false} UploadRecords(files: seq<string>, upload: nat -> Uploaded, now: int)
    requires UploadSpec(files, upload, now).Ok?
    ensures var rs := UploadSpec(files, upload, now).body;
      |rs| == |AcceptedFiles(files)|
      && forall k :: 0 <= k < |rs| ==> RecordOf(rs[k], AcceptedFiles(files)[k], now)
  {
    if |files| > 0 {
      var n := |files|;
      var init, last := files[..n - 1], files[n - 1];
      var prev := UploadSpec(init, upload, now);
      assert prev.Ok?;
      UploadRecords(init, upload, now);
      if Accepted(last) {
        var u := upload(n - 1).up;
        var rs := prev.body + [Record(last, u, now)];
        var names := AcceptedFiles(init) + [last];
        assert UploadSpec(files, upload, now).body == rs;
        assert AcceptedFiles(files) == names;
        forall k | 0 <= k < |rs| ensures RecordOf(rs[k], names[k], now) {
          if k < |prev.body| {
            assert rs[k] == prev.body[k] && names[k] == AcceptedFiles(init)[k];
          }
        }
      } else {
        assert UploadSpec(files, upload, now) == prev;
        assert AcceptedFiles(files) == AcceptedFiles(init) + [];
        RecordsOfSame(prev.body, AcceptedFiles(init), AcceptedFiles(files), now);
      }
    }
  }

  lemma RecordsOfSame(rs: seq<SingleFile>, names: seq<string>, names': seq<string>, now: int)
    requires names' == names && |rs| == |names| && forall k :: 0 <= k < |rs| ==> RecordOf(rs[k], names[k], now)
    ensures |rs| == |names'| && forall k :: 0 <= k < |rs| ==> RecordOf(rs[k], names'[k], now)
  {
  }

  /** `upload_files`: the loop over the chosen files. */
  method UploadFiles(files: seq<string>, upload: nat -> Uploaded, now: int)
    returns (r: Response<seq<SingleFile>>)
    ensures r == UploadSpec(files, upload, now)
  {
    var uploaded: seq<SingleFile> := [];
    var i := 0;
    while i < |files|
      invariant 0 <= i <= |files|
      invariant UploadSpec(files[..i], upload, now) == Ok(uploaded)
    {
      assert files[..i + 1][..i] == files[..i];
      if Accepted(files[i]) {
        var u := upload(i);
        if u.UploadRaised? {
          r := Fail(500, "Error uploading files: " + u.error);
          FailStays(files, i + 1, upload, now);
          return;
        }
        uploaded := uploaded + [Record(files[i], u.up, now)];
      }
      i := i + 1;
    }
    assert files[..i] == files;
    r := Ok(uploaded);
  }

  /** Once an upload has raised, later files do not matter. */
  lemma {:induction false} FailStays(files: seq<string>, i: nat, upload: nat -> Uploaded, now: int)
    requires i <= |files| && UploadSpec(files[..i], upload, now).Fail?
    ensures UploadSpec(files, upload, now) == UploadSpec(files[..i], upload, now)
    decreases |files| - i
  {
    if i < |files| {
      assert files[..i + 1][..i] == files[..i];
      FailStays(files, i + 1, upload, now);
    } else {
      assert files[..i] == files;
    }
  }

  /** The id Cloudinary deletes for a stored `public_id`. */
  function DeleteTarget(publicId: string): string {
    Folder + "/" + publicId
  }

  /** The answers `delete_cloud_file` accepts. */
  predicate Deleted(a: CloudAnswer) {
    a.result == Some("ok") || a.result == Some("not found")
  }

  /** The detail of the 500 that `delete_cloud_file` raises from its
      `except`: the file type and the text of the exception it caught. */
  function DeleteError(fileType: string, caught: string): string {
    "Error deleting " + fileType + ": " + caught
  }

  /** The text of the 500 raised inside the `try` for a rejected answer:
      `str` of an `HTTPException` is its status, a colon and its detail. */
  function RejectedText(fileType: string, answer: CloudAnswer): string {
    "500: Failed to delete " + fileType + " from Cloudinary: " + answer.text
  }

  /** `delete_cloud_file`: "ok" and "not found" succeed. Any other answer
      raises a 500 inside the `try`, which the `except` turns into a second
      500 quoting the first; a raised SDK error is quoted the same way. */
  function DeleteCloudFile(publicId: string, fileType: string, destroy: string -> Destroyed): (r: Response<CloudAnswer>)
    ensures r.Ok? <==> destroy(DeleteTarget(publicId)).Answered? && Deleted(destroy(DeleteTarget(publicId)).answer)
    ensures r.Ok? ==> destroy(DeleteTarget(publicId)) == Answered(r.body)
    ensures destroy(DeleteTarget(publicId)).DestroyRaised? ==>
      r == Fail(500, DeleteError(fileType, destroy(DeleteTarget(publicId)).error))
    ensures destroy(DeleteTarget(publicId)).Answered? && !Deleted(destroy(DeleteTarget(publicId)).answer) ==>
      r == Fail(500, DeleteError(fileType, RejectedText(fileType, destroy(DeleteTarget(publicId)).answer)))
  {
    match destroy(DeleteTarget(publicId))
    case DestroyRaised(e) => Fail(500, DeleteError(fileType, e))
    case Answered(a) => if Deleted(a) then Ok(a) else Fail(500, DeleteError(fileType, RejectedText(fileType, a)))
  }

  /** An id the library stores never contains the folder separator, so the
      delete target has exactly the folder before the id. */
  lemma DeleteTargetSplits(up: CloudUpload)
    ensures AfterLast(DeleteTarget(AfterLast(up.public_id, '/')), '/') == AfterLast(up.public_id, '/')
  {
    var id := AfterLast(up.public_id, '/');
    assert DeleteTarget(id) == Folder + ['/'] + id;
    AfterLastOfJoin(Folder, '/', id);
    AfterLastAbsent(id, '/');
  }
}
