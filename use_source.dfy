/** `useSource`: the files hook. Unlike `SourceFileUpload`, a failed upload
    has no `catch`, so the error reaches the caller (`thrown`). */
module UseSource {
  import opened Common
  import opened ClientTypes
  import opened KeyedList

  class UseSource {
    const notebookId: string
    var files: seq<ClientFile>
    var loadingAdd: bool
    var loadingDownload: Option<string>

    constructor(initialFiles: seq<ClientFile>, notebookId: string)
      ensures files == initialFiles && this.notebookId == notebookId
      ensures !loadingAdd && loadingDownload.None?
    {
      this.notebookId := notebookId;
      files := initialFiles;
      loadingAdd := false;
      loadingDownload := None;
    }

    /** `addFile(e)`: `chosen` is `e.target.files` (`None` for `null`),
        `answer` the upload's records or `None` when it failed. */
    method AddFile(chosen: Option<seq<string>>, answer: Option<seq<ClientFile>>) returns (thrown: bool)
      modifies this
      ensures chosen.None? ==> !thrown && files == old(files) && loadingAdd == old(loadingAdd)
      ensures chosen.Some? ==> !loadingAdd && (thrown <==> answer.None?)
      ensures chosen.Some? && answer.Some? ==> files == answer.value + old(files)
      ensures chosen.Some? && answer.None? ==> files == old(files)
      ensures loadingDownload == old(loadingDownload)
    {
      if chosen.None? {
        return false;
      }
      loadingAdd := true;
      if answer.Some? {
        files := answer.value + files;
        thrown := false;
      } else {
        thrown := true;
      }
      loadingAdd := false;
    }

    /** `deleteFile(id, format)`: a failure is caught and logged. */
    method DeleteFile(publicId: string, format: string, ok: bool)
      modifies this
      ensures ok ==> files == Without(old(files), FileId, publicId)
      ensures !ok ==> files == old(files)
      ensures loadingAdd == old(loadingAdd) && loadingDownload == old(loadingDownload)
    {
      if ok {
        files := Without(files, FileId, publicId);
      }
    }

    /** `downloadFile(id)`: the marker is set before the request; a failed
        request throws and the reset timer is never started. */
    method DownloadFile(publicId: string, ok: bool) returns (thrown: bool, timerStarted: bool)
      modifies this
      ensures loadingDownload == Some(publicId)
      ensures thrown <==> !ok
      ensures timerStarted <==> ok
      ensures files == old(files) && loadingAdd == old(loadingAdd)
    {
      loadingDownload := Some(publicId);
      thrown := !ok;
      timerStarted := ok;
    }

    /** The one-second reset timer. */
    method DownloadSettled()
      modifies this
      ensures loadingDownload.None? && files == old(files) && loadingAdd == old(loadingAdd)
    {
      loadingDownload := None;
    }
  }
}
