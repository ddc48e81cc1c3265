/** `useFileSelect`: the `checked` flag of one file or of all files, each
    change sent to the server first. The hook writes the caller's `files`
    state; here that state is the `files` field of a `FileSelect`. A round
    trip is an outcome parameter: `true` when the PATCH succeeded. */
module FileSelect {
  import opened ClientTypes

  /** `files.map(f => f.public_id === id ? {...f, checked: value} : f)`. */
  function SetChecked(files: seq<ClientFile>, id: string, value: bool): (r: seq<ClientFile>)
    ensures |r| == |files|
    ensures forall i :: 0 <= i < |r| && files[i].public_id == id ==> r[i] == files[i].(checked := value)
    ensures forall i :: 0 <= i < |r| && files[i].public_id != id ==> r[i] == files[i]
  {
    if |files| == 0 then []
    else [if files[0].public_id == id then files[0].(checked := value) else files[0]] + SetChecked(files[1..], id, value)
  }

  /** The target of "select all": check everything unless everything is
      already checked. */
  function SelectAllTarget(files: seq<ClientFile>): (t: bool)
    ensures t <==> exists i :: 0 <= i < |files| && !files[i].checked
  {
    !AllChecked(files)
  }

  /** One PATCH per file with the same target; file `i` takes the target when
      its request succeeded and stays as it was otherwise. */
  function SelectAllResult(files: seq<ClientFile>, ok: seq<bool>): (r: seq<ClientFile>)
    requires |ok| == |files|
    ensures |r| == |files|
    ensures forall i :: 0 <= i < |r| ==> r[i] == if ok[i] then files[i].(checked := SelectAllTarget(files)) else files[i]
  {
    var t := SelectAllTarget(files);
    seq(|files|, i requires 0 <= i < |files| => if ok[i] then files[i].(checked := t) else files[i])
  }

  class FileSelect {
    var files: seq<ClientFile>

    constructor(files: seq<ClientFile>)
      ensures this.files == files
    {
      this.files := files;
    }

    /** `toggleSelectFile(fileId, currentChecked)`: the new value is
        `!currentChecked`, whatever the stored entry says. A failed request
        is logged and changes nothing. */
    method ToggleSelectFile(fileId: string, currentChecked: bool, ok: bool)
      modifies this
      ensures ok ==> files == SetChecked(old(files), fileId, !currentChecked)
      ensures !ok ==> files == old(files)
    {
      if ok {
        files := SetChecked(files, fileId, !currentChecked);
      }
    }

    /** `toggleSelectAll()`, with `ok[i]` the outcome of file `i`'s request. */
    method ToggleSelectAll(ok: seq<bool>)
      requires |ok| == |files|
      modifies this
      ensures files == SelectAllResult(old(files), ok)
    {
      files := SelectAllResult(files, ok);
    }
  }

  /** Toggling a file whose entries all hold `c` to `!c` and back restores the
      list. */
  lemma ToggleTwice(files: seq<ClientFile>, id: string, c: bool)
    requires forall i :: 0 <= i < |files| && files[i].public_id == id ==> files[i].checked == c
    ensures SetChecked(SetChecked(files, id, !c), id, c) == files
  {
  }

  /** The new value comes from the argument: a stale `currentChecked` writes
      the same value again. */
  lemma ToggleStale(files: seq<ClientFile>, id: string, c: bool)
    requires forall i :: 0 <= i < |files| && files[i].public_id == id ==> files[i].checked == !c
    ensures SetChecked(files, id, !c) == files
  {
  }

  /** Only `checked` of the matching entries changes: ids, order and every
      other field stay. */
  lemma SetCheckedKeeps(files: seq<ClientFile>, id: string, value: bool)
    ensures forall i :: 0 <= i < |files| ==>
      SetChecked(files, id, value)[i].(checked := files[i].checked) == files[i]
  {
  }

  /** With no failed request every file ends at the target. */
  lemma SelectAllNoFailure(files: seq<ClientFile>, ok: seq<bool>)
    requires |ok| == |files| && forall i :: 0 <= i < |ok| ==> ok[i]
    ensures var t := SelectAllTarget(files);
      forall i :: 0 <= i < |files| ==> SelectAllResult(files, ok)[i].checked == t
  {
  }

  function AllOk(n: nat): (r: seq<bool>)
    ensures |r| == n && forall i :: 0 <= i < n ==> r[i]
  {
    seq(n, _ => true)
  }

  /** Two successful "select all" clicks give back the list exactly when it
      started all checked or all unchecked. */
  lemma SelectAllTwice(files: seq<ClientFile>)
    ensures var once := SelectAllResult(files, AllOk(|files|));
      SelectAllResult(once, AllOk(|files|)) == files <==> AllChecked(files) || NoneChecked(files)
  {
    var once := SelectAllResult(files, AllOk(|files|));
    var twice := SelectAllResult(once, AllOk(|files|));
    var t := SelectAllTarget(files);
    if |files| > 0 {
      assert once[0].checked == t;
      assert SelectAllTarget(once) == !t;
      if twice == files {
        assert forall i :: 0 <= i < |files| ==> files[i].checked == twice[i].checked == !t;
      }
    }
  }
}
