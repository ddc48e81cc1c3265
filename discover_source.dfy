/** `DiscoverSource`: search the web for sources, tick some, import them.
    The component's `useState` fields are the fields of a `DiscoverSource`;
    the search request's answer and the import request's outcome are
    parameters. Dialog rendering is left out; `open` and `showResult` are
    kept as flags. */
module DiscoverSource {
  import opened Common
  import opened Text
  import opened ClientTypes

  /** A search result: a `SingleFile` with a `description`. */
  datatype SingleLink = SingleLink(
    public_id: string,
    title: string,
    url: string,
    format: string,
    checked: bool,
    description: string,
    created_at: Option<int>,
    updated_at: Option<int>)

  /** `({ description, ...rest }) => rest`. */
  function Strip(l: SingleLink): (f: ClientFile)
    ensures f.public_id == l.public_id && f.title == l.title && f.url == l.url && f.format == l.format
    ensures f.checked == l.checked && f.created_at == l.created_at && f.updated_at == l.updated_at
  {
    ClientFile(l.public_id, l.title, l.url, l.format, l.checked, l.created_at, l.updated_at)
  }

  /** `sources.filter(f => f.checked)`. */
  function Checked(sources: seq<SingleLink>): (r: seq<SingleLink>)
    ensures |r| <= |sources|
    ensures forall k :: 0 <= k < |r| ==> r[k].checked
  {
    if |sources| == 0 then []
    else if sources[0].checked then [sources[0]] + Checked(sources[1..])
    else Checked(sources[1..])
  }

  /** The filter keeps exactly the ticked sources: it drops none of them,
      it is empty iff nothing is ticked, and it keeps everything iff
      everything is ticked. */
  lemma {:induction false} CheckedExactly(sources: seq<SingleLink>)
    ensures forall l :: l in Checked(sources) <==> l in sources && l.checked
    ensures |Checked(sources)| == 0 <==> forall i :: 0 <= i < |sources| ==> !sources[i].checked
    ensures |Checked(sources)| == |sources| <==> forall i :: 0 <= i < |sources| ==> sources[i].checked
  {
    if |sources| > 0 {
      var rest := sources[1..];
      CheckedExactly(rest);
      assert forall l :: l in sources <==> l == sources[0] || l in rest;
      assert forall i :: 0 < i < |sources| ==> sources[i] == rest[i - 1];
      if !sources[0].checked {
        assert |Checked(sources)| <= |rest| < |sources|;
      }
    }
  }

  /** What `handleImport` posts: the checked sources, in order, without
      their description. */
  function ImportPayload(sources: seq<SingleLink>): (r: seq<ClientFile>)
    ensures |r| == |Checked(sources)|
    ensures forall k :: 0 <= k < |r| ==> r[k] == Strip(Checked(sources)[k])
  {
    var c := Checked(sources);
    seq(|c|, k requires 0 <= k < |c| => Strip(c[k]))
  }

  /** `prev.map(f => f.public_id === id ? {...f, checked: !f.checked} : f)`. */
  function Toggled(sources: seq<SingleLink>, id: string): (r: seq<SingleLink>)
    ensures |r| == |sources|
    ensures forall i :: 0 <= i < |r| ==>
      r[i] == if sources[i].public_id == id then sources[i].(checked := !sources[i].checked) else sources[i]
  {
    seq(|sources|, i requires 0 <= i < |sources| =>
      if sources[i].public_id == id then sources[i].(checked := !sources[i].checked) else sources[i])
  }

  /** `prev.map(f => ({...f, checked: !allChecked}))`. */
  function AllSetTo(sources: seq<SingleLink>, value: bool): (r: seq<SingleLink>)
    ensures |r| == |sources|
    ensures forall i :: 0 <= i < |r| ==> r[i] == sources[i].(checked := value)
  {
    seq(|sources|, i requires 0 <= i < |sources| => sources[i].(checked := value))
  }

  predicate EveryChecked(sources: seq<SingleLink>) {
    forall i :: 0 <= i < |sources| ==> sources[i].checked
  }

  class DiscoverSource {
    var showResult: bool
    var sources: seq<SingleLink>
    var query: string
    var loading: bool
    var open: bool

    constructor()
      ensures !showResult && sources == [] && query == "" && !loading && !open
    {
      showResult, sources, query, loading, open := false, [], "", false, false;
    }

    /** `selectedCount`. */
    function SelectedCount(): (n: nat)
      reads this
      ensures n <= |sources| && n == |ImportPayload(sources)|
      ensures n == 0 <==> forall i :: 0 <= i < |sources| ==> !sources[i].checked
      ensures n == |sources| <==> EveryChecked(sources)
    {
      CheckedExactly(sources);
      |Checked(sources)|
    }

    /** `resetImport()`. */
    method ResetImport()
      modifies this
      ensures !showResult && sources == [] && query == "" && !open
      ensures loading == old(loading)
    {
      showResult, sources, query, open := false, [], "", false;
    }

    /** `handleDiscover()`: a blank query does nothing; otherwise the search
        answer (`None` when the request failed) replaces the sources and
        shows them. `loading` ends false. */
    method HandleDiscover(answer: Option<seq<SingleLink>>)
      modifies this
      ensures Trim(old(query)) == "" ==>
        sources == old(sources) && showResult == old(showResult) && loading == old(loading)
      ensures Trim(old(query)) != "" ==>
        && !loading
        && (answer.Some? ==> sources == answer.value && showResult)
        && (answer.None? ==> sources == old(sources) && showResult == old(showResult))
      ensures query == old(query) && open == old(open)
    {
      if Trim(query) == "" {
        return;
      }
      loading := true;
      if answer.Some? {
        sources := answer.value;
        showResult := true;
      }
      loading := false;
    }

    /** `handleToggleFile(id)`. */
    method HandleToggleFile(id: string)
      modifies this
      ensures sources == Toggled(old(sources), id)
      ensures showResult == old(showResult) && query == old(query) && loading == old(loading) && open == old(open)
    {
      sources := Toggled(sources, id);
    }

    /** `handleSelectAll()`. */
    method HandleSelectAll()
      modifies this
      ensures sources == AllSetTo(old(sources), !EveryChecked(old(sources)))
      ensures showResult == old(showResult) && query == old(query) && loading == old(loading) && open == old(open)
    {
      sources := AllSetTo(sources, !EveryChecked(sources));
    }

    /** `handleImport()`: posts the payload; `onImportComplete` receives that
        same payload (`imported`), only when the POST succeeded. The dialog
        is reset either way. */
    method HandleImport(ok: bool) returns (posted: seq<ClientFile>, imported: Option<seq<ClientFile>>)
      modifies this
      ensures posted == ImportPayload(old(sources))
      ensures ok ==> imported == Some(posted)
      ensures !ok ==> imported.None?
      ensures !showResult && sources == [] && query == "" && !open && loading == old(loading)
    {
      posted := ImportPayload(sources);
      imported := if ok then Some(posted) else None;
      ResetImport();
    }
  }

  /** Filtering distributes over concatenation, so the payload of a list
      is the payload of its parts in order. */
  lemma {:induction false} CheckedConcat(xs: seq<SingleLink>, ys: seq<SingleLink>)
    ensures Checked(xs + ys) == Checked(xs) + Checked(ys)
  {
    if |xs| == 0 {
      assert xs + ys == ys;
    } else {
      var zs := xs + ys;
      assert zs[0] == xs[0];
      assert zs[1..] == xs[1..] + ys;
      CheckedConcat(xs[1..], ys);
      var head := if xs[0].checked then [xs[0]] else [];
      assert Checked(zs) == head + Checked(zs[1..]);
      assert Checked(xs) == head + Checked(xs[1..]);
      assert head + (Checked(xs[1..]) + Checked(ys)) == (head + Checked(xs[1..])) + Checked(ys);
    }
  }

  /** The posted payload has one entry per tick; none when nothing is
      ticked. */
  lemma {:induction false} CheckedNone(sources: seq<SingleLink>)
    requires forall i :: 0 <= i < |sources| ==> !sources[i].checked
    ensures Checked(sources) == [] && ImportPayload(sources) == []
  {
    if |sources| > 0 {
      CheckedNone(sources[1..]);
    }
  }

  /** Select-all then select-all again restores the ticks of a list that was
      all ticked or all unticked, and after one click every source holds the
      same tick. */
  lemma SelectAllUniform(sources: seq<SingleLink>)
    ensures var once := AllSetTo(sources, !EveryChecked(sources));
      forall i, j :: 0 <= i < |once| && 0 <= j < |once| ==> once[i].checked == once[j].checked
    ensures EveryChecked(sources) && |sources| > 0 ==> !EveryChecked(AllSetTo(sources, !EveryChecked(sources)))
    ensures !EveryChecked(sources) ==> EveryChecked(AllSetTo(sources, !EveryChecked(sources)))
  {
    if EveryChecked(sources) && |sources| > 0 {
      assert !AllSetTo(sources, false)[0].checked;
    }
  }

  /** Importing everything ticked removes only the descriptions. */
  lemma ImportAllChecked(sources: seq<SingleLink>)
    requires EveryChecked(sources)
    ensures |ImportPayload(sources)| == |sources|
    ensures forall k :: 0 <= k < |sources| ==> ImportPayload(sources)[k] == Strip(sources[k])
  {
    CheckedAll(sources);
  }

  lemma {:induction false} CheckedAll(sources: seq<SingleLink>)
    requires EveryChecked(sources)
    ensures Checked(sources) == sources
  {
    if |sources| > 0 {
      CheckedAll(sources[1..]);
      assert sources == [sources[0]] + sources[1..];
    }
  }
}
