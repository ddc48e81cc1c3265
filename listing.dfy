/** Reading a Mongo cursor `find(filter).sort("updated_at", -1)` to the end,
    as the listing routes do: every selected document once, newest first. */
module Listing {
  import opened Sorting

  /** A listed document as the client sees it: `{"id": str(_id), "title": title}`. */
  datatype Row = Row(id: string, title: string)

  /** The keys of the documents the filter selects. */
  function Selected<D>(m: map<string, D>, keep: D -> bool): (r: set<string>)
    ensures forall k :: k in r <==> k in m && keep(m[k])
  {
    set k | k in m && keep(m[k])
  }

  /** The sort key of a document, by its key. */
  function StampOf<D>(m: map<string, D>, stamp: D -> int): string -> int {
    k => if k in m then stamp(m[k]) else 0
  }

  /** The keys of the selected documents, in an order that is newest first.
      The database orders documents with the same stamp as it likes; this is
      one of those orders. */
  method NewestFirst<D>(m: map<string, D>, keep: D -> bool, stamp: D -> int) returns (ids: seq<string>)
    ensures forall i :: 0 <= i < |ids| ==> ids[i] in m && keep(m[ids[i]])
    ensures forall k :: k in m && keep(m[k]) ==> k in ids
    ensures forall i, j :: 0 <= i < j < |ids| ==> ids[i] != ids[j]
    ensures forall i, j :: 0 <= i < j < |ids| ==> stamp(m[ids[i]]) >= stamp(m[ids[j]])
  {
    var all := Selected(m, keep);
    var key := StampOf(m, stamp);
    var rest := all;
    ids := [];
    while rest != {}
      invariant rest <= all
      invariant multiset(ids) == multiset(all - rest)
      invariant SortedDesc(ids, key)
      decreases |rest|
    {
      var k :| k in rest;
      var next := InsertDesc(k, ids, key);
      TakeOne(all, rest, k, ids, next);
      ids, rest := next, rest - {k};
    }
    assert all - rest == all;
    ListedOnce(ids, m, keep, stamp);
  }

  /** Moving one key from the pending set to the list keeps the list a
      copy of the keys already taken. */
  lemma TakeOne(all: set<string>, rest: set<string>, k: string, ids: seq<string>, next: seq<string>)
    requires rest <= all && k in rest
    requires multiset(ids) == multiset(all - rest)
    requires multiset(next) == multiset(ids) + multiset{k}
    ensures multiset(next) == multiset(all - (rest - {k}))
  {
    assert all - (rest - {k}) == (all - rest) + {k};
  }

  lemma ListedOnce<D>(ids: seq<string>, m: map<string, D>, keep: D -> bool, stamp: D -> int)
    requires multiset(ids) == multiset(Selected(m, keep))
    requires SortedDesc(ids, StampOf(m, stamp))
    ensures forall i :: 0 <= i < |ids| ==> ids[i] in m && keep(m[ids[i]])
    ensures forall k :: k in m && keep(m[k]) ==> k in ids
    ensures forall i, j :: 0 <= i < j < |ids| ==> ids[i] != ids[j]
    ensures forall i, j :: 0 <= i < j < |ids| ==> stamp(m[ids[i]]) >= stamp(m[ids[j]])
  {
    var all := Selected(m, keep);
    forall i | 0 <= i < |ids| ensures ids[i] in m && keep(m[ids[i]]) {
      assert ids[i] in multiset(ids);
    }
    forall k | k in m && keep(m[k]) ensures k in ids {
      assert k in multiset(all);
    }
    forall i, j | 0 <= i < j < |ids| ensures ids[i] != ids[j] {
      if ids[i] == ids[j] {
        TwiceCounted(ids, i, j);
        assert false;
      }
    }
    forall i, j | 0 <= i < j < |ids| ensures stamp(m[ids[i]]) >= stamp(m[ids[j]]) {
      assert StampOf(m, stamp)(ids[i]) >= StampOf(m, stamp)(ids[j]);
    }
  }

  /** A cursor without a sort: every key once, in the store's order. */
  method Enumerate<D>(m: map<string, D>) returns (ids: seq<string>)
    ensures forall i :: 0 <= i < |ids| ==> ids[i] in m
    ensures forall k :: k in m ==> k in ids
    ensures forall i, j :: 0 <= i < j < |ids| ==> ids[i] != ids[j]
  {
    var rest := m.Keys;
    ids := [];
    while rest != {}
      invariant rest <= m.Keys
      invariant forall i :: 0 <= i < |ids| ==> ids[i] in m && ids[i] !in rest
      invariant forall k :: k in m && k !in rest ==> k in ids
      invariant forall i, j :: 0 <= i < j < |ids| ==> ids[i] != ids[j]
      decreases |rest|
    {
      var k :| k in rest;
      ids := ids + [k];
      rest := rest - {k};
    }
  }

  /** An element found at two positions is counted at least twice. */
  lemma TwiceCounted<T>(s: seq<T>, i: int, j: int)
    requires 0 <= i < j < |s| && s[i] == s[j]
    ensures multiset(s)[s[i]] >= 2
  {
    assert s == s[..i] + [s[i]] + s[i + 1..j] + [s[j]] + s[j + 1..];
  }
}
