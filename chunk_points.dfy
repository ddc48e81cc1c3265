/** What the two vector-ingest scripts share: each source text is cut three
    ways (fixed token windows, sentences, semantic sections), every chunk
    becomes one Qdrant point, and points are numbered 0, 1, 2, ... in the
    order they are created. Embeddings are not modelled: a point records only
    its id, the name of the vector it fills and its payload. */
module ChunkPoints {
  import opened Common
  import opened FixedChunk

  /** A point; `vector` is the named vector it fills, `None` for a collection
      with a single unnamed vector. Its payload is the source's own fields
      `base` with the chunk and the strategy tag added (`Payload`). */
  datatype Point = Point(id: int, vector: Option<string>, base: seq<Field>, chunk: string, chunking: string)

  /** The three chunkers a script runs on each text. */
  datatype Splitters = Splitters(
    fixed: string -> seq<string>,
    sentence: string -> seq<string>,
    semantic: string -> seq<string>)

  /** One source text with the payload fields every one of its points carries. */
  datatype Item = Item(base: seq<Field>, text: string)

  const FIXED: string := "fixed"
  const SENTENCE: string := "sentence"
  const SEMANTIC: string := "semantic"

  /** The chunkers of the scripts: fixed windows of `MAX_TOKENS` tokens of
      the given tokenizer, and the library's sentence and semantic splitters,
      which are outside the model. */
  function Chunkers(encode: string -> seq<int>, decode: seq<int> -> string,
                    sentence: string -> seq<string>, semantic: string -> seq<string>): (r: Splitters)
    ensures forall t :: r.fixed(t) == FixedSizeChunks(t, MAX_TOKENS, encode, decode).value
    ensures r.sentence == sentence && r.semantic == semantic
  {
    Splitters(t => FixedSizeChunks(t, MAX_TOKENS, encode, decode).value, sentence, semantic)
  }

  /** The payload dict `{**base, "chunk": chunk, "chunking": tag}`: the
      source's fields, with `chunk` and `chunking` set last. */
  function Payload(p: Point): (r: seq<Field>)
    ensures Get(r, "chunk") == Some(Str(p.chunk)) && Get(r, "chunking") == Some(Str(p.chunking))
    ensures forall k :: k != "chunk" && k != "chunking" ==> Get(r, k) == Get(p.base, k)
  {
    Put(Put(p.base, "chunk", Str(p.chunk)), "chunking", Str(p.chunking))
  }

  function VectorName(named: bool, tag: string): Option<string> {
    if named then Some(tag) else None
  }

  /** The points of one strategy's chunks, numbered from `start`. */
  function Tagged(base: seq<Field>, chunks: seq<string>, tag: string, named: bool, start: int): (r: seq<Point>)
    ensures |r| == |chunks|
  {
    seq(|chunks|, i requires 0 <= i < |chunks| => Point(start + i, VectorName(named, tag), base, chunks[i], tag))
  }

  /** The points of one item: its fixed chunks, then its sentence chunks, then
      its semantic chunks. */
  function ItemPoints(sp: Splitters, it: Item, named: bool, start: int): (r: seq<Point>)
  {
    var f := sp.fixed(it.text);
    var s := sp.sentence(it.text);
    Tagged(it.base, f, FIXED, named, start)
      + Tagged(it.base, s, SENTENCE, named, start + |f|)
      + Tagged(it.base, sp.semantic(it.text), SEMANTIC, named, start + |f| + |s|)
  }

  /** Every point the scripts create for `items`, in creation order. */
  function AllPoints(sp: Splitters, items: seq<Item>, named: bool): (r: seq<Point>)
  {
    if |items| == 0 then []
    else
      var before := AllPoints(sp, items[..|items| - 1], named);
      before + ItemPoints(sp, items[|items| - 1], named, |before|)
  }

  /** `Ends(...)[j]` is how many points exist once the first `j` items are
      processed. */
  ghost function Ends(sp: Splitters, items: seq<Item>, named: bool): (r: seq<nat>)
    ensures |r| == |items| + 1 && r[0] == 0 && r[|items|] == |AllPoints(sp, items, named)|
  {
    if |items| == 0 then [0]
    else Ends(sp, items[..|items| - 1], named) + [|AllPoints(sp, items, named)|]
  }

  /** `for chunk in chunks: points.append(PointStruct(id=idx, ...)); idx += 1`. */
  method AppendChunks(points: seq<Point>, idx: int, base: seq<Field>, chunks: seq<string>, tag: string, named: bool)
    returns (points': seq<Point>, idx': int)
    ensures points' == points + Tagged(base, chunks, tag, named, idx)
    ensures idx' == idx + |chunks|
  {
    points', idx' := points, idx;
    var n := 0;
    while n < |chunks|
      invariant 0 <= n <= |chunks|
      invariant idx' == idx + n
      invariant points' == points + Tagged(base, chunks[..n], tag, named, idx)
    {
      points' := points' + [Point(idx', VectorName(named, tag), base, chunks[n], tag)];
      idx' := idx' + 1;
      n := n + 1;
      assert Tagged(base, chunks[..n], tag, named, idx)
        == Tagged(base, chunks[..n - 1], tag, named, idx) + [Point(idx + n - 1, VectorName(named, tag), base, chunks[n - 1], tag)];
    }
    assert chunks[..n] == chunks;
  }

  /** The three chunk loops of one item. */
  method AppendItem(sp: Splitters, points: seq<Point>, idx: int, it: Item, named: bool)
    returns (points': seq<Point>, idx': int)
    ensures points' == points + ItemPoints(sp, it, named, idx)
    ensures idx' == idx + |ItemPoints(sp, it, named, idx)|
  {
    var f := sp.fixed(it.text);
    var s := sp.sentence(it.text);
    var m := sp.semantic(it.text);
    ghost var t1 := Tagged(it.base, f, FIXED, named, idx);
    ghost var t2 := Tagged(it.base, s, SENTENCE, named, idx + |f|);
    ghost var t3 := Tagged(it.base, m, SEMANTIC, named, idx + |f| + |s|);
    assert ItemPoints(sp, it, named, idx) == t1 + t2 + t3 by {}
    var p1, i1 := AppendChunks(points, idx, it.base, f, FIXED, named);
    var p2, i2 := AppendChunks(p1, i1, it.base, s, SENTENCE, named);
    points', idx' := AppendChunks(p2, i2, it.base, m, SEMANTIC, named);
    Regroup(points, t1, t2, t3);
  }

  lemma Regroup<T>(a: seq<T>, b: seq<T>, c: seq<T>, d: seq<T>)
    ensures ((a + b) + c) + d == a + ((b + c) + d)
  {
  }

  /** The ids are 0, 1, 2, ...: point `i` has id `i`. */
  lemma {:induction false} PointIds(sp: Splitters, items: seq<Item>, named: bool)
    ensures forall i :: 0 <= i < |AllPoints(sp, items, named)| ==> AllPoints(sp, items, named)[i].id == i
  {
    if |items| > 0 {
      var before := AllPoints(sp, items[..|items| - 1], named);
      PointIds(sp, items[..|items| - 1], named);
      var it := items[|items| - 1];
      var f := sp.fixed(it.text);
      var s := sp.sentence(it.text);
      var own := ItemPoints(sp, it, named, |before|);
      forall i | 0 <= i < |own| ensures own[i].id == |before| + i {
        if i < |f| {
        } else if i < |f| + |s| {
        } else {
        }
      }
    }
  }

  /** The strategies in the order the scripts run them. */
  function Rank(tag: string): int {
    if tag == FIXED then 0 else if tag == SENTENCE then 1 else 2
  }

  /** Inside one item the fixed chunks come first, then the sentence chunks,
      then the semantic ones; every point carries the item's own fields, its
      chunk and its strategy, and a named vector is the one its tag names. */
  lemma ItemLayout(sp: Splitters, it: Item, named: bool, start: int)
    ensures var r := ItemPoints(sp, it, named, start);
      && |r| == |sp.fixed(it.text)| + |sp.sentence(it.text)| + |sp.semantic(it.text)|
      && (forall i, j :: 0 <= i < j < |r| ==> Rank(r[i].chunking) <= Rank(r[j].chunking))
      && (forall i :: 0 <= i < |r| ==> r[i].chunking in {FIXED, SENTENCE, SEMANTIC})
      && (forall i :: 0 <= i < |r| ==> named ==> r[i].vector == Some(r[i].chunking))
      && (forall i :: 0 <= i < |r| ==> !named ==> r[i].vector.None?)
      && (forall i :: 0 <= i < |r| ==> r[i].base == it.base && r[i].id == start + i)
      && (forall i :: 0 <= i < |sp.fixed(it.text)| ==> r[i].chunk == sp.fixed(it.text)[i])
      && (forall i :: 0 <= i < |sp.sentence(it.text)| ==>
            r[|sp.fixed(it.text)| + i].chunk == sp.sentence(it.text)[i])
      && (forall i :: 0 <= i < |sp.semantic(it.text)| ==>
            r[|sp.fixed(it.text)| + |sp.sentence(it.text)| + i].chunk == sp.semantic(it.text)[i])
  {
    var r := ItemPoints(sp, it, named, start);
    var f := sp.fixed(it.text);
    var s := sp.sentence(it.text);
    forall i | 0 <= i < |r|
      ensures r[i].chunking == (if i < |f| then FIXED else if i < |f| + |s| then SENTENCE else SEMANTIC)
      ensures r[i].vector == VectorName(named, r[i].chunking)
    {
    }
  }

  /** The points of the first `j` items are where all points begin, and
      there are `Ends(...)[j]` of them. */
  lemma {:induction false} AllPointsPrefix(sp: Splitters, items: seq<Item>, named: bool, j: int)
    requires 0 <= j <= |items|
    ensures Ends(sp, items, named)[j] == |AllPoints(sp, items[..j], named)| <= |AllPoints(sp, items, named)|
    ensures AllPoints(sp, items[..j], named) == AllPoints(sp, items, named)[..Ends(sp, items, named)[j]]
    decreases |items|
  {
    if j < |items| {
      var init := items[..|items| - 1];
      assert init[..j] == items[..j];
      AllPointsPrefix(sp, init, named, j);
    } else {
      assert items[..j] == items;
    }
  }

  /** Processing one more item adds exactly that item's points. */
  lemma AllPointsStep(sp: Splitters, items: seq<Item>, named: bool, i: int)
    requires 0 <= i < |items|
    ensures Ends(sp, items, named)[i] == |AllPoints(sp, items[..i], named)|
    ensures Ends(sp, items, named)[i + 1] == |AllPoints(sp, items[..i + 1], named)|
    ensures AllPoints(sp, items[..i + 1], named)
      == AllPoints(sp, items[..i], named) + ItemPoints(sp, items[i], named, Ends(sp, items, named)[i])
  {
    assert items[..i + 1][..i] == items[..i];
    AllPointsPrefix(sp, items, named, i);
    AllPointsPrefix(sp, items, named, i + 1);
  }

  /** The points of item `i` sit in all points right after those of the
      items before it. */
  lemma Slices(sp: Splitters, items: seq<Item>, named: bool, i: int, it: Item)
    requires 0 <= i < |items| && items[i] == it
    ensures var P, E := AllPoints(sp, items, named), Ends(sp, items, named);
      && E[i] <= E[i + 1] <= |P|
      && P[..E[i + 1]] == P[..E[i]] + ItemPoints(sp, it, named, E[i])
  {
    AllPointsStep(sp, items, named, i);
    AllPointsPrefix(sp, items, named, i);
    AllPointsPrefix(sp, items, named, i + 1);
  }

  /** Point `k` of all points, created while item `j` was processed, is that
      item's point `k - E[j]`: it carries the item's fields. */
  lemma PointOwner(sp: Splitters, items: seq<Item>, named: bool, j: int, k: int)
    requires 0 <= j < |items|
    requires Ends(sp, items, named)[j] <= k < Ends(sp, items, named)[j + 1]
    ensures k < |AllPoints(sp, items, named)|
    ensures var e := Ends(sp, items, named)[j];
      Ends(sp, items, named)[j + 1] == e + |ItemPoints(sp, items[j], named, e)|
    ensures var e := Ends(sp, items, named)[j];
      AllPoints(sp, items, named)[k] == ItemPoints(sp, items[j], named, e)[k - e]
    ensures AllPoints(sp, items, named)[k].base == items[j].base
  {
    var P, E := AllPoints(sp, items, named), Ends(sp, items, named);
    Slices(sp, items, named, j, items[j]);
    var X := ItemPoints(sp, items[j], named, E[j]);
    SliceIndex(P, E[j], E[j + 1], X, k);
    ItemBase(sp, items[j], named, E[j], k - E[j]);
  }

  /** An element inside a slice that extends a shorter one by `X` is an
      element of `X`. */
  lemma SliceIndex<T>(P: seq<T>, a: int, b: int, X: seq<T>, k: int)
    requires 0 <= a <= k < b <= |P| && P[..b] == P[..a] + X
    ensures b == a + |X| && P[k] == X[k - a]
  {
    assert P[k] == P[..b][k];
  }

  lemma ItemBase(sp: Splitters, it: Item, named: bool, start: int, i: int)
    requires 0 <= i < |ItemPoints(sp, it, named, start)|
    ensures ItemPoints(sp, it, named, start)[i].base == it.base
  {
    var f := sp.fixed(it.text);
    var s := sp.sentence(it.text);
    if i < |f| {
    } else if i < |f| + |s| {
    } else {
    }
  }

  /** One more item adds its points after all the others. */
  lemma AllPointsSnoc(sp: Splitters, items: seq<Item>, it: Item, named: bool)
    ensures AllPoints(sp, items + [it], named)
      == AllPoints(sp, items, named) + ItemPoints(sp, it, named, |AllPoints(sp, items, named)|)
  {
    assert (items + [it])[..|items|] == items;
  }
}
