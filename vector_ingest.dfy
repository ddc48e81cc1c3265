/** The DBpedia ingest script: every document of the dataset gives points
    with named vectors "fixed", "sentence" and "semantic"; the buffer of
    points is sent to the collection in batches. */
module VectorIngest {
  import opened Common
  import opened ChunkPoints

  const COLLECTION: string := "dbpedia_14_vectors"
  const BATCH_SIZE: int := 1000

  /** A dataset row. */
  datatype Doc = Doc(title: string, content: string, labelId: int)

  /** The payload every point of a document carries, before its chunk. */
  function DocPayload(d: Doc): seq<Field> {
    [Field("title", Str(d.title)), Field("content", Str(d.content)), Field("label", Int(d.labelId))]
  }

  /** The payload holds the document's title, content and label. */
  lemma DocPayloadFields(d: Doc)
    ensures Get(DocPayload(d), "title") == Some(Str(d.title))
    ensures Get(DocPayload(d), "content") == Some(Str(d.content))
    ensures Get(DocPayload(d), "label") == Some(Int(d.labelId))
  {
    var r := DocPayload(d);
    GetAt(r, 0, "title");
    GetAt(r, 1, "content");
    GetAt(r, 2, "label");
  }

  /** Every point created for document `j` carries its title, content and
      label, and its own chunk and strategy. */
  lemma DocPoint(sp: Splitters, docs: seq<Doc>, j: int, k: int)
    requires 0 <= j < |docs|
    requires Ends(sp, Items(docs), true)[j] <= k < Ends(sp, Items(docs), true)[j + 1]
    ensures k < |AllPoints(sp, Items(docs), true)|
    ensures var p := AllPoints(sp, Items(docs), true)[k];
      && Get(Payload(p), "title") == Some(Str(docs[j].title))
      && Get(Payload(p), "content") == Some(Str(docs[j].content))
      && Get(Payload(p), "label") == Some(Int(docs[j].labelId))
      && Get(Payload(p), "chunk") == Some(Str(p.chunk))
      && Get(Payload(p), "chunking") == Some(Str(p.chunking))
  {
    PointOwner(sp, Items(docs), true, j, k);
    DocPayloadFields(docs[j]);
  }

  /** The documents as chunking items: the content is what gets chunked. */
  function Items(docs: seq<Doc>): (r: seq<Item>)
    ensures |r| == |docs|
  {
    seq(|docs|, i requires 0 <= i < |docs| => Item(DocPayload(docs[i]), docs[i].content))
  }

  /** The concatenation of the uploaded batches. */
  function Flatten(bs: seq<seq<Point>>): seq<Point> {
    if |bs| == 0 then [] else Flatten(bs[..|bs| - 1]) + bs[|bs| - 1]
  }

  lemma FlattenSnoc(bs: seq<seq<Point>>, b: seq<Point>)
    ensures Flatten(bs + [b]) == Flatten(bs) + b
  {
    assert (bs + [b])[..|bs|] == bs;
  }

  /** The number of documents processed when batch `b - 1` was sent (0 for the
      first batch). */
  function Prev(cuts: seq<nat>, b: int): nat
    requires 0 <= b <= |cuts|
  {
    if b == 0 then 0 else cuts[b - 1]
  }

  /** `ingest_data(batch_size)`. The result lists the batches sent, in order,
      and the final value of `idx`; the ghost `cuts[b]` is the number of
      documents processed when batch `b` was sent. `idx` counts every point
      created, and the batches are those points cut as `Batched` says. */
  method IngestData(sp: Splitters, docs: seq<Doc>, batchSize: int)
    returns (batches: seq<seq<Point>>, idx: int, ghost cuts: seq<nat>)
    ensures idx == |AllPoints(sp, Items(docs), true)|
    ensures Batched(AllPoints(sp, Items(docs), true), Ends(sp, Items(docs), true), batchSize, batches, cuts)
  {
    ghost var items := Items(docs);
    ghost var P, E := AllPoints(sp, items, true), Ends(sp, items, true);
    var points: seq<Point> := [];
    idx := 0;
    batches, cuts := [], [];
    Start(P, E, batchSize);
    var i := 0;
    while i < |docs|
      invariant 0 <= i <= |docs|
      invariant Inv(P, E, batchSize, i, batches, cuts, points, idx)
    {
      batches, cuts, points, idx := IngestOne(sp, docs, batchSize, i, P, E, batches, cuts, points, idx);
      i := i + 1;
    }
    ghost var batches0, cuts0 := batches, cuts;
    if |points| > 0 {
      batches, cuts := batches + [points], cuts + [i];
    }
    Finish(P, E, batchSize, i, idx, batches0, cuts0, points, batches, cuts);
  }

  /** The loop body of `ingest_data` for document `i`: its points join the
      buffer, which is sent as a batch once it holds `batchSize` points. */
  method IngestOne(sp: Splitters, docs: seq<Doc>, batchSize: int, i: int, ghost P: seq<Point>, ghost E: seq<nat>,
                   batches: seq<seq<Point>>, ghost cuts: seq<nat>, points: seq<Point>, idx: int)
    returns (batches': seq<seq<Point>>, ghost cuts': seq<nat>, points': seq<Point>, idx': int)
    requires 0 <= i < |docs|
    requires P == AllPoints(sp, Items(docs), true) && E == Ends(sp, Items(docs), true)
    requires Inv(P, E, batchSize, i, batches, cuts, points, idx)
    ensures Inv(P, E, batchSize, i + 1, batches', cuts', points', idx')
  {
    var d := docs[i];
    var it := Item(DocPayload(d), d.content);
    ghost var ip := ItemPoints(sp, it, true, E[i]);
    Slices(sp, Items(docs), true, i, it);
    var grown;
    grown, idx' := AppendItem(sp, points, idx, it, true);
    if |grown| >= batchSize {
      SendAfter(P, E, batchSize, i, batches, cuts, points, grown, ip, idx');
      batches', cuts', points' := batches + [grown], cuts + [i + 1], [];
    } else {
      KeepAfter(P, E, batchSize, i, batches, cuts, points, grown, ip, idx');
      batches', cuts', points' := batches, cuts, grown;
    }
  }

  /** How the points `P` are sent, `E[j]` being the number of points after
      `j` documents:
      - every point is uploaded exactly once, in creation order;
      - a batch is sent only after a whole document: batch `b` holds the
        points of the documents `Prev(cuts, b) .. cuts[b]`;
      - it is sent at the first document end where the buffer holds at least
        `batchSize` points, so it may hold more than that;
      - only the last batch may be smaller: the remainder, sent after the
        last document when it is not empty;
      - after the last batch no document end found the buffer at `batchSize`. */
  ghost predicate Batched(P: seq<Point>, E: seq<nat>, batchSize: int, batches: seq<seq<Point>>, cuts: seq<nat>) {
    && 0 < |E|
    && Flatten(batches) == P
    && Contents(P, E, batches, cuts)
    && CutsOk(E, batchSize, cuts)
    && Pending(E, batchSize, cuts, |E| - 1)
    && (forall b :: 0 <= b < |batches| ==>
          |batches[b]| >= batchSize || (b == |batches| - 1 && cuts[b] == |E| - 1 && 0 < |batches[b]|))
  }

  /** What holds after `i` documents, where `P` is every point in creation
      order and `E[j]` the number of points after `j` documents: `idx` counts
      the points created, the batches sent and the buffer are the first
      `E[i]` points, the batches are the points of the first
      `Prev(cuts, |cuts|)` documents cut where `cuts` says, each was sent at
      the first document end that found the buffer at `batchSize`, and every
      document end since then found it below. */
  ghost predicate Inv(P: seq<Point>, E: seq<nat>, batchSize: int, i: int,
                      batches: seq<seq<Point>>, cuts: seq<nat>, points: seq<Point>, idx: int) {
    && 0 <= i < |E| && E[0] == 0
    && idx == E[i] <= |P|
    && CutsOk(E, batchSize, cuts) && Prev(cuts, |cuts|) <= i
    && E[Prev(cuts, |cuts|)] <= E[i]
    && Pending(E, batchSize, cuts, i)
    && Contents(P, E, batches, cuts)
    && Flatten(batches) == P[..E[Prev(cuts, |cuts|)]]
    && Flatten(batches) + points == P[..E[i]]
    && (forall b :: 0 <= b < |batches| ==> |batches[b]| >= batchSize)
  }

  /** The cut points: each batch was sent strictly after the previous one,
      and no document end between two consecutive cuts had already found
      the buffer at `batchSize`. */
  ghost predicate CutsOk(E: seq<nat>, batchSize: int, cuts: seq<nat>) {
    && Prev(cuts, |cuts|) < |E|
    && (forall b {:trigger Prev(cuts, b)} :: 0 <= b < |cuts| ==> Prev(cuts, b) < cuts[b] <= Prev(cuts, |cuts|))
    && (forall b, j {:trigger E[j], Prev(cuts, b)} ::
          0 <= b < |cuts| && Prev(cuts, b) < j < cuts[b] ==> E[j] - E[Prev(cuts, b)] < batchSize)
  }

  /** Since the last batch, no document end up to `n` found the buffer at
      `batchSize`. */
  ghost predicate Pending(E: seq<nat>, batchSize: int, cuts: seq<nat>, n: int) {
    && Prev(cuts, |cuts|) < |E|
    && forall j :: Prev(cuts, |cuts|) < j <= n && j < |E| ==> E[j] - E[Prev(cuts, |cuts|)] < batchSize
  }

  /** Batch `b` is the stretch of points created between the document ends
      `Prev(cuts, b)` and `cuts[b]`. */
  ghost predicate Contents(P: seq<Point>, E: seq<nat>, batches: seq<seq<Point>>, cuts: seq<nat>) {
    && |cuts| == |batches|
    && forall b {:trigger Prev(cuts, b)} :: 0 <= b < |cuts| ==>
         Prev(cuts, b) < cuts[b] < |E| && E[Prev(cuts, b)] <= E[cuts[b]] <= |P|
         && batches[b] == P[E[Prev(cuts, b)]..E[cuts[b]]]
  }

  lemma Start(P: seq<Point>, E: seq<nat>, batchSize: int)
    requires 0 < |E| && E[0] == 0
    ensures Inv(P, E, batchSize, 0, [], [], [], 0)
  {
  }

  /** Document `i` filled the buffer to `batchSize` or more: it is sent. */
  lemma SendAfter(P: seq<Point>, E: seq<nat>, batchSize: int, i: int, batches: seq<seq<Point>>, cuts: seq<nat>,
                  before: seq<Point>, points: seq<Point>, ip: seq<Point>, idx: int)
    requires 0 <= i && i + 1 < |E| && Inv(P, E, batchSize, i, batches, cuts, before, E[i])
    requires E[i] <= E[i + 1] <= |P| && P[..E[i + 1]] == P[..E[i]] + ip
    requires points == before + ip && idx == E[i] + |ip|
    requires |points| >= batchSize
    ensures Inv(P, E, batchSize, i + 1, batches + [points], cuts + [i + 1], [], idx)
  {
    var last := Prev(cuts, |cuts|);
    Absorb(P, E, i, last, Flatten(batches), before, points, ip);
    FlushAt(E, batchSize, cuts, i + 1);
    ContentsSnoc(P, E, batches, cuts, points, i + 1);
    FlattenSnoc(batches, points);
  }

  /** Document `i` left the buffer below `batchSize`: nothing is sent. */
  lemma KeepAfter(P: seq<Point>, E: seq<nat>, batchSize: int, i: int, batches: seq<seq<Point>>, cuts: seq<nat>,
                  before: seq<Point>, points: seq<Point>, ip: seq<Point>, idx: int)
    requires 0 <= i && i + 1 < |E| && Inv(P, E, batchSize, i, batches, cuts, before, E[i])
    requires E[i] <= E[i + 1] <= |P| && P[..E[i + 1]] == P[..E[i]] + ip
    requires points == before + ip && idx == E[i] + |ip|
    requires |points| < batchSize
    ensures Inv(P, E, batchSize, i + 1, batches, cuts, points, idx)
  {
    Absorb(P, E, i, Prev(cuts, |cuts|), Flatten(batches), before, points, ip);
    Wait(E, batchSize, cuts, i + 1);
  }

  /** After the last document the remainder, if any, is sent. */
  lemma Finish(P: seq<Point>, E: seq<nat>, batchSize: int, n: int, idx: int, batches0: seq<seq<Point>>,
               cuts0: seq<nat>, points: seq<Point>, batches: seq<seq<Point>>, cuts: seq<nat>)
    requires 0 < |E| && n == |E| - 1 && E[n] == |P|
    requires Inv(P, E, batchSize, n, batches0, cuts0, points, idx)
    requires if |points| > 0 then batches == batches0 + [points] && cuts == cuts0 + [n]
             else batches == batches0 && cuts == cuts0
    ensures Batched(P, E, batchSize, batches, cuts) && idx == |P|
  {
    assert P[..E[|E| - 1]] == P;
    if |points| > 0 {
      var last := Prev(cuts0, |cuts0|);
      SliceAfter(P, E[last], E[|E| - 1], Flatten(batches0), points);
      FlushAt(E, batchSize, cuts0, |E| - 1);
      ContentsSnoc(P, E, batches0, cuts0, points, |E| - 1);
      FlattenSnoc(batches0, points);
      LastBatch(batches0, points, batchSize);
    }
  }

  /** Document `i`'s points `ip` join the buffer: the sent points and the
      buffer are now the first `E[i + 1]` points, and the buffer is the
      stretch since the last batch. */
  lemma Absorb(P: seq<Point>, E: seq<nat>, i: int, last: int, sent: seq<Point>, before: seq<Point>,
               points: seq<Point>, ip: seq<Point>)
    requires 0 <= last <= i && i + 1 < |E| && E[last] <= E[i] <= E[i + 1] <= |P|
    requires sent == P[..E[last]] && sent + before == P[..E[i]]
    requires P[..E[i + 1]] == P[..E[i]] + ip && points == before + ip
    ensures sent + points == P[..E[i + 1]]
    ensures |points| + E[last] == E[i + 1] && E[i + 1] == E[i] + |ip|
    ensures points == P[E[last]..E[i + 1]]
  {
    assert sent + points == (sent + before) + ip;
    SliceAfter(P, E[last], E[i + 1], sent, points);
  }

  /** What follows a prefix inside a longer prefix is the slice between them. */
  lemma SliceAfter(P: seq<Point>, a: int, c: int, sent: seq<Point>, rest: seq<Point>)
    requires 0 <= a <= c <= |P| && sent == P[..a] && sent + rest == P[..c]
    ensures rest == P[a..c]
  {
    var whole := sent + rest;
    assert |rest| == c - a;
    forall k | 0 <= k < |rest| ensures rest[k] == P[a + k] {
      assert rest[k] == whole[a + k];
      assert whole[a + k] == P[..c][a + k];
    }
  }

  /** The buffer after `n` documents stays below `batchSize`: nothing is sent. */
  lemma Wait(E: seq<nat>, batchSize: int, cuts: seq<nat>, n: int)
    requires Pending(E, batchSize, cuts, n - 1) && 0 <= n < |E|
    requires E[n] - E[Prev(cuts, |cuts|)] < batchSize
    ensures Pending(E, batchSize, cuts, n)
  {
  }

  /** Sending the buffer after `n` documents. */
  lemma FlushAt(E: seq<nat>, batchSize: int, cuts: seq<nat>, n: int)
    requires CutsOk(E, batchSize, cuts) && Pending(E, batchSize, cuts, n - 1)
    requires Prev(cuts, |cuts|) < n < |E|
    ensures CutsOk(E, batchSize, cuts + [n]) && Pending(E, batchSize, cuts + [n], n) && Prev(cuts + [n], |cuts| + 1) == n
  {
    var cuts' := cuts + [n];
    forall b | 0 <= b < |cuts'| ensures Prev(cuts', b) < cuts'[b] <= n {
      if b < |cuts| {
        assert Prev(cuts', b) == Prev(cuts, b);
      }
    }
    forall b, j | 0 <= b < |cuts'| && Prev(cuts', b) < j < cuts'[b]
      ensures E[j] - E[Prev(cuts', b)] < batchSize
    {
      if b == |cuts| {
        assert Prev(cuts', b) == Prev(cuts, |cuts|);
      } else {
        assert Prev(cuts', b) == Prev(cuts, b) && cuts'[b] == cuts[b];
      }
    }
  }

  /** A new batch that is the stretch since the last cut extends `Contents`. */
  lemma ContentsSnoc(P: seq<Point>, E: seq<nat>, batches: seq<seq<Point>>, cuts: seq<nat>, points: seq<Point>, n: int)
    requires Contents(P, E, batches, cuts)
    requires Prev(cuts, |cuts|) < n < |E| && E[Prev(cuts, |cuts|)] <= E[n] <= |P|
    requires points == P[E[Prev(cuts, |cuts|)]..E[n]]
    ensures Contents(P, E, batches + [points], cuts + [n])
  {
    var batches', cuts' := batches + [points], cuts + [n];
    forall b | 0 <= b < |cuts'|
      ensures Prev(cuts', b) < cuts'[b] < |E| && E[Prev(cuts', b)] <= E[cuts'[b]] <= |P|
      ensures batches'[b] == P[E[Prev(cuts', b)]..E[cuts'[b]]]
    {
      if b < |cuts| {
        assert Prev(cuts', b) == Prev(cuts, b) && cuts'[b] == cuts[b] && batches'[b] == batches[b];
      } else {
        assert Prev(cuts', b) == Prev(cuts, |cuts|);
      }
    }
  }

  /** The remainder is the only batch that may be small. */
  lemma LastBatch(batches: seq<seq<Point>>, points: seq<Point>, batchSize: int)
    requires forall b :: 0 <= b < |batches| ==> |batches[b]| >= batchSize
    ensures forall b :: 0 <= b < |batches| ==> |(batches + [points])[b]| >= batchSize
    ensures (batches + [points])[|batches|] == points
  {
  }
}
