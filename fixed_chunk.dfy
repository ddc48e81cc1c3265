/** Fixed-size chunking: the token sequence of a text is cut every `size`
    tokens and each window is decoded back to text. The tokenizer is a
    parameter (`encode`, `decode`). */
module FixedChunk {
  import opened Common

  const MAX_TOKENS: int := 40

  /** `[tokens[i:i+size] for i in range(start, len(tokens), size)]` for a
      positive step. */
  function WindowsFrom<T>(tokens: seq<T>, start: nat, size: nat): (r: seq<seq<T>>)
    requires size > 0
    decreases |tokens| - start
  {
    if start >= |tokens| then []
    else
      var stop := if start + size <= |tokens| then start + size else |tokens|;
      [tokens[start..stop]] + WindowsFrom(tokens, start + size, size)
  }

  /** One window per started block of `size` tokens: the count `k` is the
      least with `k * size >= n - start`, that is `ceil((n - start) / size)`. */
  lemma {:induction false} WindowsCount<T>(tokens: seq<T>, start: nat, size: nat)
    requires size > 0
    ensures var k := |WindowsFrom(tokens, start, size)|;
      if start < |tokens| then (k - 1) * size < |tokens| - start <= k * size else k == 0
    decreases |tokens| - start
  {
    if start < |tokens| {
      WindowsCount(tokens, start + size, size);
      var k := |WindowsFrom(tokens, start + size, size)|;
      assert |WindowsFrom(tokens, start, size)| == k + 1;
      assert (k + 1) * size == k * size + size;
      if start + size < |tokens| {
        assert (k - 1) * size + size == k * size;
      }
    }
  }

  /** `range` refuses a step of 0 (`None`), and a negative step from 0 up to
      `len(tokens)` gives nothing. */
  function Windows<T>(tokens: seq<T>, size: int): (r: Option<seq<seq<T>>>)
    ensures r.None? <==> size == 0
    ensures size < 0 ==> r == Some([])
    ensures size > 0 ==> r.Some? && (|tokens| == 0 <==> r.value == [])
    ensures size > 0 && |tokens| > 0 ==> (|r.value| - 1) * size < |tokens| <= |r.value| * size
  {
    if size == 0 then None
    else if size < 0 then Some([])
    else
      WindowsCount(tokens, 0, size);
      Some(WindowsFrom(tokens, 0, size))
  }

  function Min(a: int, b: int): int { if a <= b then a else b }

  /** Window `k` is the slice `[k * size, min((k + 1) * size, n))`. */
  lemma {:induction false} WindowAt<T>(tokens: seq<T>, start: nat, size: nat, k: nat)
    requires size > 0 && k < |WindowsFrom(tokens, start, size)|
    ensures start + k * size < |tokens|
    ensures WindowsFrom(tokens, start, size)[k] == tokens[start + k * size .. Min(start + (k + 1) * size, |tokens|)]
    decreases |tokens| - start
  {
    MulSteps(k, size);
    var w := WindowsFrom(tokens, start, size);
    if k > 0 {
      WindowAt(tokens, start + size, size, k - 1);
      assert w[k] == WindowsFrom(tokens, start + size, size)[k - 1];
    }
  }

  lemma MulSteps(k: nat, size: nat)
    ensures 0 * size == 0 && 1 * size == size
    ensures k > 0 ==> (k - 1) * size + size == k * size
    ensures (k + 1) * size == k * size + size
  {
  }

  /** Every window but the last holds exactly `size` tokens; the last holds
      between 1 and `size`. */
  lemma WindowSizes<T>(tokens: seq<T>, size: int)
    requires size > 0
    ensures var w := Windows(tokens, size).value;
      (forall k :: 0 <= k < |w| - 1 ==> |w[k]| == size)
      && (|w| > 0 ==> 1 <= |w[|w| - 1]| <= size)
  {
    var w := Windows(tokens, size).value;
    forall k | 0 <= k < |w| - 1 ensures |w[k]| == size {
      WindowAt(tokens, 0, size, k);
      WindowAt(tokens, 0, size, k + 1);
    }
    if |w| > 0 {
      WindowAt(tokens, 0, size, |w| - 1);
    }
  }

  function Concat<T>(ws: seq<seq<T>>): (r: seq<T>) {
    if |ws| == 0 then [] else ws[0] + Concat(ws[1..])
  }

  /** The windows put back together are the tokens from `start` on. */
  lemma {:induction false} WindowsConcat<T>(tokens: seq<T>, start: nat, size: nat)
    requires size > 0 && start <= |tokens|
    ensures Concat(WindowsFrom(tokens, start, size)) == tokens[start..]
    decreases |tokens| - start
  {
    if start < |tokens| {
      var w := WindowsFrom(tokens, start, size);
      assert w[1..] == WindowsFrom(tokens, start + size, size);
      if start + size <= |tokens| {
        WindowsConcat(tokens, start + size, size);
        assert tokens[start..] == tokens[start..start + size] + tokens[start + size..];
      } else {
        assert WindowsFrom(tokens, start + size, size) == [];
      }
    }
  }

  /** The chunks cover the token sequence: nothing is lost or repeated. */
  lemma WindowsCover<T>(tokens: seq<T>, size: int)
    requires size > 0
    ensures Concat(Windows(tokens, size).value) == tokens
  {
    WindowsConcat(tokens, 0, size);
  }

  /** `fixed_size_chunks(text, size)`. */
  function FixedSizeChunks(text: string, size: int, encode: string -> seq<int>, decode: seq<int> -> string)
    : (r: Option<seq<string>>)
    ensures r.None? <==> size == 0
    ensures r.Some? ==> |r.value| == |Windows(encode(text), size).value|
    ensures r.Some? ==> forall k :: 0 <= k < |r.value| ==> r.value[k] == decode(Windows(encode(text), size).value[k])
  {
    match Windows(encode(text), size)
    case None => None
    case Some(ws) => Some(seq(|ws|, k requires 0 <= k < |ws| => decode(ws[k])))
  }

  /** With the default size an empty token sequence gives no chunks, and a
      text of `n` tokens gives `ceil(n / 40)` of them. */
  lemma DefaultChunkCount(text: string, encode: string -> seq<int>, decode: seq<int> -> string)
    ensures FixedSizeChunks(text, MAX_TOKENS, encode, decode).Some?
    ensures |FixedSizeChunks(text, MAX_TOKENS, encode, decode).value| == (|encode(text)| + 39) / 40
    ensures |encode(text)| == 0 ==> FixedSizeChunks(text, MAX_TOKENS, encode, decode) == Some([])
  {
  }
}
