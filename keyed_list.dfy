/** Ordered lists of records identified by a key (`public_id` for files,
    `id` for notes and conversations), and the list rewrites the client mirrors
    apply after a round trip: filter-out-by-id on delete, and prepend or
    move-to-front on create and update. */
module KeyedList {

  /** `s.filter(x => key(x) !== id)`. */
  function Without<T(==,!new), K(==)>(s: seq<T>, key: T -> K, id: K): (r: seq<T>)
    ensures |r| <= |s|
    ensures forall x :: x in r <==> x in s && key(x) != id
  {
    if |s| == 0 then []
    else if key(s[0]) == id then Without(s[1..], key, id)
    else [s[0]] + Without(s[1..], key, id)
  }

  predicate HasKey<T, K(==)>(s: seq<T>, key: T -> K, id: K) {
    exists i :: 0 <= i < |s| && key(s[i]) == id
  }

  /** Filtering keeps the relative order: it distributes over concatenation. */
  lemma {:induction false} WithoutConcat<T(!new), K>(a: seq<T>, b: seq<T>, key: T -> K, id: K)
    ensures Without(a + b, key, id) == Without(a, key, id) + Without(b, key, id)
  {
    if |a| > 0 {
      var t := a[1..];
      assert a == [a[0]] + t;
      assert a + b == [a[0]] + (t + b);
      var h := if key(a[0]) == id then [] else [a[0]];
      var x, y := Without(t, key, id), Without(b, key, id);
      calc {
        Without(a + b, key, id);
        Without([a[0]] + (t + b), key, id);
        { WithoutCons(a[0], t + b, key, id); }
        h + Without(t + b, key, id);
        { WithoutConcat(t, b, key, id); }
        h + (x + y);
        (h + x) + y;
        { WithoutCons(a[0], t, key, id); }
        Without([a[0]] + t, key, id) + y;
      }
    } else {
      assert a + b == b;
    }
  }

  /** The filter of a list with a head: the head, if it is kept, then the
      filtered tail. */
  lemma WithoutCons<T(!new), K>(x: T, t: seq<T>, key: T -> K, id: K)
    ensures Without([x] + t, key, id) == (if key(x) == id then [] else [x]) + Without(t, key, id)
  {
    assert ([x] + t)[1..] == t;
  }

  /** Filtering an id that no record carries changes nothing. */
  lemma {:induction false} WithoutAbsent<T(!new), K>(s: seq<T>, key: T -> K, id: K)
    requires !HasKey(s, key, id)
    ensures Without(s, key, id) == s
  {
    if |s| > 0 {
      var tail := s[1..];
      assert forall i :: 0 <= i < |tail| ==> tail[i] == s[i + 1];
      WithoutAbsent(tail, key, id);
      assert Without(s, key, id) == [s[0]] + Without(tail, key, id);
      assert s == [s[0]] + tail;
    }
  }

  /** After filtering, no record carries the id. */
  lemma WithoutRemovesKey<T(!new), K>(s: seq<T>, key: T -> K, id: K)
    ensures !HasKey(Without(s, key, id), key, id)
  {
    var r := Without(s, key, id);
    assert forall i :: 0 <= i < |r| ==> r[i] in r;
  }

  /** Deleting the same id twice is deleting it once. */
  lemma WithoutIdempotent<T(!new), K>(s: seq<T>, key: T -> K, id: K)
    ensures Without(Without(s, key, id), key, id) == Without(s, key, id)
  {
    WithoutRemovesKey(s, key, id);
    WithoutAbsent(Without(s, key, id), key, id);
  }

  /** A record prepended on create and then deleted by its key, when no older
      record had that key, leaves the original list. */
  lemma CreateThenRemove<T(!new), K>(s: seq<T>, key: T -> K, x: T)
    requires !HasKey(s, key, key(x))
    ensures Without([x] + s, key, key(x)) == s
  {
    assert ([x] + s)[1..] == s;
    WithoutAbsent(s, key, key(x));
  }

  /** Move-to-front on update, `[x, ...s.filter(y => key(y) !== id)]`: `x`
      leads, and no later record carries the filtered id. */
  lemma MoveToFrontShape<T(!new), K>(s: seq<T>, key: T -> K, id: K, x: T)
    ensures ([x] + Without(s, key, id))[0] == x
    ensures !HasKey(([x] + Without(s, key, id))[1..], key, id)
    ensures |[x] + Without(s, key, id)| <= |s| + 1
  {
    assert ([x] + Without(s, key, id))[1..] == Without(s, key, id);
    WithoutRemovesKey(s, key, id);
  }

  /** The keys occurring in a list. */
  function Keys<T, K(==,!new)>(s: seq<T>, key: T -> K): (r: set<K>)
    ensures forall id :: id in r <==> HasKey(s, key, id)
  {
    set i | 0 <= i < |s| :: key(s[i])
  }

  /** Position of the first record carrying `id`, or -1: Python's
      `next((x for x in s if key(x) == id), None)` and the record a
      positional `$` update reaches. */
  function IndexOf<T, K(==)>(s: seq<T>, key: T -> K, id: K): (r: int)
    ensures -1 <= r < |s|
    ensures r >= 0 ==> key(s[r]) == id
    ensures forall j :: 0 <= j < |s| && (r < 0 || j < r) ==> key(s[j]) != id
    ensures r >= 0 <==> HasKey(s, key, id)
  {
    if |s| == 0 then -1
    else if key(s[0]) == id then 0
    else
      var j := IndexOf(s[1..], key, id);
      if j < 0 then -1 else j + 1
  }

  /** The records whose key is not in `ids`, in their original order. */
  function WithoutAll<T(==,!new), K(==)>(s: seq<T>, key: T -> K, ids: set<K>): (r: seq<T>)
    ensures forall x :: x in r <==> x in s && key(x) !in ids
  {
    if |s| == 0 then []
    else if key(s[0]) in ids then WithoutAll(s[1..], key, ids)
    else [s[0]] + WithoutAll(s[1..], key, ids)
  }

  /** Filtering one more key after a set of keys is filtering the larger set. */
  lemma {:induction false} WithoutAfterWithoutAll<T(!new), K>(s: seq<T>, key: T -> K, ids: set<K>, id: K)
    ensures Without(WithoutAll(s, key, ids), key, id) == WithoutAll(s, key, ids + {id})
  {
    if |s| > 0 {
      WithoutAfterWithoutAll(s[1..], key, ids, id);
      if key(s[0]) !in ids {
        assert ([s[0]] + WithoutAll(s[1..], key, ids))[1..] == WithoutAll(s[1..], key, ids);
      }
    }
  }

  lemma {:induction false} WithoutAllEmpty<T(!new), K>(s: seq<T>, key: T -> K)
    ensures WithoutAll(s, key, {}) == s
  {
    if |s| > 0 {
      WithoutAllEmpty(s[1..], key);
      assert s == [s[0]] + s[1..];
    }
  }
}
