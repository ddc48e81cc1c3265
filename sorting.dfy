/** Sorting records newest first by an integer timestamp: Python's
    `sorted(xs, key=k, reverse=True)`, which is stable, and the
    `.sort("updated_at", -1)` of a Mongo cursor, which the routes consume
    one document at a time. */
module Sorting {

  ghost predicate SortedDesc<T>(s: seq<T>, key: T -> int) {
    forall i, j :: 0 <= i < j < |s| ==> key(s[i]) >= key(s[j])
  }

  /** Places `x` after every element whose key is at least its own, so that a
      later element never overtakes an earlier one with the same key. */
  function InsertDesc<T(==,!new)>(x: T, s: seq<T>, key: T -> int): (r: seq<T>)
    requires SortedDesc(s, key)
    ensures SortedDesc(r, key)
    ensures multiset(r) == multiset(s) + multiset{x}
    ensures |r| == |s| + 1
  {
    if |s| == 0 then [x]
    else if key(s[0]) < key(x) then [x] + s
    else
      var t := InsertDesc(x, s[1..], key);
      InsertDescStep(x, s, t, key);
      [s[0]] + t
  }

  lemma InsertDescStep<T(!new)>(x: T, s: seq<T>, t: seq<T>, key: T -> int)
    requires |s| > 0 && SortedDesc(s, key) && key(s[0]) >= key(x)
    requires SortedDesc(t, key) && multiset(t) == multiset(s[1..]) + multiset{x}
    ensures SortedDesc([s[0]] + t, key)
    ensures multiset([s[0]] + t) == multiset(s) + multiset{x}
  {
    assert s == [s[0]] + s[1..];
    forall y | y in t
      ensures key(y) <= key(s[0])
    {
      assert y in multiset(t);
      assert y == x || y in multiset(s[1..]);
    }
  }

  /** `sorted(s, key=key, reverse=True)`. */
  function SortDesc<T(==,!new)>(s: seq<T>, key: T -> int): (r: seq<T>)
    ensures SortedDesc(r, key)
    ensures multiset(r) == multiset(s)
    ensures |r| == |s|
  {
    if |s| == 0 then []
    else
      assert s == s[..|s| - 1] + [s[|s| - 1]];
      InsertDesc(s[|s| - 1], SortDesc(s[..|s| - 1], key), key)
  }

  /** Sorting an already sorted list changes nothing. */
  lemma {:induction false} SortDescOfSorted<T(!new)>(s: seq<T>, key: T -> int)
    requires SortedDesc(s, key)
    ensures SortDesc(s, key) == s
  {
    if |s| > 0 {
      var p := s[..|s| - 1];
      SortDescOfSorted(p, key);
      InsertAtEnd(s[|s| - 1], p, key);
      assert p + [s[|s| - 1]] == s;
    }
  }

  lemma {:induction false} InsertAtEnd<T(!new)>(x: T, s: seq<T>, key: T -> int)
    requires SortedDesc(s, key)
    requires forall i :: 0 <= i < |s| ==> key(s[i]) >= key(x)
    ensures InsertDesc(x, s, key) == s + [x]
  {
    if |s| > 0 {
      InsertAtEnd(x, s[1..], key);
      assert [s[0]] + (s[1..] + [x]) == s + [x];
    }
  }

  /** The elements whose key is `k`, in their order in `s`. */
  function WithKey<T>(s: seq<T>, key: T -> int, k: int): seq<T> {
    if |s| == 0 then []
    else (if key(s[0]) == k then [s[0]] else []) + WithKey(s[1..], key, k)
  }

  lemma {:induction false} WithKeyConcat<T>(a: seq<T>, b: seq<T>, key: T -> int, k: int)
    ensures WithKey(a + b, key, k) == WithKey(a, key, k) + WithKey(b, key, k)
  {
    if |a| == 0 {
      assert a + b == b;
    } else {
      assert (a + b)[0] == a[0] && (a + b)[1..] == a[1..] + b;
      WithKeyConcat(a[1..], b, key, k);
    }
  }

  lemma {:induction false} WithKeyNone<T>(s: seq<T>, key: T -> int, k: int)
    requires forall i :: 0 <= i < |s| ==> key(s[i]) < k
    ensures WithKey(s, key, k) == []
  {
    if |s| > 0 {
      WithKeyNone(s[1..], key, k);
    }
  }

  lemma WithKeyOne<T>(x: T, key: T -> int, k: int)
    ensures WithKey([x], key, k) == if key(x) == k then [x] else []
  {
    assert [x][1..] == [];
  }

  lemma Associative<T>(a: seq<T>, b: seq<T>, c: seq<T>)
    ensures a + (b + c) == (a + b) + c
  {
  }

  lemma WithKeyCons<T>(y: T, t: seq<T>, key: T -> int, k: int)
    ensures WithKey([y] + t, key, k) == (if key(y) == k then [y] else []) + WithKey(t, key, k)
  {
    assert ([y] + t)[0] == y && ([y] + t)[1..] == t;
  }

  /** Inserting `x` puts it after every element with its key. */
  lemma {:induction false} InsertDescStable<T(!new)>(x: T, s: seq<T>, key: T -> int, k: int)
    requires SortedDesc(s, key)
    ensures WithKey(InsertDesc(x, s, key), key, k) == WithKey(s, key, k) + (if key(x) == k then [x] else [])
  {
    var xs := if key(x) == k then [x] else [];
    if |s| == 0 {
      assert InsertDesc(x, s, key) == [x];
      WithKeyOne(x, key, k);
    } else if key(s[0]) < key(x) {
      assert InsertDesc(x, s, key) == [x] + s;
      WithKeyCons(x, s, key, k);
      if key(x) == k {
        assert forall i :: 0 <= i < |s| ==> key(s[i]) <= key(s[0]);
        WithKeyNone(s, key, k);
      }
    } else {
      var rest := s[1..];
      assert SortedDesc(rest, key);
      var t := InsertDesc(x, rest, key);
      assert InsertDesc(x, s, key) == [s[0]] + t;
      var hs := if key(s[0]) == k then [s[0]] else [];
      calc {
        WithKey([s[0]] + t, key, k);
        == { WithKeyCons(s[0], t, key, k); }
        hs + WithKey(t, key, k);
        == { InsertDescStable(x, rest, key, k); }
        hs + (WithKey(rest, key, k) + xs);
        == { Associative(hs, WithKey(rest, key, k), xs); }
        (hs + WithKey(rest, key, k)) + xs;
        == { WithKeyCons(s[0], rest, key, k); assert [s[0]] + rest == s; }
        WithKey(s, key, k) + xs;
      }
    }
  }

  lemma SortDescUnfold<T(!new)>(s: seq<T>, key: T -> int)
    requires |s| > 0
    ensures SortDesc(s, key) == InsertDesc(s[|s| - 1], SortDesc(s[..|s| - 1], key), key)
  {
  }

  /** The sort is stable: the elements that share a key keep their order. */
  lemma {:induction false} SortDescStable<T(!new)>(s: seq<T>, key: T -> int, k: int)
    ensures WithKey(SortDesc(s, key), key, k) == WithKey(s, key, k)
  {
    if |s| > 0 {
      var p, x := s[..|s| - 1], s[|s| - 1];
      var xs := if key(x) == k then [x] else [];
      calc {
        WithKey(SortDesc(s, key), key, k);
        == { SortDescUnfold(s, key); }
        WithKey(InsertDesc(x, SortDesc(p, key), key), key, k);
        == { InsertDescStable(x, SortDesc(p, key), key, k); }
        WithKey(SortDesc(p, key), key, k) + xs;
        == { SortDescStable(p, key, k); }
        WithKey(p, key, k) + xs;
        == { WithKeyOne(x, key, k); }
        WithKey(p, key, k) + WithKey([x], key, k);
        == { WithKeyConcat(p, [x], key, k); assert s == p + [x]; }
        WithKey(s, key, k);
      }
    }
  }
}
