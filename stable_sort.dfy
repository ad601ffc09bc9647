/** Kotlin's `sortedBy { key }`: a stable sort on an integer key. Modelled as an
    insertion sort that puts each new element after every element whose key is
    not larger, which is what makes it stable. */
module StableSort {

  predicate SortedBy<T>(s: seq<T>, key: T -> int)
  {
    forall j, k :: 0 <= j < k < |s| ==> key(s[j]) <= key(s[k])
  }

  /** Ordered by key, and by tag among equal keys. */
  predicate LexSorted<T>(s: seq<T>, key: T -> int, tag: T -> int)
  {
    forall j, k :: 0 <= j < k < |s| ==>
      key(s[j]) < key(s[k]) || (key(s[j]) == key(s[k]) && tag(s[j]) < tag(s[k]))
  }

  /** The elements whose key is v, in their order in s. */
  function WithKey<T>(s: seq<T>, key: T -> int, v: int): seq<T>
  {
    if |s| == 0 then []
    else (if key(s[0]) == v then [s[0]] else []) + WithKey(s[1..], key, v)
  }

  /** Each element's key is at most the next one's. */
  predicate Chained<T>(s: seq<T>, key: T -> int)
  {
    forall j :: 0 < j < |s| ==> key(s[j - 1]) <= key(s[j])
  }

  lemma {:induction false} ChainedSorted<T>(s: seq<T>, key: T -> int)
    requires Chained(s, key)
    ensures SortedBy(s, key)
  {
    if |s| > 1 {
      var p := s[..|s| - 1];
      assert Chained(p, key);
      ChainedSorted(p, key);
      assert forall j :: 0 <= j < |p| ==> key(s[j]) <= key(s[|s| - 1]) by {
        forall j | 0 <= j < |p| ensures key(s[j]) <= key(s[|s| - 1]) {
          assert key(p[j]) <= key(p[|p| - 1]) || j == |p| - 1;
        }
      }
    }
  }

  lemma ChainedTail<T>(s: seq<T>, key: T -> int)
    requires |s| > 0 && Chained(s, key)
    ensures Chained(s[1..], key)
  {
    forall j | 0 < j < |s| - 1 ensures key(s[1..][j - 1]) <= key(s[1..][j]) {
      assert s[1..][j - 1] == s[j] && s[1..][j] == s[j + 1];
    }
  }

  lemma ChainedCons<T>(y: T, t: seq<T>, key: T -> int)
    requires Chained(t, key) && (|t| > 0 ==> key(y) <= key(t[0]))
    ensures Chained([y] + t, key)
  {
    forall j | 0 < j < |t| + 1 ensures key(([y] + t)[j - 1]) <= key(([y] + t)[j]) {
      if j > 1 {
        assert ([y] + t)[j - 1] == t[j - 2] && ([y] + t)[j] == t[j - 1];
      }
    }
  }

  /** Put x after every leading element of s whose key is at most key(x). */
  function Insert<T>(s: seq<T>, x: T, key: T -> int): (r: seq<T>)
    ensures |r| == |s| + 1
    ensures multiset(r) == multiset(s) + multiset{x}
    ensures r[0] == if |s| > 0 && key(s[0]) <= key(x) then s[0] else x
  {
    if |s| == 0 then [x]
    else if key(s[0]) <= key(x) then
      assert s == [s[0]] + s[1..];
      [s[0]] + Insert(s[1..], x, key)
    else [x] + s
  }

  lemma {:induction false} InsertChained<T>(s: seq<T>, x: T, key: T -> int)
    requires Chained(s, key)
    ensures Chained(Insert(s, x, key), key)
  {
    if |s| == 0 {
      assert Insert(s, x, key) == [x];
    } else if key(s[0]) <= key(x) {
      ChainedTail(s, key);
      InsertChained(s[1..], x, key);
      ChainedCons(s[0], Insert(s[1..], x, key), key);
    } else {
      ChainedCons(x, s, key);
    }
  }

  /** The stable sort: each element in turn is inserted into the sorted prefix. */
  function SortBy<T>(s: seq<T>, key: T -> int): (r: seq<T>)
    ensures Chained(r, key) && SortedBy(r, key)
    ensures multiset(r) == multiset(s)
    ensures |r| == |s|
  {
    if |s| == 0 then []
    else
      var r := Insert(SortBy(s[..|s| - 1], key), s[|s| - 1], key);
      assert s == s[..|s| - 1] + [s[|s| - 1]];
      InsertChained(SortBy(s[..|s| - 1], key), s[|s| - 1], key);
      ChainedSorted(r, key);
      r
  }

  lemma {:induction false} WithKeyAppend<T>(a: seq<T>, b: seq<T>, key: T -> int, v: int)
    ensures WithKey(a + b, key, v) == WithKey(a, key, v) + WithKey(b, key, v)
  {
    if |a| > 0 {
      assert (a + b)[1..] == a[1..] + b;
      WithKeyAppend(a[1..], b, key, v);
    } else {
      assert a + b == b;
    }
  }

  lemma WithKeyCons<T>(y: T, t: seq<T>, key: T -> int, v: int)
    ensures WithKey([y] + t, key, v) == (if key(y) == v then [y] else []) + WithKey(t, key, v)
  {
    assert ([y] + t)[1..] == t;
  }

  lemma {:induction false} WithKeyAbove<T>(s: seq<T>, key: T -> int, v: int)
    requires Chained(s, key)
    requires |s| > 0 ==> key(s[0]) > v
    ensures WithKey(s, key, v) == []
  {
    if |s| > 0 {
      ChainedTail(s, key);
      WithKeyAbove(s[1..], key, v);
    }
  }

  lemma {:induction false} WithKeyInsert<T>(s: seq<T>, x: T, key: T -> int, v: int)
    requires Chained(s, key)
    ensures WithKey(Insert(s, x, key), key, v)
         == WithKey(s, key, v) + (if key(x) == v then [x] else [])
    decreases |s|, 1
  {
    if |s| == 0 {
      WithKeyCons(x, [], key, v);
      assert [x] + [] == [x];
    } else if key(s[0]) <= key(x) {
      WithKeyInsertAfterHead(s, x, key, v);
    } else {
      assert Insert(s, x, key) == [x] + s;
      WithKeyCons(x, s, key, v);
      if key(x) == v {
        WithKeyAbove(s, key, v);
      }
    }
  }

  lemma {:induction false} WithKeyInsertAfterHead<T>(s: seq<T>, x: T, key: T -> int, v: int)
    requires Chained(s, key) && |s| > 0 && key(s[0]) <= key(x)
    ensures WithKey(Insert(s, x, key), key, v)
         == WithKey(s, key, v) + (if key(x) == v then [x] else [])
    decreases |s|, 0
  {
    var t := s[1..];
    var rest := Insert(t, x, key);
    ChainedTail(s, key);
    WithKeyInsert(t, x, key, v);
    assert Insert(s, x, key) == [s[0]] + rest;
    WithKeyCons(s[0], rest, key, v);
    WithKeyCons(s[0], t, key, v);
    assert [s[0]] + t == s;
    ConcatAssoc(if key(s[0]) == v then [s[0]] else [], WithKey(t, key, v), if key(x) == v then [x] else []);
  }

  lemma ConcatAssoc<T>(a: seq<T>, b: seq<T>, c: seq<T>)
    ensures a + (b + c) == (a + b) + c
  {
  }

  /** Stability: for every key, the elements with that key keep their input order. */
  lemma {:induction false} SortByStable<T>(s: seq<T>, key: T -> int, v: int)
    ensures WithKey(SortBy(s, key), key, v) == WithKey(s, key, v)
  {
    if |s| > 0 {
      var p, x := s[..|s| - 1], s[|s| - 1];
      assert s == p + [x];
      assert SortBy(s, key) == Insert(SortBy(p, key), x, key);
      SortByStable(p, key, v);
      WithKeyInsert(SortBy(p, key), x, key, v);
      WithKeyAppend(p, [x], key, v);
      assert [x][1..] == [];
      assert WithKey([x], key, v) == if key(x) == v then [x] else [];
    }
  }

  /** Each element is before the next one in (key, tag) order. */
  predicate LexChained<T>(s: seq<T>, key: T -> int, tag: T -> int)
  {
    forall j :: 0 < j < |s| ==>
      key(s[j - 1]) < key(s[j]) || (key(s[j - 1]) == key(s[j]) && tag(s[j - 1]) < tag(s[j]))
  }

  lemma {:induction false} LexChainedSorted<T>(s: seq<T>, key: T -> int, tag: T -> int)
    requires LexChained(s, key, tag)
    ensures LexSorted(s, key, tag)
  {
    if |s| > 1 {
      var p := s[..|s| - 1];
      assert LexChained(p, key, tag);
      LexChainedSorted(p, key, tag);
      var z := s[|s| - 1];
      forall j | 0 <= j < |p|
        ensures key(s[j]) < key(z) || (key(s[j]) == key(z) && tag(s[j]) < tag(z))
      {
        if j < |p| - 1 {
          assert key(p[j]) < key(p[|p| - 1]) || (key(p[j]) == key(p[|p| - 1]) && tag(p[j]) < tag(p[|p| - 1]));
        }
      }
    }
  }

  lemma {:induction false} InsertLex<T>(s: seq<T>, x: T, key: T -> int, tag: T -> int)
    requires LexChained(s, key, tag)
    requires forall j :: 0 <= j < |s| ==> tag(s[j]) < tag(x)
    ensures LexChained(Insert(s, x, key), key, tag)
  {
    if |s| > 0 && key(s[0]) <= key(x) {
      var t := s[1..];
      assert LexChained(t, key, tag) by {
        forall j | 0 < j < |t|
          ensures key(t[j - 1]) < key(t[j]) || (key(t[j - 1]) == key(t[j]) && tag(t[j - 1]) < tag(t[j]))
        {
          assert t[j - 1] == s[j] && t[j] == s[j + 1];
        }
      }
      InsertLex(t, x, key, tag);
      var r := Insert(s, x, key);
      assert r == [s[0]] + Insert(t, x, key);
      assert |t| > 0 ==> s[1] == t[0];
    }
  }

  /** When the input is strictly increasing in tag, the stable sort orders equal
      keys by tag. */
  lemma {:induction false} SortByLex<T>(s: seq<T>, key: T -> int, tag: T -> int)
    requires forall j, k :: 0 <= j < k < |s| ==> tag(s[j]) < tag(s[k])
    ensures LexSorted(SortBy(s, key), key, tag)
  {
    SortByLexChained(s, key, tag);
    LexChainedSorted(SortBy(s, key), key, tag);
  }

  lemma {:induction false} SortByLexChained<T>(s: seq<T>, key: T -> int, tag: T -> int)
    requires forall j, k :: 0 <= j < k < |s| ==> tag(s[j]) < tag(s[k])
    ensures LexChained(SortBy(s, key), key, tag)
  {
    if |s| > 0 {
      var p, x := s[..|s| - 1], s[|s| - 1];
      SortByLexChained(p, key, tag);
      var sp := SortBy(p, key);
      forall j | 0 <= j < |sp| ensures tag(sp[j]) < tag(x) {
        assert sp[j] in multiset(p);
        var k :| 0 <= k < |p| && p[k] == sp[j];
      }
      InsertLex(sp, x, key, tag);
    }
  }
}
