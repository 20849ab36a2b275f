/** Rust's stable `sort_by_key`: ascending by key, equal keys in their original order. A list is
    determined by its sort and by the order of its equal-key elements, and by nothing less. */
module StableSort {
  import opened Prelude

  type Key = (int, int)

  predicate Less(a: Key, b: Key) { a.0 < b.0 || (a.0 == b.0 && a.1 < b.1) }

  function Insert<T>(sorted: seq<T>, x: T, key: T -> Key): seq<T>
  {
    if sorted == [] || !Less(key(x), key(sorted[|sorted| - 1])) then sorted + [x]
    else Insert(sorted[..|sorted| - 1], x, key) + [sorted[|sorted| - 1]]
  }

  function Sort<T>(s: seq<T>, key: T -> Key): seq<T>
  {
    if s == [] then [] else Insert(Sort(s[..|s| - 1], key), s[|s| - 1], key)
  }

  predicate Sorted<T>(s: seq<T>, key: T -> Key)
  {
    forall i, j :: 0 <= i < j < |s| ==> !Less(key(s[j]), key(s[i]))
  }

  /** The elements with key `k`, in order. */
  function WithKey<T>(s: seq<T>, key: T -> Key, k: Key): seq<T>
  {
    Filter(s, x => key(x) == k)
  }

  lemma {:induction false} InsertMember<T>(sorted: seq<T>, x: T, key: T -> Key, y: T)
    ensures y in Insert(sorted, x, key) <==> y in sorted || y == x
  {
    if sorted != [] && Less(key(x), key(sorted[|sorted| - 1])) {
      InsertMember(sorted[..|sorted| - 1], x, key, y);
      assert sorted == sorted[..|sorted| - 1] + [sorted[|sorted| - 1]];
    }
  }

  lemma {:induction false} InsertSorts<T>(sorted: seq<T>, x: T, key: T -> Key)
    requires Sorted(sorted, key)
    ensures Sorted(Insert(sorted, x, key), key)
  {
    if sorted != [] && Less(key(x), key(sorted[|sorted| - 1])) {
      var n := |sorted| - 1;
      InsertSorts(sorted[..n], x, key);
      var rest := Insert(sorted[..n], x, key);
      forall i | 0 <= i < |rest|
        ensures !Less(key(sorted[n]), key(rest[i]))
      {
        InsertMember(sorted[..n], x, key, rest[i]);
        assert rest[i] in rest;
        if rest[i] in sorted[..n] {
          var j :| 0 <= j < n && sorted[j] == rest[i];
        }
      }
    }
  }

  lemma {:induction false} InsertAdds<T>(sorted: seq<T>, x: T, key: T -> Key)
    ensures multiset(Insert(sorted, x, key)) == multiset(sorted) + multiset{x}
  {
    if sorted != [] && Less(key(x), key(sorted[|sorted| - 1])) {
      var n := |sorted| - 1;
      InsertAdds(sorted[..n], x, key);
      assert sorted == sorted[..n] + [sorted[n]];
    }
  }

  lemma {:induction false} WithKeyAppend<T>(s: seq<T>, x: T, key: T -> Key, k: Key)
    ensures WithKey(s + [x], key, k) == WithKey(s, key, k) + if key(x) == k then [x] else []
  {
    assert (s + [x])[..|s|] == s;
  }

  lemma {:induction false} WithKeyConcat<T>(a: seq<T>, b: seq<T>, key: T -> Key, k: Key)
    ensures WithKey(a + b, key, k) == WithKey(a, key, k) + WithKey(b, key, k)
  {
    if b == [] {
      assert a + b == a;
    } else {
      var n := |b| - 1;
      WithKeyConcat(a, b[..n], key, k);
      WithKeyAppend(a + b[..n], b[n], key, k);
      WithKeyAppend(b[..n], b[n], key, k);
      assert a + b == a + b[..n] + [b[n]] && b == b[..n] + [b[n]];
    }
  }

  lemma {:induction false} WithKeyMember<T>(s: seq<T>, key: T -> Key, k: Key, x: T)
    ensures x in WithKey(s, key, k) <==> x in s && key(x) == k
  {
    if s != [] {
      var n := |s| - 1;
      WithKeyMember(s[..n], key, k, x);
      WithKeyAppend(s[..n], s[n], key, k);
      assert s == s[..n] + [s[n]];
    }
  }

  lemma {:induction false} InsertIsStable<T>(sorted: seq<T>, x: T, key: T -> Key, k: Key)
    requires Sorted(sorted, key)
    ensures WithKey(Insert(sorted, x, key), key, k)
      == WithKey(sorted, key, k) + if key(x) == k then [x] else []
  {
    if sorted == [] || !Less(key(x), key(sorted[|sorted| - 1])) {
      WithKeyAppend(sorted, x, key, k);
    } else {
      var n := |sorted| - 1;
      InsertIsStable(sorted[..n], x, key, k);
      WithKeyAppend(Insert(sorted[..n], x, key), sorted[n], key, k);
      WithKeyAppend(sorted[..n], sorted[n], key, k);
      assert sorted == sorted[..n] + [sorted[n]];
    }
  }

  /** The sort sorts, permutes, and keeps the order of equal keys. */
  lemma {:induction false} SortIsStable<T>(s: seq<T>, key: T -> Key)
    ensures Sorted(Sort(s, key), key)
    ensures multiset(Sort(s, key)) == multiset(s)
    ensures forall k :: WithKey(Sort(s, key), key, k) == WithKey(s, key, k)
  {
    if s != [] {
      var n := |s| - 1;
      SortIsStable(s[..n], key);
      InsertSorts(Sort(s[..n], key), s[n], key);
      InsertAdds(Sort(s[..n], key), s[n], key);
      assert s == s[..n] + [s[n]];
      forall k
        ensures WithKey(Sort(s, key), key, k) == WithKey(s, key, k)
      {
        InsertIsStable(Sort(s[..n], key), s[n], key, k);
        WithKeyAppend(s[..n], s[n], key, k);
      }
    }
  }

  lemma {:induction false} WithKeyHasTheLast<T>(s: seq<T>, key: T -> Key)
    requires s != []
    ensures var w := WithKey(s, key, key(s[|s| - 1]));
      w != [] && w[|w| - 1] == s[|s| - 1] && w[..|w| - 1] == WithKey(s[..|s| - 1], key, key(s[|s| - 1]))
  {
  }

  lemma {:induction false} LastKeyIsGreatest<T>(a: seq<T>, b: seq<T>, key: T -> Key)
    requires Sorted(b, key) && a != [] && b != []
    requires WithKey(a, key, key(a[|a| - 1])) == WithKey(b, key, key(a[|a| - 1]))
    ensures !Less(key(b[|b| - 1]), key(a[|a| - 1]))
  {
    var k := key(a[|a| - 1]);
    WithKeyHasTheLast(a, key);
    var x := WithKey(b, key, k)[0];
    WithKeyMember(b, key, k, x);
    var i :| 0 <= i < |b| && b[i] == x;
  }

  /** Two sorted lists that agree key by key are equal. */
  lemma {:induction false} SortedListsAreDetermined<T>(a: seq<T>, b: seq<T>, key: T -> Key)
    requires Sorted(a, key) && Sorted(b, key)
    requires forall k :: WithKey(a, key, k) == WithKey(b, key, k)
    ensures a == b
    decreases |a|
  {
    if a == [] {
      if b != [] { WithKeyHasTheLast(b, key); }
    } else if b == [] {
      WithKeyHasTheLast(a, key);
    } else {
      var na, nb := |a| - 1, |b| - 1;
      LastKeyIsGreatest(a, b, key);
      LastKeyIsGreatest(b, a, key);
      assert key(a[na]) == key(b[nb]);
      WithKeyHasTheLast(a, key);
      WithKeyHasTheLast(b, key);
      assert a == a[..na] + [a[na]] && b == b[..nb] + [b[nb]];
      forall k
        ensures WithKey(a[..na], key, k) == WithKey(b[..nb], key, k)
      {
        WithKeyAppend(a[..na], a[na], key, k);
        WithKeyAppend(b[..nb], b[nb], key, k);
      }
      SortedListsAreDetermined(a[..na], b[..nb], key);
    }
  }

  /** Two lists sort alike if and only if they agree key by key. */
  lemma {:induction false} SortsAgreeIffKeysDo<T>(a: seq<T>, b: seq<T>, key: T -> Key)
    ensures Sort(a, key) == Sort(b, key) <==> forall k :: WithKey(a, key, k) == WithKey(b, key, k)
  {
    SortIsStable(a, key);
    SortIsStable(b, key);
    if Sort(a, key) == Sort(b, key) {
      forall k
        ensures WithKey(a, key, k) == WithKey(b, key, k)
      {
        assert WithKey(Sort(a, key), key, k) == WithKey(a, key, k);
        assert WithKey(Sort(b, key), key, k) == WithKey(b, key, k);
      }
    }
    if forall k :: WithKey(a, key, k) == WithKey(b, key, k) {
      SortedListsAreDetermined(Sort(a, key), Sort(b, key), key);
    }
  }
}
