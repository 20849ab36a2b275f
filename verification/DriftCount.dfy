/** A drift report has as many lines whichever of the two trees is taken as the baseline. */
module DriftCount {
  import opened Drift
  import opened DriftReport

  // ---------------------------------------------------------------------------
  // Sums over keys
  // ---------------------------------------------------------------------------

  type Weight = string -> nat

  ghost function Sum(keys: set<string>, f: Weight): nat
  {
    if keys == {} then 0
    else
      var k :| k in keys;
      f(k) + Sum(keys - {k}, f)
  }

  lemma {:induction false} SumPicks(keys: set<string>, f: Weight, x: string)
    requires x in keys
    ensures Sum(keys, f) == f(x) + Sum(keys - {x}, f)
    decreases |keys|
  {
    var k :| k in keys && Sum(keys, f) == f(k) + Sum(keys - {k}, f);
    if k != x {
      SumPicks(keys - {k}, f, x);
      SumPicks(keys - {x}, f, k);
      assert keys - {k} - {x} == keys - {x} - {k};
    }
  }

  lemma {:induction false} SumAdds(keys: set<string>, f: Weight, x: string)
    requires x !in keys
    ensures Sum(keys + {x}, f) == f(x) + Sum(keys, f)
  {
    SumPicks(keys + {x}, f, x);
    assert keys + {x} - {x} == keys;
  }

  lemma {:induction false} SumOfDisjoint(a: set<string>, b: set<string>, f: Weight)
    requires a !! b
    ensures Sum(a + b, f) == Sum(a, f) + Sum(b, f)
    decreases |b|
  {
    if b == {} {
      assert a + b == a;
    } else {
      var x :| x in b;
      SumPicks(b, f, x);
      SumPicks(a + b, f, x);
      assert a + b - {x} == a + (b - {x});
      SumOfDisjoint(a, b - {x}, f);
    }
  }

  lemma {:induction false} SameSum(keys: set<string>, f: Weight, g: Weight)
    requires forall k :: k in keys ==> f(k) == g(k)
    ensures Sum(keys, f) == Sum(keys, g)
    decreases |keys|
  {
    if keys != {} {
      var x :| x in keys;
      SumPicks(keys, f, x);
      SumPicks(keys, g, x);
      SameSum(keys - {x}, f, g);
    }
  }

  // ---------------------------------------------------------------------------
  // Lines per key
  // ---------------------------------------------------------------------------

  function KeysOf(fields: seq<Field>): set<string>
  {
    if fields == [] then {} else KeysOf(fields[..|fields| - 1]) + {fields[|fields| - 1].key}
  }

  lemma {:induction false} KeysAreFound(fields: seq<Field>, key: string)
    ensures key in KeysOf(fields) <==> Find(fields, key).Some?
  {
    if fields != [] {
      KeysAreFound(fields[..|fields| - 1], key);
    }
  }

  /** How many lines the key `k` accounts for. */
  ghost function LinesAt(a: Value, b: Value, k: string): nat
    requires a.Object? && b.Object?
  {
    var x, y := Find(a.fields, k), Find(b.fields, k);
    if x.Some? && y.Some? then |Diff("", a.fields[x.value].value, b.fields[y.value].value)|
    else if x.Some? || y.Some? then 1
    else 0
  }

  lemma {:induction false} PathsDoNotCount(p: string, q: string, a: Value, b: Value)
    ensures |Diff(p, a, b)| == |Diff(q, a, b)|
    decreases a, 1, 0
  {
    if a.Object? && b.Object? {
      PathsDoNotCountInFields(p, q, a, b, |a.fields|);
      PathsDoNotCountInNewKeys(p, q, a.fields, b.fields, |b.fields|);
    } else if a.Array? && b.Array? {
      if a.items != [] && b.items != [] {
        PathsDoNotCount(p + "[]", q + "[]", a.items[0], b.items[0]);
      }
    }
  }

  lemma {:induction false} PathsDoNotCountInFields(p: string, q: string, a: Value, b: Value, n: nat)
    requires a.Object? && b.Object? && n <= |a.fields|
    ensures |BaselineLines(p, a, b, n)| == |BaselineLines(q, a, b, n)|
    decreases a, 0, n
  {
    if n > 0 {
      PathsDoNotCountInFields(p, q, a, b, n - 1);
      var field := a.fields[n - 1];
      var at := Find(b.fields, field.key);
      if at.Some? {
        PathsDoNotCount(Join(p, field.key), Join(q, field.key), field.value, b.fields[at.value].value);
      }
    }
  }

  lemma {:induction false} PathsDoNotCountInNewKeys(p: string, q: string, fs: seq<Field>, gs: seq<Field>, n: nat)
    requires n <= |gs|
    ensures |AddedLines(p, fs, gs, n)| == |AddedLines(q, fs, gs, n)|
  {
    if n > 0 {
      PathsDoNotCountInNewKeys(p, q, fs, gs, n - 1);
    }
  }

  lemma {:induction false} NewKey(fields: seq<Field>, n: nat)
    requires DistinctKeys(fields) && n < |fields|
    ensures fields[n].key !in KeysOf(fields[..n])
    ensures KeysOf(fields[..n + 1]) == KeysOf(fields[..n]) + {fields[n].key}
  {
    KeysAreFound(fields[..n], fields[n].key);
    assert fields[..n + 1][..n] == fields[..n];
  }

  lemma {:induction false} BaselineCount(p: string, a: Value, b: Value, n: nat, f: Weight)
    requires a.Object? && b.Object? && n <= |a.fields| && DistinctKeys(a.fields)
    requires forall k :: f(k) == LinesAt(a, b, k)
    ensures |BaselineLines(p, a, b, n)| == Sum(KeysOf(a.fields[..n]), f)
  {
    if n > 0 {
      BaselineCount(p, a, b, n - 1, f);
      NewKey(a.fields, n - 1);
      FindsItsOwn(a.fields, n - 1);
      var field := a.fields[n - 1];
      SumAdds(KeysOf(a.fields[..n - 1]), f, field.key);
      var at := Find(b.fields, field.key);
      if at.Some? {
        PathsDoNotCount(Join(p, field.key), "", field.value, b.fields[at.value].value);
      }
    }
  }

  lemma {:induction false} AddedCount(p: string, a: Value, b: Value, n: nat, f: Weight)
    requires a.Object? && b.Object? && n <= |b.fields| && DistinctKeys(b.fields)
    requires forall k :: f(k) == LinesAt(a, b, k)
    ensures |AddedLines(p, a.fields, b.fields, n)| == Sum(KeysOf(b.fields[..n]) - KeysOf(a.fields), f)
  {
    if n > 0 {
      AddedCount(p, a, b, n - 1, f);
      NewKey(b.fields, n - 1);
      FindsItsOwn(b.fields, n - 1);
      var k := b.fields[n - 1].key;
      var before := KeysOf(b.fields[..n - 1]) - KeysOf(a.fields);
      KeysAreFound(a.fields, k);
      if k in KeysOf(a.fields) {
        assert KeysOf(b.fields[..n]) - KeysOf(a.fields) == before;
      } else {
        assert KeysOf(b.fields[..n]) - KeysOf(a.fields) == before + {k};
        SumAdds(before, f, k);
      }
    }
  }

  lemma {:induction false} ObjectCount(p: string, a: Value, b: Value, f: Weight)
    requires a.Object? && b.Object? && DistinctKeys(a.fields) && DistinctKeys(b.fields)
    requires forall k :: f(k) == LinesAt(a, b, k)
    ensures |Diff(p, a, b)| == Sum(KeysOf(a.fields) + KeysOf(b.fields), f)
  {
    BaselineCount(p, a, b, |a.fields|, f);
    AddedCount(p, a, b, |b.fields|, f);
    assert a.fields[..|a.fields|] == a.fields && b.fields[..|b.fields|] == b.fields;
    SumOfDisjoint(KeysOf(a.fields), KeysOf(b.fields) - KeysOf(a.fields), f);
    assert KeysOf(a.fields) + (KeysOf(b.fields) - KeysOf(a.fields)) == KeysOf(a.fields) + KeysOf(b.fields);
  }

  /** Swapping the baseline and the current tree changes what the lines say, never how many there are. */
  lemma {:induction false} DriftCountIsSymmetric(p: string, q: string, a: Value, b: Value)
    requires WellFormed(a) && WellFormed(b)
    ensures |Diff(p, a, b)| == |Diff(q, b, a)|
    decreases a
  {
    if a.Object? && b.Object? {
      var f: Weight := k => LinesAt(a, b, k);
      var g: Weight := k => LinesAt(b, a, k);
      forall k
        ensures f(k) == g(k)
      {
        var x, y := Find(a.fields, k), Find(b.fields, k);
        if x.Some? && y.Some? {
          DriftCountIsSymmetric("", "", a.fields[x.value].value, b.fields[y.value].value);
        }
      }
      ObjectCount(p, a, b, f);
      ObjectCount(q, b, a, g);
      SameSum(KeysOf(a.fields) + KeysOf(b.fields), f, g);
      assert KeysOf(a.fields) + KeysOf(b.fields) == KeysOf(b.fields) + KeysOf(a.fields);
    } else if a.Array? && b.Array? {
      if a.items != [] && b.items != [] {
        DriftCountIsSymmetric(p + "[]", q + "[]", a.items[0], b.items[0]);
      }
    }
  }
}
