/** API drift detection (src/drift.rs): a JSON response reduced to its shape, and the shape compared
    with a baseline. An object lists its fields in the order its map is iterated. */
module Drift {
  import opened Prelude

  /** A number is an `Integer` when it fits 64 bits. */
  datatype Numeral = Integer(i: int) | Fraction(r: real)

  datatype Field = Field(key: string, value: Value)

  datatype Value =
    | Object(fields: seq<Field>)
    | Array(items: seq<Value>)
    | Text(text: string)
    | Number(number: Numeral)
    | Boolean(flag: bool)
    | Null

  function Tag(scalar: Value): string
    requires !scalar.Object? && !scalar.Array?
  {
    match scalar
    case Text(_) => "string"
    case Number(Integer(_)) => "integer"
    case Number(Fraction(_)) => "number"
    case Boolean(_) => "boolean"
    case Null => "null"
  }

  /** `shape_of`. */
  function ShapeOf(value: Value): Value
  {
    match value
    case Object(fields) =>
      Object(seq(|fields|, i requires 0 <= i < |fields| => Field(fields[i].key, ShapeOf(fields[i].value))))
    case Array(items) => if items == [] then Array([]) else Array([ShapeOf(items[0])])
    case _ => Text(Tag(value))
  }

  // ---------------------------------------------------------------------------
  // The comparison
  // ---------------------------------------------------------------------------

  datatype Kind = ObjectKind | ArrayKind | ScalarKind

  function KindOf(value: Value): Kind
  {
    match value
    case Object(_) => ObjectKind
    case Array(_) => ArrayKind
    case _ => ScalarKind
  }

  datatype Line =
    | TypeChanged(path: string, before: string, after: string)
    | StructureChanged(path: string, from: Kind, to: Kind)
    | KeyRemoved(path: string)
    | KeyAdded(path: string)

  function Join(path: string, key: string): string { if path == "" then key else path + "." + key }

  /** The position of a key among an object's fields. */
  function Find(fields: seq<Field>, key: string): (at: Option<nat>)
    ensures at.Some? ==> at.value < |fields| && fields[at.value].key == key
    ensures at.None? ==> forall i :: 0 <= i < |fields| ==> fields[i].key != key
  {
    if fields == [] then None
    else
      var n := |fields| - 1;
      var before := Find(fields[..n], key);
      if before.Some? then before else if fields[n].key == key then Some(n) else None
  }

  /** The lines for field `i` of the baseline. */
  function FieldLines(path: string, baseline: Value, current: Value, i: nat): seq<Line>
    requires baseline.Object? && current.Object? && i < |baseline.fields|
    decreases baseline, 0
  {
    var field := baseline.fields[i];
    match Find(current.fields, field.key)
    case Some(at) => Diff(Join(path, field.key), field.value, current.fields[at].value)
    case None => [KeyRemoved(Join(path, field.key))]
  }

  /** The lines for the first `n` fields of the baseline. */
  function BaselineLines(path: string, baseline: Value, current: Value, n: nat): seq<Line>
    requires baseline.Object? && current.Object? && n <= |baseline.fields|
    decreases baseline, n
  {
    if n == 0 then []
    else BaselineLines(path, baseline, current, n - 1) + FieldLines(path, baseline, current, n - 1)
  }

  /** The lines for the first `n` fields of the current object. */
  function AddedLines(path: string, baseline: seq<Field>, current: seq<Field>, n: nat): seq<Line>
    requires n <= |current|
  {
    if n == 0 then []
    else
      AddedLines(path, baseline, current, n - 1)
        + if Find(baseline, current[n - 1].key).None? then [KeyAdded(Join(path, current[n - 1].key))] else []
  }

  /** `diff_shapes`. */
  function Diff(path: string, baseline: Value, current: Value): seq<Line>
    decreases baseline, if baseline.Object? then |baseline.fields| + 1 else 1
  {
    match (baseline, current)
    case (Object(base), Object(cur)) =>
      BaselineLines(path, baseline, current, |base|) + AddedLines(path, base, cur, |cur|)
    case (Array(base), Array(cur)) =>
      if base != [] && cur != [] then Diff(path + "[]", base[0], cur[0]) else []
    case (Text(base), Text(cur)) => if base != cur then [TypeChanged(path, base, cur)] else []
    case _ => [StructureChanged(path, KindOf(baseline), KindOf(current))]
  }

  method DiffShapes(path: string, baseline: Value, current: Value) returns (lines: seq<Line>)
    ensures lines == Diff(path, baseline, current)
    decreases baseline, 1
  {
    match (baseline, current) {
      case (Object(base), Object(cur)) =>
        lines := DiffObjects(path, baseline, current);
      case (Array(base), Array(cur)) =>
        if base != [] && cur != [] {
          lines := DiffShapes(path + "[]", base[0], cur[0]);
        } else {
          lines := [];
        }
      case (Text(base), Text(cur)) =>
        lines := if base != cur then [TypeChanged(path, base, cur)] else [];
      case _ =>
        lines := [StructureChanged(path, KindOf(baseline), KindOf(current))];
    }
  }

  /** `diff_objects`. */
  method DiffObjects(path: string, baseline: Value, current: Value) returns (drifts: seq<Line>)
    requires baseline.Object? && current.Object?
    ensures drifts == Diff(path, baseline, current)
    decreases baseline, 0
  {
    drifts := [];
    for i := 0 to |baseline.fields|
      invariant drifts == BaselineLines(path, baseline, current, i)
    {
      var field := baseline.fields[i];
      var child := Join(path, field.key);
      match Find(current.fields, field.key) {
        case Some(at) =>
          var changed := DiffShapes(child, field.value, current.fields[at].value);
          drifts := drifts + changed;
        case None =>
          drifts := drifts + [KeyRemoved(child)];
      }
    }
    ghost var first := drifts;
    for i := 0 to |current.fields|
      invariant drifts == first + AddedLines(path, baseline.fields, current.fields, i)
    {
      if Find(baseline.fields, current.fields[i].key).None? {
        drifts := drifts + [KeyAdded(Join(path, current.fields[i].key))];
      }
    }
  }

  // ---------------------------------------------------------------------------
  // When there is no drift
  // ---------------------------------------------------------------------------

  predicate SameScalarType(a: Value, b: Value)
  {
    || (a.Text? && b.Text?)
    || (a.Number? && b.Number? && (a.number.Integer? <==> b.number.Integer?))
    || (a.Boolean? && b.Boolean?)
    || (a.Null? && b.Null?)
  }

  /** Two responses that keep the same contract: the same keys, the same scalar types, and nothing said
      about the elements of an array that is empty on either side. */
  predicate Compatible(a: Value, b: Value)
    decreases a
  {
    if a.Object? && b.Object? then
      FieldsCompatible(a, b) && Covers(a.fields, b.fields)
    else if a.Array? && b.Array? then
      a.items == [] || b.items == [] || Compatible(a.items[0], b.items[0])
    else
      SameScalarType(a, b)
  }

  /** Every key of `gs` is a key of `fs`. */
  predicate Covers(fs: seq<Field>, gs: seq<Field>)
  {
    forall j :: 0 <= j < |gs| ==> Find(fs, gs[j].key).Some?
  }

  predicate FieldsCompatible(a: Value, b: Value)
    requires a.Object? && b.Object?
    decreases a, 0
  {
    forall i :: 0 <= i < |a.fields| ==>
      var at := Find(b.fields, a.fields[i].key);
      at.Some? && Compatible(a.fields[i].value, b.fields[at.value].value)
  }

  function Shaped(fields: seq<Field>): seq<Field> { ShapeOf(Object(fields)).fields }

  lemma {:induction false} FindShaped(fields: seq<Field>, key: string)
    ensures Find(Shaped(fields), key) == Find(fields, key)
  {
    if fields != [] {
      var n := |fields| - 1;
      FindShaped(fields[..n], key);
      assert Shaped(fields)[..n] == Shaped(fields[..n]);
    }
  }

  /** None of the first `n` fields of the baseline has drifted. */
  predicate Settled(path: string, baseline: Value, current: Value, n: nat)
    requires baseline.Object? && current.Object? && n <= |baseline.fields|
  {
    forall i :: 0 <= i < n ==> FieldLines(path, baseline, current, i) == []
  }

  lemma {:induction false} NoBaselineLines(path: string, baseline: Value, current: Value, n: nat)
    requires baseline.Object? && current.Object? && n <= |baseline.fields|
    ensures BaselineLines(path, baseline, current, n) == [] <==> Settled(path, baseline, current, n)
  {
    if n > 0 {
      NoBaselineLines(path, baseline, current, n - 1);
      var before, last := BaselineLines(path, baseline, current, n - 1), FieldLines(path, baseline, current, n - 1);
      assert BaselineLines(path, baseline, current, n) == before + last;
      assert |before + last| == |before| + |last|;
      if before == [] && last == [] {
        forall i | 0 <= i < n
          ensures FieldLines(path, baseline, current, i) == []
        {
          assert i == n - 1 || Settled(path, baseline, current, n - 1);
        }
      }
      if Settled(path, baseline, current, n) {
        assert Settled(path, baseline, current, n - 1);
      }
    }
  }

  lemma {:induction false} NoAddedLines(path: string, baseline: seq<Field>, current: seq<Field>, n: nat)
    requires n <= |current|
    ensures AddedLines(path, baseline, current, n) == []
      <==> forall j :: 0 <= j < n ==> Find(baseline, current[j].key).Some?
  {
    if n > 0 {
      NoAddedLines(path, baseline, current, n - 1);
    }
  }

  lemma {:induction false} NoObjectLines(path: string, s: Value, u: Value)
    requires s.Object? && u.Object?
    ensures Diff(path, s, u) == [] <==> Settled(path, s, u, |s.fields|) && Covers(s.fields, u.fields)
  {
    NoBaselineLines(path, s, u, |s.fields|);
    NoAddedLines(path, s.fields, u.fields, |u.fields|);
    var changed, added := BaselineLines(path, s, u, |s.fields|), AddedLines(path, s.fields, u.fields, |u.fields|);
    assert Settled(path, s, u, |s.fields|) <==> changed == [];
    assert Covers(s.fields, u.fields) <==> added == [];
    assert Diff(path, s, u) == changed + added;
    assert changed + added == [] <==> changed == [] && added == [] by {
      assert |changed + added| == |changed| + |added|;
    }
  }

  lemma {:induction false} ShapesCoverAlike(a: Value, b: Value)
    requires a.Object? && b.Object?
    ensures Covers(ShapeOf(a).fields, ShapeOf(b).fields) <==> Covers(a.fields, b.fields)
  {
    forall j | 0 <= j < |b.fields|
      ensures Find(ShapeOf(a).fields, ShapeOf(b).fields[j].key) == Find(a.fields, b.fields[j].key)
    {
      assert a == Object(a.fields);
      FindShaped(a.fields, b.fields[j].key);
    }
  }

  lemma {:induction false} ObjectsWithoutDrift(path: string, a: Value, b: Value, s: Value, u: Value)
    requires a.Object? && b.Object? && s.Object? && u.Object? && |s.fields| == |a.fields|
    requires Settled(path, s, u, |s.fields|) <==> FieldsCompatible(a, b)
    requires Covers(s.fields, u.fields) <==> Covers(a.fields, b.fields)
    ensures Diff(path, s, u) == [] <==> Compatible(a, b)
  {
    NoObjectLines(path, s, u);
  }

  /** No drift is reported between two responses if and only if they are compatible. */
  lemma {:induction false} NoDriftIffCompatible(path: string, a: Value, b: Value)
    ensures Diff(path, ShapeOf(a), ShapeOf(b)) == [] <==> Compatible(a, b)
    decreases a, 1
  {
    if a.Object? && b.Object? {
      SettledIffFieldsCompatible(path, a, b);
      ShapesCoverAlike(a, b);
      ObjectsWithoutDrift(path, a, b, ShapeOf(a), ShapeOf(b));
    } else if a.Array? && b.Array? {
      if a.items != [] && b.items != [] {
        NoDriftIffCompatible(path + "[]", a.items[0], b.items[0]);
      }
    }
  }

  lemma {:induction false} SettledIffFieldsCompatible(path: string, a: Value, b: Value)
    requires a.Object? && b.Object?
    ensures Settled(path, ShapeOf(a), ShapeOf(b), |a.fields|) <==> FieldsCompatible(a, b)
    decreases a, 0
  {
    var s, u := ShapeOf(a), ShapeOf(b);
    forall i | 0 <= i < |a.fields|
      ensures FieldLines(path, s, u, i) == [] <==>
        var at := Find(b.fields, a.fields[i].key);
        at.Some? && Compatible(a.fields[i].value, b.fields[at.value].value)
    {
      FindShaped(b.fields, a.fields[i].key);
      var at := Find(b.fields, a.fields[i].key);
      if at.Some? {
        NoDriftIffCompatible(Join(path, a.fields[i].key), a.fields[i].value, b.fields[at.value].value);
      }
    }
  }

  // ---------------------------------------------------------------------------
  // What a shape keeps
  // ---------------------------------------------------------------------------

  /** The same tree up to the scalars, each replaced by one of its own type, and up to all but the
      first element of every array. */
  predicate Alike(a: Value, b: Value)
    decreases a
  {
    if a.Object? && b.Object? then
      |a.fields| == |b.fields| && forall i :: 0 <= i < |a.fields| ==>
        a.fields[i].key == b.fields[i].key && Alike(a.fields[i].value, b.fields[i].value)
    else if a.Array? && b.Array? then
      (a.items == [] <==> b.items == []) && (a.items != [] && b.items != [] ==> Alike(a.items[0], b.items[0]))
    else
      SameScalarType(a, b)
  }

  /** A shape forgets the values and remembers everything else. */
  lemma {:induction false} ShapesAreEqualIffAlike(a: Value, b: Value)
    ensures ShapeOf(a) == ShapeOf(b) <==> Alike(a, b)
    decreases a
  {
    if a.Object? && b.Object? {
      if |a.fields| == |b.fields| {
        forall i | 0 <= i < |a.fields|
          ensures ShapeOf(a.fields[i].value) == ShapeOf(b.fields[i].value)
            <==> Alike(a.fields[i].value, b.fields[i].value)
        {
          ShapesAreEqualIffAlike(a.fields[i].value, b.fields[i].value);
        }
        if ShapeOf(a) == ShapeOf(b) {
          forall i | 0 <= i < |a.fields|
            ensures a.fields[i].key == b.fields[i].key && Alike(a.fields[i].value, b.fields[i].value)
          {
            assert ShapeOf(a).fields[i] == ShapeOf(b).fields[i];
          }
        }
      }
    } else if a.Array? && b.Array? {
      if a.items != [] && b.items != [] {
        ShapesAreEqualIffAlike(a.items[0], b.items[0]);
      }
    }
  }
}
