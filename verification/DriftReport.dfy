/** What a drift report says: its lines are exactly the places where the two trees differ, and there are
    as many of them whichever tree is taken as the baseline. */
module DriftReport {
  import opened Prelude
  import opened Drift

  /** A map holds each key once. */
  predicate DistinctKeys(fields: seq<Field>)
  {
    forall i, j :: 0 <= i < j < |fields| ==> fields[i].key != fields[j].key
  }

  predicate WellFormed(v: Value)
  {
    match v
    case Object(fields) => DistinctKeys(fields) && forall i :: 0 <= i < |fields| ==> WellFormed(fields[i].value)
    case Array(items) => forall i :: 0 <= i < |items| ==> WellFormed(items[i])
    case _ => true
  }

  lemma {:induction false} ShapesAreWellFormed(v: Value)
    requires WellFormed(v)
    ensures WellFormed(ShapeOf(v))
  {
    if v.Object? {
      forall i | 0 <= i < |v.fields|
        ensures WellFormed(ShapeOf(v).fields[i].value)
      {
        ShapesAreWellFormed(v.fields[i].value);
      }
    } else if v.Array? && v.items != [] {
      ShapesAreWellFormed(v.items[0]);
    }
  }

  // ---------------------------------------------------------------------------
  // Places
  // ---------------------------------------------------------------------------

  datatype Step = Into(key: string) | Element

  type Place = seq<Step>

  function StepPath(path: string, step: Step): string
  {
    match step
    case Into(key) => if path == "" then key else path + "." + key
    case Element => path + "[]"
  }

  function Render(path: string, place: Place): string
    decreases |place|
  {
    if place == [] then path else Render(StepPath(path, place[0]), place[1..])
  }

  function StepTo(v: Value, step: Step): Option<Value>
  {
    match step
    case Into(key) =>
      if v.Object? && Find(v.fields, key).Some? then Some(v.fields[Find(v.fields, key).value].value) else None
    case Element => if v.Array? && v.items != [] then Some(v.items[0]) else None
  }

  function At(v: Value, place: Place): Option<Value>
  {
    if place == [] then Some(v)
    else
      match StepTo(v, place[0])
      case None => None
      case Some(w) => At(w, place[1..])
  }

  /** `place` names a key that one tree's object has there and the other's lacks. */
  predicate MissingKey(place: Place, has: Value, lacks: Value)
  {
    if place == [] then false
    else if |place| == 1 then
      place[0].Into? && has.Object? && lacks.Object?
      && Find(has.fields, place[0].key).Some? && Find(lacks.fields, place[0].key).None?
    else
      var h, l := StepTo(has, place[0]), StepTo(lacks, place[0]);
      h.Some? && l.Some? && MissingKey(place[1..], h.value, l.value)
  }

  predicate SameStructure(a: Value, b: Value)
  {
    (a.Object? && b.Object?) || (a.Array? && b.Array?) || (a.Text? && b.Text?)
  }

  predicate IsOfKind(v: Value, kind: Kind)
  {
    match kind
    case ObjectKind => v.Object?
    case ArrayKind => v.Array?
    case ScalarKind => !v.Object? && !v.Array?
  }

  /** The line is true of the two trees at `place`. */
  predicate Describes(line: Line, path: string, place: Place, baseline: Value, current: Value)
  {
    var here, x, y := Render(path, place), At(baseline, place), At(current, place);
    && line.path == here
    && match line
       case TypeChanged(_, t, u) => x == Some(Text(t)) && y == Some(Text(u)) && t != u
       case StructureChanged(_, k, l) =>
         x.Some? && y.Some? && IsOfKind(x.value, k) && IsOfKind(y.value, l) && !SameStructure(x.value, y.value)
       case KeyRemoved(_) => MissingKey(place, baseline, current)
       case KeyAdded(_) => MissingKey(place, current, baseline)
  }

  lemma {:induction false} OneStepIn(
      line: Line, path: string, step: Step, rest: Place, a: Value, b: Value, x: Value, y: Value)
    requires StepTo(a, step) == Some(x) && StepTo(b, step) == Some(y)
    ensures Describes(line, path, [step] + rest, a, b) <==> Describes(line, StepPath(path, step), rest, x, y)
  {
    var place := [step] + rest;
    assert place[1..] == rest;
    assert rest == [] ==> !MissingKey(place, a, b) && !MissingKey(place, b, a);
  }

  // ---------------------------------------------------------------------------
  // Lines and fields
  // ---------------------------------------------------------------------------

  lemma {:induction false} FieldOfALine(path: string, a: Value, b: Value, n: nat, line: Line) returns (i: nat)
    requires a.Object? && b.Object? && n <= |a.fields|
    requires line in BaselineLines(path, a, b, n)
    ensures i < n && line in FieldLines(path, a, b, i)
  {
    if line in FieldLines(path, a, b, n - 1) {
      i := n - 1;
    } else {
      i := FieldOfALine(path, a, b, n - 1, line);
    }
  }

  lemma {:induction false} LineOfAField(path: string, a: Value, b: Value, n: nat, i: nat, line: Line)
    requires a.Object? && b.Object? && i < n <= |a.fields|
    requires line in FieldLines(path, a, b, i)
    ensures line in BaselineLines(path, a, b, n)
  {
    if i < n - 1 {
      LineOfAField(path, a, b, n - 1, i, line);
    }
  }

  lemma {:induction false} LineOfANewKey(path: string, fs: seq<Field>, gs: seq<Field>, n: nat, line: Line)
    requires n <= |gs|
    ensures line in AddedLines(path, fs, gs, n)
      <==> exists j :: 0 <= j < n && Find(fs, gs[j].key).None? && line == KeyAdded(Join(path, gs[j].key))
  {
    if n > 0 {
      LineOfANewKey(path, fs, gs, n - 1, line);
    }
  }

  lemma {:induction false} LineOfAnObject(path: string, a: Value, b: Value, line: Line)
    requires a.Object? && b.Object?
    ensures line in Diff(path, a, b) <==>
      || line in BaselineLines(path, a, b, |a.fields|)
      || line in AddedLines(path, a.fields, b.fields, |b.fields|)
  {
  }

  lemma {:induction false} FindsItsOwn(fields: seq<Field>, i: nat)
    requires DistinctKeys(fields) && i < |fields|
    ensures Find(fields, fields[i].key) == Some(i)
  {
  }

  // ---------------------------------------------------------------------------
  // Every line is true
  // ---------------------------------------------------------------------------

  lemma {:induction false} PlaceOf(path: string, a: Value, b: Value, line: Line) returns (place: Place)
    requires WellFormed(a) && WellFormed(b) && line in Diff(path, a, b)
    ensures Describes(line, path, place, a, b)
    decreases a, 1
  {
    if a.Object? && b.Object? {
      LineOfAnObject(path, a, b, line);
      if line in BaselineLines(path, a, b, |a.fields|) {
        var i := FieldOfALine(path, a, b, |a.fields|, line);
        place := PlaceOfAFieldLine(path, a, b, i, line);
      } else {
        LineOfANewKey(path, a.fields, b.fields, |b.fields|, line);
        var j: nat :| j < |b.fields| && Find(a.fields, b.fields[j].key).None?
          && line == KeyAdded(Join(path, b.fields[j].key));
        FindsItsOwn(b.fields, j);
        place := [Into(b.fields[j].key)];
        assert place[1..] == [];
      }
    } else if a.Array? && b.Array? {
      var rest := PlaceOf(path + "[]", a.items[0], b.items[0], line);
      OneStepIn(line, path, Element, rest, a, b, a.items[0], b.items[0]);
      place := [Element] + rest;
    } else {
      place := [];
    }
  }

  lemma {:induction false} PlaceOfAFieldLine(path: string, a: Value, b: Value, i: nat, line: Line)
    returns (place: Place)
    requires WellFormed(a) && WellFormed(b) && a.Object? && b.Object? && i < |a.fields|
    requires line in FieldLines(path, a, b, i)
    ensures Describes(line, path, place, a, b)
    decreases a, 0
  {
    var field := a.fields[i];
    FindsItsOwn(a.fields, i);
    match Find(b.fields, field.key) {
      case Some(at) =>
        var rest := PlaceOf(Join(path, field.key), field.value, b.fields[at].value, line);
        OneStepIn(line, path, Into(field.key), rest, a, b, field.value, b.fields[at].value);
        place := [Into(field.key)] + rest;
      case None =>
        place := [Into(field.key)];
        assert place[1..] == [];
    }
  }

  // ---------------------------------------------------------------------------
  // Every difference is reported
  // ---------------------------------------------------------------------------

  lemma {:induction false} DifferencesAreReported(path: string, a: Value, b: Value, place: Place, line: Line)
    requires Describes(line, path, place, a, b)
    ensures line in Diff(path, a, b)
    decreases |place|
  {
    if place != [] {
      var step, rest := place[0], place[1..];
      assert place == [step] + rest;
      var x, y := StepTo(a, step), StepTo(b, step);
      if x.Some? && y.Some? {
        OneStepIn(line, path, step, rest, a, b, x.value, y.value);
        DifferencesAreReported(StepPath(path, step), x.value, y.value, rest, line);
        ReportedFromInside(path, a, b, step, line);
      } else {
        assert rest == [] && Render(StepPath(path, step), rest) == StepPath(path, step);
        MissingKeysAreReported(path, a, b, step, line);
      }
    }
  }

  lemma {:induction false} ReportedFromInside(path: string, a: Value, b: Value, step: Step, line: Line)
    requires StepTo(a, step).Some? && StepTo(b, step).Some?
    requires line in Diff(StepPath(path, step), StepTo(a, step).value, StepTo(b, step).value)
    ensures line in Diff(path, a, b)
  {
    if step.Into? {
      var i := Find(a.fields, step.key).value;
      assert line in FieldLines(path, a, b, i);
      LineOfAField(path, a, b, |a.fields|, i, line);
      LineOfAnObject(path, a, b, line);
    }
  }

  lemma {:induction false} MissingKeysAreReported(path: string, a: Value, b: Value, step: Step, line: Line)
    requires line == KeyRemoved(StepPath(path, step)) ==> MissingKey([step], a, b)
    requires line == KeyAdded(StepPath(path, step)) ==> MissingKey([step], b, a)
    requires line == KeyRemoved(StepPath(path, step)) || line == KeyAdded(StepPath(path, step))
    ensures line in Diff(path, a, b)
  {
    LineOfAnObject(path, a, b, line);
    if line.KeyRemoved? {
      var i := Find(a.fields, step.key).value;
      assert line in FieldLines(path, a, b, i);
      LineOfAField(path, a, b, |a.fields|, i, line);
    } else {
      var j := Find(b.fields, step.key).value;
      LineOfANewKey(path, a.fields, b.fields, |b.fields|, line);
      assert Find(a.fields, b.fields[j].key).None?;
    }
  }

  /** The report is exact: its lines are the true statements about places where the two trees differ,
      all of them and no others. */
  lemma {:induction false} TheReportIsExact(path: string, a: Value, b: Value, line: Line)
    requires WellFormed(a) && WellFormed(b)
    ensures line in Diff(path, a, b) <==> exists place: Place :: Describes(line, path, place, a, b)
  {
    if line in Diff(path, a, b) {
      var place := PlaceOf(path, a, b, line);
    }
    if place: Place :| Describes(line, path, place, a, b) {
      DifferencesAreReported(path, a, b, place, line);
    }
  }
}
