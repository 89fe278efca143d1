/**
 * The structural plan edits of `DicomUtil` (dicomfix/dicomutil.py 372-602) as functions on plan
 * values: field duplication, gantry / table / snout geometry, the treatment machine, the TR4
 * preset and the range shifter. Each edit returns the plan as it stands when the edit ends,
 * together with the exception that ended it early, if any: the Python code mutates the plan in
 * place, so an exception leaves the earlier assignments behind.
 */
module FieldOps {
  import opened Common
  import opened IonPlan

  /** The plan after an edit, and the exception that interrupted it, if any. */
  datatype Edit = Edit(plan: Plan, err: Option<Error>)

  // ---------------------------------------------------------------------------------------------
  // duplicate_fields
  // ---------------------------------------------------------------------------------------------

  /** `range(n)` has max(n, 0) elements. */
  function Copies(n: int): (c: nat)
    ensures n > 0 ==> c == n
    ensures n <= 0 ==> c == 0
  {
    if n > 0 then n else 0
  }

  /** `name + f" ({k + 1}/{n})"` */
  function CopyLabel(name: string, k: nat, n: nat): (r: string)
    ensures |r| > |name| && r[..|name|] == name
  {
    name + " (" + NatToString(k + 1) + "/" + NatToString(n) + ")"
  }

  /** The loop body of duplicate_fields for item i of the expanded beam list. */
  function Relabel(b: IonBeam, i: nat, n: nat): IonBeam
    requires n > 0
  {
    b.(name := CopyLabel(b.name, i % n, n), number := i + 1)
  }

  /**
   * How many beams of the expanded list the loop relabels: all of them, or, when there are fewer
   * referenced beams, one more than there are referenced beams (the beam whose referenced beam
   * is missing is renamed and renumbered before the IndexError).
   */
  function Relabelled(beams: nat, refs: nat): nat
  {
    if beams <= refs then beams else refs + 1
  }

  /** The loop over the expanded beam list, up to the stop. */
  function RelabelUpTo(ibs: seq<IonBeam>, stop: nat, c: nat): (r: seq<IonBeam>)
    requires c > 0
    ensures |r| == |ibs|
    ensures forall i :: 0 <= i < |ibs| ==> r[i] == if i < stop then Relabel(ibs[i], i, c) else ibs[i]
  {
    seq(|ibs|, i requires 0 <= i < |ibs| => if i < stop then Relabel(ibs[i], i, c) else ibs[i])
  }

  /** `new_rbs[i].ReferencedBeamNumber = i + 1` for the first `upTo` referenced beams. */
  function RenumberUpTo(rbs: seq<ReferencedBeam>, upTo: nat): (r: seq<ReferencedBeam>)
    ensures |r| == |rbs|
    ensures forall i :: 0 <= i < |rbs| ==> r[i] == if i < upTo then rbs[i].(number := i + 1) else rbs[i]
  {
    seq(|rbs|, i requires 0 <= i < |rbs| => if i < upTo then rbs[i].(number := i + 1) else rbs[i])
  }

  /** duplicate_fields(n): n consecutive deep copies of every field and every referenced beam. */
  function Duplicate(p: Plan, n: int): (r: Edit)
    ensures |r.plan.beams| == |p.beams| * Copies(n) && |r.plan.refBeams| == |p.refBeams| * Copies(n)
    ensures r.plan.header == p.header && r.plan.numberOfBeams == |r.plan.refBeams|
    ensures r.err.Some? ==> r.err == Some(MissingReferencedBeam)
  {
    var c := Copies(n);
    if c == 0 then
      Edit(p.(numberOfBeams := 0, beams := [], refBeams := []), None)
    else
      var ibs := Expand(p.beams, c);
      var rbs := Expand(p.refBeams, c);
      ExpandLength(p.beams, c);
      ExpandLength(p.refBeams, c);
      Edit(p.(numberOfBeams := |rbs|,
              beams := RelabelUpTo(ibs, Relabelled(|ibs|, |rbs|), c),
              refBeams := RenumberUpTo(rbs, |ibs|)),
           if |ibs| <= |rbs| then None else Some(MissingReferencedBeam))
  }

  /** A non-positive count leaves a plan without fields: `range(n)` is empty. */
  lemma DuplicateNonPositive(p: Plan, n: int)
    requires n <= 0
    ensures Duplicate(p, n).err == None
    ensures Duplicate(p, n).plan.beams == [] && Duplicate(p, n).plan.refBeams == []
    ensures Duplicate(p, n).plan.numberOfBeams == 0
  {
  }

  /** The new lists are the expanded lists, relabelled and renumbered up to where the loop stops. */
  lemma DuplicateExpanded(p: Plan, n: int, i: nat)
    requires n > 0
    ensures var q := Duplicate(p, n).plan;
      var ibs := Expand(p.beams, n);
      var rbs := Expand(p.refBeams, n);
      |q.beams| == |ibs| && |q.refBeams| == |rbs| && q.numberOfBeams == |rbs| &&
      (i < |ibs| ==> q.beams[i] == if i < Relabelled(|ibs|, |rbs|) then Relabel(ibs[i], i, n) else ibs[i]) &&
      (i < |rbs| ==> q.refBeams[i] == if i < |ibs| then rbs[i].(number := i + 1) else rbs[i])
  {
    var ibs := Expand(p.beams, n);
    var rbs := Expand(p.refBeams, n);
    var q := Duplicate(p, n).plan;
    assert q.beams == RelabelUpTo(ibs, Relabelled(|ibs|, |rbs|), n);
    assert q.refBeams == RenumberUpTo(rbs, |ibs|);
  }

  /** Every copy has as many control points as its original. */
  lemma {:induction false} ExpandKeepsControlPoints(s: seq<IonBeam>, n: nat)
    requires forall j :: 0 <= j < |s| ==> |s[j].cps| > 0
    ensures forall i :: 0 <= i < |Expand(s, n)| ==> |Expand(s, n)[i].cps| > 0
  {
    if |s| > 0 {
      ExpandKeepsControlPoints(s[..|s| - 1], n);
      assert Expand(s, n) == Expand(s[..|s| - 1], n) + seq(n, _ => s[|s| - 1]);
    }
  }

  /** Item i of the new beam list is a copy of field i / n; items up to the stop are relabelled. */
  lemma DuplicateBeamAt(p: Plan, n: int, i: nat)
    requires n > 0 && i < |p.beams| * n
    ensures var q := Duplicate(p, n).plan;
      |q.beams| == |p.beams| * n && |q.refBeams| == |p.refBeams| * n && q.numberOfBeams == |p.refBeams| * n &&
      i / n < |p.beams| && q.beams[i] == if i < Relabelled(|p.beams| * n, |p.refBeams| * n) then Relabel(p.beams[i / n], i, n) else p.beams[i / n]
  {
    ExpandAt(p.beams, n, i);
    ExpandLength(p.refBeams, n);
    DuplicateExpanded(p, n, i);
  }

  /** Item i of the new referenced-beam list is a copy of referenced beam i / n. */
  lemma DuplicateRefAt(p: Plan, n: int, i: nat)
    requires n > 0 && i < |p.refBeams| * n
    ensures var q := Duplicate(p, n).plan;
      |q.refBeams| == |p.refBeams| * n && i / n < |p.refBeams| &&
      q.refBeams[i] == if i < |p.beams| * n then p.refBeams[i / n].(number := i + 1) else p.refBeams[i / n]
  {
    ExpandAt(p.refBeams, n, i);
    ExpandLength(p.beams, n);
    DuplicateExpanded(p, n, i);
  }

  lemma IndexInBlock(j: nat, k: nat, n: nat, m: nat)
    requires k < n && j < m
    ensures j * n + k < m * n && (j * n + k) / n == j && (j * n + k) % n == k
  {
    DivModUnique(j * n + k, n, j, k);
    MulMonotone(j + 1, m, n);
  }

  /**
   * When every field has its referenced beam: NumberOfBeams becomes nf·n, copy k of field j sits
   * at j·n + k, carries the suffix " (k+1/n)" and the number j·n + k + 1, and so does its
   * referenced beam.
   */
  lemma DuplicateLayout(p: Plan, n: int, j: nat, k: nat)
    requires Paired(p) && n > 0 && j < |p.beams| && k < n
    ensures var r := Duplicate(p, n);
      r.err == None && |r.plan.beams| == |p.beams| * n && r.plan.numberOfBeams == |p.refBeams| * n &&
      j * n + k < |p.beams| * n && j * n + k < |r.plan.refBeams| &&
      r.plan.beams[j * n + k] == p.beams[j].(name := CopyLabel(p.beams[j].name, k, n), number := j * n + k + 1) &&
      r.plan.refBeams[j * n + k] == p.refBeams[j].(number := j * n + k + 1)
  {
    IndexInBlock(j, k, n, |p.beams|);
    MulMonotone(|p.beams|, |p.refBeams|, n);
    DuplicateBeamAt(p, n, j * n + k);
    DuplicateRefAt(p, n, j * n + k);
  }

  /**
   * Duplication keeps a plan well formed: every beam keeps its referenced beam, beam i and its
   * referenced beam are both numbered i + 1, and every copy has its first control point.
   */
  lemma DuplicatePaired(p: Plan, n: int)
    requires Paired(p)
    ensures var q := Duplicate(p, n).plan;
      Duplicate(p, n).err == None && Paired(q) &&
      (forall i :: 0 <= i < |q.beams| ==> q.beams[i].number == q.refBeams[i].number == i + 1) &&
      (FirstControlPoints(p) ==> FirstControlPoints(q))
  {
    if n > 0 {
      var q := Duplicate(p, n).plan;
      MulMonotone(|p.beams|, |p.refBeams|, n);
      ExpandLength(p.beams, n);
      ExpandLength(p.refBeams, n);
      if FirstControlPoints(p) {
        ExpandKeepsControlPoints(p.beams, n);
      }
      forall i | 0 <= i < |q.beams|
        ensures q.beams[i].number == q.refBeams[i].number == i + 1
        ensures FirstControlPoints(p) ==> |q.beams[i].cps| > 0
      {
        DuplicateExpanded(p, n, i);
      }
    }
  }

  /** Duplication keeps every field's first control point, whether or not the loop completes. */
  lemma DuplicateKeepsFirstControlPoints(p: Plan, n: int)
    requires FirstControlPoints(p)
    ensures FirstControlPoints(Duplicate(p, n).plan)
  {
    if n > 0 {
      var q := Duplicate(p, n).plan;
      ExpandKeepsControlPoints(p.beams, n);
      forall i | 0 <= i < |q.beams|
        ensures |q.beams[i].cps| > 0
      {
        DuplicateExpanded(p, n, i);
      }
    }
  }

  /** With at least one copy, duplication completes exactly when every field has its referenced beam. */
  lemma DuplicateSucceedsWhenPaired(p: Plan, n: int)
    requires n > 0
    ensures Duplicate(p, n).err.None? <==> Paired(p)
  {
    ExpandLength(p.beams, n);
    ExpandLength(p.refBeams, n);
    if Paired(p) {
      MulMonotone(|p.beams|, |p.refBeams|, n);
    } else {
      MulMonotone(|p.refBeams| + 1, |p.beams|, n);
    }
  }

  /**
   * With fewer referenced beams than beams the loop runs off the end of the referenced beams:
   * IndexError, after the beam at that index was already renamed and renumbered, while the
   * copies after it keep the names and numbers of their originals.
   */
  lemma DuplicateShortReferences(p: Plan, n: int)
    requires n > 0 && |p.refBeams| < |p.beams|
    ensures var q := Duplicate(p, n).plan;
      var ibs := Expand(p.beams, n);
      var m := |p.refBeams| * n;
      Duplicate(p, n).err == Some(MissingReferencedBeam) && |q.beams| == |ibs| == |p.beams| * n && m < |q.beams| &&
      q.beams[m] == Relabel(ibs[m], m, n) &&
      (forall i :: m < i < |q.beams| ==> q.beams[i] == ibs[i])
  {
    var q := Duplicate(p, n).plan;
    var ibs := Expand(p.beams, n);
    var m := |p.refBeams| * n;
    MulMonotone(|p.refBeams| + 1, |p.beams|, n);
    ExpandLength(p.refBeams, n);
    ExpandLength(p.beams, n);
    DuplicateExpanded(p, n, m);
    forall i | m < i < |q.beams|
      ensures q.beams[i] == ibs[i]
    {
      DuplicateExpanded(p, n, i);
    }
  }

  // ---------------------------------------------------------------------------------------------
  // Geometry of the first control point: gantry, table, snout, treatment machine, TR4
  // ---------------------------------------------------------------------------------------------

  /** The field with its first control point replaced. */
  function WithFirst(b: IonBeam, cp: ControlPoint): (r: IonBeam)
    requires |b.cps| > 0
    ensures |r.cps| == |b.cps| && r.cps[0] == cp && forall k :: 0 < k < |b.cps| ==> r.cps[k] == b.cps[k]
  {
    b.(cps := b.cps[0 := cp])
  }

  /**
   * How a loop over the fields through their first control points ends, when a log line after it
   * reads the last field: the IndexError of the first field without control points, or, for a
   * plan without fields, the error of the log line.
   */
  function FieldLoopError(p: Plan): (r: Option<Error>)
    ensures r.None? <==> |p.beams| > 0 && FirstControlPoints(p)
    ensures !FirstControlPoints(p) ==> r == Some(NoControlPoint)
    ensures |p.beams| == 0 ==> r == Some(NoFields)
  {
    ReachAll(p);
    if Reach(p.beams) < |p.beams| then Some(NoControlPoint) else if |p.beams| == 0 then Some(NoFields) else None
  }

  /** The gantry angle of every field, read from its first control point (0.0 for a field without one). */
  function GantryAngles(p: Plan): (r: seq<real>)
    ensures |r| == |p.beams|
  {
    seq(|p.beams|, j requires 0 <= j < |p.beams| => if |p.beams[j].cps| > 0 then p.beams[j].cps[0].gantryAngle else 0.0)
  }

  function WithAngle(b: IonBeam, a: real): IonBeam
    requires |b.cps| > 0
  {
    WithFirst(b, b.cps[0].(gantryAngle := a))
  }

  /**
   * set_gantry_angles: one angle per field, or ValueError before any change; the loop then sets
   * field after field and stops with IndexError at a field without control points.
   */
  function SetGantryAngles(p: Plan, angles: seq<real>): (e: Edit)
    ensures |e.plan.beams| == |p.beams| && e.plan.(beams := p.beams) == p
    ensures |angles| != |p.beams| ==> e.err == Some(GantryAngleCount)
    ensures |angles| == |p.beams| ==> (e.err.None? <==> FirstControlPoints(p))
    ensures |angles| == |p.beams| && !FirstControlPoints(p) ==> e.err == Some(NoControlPoint)
  {
    if |angles| != |p.beams| then Edit(p, Some(GantryAngleCount))
    else
      var r := Reach(p.beams);
      ReachAll(p);
      Edit(p.(beams := seq(|p.beams|, j requires 0 <= j < |p.beams| => if j < r then WithAngle(p.beams[j], angles[j]) else p.beams[j])),
           if r < |p.beams| then Some(NoControlPoint) else None)
  }

  /**
   * The angles are accepted exactly when there is one per field; the fields before the first one
   * without control points then carry them, that field raises IndexError, and the fields from it
   * on are untouched. Without such a field every angle is read back as given.
   */
  lemma GantryAnglesReadBack(p: Plan, angles: seq<real>)
    ensures SetGantryAngles(p, angles).err.None? <==> |angles| == |p.beams| && FirstControlPoints(p)
    ensures |angles| != |p.beams| ==> SetGantryAngles(p, angles) == Edit(p, Some(GantryAngleCount))
    ensures |angles| == |p.beams| ==>
      var e := SetGantryAngles(p, angles);
      var r := Reach(p.beams);
      SameShape(p, e.plan) && e.plan == p.(beams := e.plan.beams) &&
      (forall j :: 0 <= j < r ==> e.plan.beams[j] == WithAngle(p.beams[j], angles[j]) && GantryAngles(e.plan)[j] == angles[j]) &&
      (forall j :: r <= j < |p.beams| ==> e.plan.beams[j] == p.beams[j]) &&
      (r < |p.beams| ==> e.err == Some(NoControlPoint) && |p.beams[r].cps| == 0)
    ensures SetGantryAngles(p, angles).err.None? ==>
      var q := SetGantryAngles(p, angles).plan;
      FirstControlPoints(q) && GantryAngles(q) == angles && Paired(q) == Paired(p)
  {
    ReachAll(p);
  }

  /**
   * Only the gantry angles change: setting the old angles back restores the plan, and setting the
   * current angles changes nothing, whether or not a field without control points stops the loop.
   */
  lemma GantryAnglesRestore(p: Plan, angles: seq<real>)
    ensures var q := SetGantryAngles(p, angles).plan;
      SetGantryAngles(q, GantryAngles(p)).plan == p
    ensures SetGantryAngles(p, GantryAngles(p)).plan == p
  {
    var q := SetGantryAngles(p, angles).plan;
    GantryAnglesReadBack(p, angles);
    ReachSameShape(p, q);
    var r := SetGantryAngles(q, GantryAngles(p)).plan;
    forall j | 0 <= j < |p.beams|
      ensures r.beams[j] == p.beams[j]
    {
      if j < Reach(p.beams) {
        assert r.beams[j].cps == p.beams[j].cps;
      }
    }
    assert r.beams == p.beams;
    var s := SetGantryAngles(p, GantryAngles(p)).plan;
    forall j | 0 <= j < |p.beams|
      ensures s.beams[j] == p.beams[j]
    {
      if j < Reach(p.beams) {
        assert s.beams[j].cps == p.beams[j].cps;
      }
    }
    assert s.beams == p.beams;
  }

  /** The table position of a control point as the (vertical, longitudinal, lateral) triple. */
  function TablePosition(cp: ControlPoint): (r: seq<real>)
    ensures |r| == 3
  {
    [cp.tableVertical, cp.tableLongitudinal, cp.tableLateral]
  }

  function WithTable(b: IonBeam, t: seq<real>): IonBeam
    requires |b.cps| > 0 && |t| == 3
  {
    WithFirst(b, b.cps[0].(tableVertical := t[0], tableLongitudinal := t[1], tableLateral := t[2]))
  }

  /**
   * set_table_position: ValueError unless three values are given; otherwise the fields' first
   * control points get them one field after the other, up to the IndexError of a field without
   * control points, and a plan without fields ends in the NameError of the log line that reads
   * the loop variable.
   */
  function SetTablePosition(p: Plan, t: seq<real>): (e: Edit)
    ensures |e.plan.beams| == |p.beams| && e.plan.(beams := p.beams) == p
    ensures |t| != 3 ==> e.err == Some(TablePositionArity)
    ensures |t| == 3 ==> (e.err.None? <==> |p.beams| > 0 && FirstControlPoints(p))
    ensures |t| == 3 && !FirstControlPoints(p) ==> e.err == Some(NoControlPoint)
  {
    if |t| != 3 then Edit(p, Some(TablePositionArity))
    else
      var r := Reach(p.beams);
      Edit(p.(beams := seq(|p.beams|, j requires 0 <= j < |p.beams| => if j < r then WithTable(p.beams[j], t) else p.beams[j])),
           FieldLoopError(p))
  }

  /**
   * A triple is accepted for a plan with fields that all have control points; the fields before
   * the first one without then carry it in their first control point, the other control points
   * and the later fields are untouched, and setting it again changes nothing.
   */
  lemma TablePositionReadBack(p: Plan, t: seq<real>)
    ensures SetTablePosition(p, t).err == None <==> |t| == 3 && |p.beams| > 0 && FirstControlPoints(p)
    ensures |t| != 3 ==> SetTablePosition(p, t) == Edit(p, Some(TablePositionArity))
    ensures |t| == 3 ==>
      var e := SetTablePosition(p, t);
      var q := e.plan;
      var r := Reach(p.beams);
      SameShape(p, q) && q == p.(beams := q.beams) && e.err == FieldLoopError(p) &&
      (forall j :: 0 <= j < r ==> TablePosition(q.beams[j].cps[0]) == t) &&
      (forall j, k :: 0 <= j < r && 0 < k < |q.beams[j].cps| ==> q.beams[j].cps[k] == p.beams[j].cps[k]) &&
      (forall j :: r <= j < |p.beams| ==> q.beams[j] == p.beams[j]) &&
      SetTablePosition(q, t).plan == q
  {
    if |t| == 3 {
      var q := SetTablePosition(p, t).plan;
      assert SameShape(p, q);
      ReachSameShape(p, q);
      var r := SetTablePosition(q, t).plan;
      forall j | 0 <= j < |q.beams|
        ensures r.beams[j] == q.beams[j]
      {
        if j < Reach(p.beams) {
          assert r.beams[j].cps == q.beams[j].cps;
        }
      }
      assert r.beams == q.beams;
    }
  }

  function WithSnout(b: IonBeam, s: real): IonBeam
    requires |b.cps| > 0
  {
    WithFirst(b, b.cps[0].(snoutPosition := s))
  }

  /**
   * set_snout_position: the fields' first control points, up to a field without control points;
   * the log line then reads the last field.
   */
  function SetSnoutPosition(p: Plan, s: real): (e: Edit)
    ensures |e.plan.beams| == |p.beams| && e.plan.(beams := p.beams) == p
    ensures e.err.None? <==> |p.beams| > 0 && FirstControlPoints(p)
    ensures !FirstControlPoints(p) ==> e.err == Some(NoControlPoint)
  {
    var r := Reach(p.beams);
    Edit(p.(beams := seq(|p.beams|, j requires 0 <= j < |p.beams| => if j < r then WithSnout(p.beams[j], s) else p.beams[j])),
         FieldLoopError(p))
  }

  /**
   * The fields before the first one without control points get the snout position in their first
   * control point and nothing else; that field raises IndexError, the later ones are untouched,
   * and setting the position again changes nothing.
   */
  lemma SnoutPositionReadBack(p: Plan, s: real)
    ensures SetSnoutPosition(p, s).err == None <==> |p.beams| > 0 && FirstControlPoints(p)
    ensures var e := SetSnoutPosition(p, s);
      var q := e.plan;
      var r := Reach(p.beams);
      SameShape(p, q) && q == p.(beams := q.beams) && e.err == FieldLoopError(p) &&
      (forall j :: 0 <= j < r ==> q.beams[j].cps[0] == p.beams[j].cps[0].(snoutPosition := s)) &&
      (forall j, k :: 0 <= j < r && 0 < k < |q.beams[j].cps| ==> q.beams[j].cps[k] == p.beams[j].cps[k]) &&
      (forall j :: r <= j < |p.beams| ==> q.beams[j] == p.beams[j]) &&
      SetSnoutPosition(q, s).plan == q
  {
    var q := SetSnoutPosition(p, s).plan;
    assert SameShape(p, q);
    ReachSameShape(p, q);
    var r := SetSnoutPosition(q, s).plan;
    forall j | 0 <= j < |q.beams|
      ensures r.beams[j] == q.beams[j]
    {
      if j < Reach(p.beams) {
        assert r.beams[j].cps == q.beams[j].cps;
      }
    }
    assert r.beams == q.beams;
  }

  /** set_treatment_machine: every field; the log line then reads the last field. */
  function SetTreatmentMachine(p: Plan, name: string): (e: Edit)
    ensures |e.plan.beams| == |p.beams| && e.plan.(beams := p.beams) == p
    ensures e.err.None? <==> |p.beams| > 0
  {
    Edit(p.(beams := seq(|p.beams|, j requires 0 <= j < |p.beams| => p.beams[j].(machine := name))),
         if |p.beams| == 0 then Some(NoFields) else None)
  }

  lemma TreatmentMachineReadBack(p: Plan, name: string)
    ensures SetTreatmentMachine(p, name).err == None <==> |p.beams| > 0
    ensures var q := SetTreatmentMachine(p, name).plan;
      |q.beams| == |p.beams| &&
      forall j :: 0 <= j < |q.beams| ==> q.beams[j] == p.beams[j].(machine := name)
  {
  }

  // ---------------------------------------------------------------------------------------------
  // Plan-level attributes: approve_plan, set_current_date, set_intent_to_curative, set_plan_label,
  // set_patient_name, set_reviewer_name
  // ---------------------------------------------------------------------------------------------

  /** The plan-level attributes the single-assignment edits write. */
  datatype Attribute = PatientName | PlanLabel | PlanDate | PlanTime | PlanIntent | ApprovalStatus | ReviewerName

  /** The value of a plan-level attribute. */
  function Attr(h: Header, a: Attribute): string
  {
    match a
    case PatientName => h.patientName
    case PlanLabel => h.planLabel
    case PlanDate => h.planDate
    case PlanTime => h.planTime
    case PlanIntent => h.planIntent
    case ApprovalStatus => h.approvalStatus
    case ReviewerName => h.reviewerName
  }

  /** The single assignment `d.<attribute> = value`. */
  function SetAttr(p: Plan, a: Attribute, v: string): (r: Plan)
    ensures r.beams == p.beams && r.refBeams == p.refBeams && r.numberOfBeams == p.numberOfBeams
    ensures r.header.patientId == p.header.patientId
  {
    var h := p.header;
    p.(header := match a
      case PatientName => h.(patientName := v)
      case PlanLabel => h.(planLabel := v)
      case PlanDate => h.(planDate := v)
      case PlanTime => h.(planTime := v)
      case PlanIntent => h.(planIntent := v)
      case ApprovalStatus => h.(approvalStatus := v)
      case ReviewerName => h.(reviewerName := v))
  }

  /**
   * An assignment is read back, changes no other attribute (the patient id included) and no field
   * or referenced beam, and repeating it changes nothing.
   */
  lemma SetAttrReadBack(p: Plan, a: Attribute, v: string)
    ensures var q := SetAttr(p, a, v);
      && Attr(q.header, a) == v
      && (forall b :: b != a ==> Attr(q.header, b) == Attr(p.header, b))
      && q.header.patientId == p.header.patientId
      && q == p.(header := q.header)
      && SetAttr(q, a, v) == q
  {
  }

  /** Assignments to different attributes commute; a later assignment to the same one wins. */
  lemma SetAttrCommutes(p: Plan, a: Attribute, v: string, b: Attribute, w: string)
    ensures a != b ==> SetAttr(SetAttr(p, a, v), b, w) == SetAttr(SetAttr(p, b, w), a, v)
    ensures a == b ==> SetAttr(SetAttr(p, a, v), b, w) == SetAttr(p, b, w)
  {
  }

  /** The approval step of `approve_plan` and of the TR4 preset. */
  function Approve(p: Plan): Plan
  {
    SetAttr(p, ApprovalStatus, "APPROVED")
  }

  /** `set_current_date` with the clock reading given as its two strings, date first. */
  function Stamp(p: Plan, date: string, time: string): Plan
  {
    SetAttr(SetAttr(p, PlanDate, date), PlanTime, time)
  }

  function Tr4Beam(b: IonBeam): IonBeam
    requires |b.cps| > 0
  {
    WithFirst(b.(machine := "TR4"), b.cps[0].(gantryAngle := 90.0, snoutPosition := 421.0))
  }

  /**
   * set_wizard_tr4: approve, then machine "TR4", gantry angle 90 degrees and snout position
   * 421 mm for one field after the other; a field without control points gets its machine name
   * and then raises IndexError. The log line reads the last field, so a plan without fields is
   * approved and then fails.
   */
  function SetWizardTr4(p: Plan): (e: Edit)
    ensures |e.plan.beams| == |p.beams| && e.plan.(beams := p.beams) == Approve(p)
    ensures e.err.None? <==> |p.beams| > 0 && FirstControlPoints(p)
    ensures !FirstControlPoints(p) ==> e.err == Some(NoControlPoint)
  {
    var r := Reach(p.beams);
    Edit(Approve(p).(beams := seq(|p.beams|, j requires 0 <= j < |p.beams| =>
                                    if j < r then Tr4Beam(p.beams[j])
                                    else if j == r then p.beams[j].(machine := "TR4")
                                    else p.beams[j])),
         FieldLoopError(p))
  }

  /**
   * When every field has a control point, the preset is the composition of the single edits it
   * stands for: approval, a gantry angle of 90 for every field, snout position 421 and treatment
   * machine "TR4". Otherwise the fields before the first one without control points get the
   * preset, that field gets only the machine name before the IndexError, and the later fields are
   * untouched.
   */
  lemma WizardTr4Composition(p: Plan)
    ensures FirstControlPoints(p) ==>
      var a := SetGantryAngles(Approve(p), Repeat([90.0], |p.beams|));
      a.err.None? &&
      var s := SetSnoutPosition(a.plan, 421.0);
      SetWizardTr4(p) == SetTreatmentMachine(s.plan, "TR4")
    ensures !FirstControlPoints(p) ==>
      var w := SetWizardTr4(p);
      var r := Reach(p.beams);
      r < |p.beams| && w.err == Some(NoControlPoint) &&
      w.plan == Approve(p).(beams := w.plan.beams) && |w.plan.beams| == |p.beams| &&
      (forall j :: 0 <= j < r ==> w.plan.beams[j] == Tr4Beam(p.beams[j])) &&
      w.plan.beams[r] == p.beams[r].(machine := "TR4") &&
      (forall j :: r < j < |p.beams| ==> w.plan.beams[j] == p.beams[j])
  {
    ReachAll(p);
    if FirstControlPoints(p) {
      var angles := Repeat([90.0], |p.beams|);
      RepeatLength([90.0], |p.beams|);
      forall j | 0 <= j < |p.beams|
        ensures angles[j] == 90.0
      {
        RepeatAt([90.0], |p.beams|, j);
      }
      var a := SetGantryAngles(Approve(p), angles).plan;
      assert Reach(Approve(p).beams) == |p.beams|;
      ReachSameShape(p, a);
      var s := SetSnoutPosition(a, 421.0).plan;
      var m := SetTreatmentMachine(s, "TR4").plan;
      var w := SetWizardTr4(p).plan;
      forall j | 0 <= j < |p.beams|
        ensures m.beams[j] == w.beams[j]
      {
        assert m.beams[j].cps == w.beams[j].cps;
      }
      assert m.beams == w.beams;
    }
  }

  // ---------------------------------------------------------------------------------------------
  // set_range_shifter
  // ---------------------------------------------------------------------------------------------

  /** The two devices set_range_shifter accepts. */
  predicate KnownShifter(id: string)
  {
    id == "RS_2CM" || id == "RS_5CM"
  }

  /** The water-equivalent thickness [mm] the code writes for a device, as written. */
  function ShifterWetAsWritten(id: string): real
  {
    if id == "RS_2CM" then 57.0 else 22.8
  }

  /** The nominal thickness [mm] a device id names. */
  function NominalThickness(id: string): real
  {
    if id == "RS_2CM" then 20.0 else 50.0
  }

  /**
   * The code as written gives the thinner device the larger water-equivalent thickness: both
   * constants are 1.14 times a nominal thickness, but each device gets the other one's.
   */
  lemma ShifterWetSwapped()
    ensures NominalThickness("RS_2CM") < NominalThickness("RS_5CM")
    ensures ShifterWetAsWritten("RS_2CM") > ShifterWetAsWritten("RS_5CM")
    ensures ShifterWetAsWritten("RS_2CM") == NominalThickness("RS_5CM") * 1.14
    ensures ShifterWetAsWritten("RS_5CM") == NominalThickness("RS_2CM") * 1.14
  {
  }

  /** The water-equivalent thickness [mm] of a device, one constant per id, thicker device thicker. */
  function ShifterWet(id: string): (r: real)
    ensures KnownShifter(id) ==> r == NominalThickness(id) * 1.14
  {
    if id == "RS_2CM" then 22.8 else 57.0
  }

  /** Water-equivalent thickness grows with the device's nominal thickness. */
  lemma ShifterWetMonotone(a: string, b: string)
    requires KnownShifter(a) && KnownShifter(b) && NominalThickness(a) < NominalThickness(b)
    ensures ShifterWet(a) < ShifterWet(b)
  {
  }

  /**
   * The RangeShifterSettingsSequence item every control point gets: with the thickness as the code
   * writes it, or with `corrected` the thickness that grows with the device.
   */
  function ShifterSetting(id: string, corrected: bool): (r: RangeShifterSetting)
    ensures r.setting == "IN" && r.isocenterDistance == 98.0 && r.referencedNumber == 1
    ensures KnownShifter(id) && corrected ==> r.waterEquivalentThickness == NominalThickness(id) * 1.14
    ensures KnownShifter(id) && !corrected ==>
      r.waterEquivalentThickness == NominalThickness(if id == "RS_2CM" then "RS_5CM" else "RS_2CM") * 1.14
  {
    RangeShifterSetting("IN", 98.0, if corrected then ShifterWet(id) else ShifterWetAsWritten(id), 1)
  }

  function InstallShifter(b: IonBeam, id: string, corrected: bool): (r: IonBeam)
    ensures |r.cps| == |b.cps| && r.numberOfRangeShifters == 1 && r.rangeShifter.Some?
    ensures r.(numberOfRangeShifters := b.numberOfRangeShifters, rangeShifter := b.rangeShifter, cps := b.cps) == b
    ensures forall k :: 0 <= k < |b.cps| ==>
      r.cps[k].(rangeShifterSetting := b.cps[k].rangeShifterSetting) == b.cps[k] &&
      r.cps[k].rangeShifterSetting == Some(ShifterSetting(id, corrected))
  {
    b.(numberOfRangeShifters := 1,
       rangeShifter := Some(RangeShifter(1, id, "BINARY")),
       cps := seq(|b.cps|, k requires 0 <= k < |b.cps| => b.cps[k].(rangeShifterSetting := Some(ShifterSetting(id, corrected)))))
  }

  /** Deleting the RangeShifterSequence where there is one; control point settings stay. */
  function RemoveShifter(b: IonBeam): IonBeam
  {
    if b.rangeShifter.Some? then b.(rangeShifter := None, numberOfRangeShifters := 0) else b
  }

  /**
   * set_range_shifter: None removes the device from the fields that have one; a known id is
   * installed in every field and every control point; any other id raises ValueError before
   * any change.
   */
  function SetRangeShifter(p: Plan, rs: Option<string>, corrected: bool): (r: Result<Plan>)
    ensures r.Failure? <==> rs.Some? && !KnownShifter(rs.value)
    ensures r.Failure? ==> r.error == UnknownRangeShifter
    ensures r.Success? ==> |r.value.beams| == |p.beams| && r.value.(beams := p.beams) == p
  {
    match rs
    case None =>
      Success(p.(beams := seq(|p.beams|, j requires 0 <= j < |p.beams| => RemoveShifter(p.beams[j]))))
    case Some(id) =>
      if !KnownShifter(id) then Failure(UnknownRangeShifter)
      else Success(p.(beams := seq(|p.beams|, j requires 0 <= j < |p.beams| => InstallShifter(p.beams[j], id, corrected))))
  }

  /**
   * A device is installed consistently: one shifter numbered 1 with the requested id in every
   * field, and every control point refers to shifter 1 with the device's thickness (as written,
   * 57.0 mm for RS_2CM and 22.8 mm otherwise; corrected, 1.14 times the nominal thickness);
   * nothing else of the control points changes, and installing the same device again changes
   * nothing.
   */
  lemma RangeShifterInstalled(p: Plan, id: string, corrected: bool)
    ensures SetRangeShifter(p, Some(id), corrected).Success? <==> KnownShifter(id)
    ensures !KnownShifter(id) ==> SetRangeShifter(p, Some(id), corrected) == Failure(UnknownRangeShifter)
    ensures KnownShifter(id) ==>
      var q := SetRangeShifter(p, Some(id), corrected).value;
      var wet := if corrected then NominalThickness(id) * 1.14 else if id == "RS_2CM" then 57.0 else 22.8;
      |q.beams| == |p.beams| && q.refBeams == p.refBeams &&
      (forall j :: 0 <= j < |q.beams| ==>
        q.beams[j].numberOfRangeShifters == 1 && q.beams[j].rangeShifter == Some(RangeShifter(1, id, "BINARY")) &&
        |q.beams[j].cps| == |p.beams[j].cps|) &&
      (forall j, k :: 0 <= j < |q.beams| && 0 <= k < |q.beams[j].cps| ==>
        q.beams[j].cps[k] == p.beams[j].cps[k].(rangeShifterSetting := Some(RangeShifterSetting("IN", 98.0, wet, 1)))) &&
      SetRangeShifter(q, Some(id), corrected) == Success(q)
  {
    if KnownShifter(id) {
      var q := SetRangeShifter(p, Some(id), corrected).value;
      var r := SetRangeShifter(q, Some(id), corrected).value;
      forall j | 0 <= j < |q.beams|
        ensures r.beams[j] == q.beams[j]
      {
        assert r.beams[j].cps == q.beams[j].cps;
      }
      assert r.beams == q.beams;
    }
  }

  /**
   * Removal deletes the device only where there is one, resets only those fields' shifter count,
   * and leaves every control point (with any setting that refers to the removed device) as it was.
   */
  lemma RangeShifterRemoved(p: Plan, corrected: bool)
    ensures SetRangeShifter(p, None, corrected).Success?
    ensures var q := SetRangeShifter(p, None, corrected).value;
      |q.beams| == |p.beams| && q.refBeams == p.refBeams &&
      forall j :: 0 <= j < |q.beams| ==>
        q.beams[j].rangeShifter == None && q.beams[j].cps == p.beams[j].cps &&
        q.beams[j].numberOfRangeShifters == (if p.beams[j].rangeShifter.Some? then 0 else p.beams[j].numberOfRangeShifters)
  {
  }

  /** Removing a device right after installing it leaves every control point referring to shifter 1. */
  lemma RemovalAfterInstallLeavesSettings(p: Plan, id: string, corrected: bool)
    requires KnownShifter(id)
    ensures var q := SetRangeShifter(SetRangeShifter(p, Some(id), corrected).value, None, corrected).value;
      |q.beams| == |p.beams| &&
      forall j, k :: 0 <= j < |q.beams| && 0 <= k < |q.beams[j].cps| ==>
        q.beams[j].rangeShifter == None && q.beams[j].numberOfRangeShifters == 0 &&
        q.beams[j].cps[k].rangeShifterSetting == Some(ShifterSetting(id, corrected)) && ShifterSetting(id, corrected).referencedNumber == 1
  {
    var i := SetRangeShifter(p, Some(id), corrected).value;
    var q := SetRangeShifter(i, None, corrected).value;
    forall j | 0 <= j < |q.beams|
      ensures q.beams[j].cps == i.beams[j].cps == InstallShifter(p.beams[j], id, corrected).cps
    {
    }
  }
}
