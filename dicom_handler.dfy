/**
 * `DicomFix` (dicomfix/dicom_handler.py) as a class holding the plan it was given and the copy
 * `copy` makes of it. Every method is proved against the function of the same operation in
 * HandlerOps: the new copy and the exception raised are those the function gives for the plan
 * and the old copy, and the plan itself never changes. The loops of the Python methods are
 * loops here.
 */
module DicomHandler {
  import opened Common
  import opened IonPlan
  import opened Rescale
  import opened RescaleModes
  import opened FieldOps
  import opened HandlerOps
  import DU = DicomUtilities

  // ---------------------------------------------------------------------------------------------
  // The loops of `copy`, on values
  // ---------------------------------------------------------------------------------------------

  /** The gantry-angle loop of `copy`: the old angle is read before the new one is looked up. */
  method GantryLoop(p: Plan, angles: seq<real>) returns (r: Edit)
    ensures r == CopyGantry(p, angles)
  {
    var d := p;
    for i := 0 to |p.beams|
      invariant d == p.(beams := d.beams) && |d.beams| == |p.beams|
      invariant i <= |angles|
      invariant forall j :: 0 <= j < i ==> |p.beams[j].cps| > 0
      invariant forall j :: 0 <= j < |p.beams| ==>
        d.beams[j] == if j < i then WithAngle(p.beams[j], angles[j]) else p.beams[j]
    {
      var ib := d.beams[i];
      if |ib.cps| == 0 {
        ReachIs(p.beams, i);
        assert d.beams == CopyGantry(p, angles).plan.beams;
        return Edit(d, Some(NoControlPoint));
      }
      if i >= |angles| {
        assert d.beams == CopyGantry(p, angles).plan.beams;
        return Edit(d, Some(GantryAngleIndex));
      }
      d := d.(beams := d.beams[i := ib.(cps := ib.cps[0 := ib.cps[0].(gantryAngle := angles[i])])]);
    }
    ReachIs(p.beams, |p.beams|);
    assert d.beams == CopyGantry(p, angles).plan.beams;
    r := Edit(d, None);
  }

  /** The duplication of `copy`: expand both lists, then rename and renumber item by item. */
  method DuplicateLoop(p: Plan, n: int) returns (r: Edit)
    ensures r == CopyDuplicate(p, n)
  {
    var c := Copies(n);
    var rbs := Expand(p.refBeams, c);
    var ibs := Expand(p.beams, c);
    var d := p.(numberOfBeams := |rbs|, beams := ibs, refBeams := rbs);
    if c == 0 {
      ExpandLength(p.beams, 0);
      ExpandLength(p.refBeams, 0);
      return Edit(d, None);
    }
    var i := 0;
    while i < |ibs|
      invariant i <= |ibs| && i <= |rbs|
      invariant d == p.(numberOfBeams := |rbs|, beams := CopyRelabelUpTo(ibs, i, c), refBeams := RenumberUpTo(rbs, i))
    {
      var ib := d.beams[i];
      var k := i % c;
      if k != 0 {
        ib := ib.(name := ib.name + "_copy_" + NatToString(k));
      }
      d := d.(beams := d.beams[i := ib.(number := i + 1)]);
      if i >= |d.refBeams| {
        assert d.beams == CopyRelabelUpTo(ibs, i + 1, c);
        assert RenumberUpTo(rbs, i) == RenumberUpTo(rbs, |ibs|);
        return Edit(d, Some(MissingReferencedBeam));
      }
      d := d.(refBeams := d.refBeams[i := d.refBeams[i].(number := i + 1)]);
      assert d.beams == CopyRelabelUpTo(ibs, i + 1, c);
      assert d.refBeams == RenumberUpTo(rbs, i + 1);
      i := i + 1;
    }
    r := Edit(d, None);
  }

  /** The treatment-machine loop of `copy`; the log line then reads the last field. */
  method MachineLoop(p: Plan, name: string) returns (r: Edit)
    ensures r == FieldOps.SetTreatmentMachine(p, name)
  {
    var d := p;
    for i := 0 to |p.beams|
      invariant d == p.(beams := d.beams) && |d.beams| == |p.beams|
      invariant forall j :: 0 <= j < |p.beams| ==> d.beams[j] == if j < i then p.beams[j].(machine := name) else p.beams[j]
    {
      d := d.(beams := d.beams[i := d.beams[i].(machine := name)]);
    }
    assert d.beams == FieldOps.SetTreatmentMachine(p, name).plan.beams;
    r := Edit(d, if |d.beams| == 0 then Some(NoFields) else None);
  }

  /** The TR4 preset of `copy`: approval, then machine, gantry angle and snout position of every field. */
  method WizardLoop(p: Plan) returns (r: Edit)
    ensures r == FieldOps.SetWizardTr4(p)
  {
    var d := p.(header := p.header.(approvalStatus := "APPROVED"));
    for i := 0 to |p.beams|
      invariant d == Approve(p).(beams := d.beams) && |d.beams| == |p.beams|
      invariant forall j :: 0 <= j < i ==> |p.beams[j].cps| > 0
      invariant forall j :: 0 <= j < |p.beams| ==> d.beams[j] == if j < i then Tr4Beam(p.beams[j]) else p.beams[j]
    {
      var ib := d.beams[i].(machine := "TR4");
      if |ib.cps| == 0 {
        d := d.(beams := d.beams[i := ib]);
        ReachIs(p.beams, i);
        assert d.beams == FieldOps.SetWizardTr4(p).plan.beams;
        return Edit(d, Some(NoControlPoint));
      }
      var cp := ib.cps[0].(gantryAngle := 90.0, snoutPosition := 421.0);
      d := d.(beams := d.beams[i := ib.(cps := ib.cps[0 := cp])]);
    }
    ReachIs(p.beams, |p.beams|);
    assert d.beams == FieldOps.SetWizardTr4(p).plan.beams;
    r := Edit(d, if |d.beams| == 0 then Some(NoFields) else None);
  }

  /** The table-position step of `copy`: `exit()` unless three values are given, then every field. */
  method TableLoop(p: Plan, t: seq<real>) returns (r: Edit)
    ensures r == CopyTable(p, t)
  {
    if |t| != 3 {
      return Edit(p, Some(ExitRequested));
    }
    var d := p;
    for i := 0 to |p.beams|
      invariant d == p.(beams := d.beams) && |d.beams| == |p.beams|
      invariant forall j :: 0 <= j < i ==> |p.beams[j].cps| > 0
      invariant forall j :: 0 <= j < |p.beams| ==> d.beams[j] == if j < i then WithTable(p.beams[j], t) else p.beams[j]
    {
      var ib := d.beams[i];
      if |ib.cps| == 0 {
        ReachIs(p.beams, i);
        assert d.beams == FieldOps.SetTablePosition(p, t).plan.beams;
        return Edit(d, Some(NoControlPoint));
      }
      var cp := ib.cps[0].(tableVertical := t[0], tableLongitudinal := t[1], tableLateral := t[2]);
      d := d.(beams := d.beams[i := ib.(cps := ib.cps[0 := cp])]);
    }
    ReachIs(p.beams, |p.beams|);
    assert d.beams == FieldOps.SetTablePosition(p, t).plan.beams;
    r := Edit(d, if |d.beams| == 0 then Some(NoFields) else None);
  }

  /** The plan-level assignments of `copy`, in their order. */
  method AttributeSteps(p: Plan, o: CopyOptions) returns (d: Plan)
    ensures d == CopyAttributes(p, o)
  {
    d := p;
    if o.approve {
      d := d.(header := d.header.(approvalStatus := "APPROVED"));
    }
    if o.intentCurative {
      d := d.(header := d.header.(planIntent := "CURATIVE"));
    }
    if o.date {
      d := d.(header := d.header.(planDate := o.clockDate));
      d := d.(header := d.header.(planTime := o.clockTime));
    }
    if |o.planLabel| > 0 {
      d := d.(header := d.header.(planLabel := o.planLabel));
    }
    if |o.patientName| > 0 {
      d := d.(header := d.header.(patientName := o.patientName));
    }
  }

  /** The edits of `copy` after the duplication, in their order. */
  method TailSteps(p: Plan, o: CopyOptions) returns (r: Edit)
    ensures r == CopyTail(p, o)
  {
    var d := p;
    if |o.treatmentMachine| > 0 {
      r := MachineLoop(p, o.treatmentMachine);
      if r.err.Some? {
        return;
      }
      d := r.plan;
    }
    d := AttributeSteps(d, o);
    r := Edit(d, None);
    if o.wizardTr4 {
      r := WizardLoop(d);
      if r.err.Some? {
        return;
      }
    }
    if |o.tablePosition| > 0 {
      r := TableLoop(r.plan, o.tablePosition);
    }
  }

  /** The first loop over the control points of a field of the copy, with the layer-weight list csv. */
  method WeighControlPoints(cps0: seq<ControlPoint>, csv: seq<real>, mpw: real) returns (w: Pass)
    ensures w == WeightPass(cps0, |cps0|, csv, mpw)
  {
    var cps := cps0;
    var cum := 0.0;
    for i := 0 to |cps0|
      invariant WeightPass(cps0, i, csv, mpw) == Pass(cps, cum, None)
    {
      assert WeightPass(cps0, i + 1, csv, mpw) == WeightPassThrough(cps0, i, csv, mpw);
      cps := cps[i := cps[i].(cumulativeWeight := cum)];
      var c := 1.0;
      if |csv| > 0 {
        if i / 2 >= |csv| {
          WeightPassAfterError(cps0, i + 1, |cps0|, csv, mpw);
          return Pass(cps, cum, Some(LayerFactorIndex));
        }
        c := csv[i / 2];
      }
      var nw, _ := DU.AdmitSpots(cps[i].weights, c, mpw);
      cps := cps[i := cps[i].(weights := nw)];
      cum := cum + Sum(nw);
    }
    w := Pass(cps, cum, None);
  }

  /** A rescale keeps every field's control point count, so every field keeps its first control point. */
  lemma SameShapeFirstControlPoints(p: Plan, q: Plan)
    requires FirstControlPoints(p) && SameShape(p, q)
    ensures FirstControlPoints(q)
  {
    forall j | 0 <= j < |q.beams|
      ensures |q.beams[j].cps| > 0
    {
      assert |q.beams[j].cps| == |p.beams[j].cps|;
    }
  }

  // ---------------------------------------------------------------------------------------------
  // The class
  // ---------------------------------------------------------------------------------------------

  class DicomFix {
    /** The plan read from the input file; no method changes it. */
    var dcm: Plan
    /** The copy `copy` makes and the other methods edit; None until the first `copy`. */
    var dcmNew: Option<Plan>
    /** The counter `save` reports; `rescale` counts its discards in a local of its own. */
    var pointsDiscarded: nat

    /** `__init__` on the plan the file holds (reading the file is not part of the model). */
    constructor (p: Plan)
      ensures dcm == p && dcmNew == None && pointsDiscarded == 0
    {
      dcm := p;
      dcmNew := None;
      pointsDiscarded := 0;
    }

    /**
     * `get_rescale_for_spot_minimization`: the factor that takes the lowest positive spot of the
     * copy to MuMin, with the final weights of the copy and the metersets of the plan.
     */
    method GetRescaleForSpotMinimization() returns (r: Result<real>)
      requires dcmNew.Some?
      ensures r == MinimizeFactor(dcmNew.value.(refBeams := dcm.refBeams))
    {
      var d := dcmNew.value;
      ghost var p := d.(refBeams := dcm.refBeams);
      var low := LowestStart;
      for j := 0 to |d.beams|
        invariant LowestSpot(p, j) == Success(low)
      {
        var b := d.beams[j];
        if j >= |dcm.refBeams| || b.finalWeight == 0.0 {
          DU.LowestSpotAfterError(p, j + 1, |p.beams|);
          return Failure(if j >= |dcm.refBeams| then MissingReferencedBeam else DivisionByZero);
        }
        var mpw := dcm.refBeams[j].meterset / b.finalWeight;
        low := DU.LowestOfField(b.cps, mpw, low);
      }
      if low == 0.0 {
        return Failure(DivisionByZero);
      }
      r := Success(MuMin / low);
    }

    /** The body of the field loop of `rescale`, for field j of the copy. */
    method RescaleField(j: nat, o: RescaleRequest) returns (err: Option<Error>)
      requires dcmNew.Some? && j < |dcmNew.value.beams|
      modifies this
      ensures dcm == old(dcm) && pointsDiscarded == old(pointsDiscarded) && dcmNew.Some?
      ensures Edit(dcmNew.value, err) == RescaleFieldCopy(dcm, old(dcmNew.value), j, o)
    {
      var cur := dcmNew.value;
      if j >= |dcm.refBeams| {
        return Some(MissingReferencedBeam);
      }
      var sf := if o.factor != 0.0 then o.factor else 1.0;
      if o.dose != 0.0 {
        if dcm.refBeams[j].dose == 0.0 {
          return Some(DivisionByZero);
        }
        sf := o.dose / dcm.refBeams[j].dose;
      }
      assert ScaleFactor(dcm, j, o) == Success(sf);
      var b := cur.beams[j];
      if |o.weights| > 0 && |o.weights| != b.numberOfControlPoints / 2 {
        return Some(LayerCountMismatch);
      }
      if b.finalWeight == 0.0 {
        return Some(DivisionByZero);
      }
      var mpw := NewMetersetPerWeight(dcm, cur, j, sf);
      assert RescaleFieldCopy(dcm, cur, j, o) == WeighFieldCopy(dcm, cur, j, o, sf);
      var w := WeighControlPoints(b.cps, o.weights, mpw);
      assert w == Weighed(dcm, cur, j, o, sf);
      if w.err.Some? || (|w.cps| > 0 && w.cum == 0.0) {
        dcmNew := Some(WithControlPoints(cur, j, w.cps));
        return if w.err.Some? then w.err else Some(DivisionByZero);
      }
      assert WeighFieldCopy(dcm, cur, j, o, sf) == FinishFieldCopy(dcm, cur, j, o, sf, w.cps, w.cum);
      err := FinishField(j, o, sf, w.cps, w.cum);
    }

    /** What follows the loops over field j: the coefficients, the minimisation and the write-back. */
    method FinishField(j: nat, o: RescaleRequest, sf: real, cps0: seq<ControlPoint>, total: real) returns (err: Option<Error>)
      requires dcmNew.Some? && j < |dcmNew.value.beams| && j < |dcm.refBeams| && |cps0| == |dcmNew.value.beams[j].cps|
      modifies this
      ensures dcm == old(dcm) && pointsDiscarded == old(pointsDiscarded) && dcmNew.Some?
      ensures Edit(dcmNew.value, err) == FinishFieldCopy(dcm, old(dcmNew.value), j, o, sf, cps0, total)
    {
      var cur := dcmNew.value;
      var cps := DU.SecondPass(cps0, total);
      dcmNew := Some(WithControlPoints(cur, j, cps));
      var s := 1.0;
      if o.minimize {
        var m := GetRescaleForSpotMinimization();
        if m.Failure? {
          return Some(m.error);
        }
        s := m.value;
      }
      var q := dcmNew.value;
      dcmNew := Some(q.(beams := q.beams[j := q.beams[j].(finalWeight := total)]));
      if j >= |cur.refBeams| {
        return Some(MissingReferencedBeam);
      }
      q := dcmNew.value;
      dcmNew := Some(q.(refBeams := q.refBeams[j := Retotalled(q.refBeams[j], dcm.refBeams[j], sf, s)]));
      err := None;
    }

    /** `rescale(...)` of the copy, field by field; the first exception ends it. */
    method Rescale(o: RescaleRequest) returns (err: Option<Error>)
      requires dcmNew.Some?
      modifies this
      ensures dcm == old(dcm) && pointsDiscarded == old(pointsDiscarded) && dcmNew.Some?
      ensures Edit(dcmNew.value, err) == RescaleCopy(dcm, old(dcmNew.value), o)
    {
      ghost var c0 := dcmNew.value;
      var n := |dcmNew.value.beams|;
      var j := 0;
      while j < n
        invariant dcmNew.Some? && j <= n == |dcmNew.value.beams|
        invariant dcm == old(dcm) && pointsDiscarded == old(pointsDiscarded)
        invariant RescaleFields(dcm, c0, j, o) == Edit(dcmNew.value, None)
      {
        err := RescaleField(j, o);
        if err.Some? {
          RescaleFieldsAfterError(dcm, c0, j + 1, n, o);
          return;
        }
        j := j + 1;
      }
      err := None;
    }

    /** `copy(...)`: a fresh copy of the plan, then the requested edits in their fixed order. */
    method Copy(o: CopyOptions) returns (err: Option<Error>)
      modifies this
      ensures dcm == old(dcm) && pointsDiscarded == old(pointsDiscarded) && dcmNew.Some?
      ensures Edit(dcmNew.value, err) == CopyPlan(dcm, o)
    {
      dcmNew := Some(dcm);
      if |o.gantryAngles| > 0 {
        var g := GantryLoop(dcm, o.gantryAngles);
        dcmNew := Some(g.plan);
        if g.err.Some? {
          return g.err;
        }
      }
      if RescaleFlag(o) {
        err := Rescale(Request(o));
        if err.Some? {
          return;
        }
      }
      var s := dcmNew.value;
      var d := Edit(s, None);
      if o.duplicateFields != 0 {
        d := DuplicateLoop(s, o.duplicateFields);
        dcmNew := Some(d.plan);
        if d.err.Some? {
          return d.err;
        }
      }
      var t := TailSteps(d.plan, o);
      dcmNew := Some(t.plan);
      err := t.err;
    }
  }
}
