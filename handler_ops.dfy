/**
 * The older copy-then-edit variant `DicomFix` (dicomfix/dicom_handler.py) as functions on plan
 * values. `copy` edits a copy of the plan it was given and never the plan itself; `rescale`
 * rescales that copy field by field, reading doses and metersets from the original; and
 * `get_rescale_for_spot_minimization` reads weights and final weights from the copy and
 * metersets from the original. As in FieldOps, each edit returns the plan as it stands when the
 * edit ends, together with the exception that ended it early, if any.
 */
module HandlerOps {
  import opened Common
  import opened IonPlan
  import opened Rescale
  import opened RescaleModes
  import opened FieldOps

  // ---------------------------------------------------------------------------------------------
  // rescale
  // ---------------------------------------------------------------------------------------------

  /** The arguments of `rescale`; 0.0 and [] stand for the arguments that are not given. */
  datatype RescaleRequest = RescaleRequest(factor: real, dose: real, weights: seq<real>, minimize: bool)

  /**
   * The scale factor of field j: the requested dose over the field's original dose in dose mode,
   * otherwise the requested factor, or 1.
   */
  function ScaleFactor(orig: Plan, j: nat, o: RescaleRequest): (r: Result<real>)
    requires j < |orig.refBeams|
    ensures o.dose != 0.0 ==> (r.Success? <==> orig.refBeams[j].dose != 0.0)
    ensures o.dose != 0.0 && r.Success? ==> orig.refBeams[j].dose * r.value == o.dose
    ensures r.Failure? ==> r.error == DivisionByZero
    ensures o.dose == 0.0 && o.factor != 0.0 ==> r == Success(o.factor)
    ensures o.dose == 0.0 && o.factor == 0.0 ==> r == Success(1.0)
  {
    if o.dose != 0.0 then
      if orig.refBeams[j].dose == 0.0 then Failure(DivisionByZero) else Success(o.dose / orig.refBeams[j].dose)
    else Success(if o.factor != 0.0 then o.factor else 1.0)
  }

  /**
   * The weight of control point i from the layer-weight list: entry i / 2, so the two control
   * points of a pair share one; None is the IndexError past the end of the list.
   */
  function CsvWeight(csv: seq<real>, i: nat): (r: Option<real>)
    ensures |csv| == 0 ==> r == Some(1.0)
    ensures |csv| > 0 ==> (r.Some? <==> i / 2 < |csv|)
    ensures |csv| > 0 && r.Some? ==> r.value == csv[i / 2]
  {
    if |csv| == 0 then Some(1.0) else if i / 2 < |csv| then Some(csv[i / 2]) else None
  }

  /** Both control points of a pair get the weight of the pair. */
  lemma CsvWeightPaired(csv: seq<real>, m: nat)
    ensures CsvWeight(csv, 2 * m) == CsvWeight(csv, 2 * m + 1)
    ensures |csv| > 0 && m < |csv| ==> CsvWeight(csv, 2 * m) == Some(csv[m])
  {
    DivModUnique(2 * m, 2, m, 0);
    DivModUnique(2 * m + 1, 2, m, 1);
  }

  /** State of the first loop over a field's control points. */
  datatype Pass = Pass(cps: seq<ControlPoint>, cum: real, err: Option<Error>)

  /** One step of the first loop, on control point i. */
  function PassStep(w: Pass, i: nat, csv: seq<real>, mpw: real): (r: Pass)
    requires i < |w.cps|
    ensures |r.cps| == |w.cps|
  {
    var cp := w.cps[i].(cumulativeWeight := w.cum);
    match CsvWeight(csv, i)
    case None => w.(cps := w.cps[i := cp], err := Some(LayerFactorIndex))
    case Some(c) =>
      var nw := AdmitAll(cp.weights, c, mpw);
      Pass(w.cps[i := cp.(weights := nw)], w.cum + Sum(nw), None)
  }

  /** The first loop over control points 0 .. n-1, stopping at the first exception. */
  function WeightPass(cps: seq<ControlPoint>, n: nat, csv: seq<real>, mpw: real): (r: Pass)
    requires n <= |cps|
    ensures |r.cps| == |cps|
    decreases n, 1
  {
    if n == 0 then Pass(cps, 0.0, None) else WeightPassThrough(cps, n - 1, csv, mpw)
  }

  /** The first loop over control points 0 .. i: control point i is visited unless an earlier one raised. */
  function WeightPassThrough(cps: seq<ControlPoint>, i: nat, csv: seq<real>, mpw: real): (r: Pass)
    requires i < |cps|
    ensures |r.cps| == |cps|
    decreases i + 1, 0
  {
    var w := WeightPass(cps, i, csv, mpw);
    if w.err.Some? then w else PassStep(w, i, csv, mpw)
  }

  /** What the first loop has done to control point i once it is behind the cursor. */
  predicate Weighted(orig: ControlPoint, cps: seq<ControlPoint>, i: nat, csv: seq<real>, mpw: real)
    requires i < |cps|
  {
    && CsvWeight(csv, i).Some?
    && cps[i] == orig.(cumulativeWeight := WeightTotal(cps[..i]),
                       weights := AdmitAll(orig.weights, CsvWeight(csv, i).value, mpw))
  }

  lemma WeightedFrame(orig: ControlPoint, a: seq<ControlPoint>, b: seq<ControlPoint>, i: nat, csv: seq<real>, mpw: real)
    requires i < |a| && i < |b| && a[..i + 1] == b[..i + 1]
    requires Weighted(orig, a, i, csv, mpw)
    ensures Weighted(orig, b, i, csv, mpw)
  {
    assert a[..i] == a[..i + 1][..i] == b[..i + 1][..i] == b[..i];
    assert a[i] == a[..i + 1][i] == b[..i + 1][i] == b[i];
  }

  /**
   * A first loop that raised nothing has written each control point's cumulative weight as the
   * sum of the new weights before it and multiplied its weights by the weight of its pair,
   * admitting them by the minimum-MU rule, and has left the later control points alone.
   */
  lemma {:induction false} WeightPassMeaning(cps: seq<ControlPoint>, n: nat, csv: seq<real>, mpw: real)
    requires n <= |cps|
    requires WeightPass(cps, n, csv, mpw).err.None?
    ensures var w := WeightPass(cps, n, csv, mpw);
      && (forall k :: n <= k < |cps| ==> w.cps[k] == cps[k])
      && w.cum == WeightTotal(w.cps[..n])
      && (forall i :: 0 <= i < n ==> Weighted(cps[i], w.cps, i, csv, mpw))
  {
    if n > 0 {
      var m := n - 1;
      var w := WeightPass(cps, m, csv, mpw);
      assert WeightPass(cps, n, csv, mpw) == WeightPassThrough(cps, m, csv, mpw);
      WeightPassMeaning(cps, m, csv, mpw);
      var r := PassStep(w, m, csv, mpw);
      assert r.cps[..m] == w.cps[..m];
      WeightTotalPrefixStep(r.cps, m);
      forall i | 0 <= i < m
        ensures Weighted(cps[i], r.cps, i, csv, mpw)
      {
        assert r.cps[..i + 1] == w.cps[..i + 1];
        WeightedFrame(cps[i], w.cps, r.cps, i, csv, mpw);
      }
    }
  }

  /**
   * The first loop raises exactly when it reaches a control point whose pair is past the end of
   * a non-empty weight list, that is control point 2·|csv|; an odd number of control points with
   * |csv| = n / 2 runs into it at the last one.
   */
  lemma {:induction false} WeightPassErrors(cps: seq<ControlPoint>, n: nat, csv: seq<real>, mpw: real)
    requires n <= |cps|
    ensures var w := WeightPass(cps, n, csv, mpw);
      && (w.err.Some? <==> |csv| > 0 && n > 2 * |csv|)
      && (w.err.Some? ==> w.err == Some(LayerFactorIndex))
  {
    if n > 0 {
      var m := n - 1;
      assert WeightPass(cps, n, csv, mpw) == WeightPassThrough(cps, m, csv, mpw);
      WeightPassErrors(cps, m, csv, mpw);
      if |csv| > 0 {
        assert m / 2 < |csv| <==> m < 2 * |csv|;
      }
    }
  }

  /** An exception ends the first loop: the later control points are not visited. */
  lemma {:induction false} WeightPassAfterError(cps: seq<ControlPoint>, i: nat, n: nat, csv: seq<real>, mpw: real)
    requires i <= n <= |cps|
    requires WeightPass(cps, i, csv, mpw).err.Some?
    ensures WeightPass(cps, n, csv, mpw) == WeightPass(cps, i, csv, mpw)
  {
    if n > i {
      WeightPassAfterError(cps, i, n - 1, csv, mpw);
      assert WeightPass(cps, n, csv, mpw) == WeightPassThrough(cps, n - 1, csv, mpw);
    }
  }

  /** The control points of field j after the first loop. */
  function Weighed(orig: Plan, cur: Plan, j: nat, o: RescaleRequest, sf: real): (w: Pass)
    requires j < |cur.beams| && j < |orig.refBeams|
    ensures |w.cps| == |cur.beams[j].cps|
  {
    WeightPass(cur.beams[j].cps, |cur.beams[j].cps|, o.weights, NewMetersetPerWeight(orig, cur, j, sf))
  }

  /** The original meterset of field j times sf, over the final weight of the field in the copy. */
  function NewMetersetPerWeight(orig: Plan, cur: Plan, j: nat, sf: real): (r: real)
    requires j < |cur.beams| && j < |orig.refBeams|
    ensures cur.beams[j].finalWeight != 0.0 ==> r * cur.beams[j].finalWeight == orig.refBeams[j].meterset * sf
  {
    if cur.beams[j].finalWeight == 0.0 then 0.0 else orig.refBeams[j].meterset * sf / cur.beams[j].finalWeight
  }

  /** The copy with field j's control points replaced. */
  function WithControlPoints(cur: Plan, j: nat, cps: seq<ControlPoint>): Plan
    requires j < |cur.beams|
  {
    cur.(beams := cur.beams[j := cur.beams[j].(cps := cps)])
  }

  /** The factor `get_rescale_for_spot_minimization` returns for the copy as it stands, or 1. */
  function FieldMinimize(orig: Plan, q: Plan, o: RescaleRequest): Result<real>
  {
    if o.minimize then MinimizeFactor(q.(refBeams := orig.refBeams)) else Success(1.0)
  }

  /** The body of the loop of `rescale` over the fields of the copy, for field j: the checks, in order. */
  function RescaleFieldCopy(orig: Plan, cur: Plan, j: nat, o: RescaleRequest): (r: Edit)
    requires j < |cur.beams|
    ensures SameShape(cur, r.plan) && |r.plan.refBeams| == |cur.refBeams|
  {
    if j >= |orig.refBeams| then Edit(cur, Some(MissingReferencedBeam))
    else match ScaleFactor(orig, j, o)
    case Failure(e) => Edit(cur, Some(e))
    case Success(sf) =>
      var b := cur.beams[j];
      if |o.weights| > 0 && |o.weights| != b.numberOfControlPoints / 2 then Edit(cur, Some(LayerCountMismatch))
      else if b.finalWeight == 0.0 then Edit(cur, Some(DivisionByZero))
      else WeighFieldCopy(orig, cur, j, o, sf)
  }

  /** The two loops over field j's control points, the first with the scale factor sf. */
  function WeighFieldCopy(orig: Plan, cur: Plan, j: nat, o: RescaleRequest, sf: real): (r: Edit)
    requires j < |cur.beams| && j < |orig.refBeams|
    ensures SameShape(cur, r.plan) && |r.plan.refBeams| == |cur.refBeams|
  {
    var w := Weighed(orig, cur, j, o, sf);
    if w.err.Some? then Edit(WithControlPoints(cur, j, w.cps), w.err)
    else if |w.cps| > 0 && w.cum == 0.0 then Edit(WithControlPoints(cur, j, w.cps), Some(DivisionByZero))
    else FinishFieldCopy(orig, cur, j, o, sf, w.cps, w.cum)
  }

  /**
   * After the loops: the minimisation factor of the copy as it then stands, and the write-back of
   * the total, the meterset and the dose.
   */
  function FinishFieldCopy(orig: Plan, cur: Plan, j: nat, o: RescaleRequest, sf: real, cps: seq<ControlPoint>, total: real): (r: Edit)
    requires j < |cur.beams| && j < |orig.refBeams| && |cps| == |cur.beams[j].cps|
    ensures SameShape(cur, r.plan) && |r.plan.refBeams| == |cur.refBeams|
  {
    var q := WithControlPoints(cur, j, Pass2(cps, total));
    match FieldMinimize(orig, q, o)
    case Failure(e) => Edit(q, Some(e))
    case Success(s) =>
      var done := q.(beams := q.beams[j := q.beams[j].(finalWeight := total)]);
      if j >= |cur.refBeams| then Edit(done, Some(MissingReferencedBeam))
      else
        Edit(done.(refBeams := cur.refBeams[j := Retotalled(cur.refBeams[j], orig.refBeams[j], sf, s)]), None)
  }

  /** A referenced beam of the copy with the meterset and the dose of the original times sf, then times s. */
  function Retotalled(ref: ReferencedBeam, orig: ReferencedBeam, sf: real, s: real): (r: ReferencedBeam)
    ensures r.number == ref.number && r.meterset == orig.meterset * sf * s && r.dose == orig.dose * sf * s
  {
    ref.(meterset := orig.meterset * sf * s, dose := orig.dose * sf * s)
  }

  /** The loop of `rescale` over the first n fields of the copy. */
  function RescaleFields(orig: Plan, cur: Plan, n: nat, o: RescaleRequest): (r: Edit)
    requires n <= |cur.beams|
    ensures SameShape(cur, r.plan) && |r.plan.refBeams| == |cur.refBeams|
  {
    if n == 0 then Edit(cur, None)
    else
      var r := RescaleFields(orig, cur, n - 1, o);
      if r.err.Some? then r else RescaleFieldCopy(orig, r.plan, n - 1, o)
  }

  /** `rescale(...)` of the copy `cur` of the plan `orig`. */
  function RescaleCopy(orig: Plan, cur: Plan, o: RescaleRequest): (r: Edit)
    ensures SameShape(cur, r.plan) && |r.plan.refBeams| == |cur.refBeams|
  {
    RescaleFields(orig, cur, |cur.beams|, o)
  }

  /** How field j of the copy and its referenced beam relate to the copy before, with factors sf and s. */
  predicate FieldCopyRescaled(orig: Plan, cur: Plan, j: nat, o: RescaleRequest, sf: real, s: real, nb: IonBeam, nref: ReferencedBeam)
    requires j < |cur.beams| && j < |cur.refBeams| && j < |orig.refBeams|
  {
    var ob := cur.beams[j];
    var mpw := NewMetersetPerWeight(orig, cur, j, sf);
    && nref == Retotalled(cur.refBeams[j], orig.refBeams[j], sf, s)
    && Bookkept(ob, nb)
    && (forall i :: 0 <= i < |ob.cps| ==>
          CsvWeight(o.weights, i).Some? &&
          nb.cps[i].weights == AdmitAll(ob.cps[i].weights, CsvWeight(o.weights, i).value, mpw))
  }

  /**
   * A field rescale of the copy that raised nothing found the referenced beams, a scale factor, a
   * matching layer-weight list and non-zero totals; it changed field j and its referenced beam
   * only, as FieldCopyRescaled says: prefix-before cumulative weights, coefficients over the new
   * total, weights times the weight of their pair and admitted with the meterset per weight of
   * the ORIGINAL meterset, and meterset and dose of the original times the factor.
   */
  lemma RescaleFieldCopyMeaning(orig: Plan, cur: Plan, j: nat, o: RescaleRequest)
    requires j < |cur.beams|
    requires RescaleFieldCopy(orig, cur, j, o).err.None?
    ensures var r := RescaleFieldCopy(orig, cur, j, o);
      var ob := cur.beams[j];
      && j < |orig.refBeams| && j < |cur.refBeams| && ScaleFactor(orig, j, o).Success? && ob.finalWeight != 0.0
      && (|o.weights| > 0 ==> |o.weights| == ob.numberOfControlPoints / 2)
      && (|ob.cps| > 0 ==> WeightTotal(r.plan.beams[j].cps) != 0.0)
      && r.plan == cur.(beams := cur.beams[j := r.plan.beams[j]], refBeams := cur.refBeams[j := r.plan.refBeams[j]])
      && var sf := ScaleFactor(orig, j, o).value;
         var m := FieldMinimize(orig, WithControlPoints(cur, j, r.plan.beams[j].cps), o);
         && m.Success?
         && FieldCopyRescaled(orig, cur, j, o, sf, m.value, r.plan.beams[j], r.plan.refBeams[j])
  {
    var r := RescaleFieldCopy(orig, cur, j, o);
    var ob := cur.beams[j];
    assert j < |orig.refBeams|;
    var sf := ScaleFactor(orig, j, o).value;
    assert ob.finalWeight != 0.0;
    assert r == WeighFieldCopy(orig, cur, j, o, sf);
    var w := Weighed(orig, cur, j, o, sf);
    assert w.err.None? && !(|w.cps| > 0 && w.cum == 0.0);
    assert r == FinishFieldCopy(orig, cur, j, o, sf, w.cps, w.cum);
    WeighedBookkept(orig, cur, j, o, sf);
    FinishFieldCopyShape(orig, cur, j, o, sf, w.cps, w.cum);
  }

  /** The write-back after the loops, when it raises nothing. */
  lemma FinishFieldCopyShape(orig: Plan, cur: Plan, j: nat, o: RescaleRequest, sf: real, ncps: seq<ControlPoint>, total: real)
    requires j < |cur.beams| && j < |orig.refBeams| && |ncps| == |cur.beams[j].cps|
    requires FinishFieldCopy(orig, cur, j, o, sf, ncps, total).err.None?
    ensures FieldMinimize(orig, WithControlPoints(cur, j, Pass2(ncps, total)), o).Success? && j < |cur.refBeams|
    ensures var r := FinishFieldCopy(orig, cur, j, o, sf, ncps, total);
      r.plan == cur.(beams := r.plan.beams, refBeams := r.plan.refBeams)
    ensures var r := FinishFieldCopy(orig, cur, j, o, sf, ncps, total);
      r.plan.beams == cur.beams[j := cur.beams[j].(cps := Pass2(ncps, total), finalWeight := total)]
    ensures FinishFieldCopy(orig, cur, j, o, sf, ncps, total).plan.refBeams ==
      cur.refBeams[j := Retotalled(cur.refBeams[j], orig.refBeams[j],
                                   sf, FieldMinimize(orig, WithControlPoints(cur, j, Pass2(ncps, total)), o).value)]
  {
    var q := WithControlPoints(cur, j, Pass2(ncps, total));
    var nb := cur.beams[j].(cps := Pass2(ncps, total), finalWeight := total);
    assert q.beams[j := nb] == cur.beams[j := nb];
  }

  /** The two loops over a field, when they raise nothing, as the bookkeeping and the admitted weights. */
  lemma WeighedBookkept(orig: Plan, cur: Plan, j: nat, o: RescaleRequest, sf: real)
    requires j < |cur.beams| && j < |orig.refBeams| && cur.beams[j].finalWeight != 0.0
    requires Weighed(orig, cur, j, o, sf).err.None?
    ensures var ob := cur.beams[j];
      var w := Weighed(orig, cur, j, o, sf);
      var nb := ob.(cps := Pass2(w.cps, w.cum), finalWeight := w.cum);
      var mpw := NewMetersetPerWeight(orig, cur, j, sf);
      && Bookkept(ob, nb)
      && (|ob.cps| > 0 ==> WeightTotal(nb.cps) == w.cum)
      && (forall i :: 0 <= i < |ob.cps| ==>
            CsvWeight(o.weights, i).Some? &&
            nb.cps[i].weights == AdmitAll(ob.cps[i].weights, CsvWeight(o.weights, i).value, mpw))
  {
    var ob := cur.beams[j];
    var mpw := NewMetersetPerWeight(orig, cur, j, sf);
    PassesBookkept(ob.cps, o.weights, mpw);
  }

  /** The two loops over the control points of a field, when they raise nothing. */
  lemma PassesBookkept(ocps: seq<ControlPoint>, csv: seq<real>, mpw: real)
    requires WeightPass(ocps, |ocps|, csv, mpw).err.None?
    ensures var w := WeightPass(ocps, |ocps|, csv, mpw);
      var cps2 := Pass2(w.cps, w.cum);
      && |cps2| == |ocps| && (|ocps| > 0 ==> WeightTotal(cps2) == w.cum)
      && (forall i :: 0 <= i < |ocps| ==> BookkeptAt(ocps, cps2, i))
      && (forall i :: 0 <= i < |ocps| ==>
            CsvWeight(csv, i).Some? && cps2[i].weights == AdmitAll(ocps[i].weights, CsvWeight(csv, i).value, mpw))
  {
    var w := WeightPass(ocps, |ocps|, csv, mpw);
    WeightPassMeaning(ocps, |ocps|, csv, mpw);
    var cps2 := Pass2(w.cps, w.cum);
    Pass2Totals(w.cps, w.cum);
    assert w.cps[..|ocps|] == w.cps && cps2[..|cps2|] == cps2;
    assert WeightTotal(cps2) == w.cum;
    forall i | 0 <= i < |ocps|
      ensures BookkeptAt(ocps, cps2, i)
      ensures CsvWeight(csv, i).Some? && cps2[i].weights == AdmitAll(ocps[i].weights, CsvWeight(csv, i).value, mpw)
    {
      assert Weighted(ocps[i], w.cps, i, csv, mpw);
      assert WeightTotal(cps2[..i]) == WeightTotal(w.cps[..i]);
    }
  }

  /** The second loop changes no weights, so every running total stays. */
  lemma Pass2Totals(cps: seq<ControlPoint>, total: real)
    ensures forall i :: 0 <= i <= |cps| ==> WeightTotal(Pass2(cps, total)[..i]) == WeightTotal(cps[..i])
  {
    var c2 := Pass2(cps, total);
    forall i | 0 <= i <= |cps|
      ensures WeightTotal(c2[..i]) == WeightTotal(cps[..i])
    {
      assert forall k :: 0 <= k < i ==> c2[..i][k].weights == cps[..i][k].weights;
      WeightTotalSameWeights(c2[..i], cps[..i]);
    }
  }

  /** The frame of a field rescale, whatever its outcome: the other fields and referenced beams stay. */
  lemma RescaleFieldCopyFrame(orig: Plan, cur: Plan, j: nat, o: RescaleRequest)
    requires j < |cur.beams|
    ensures var r := RescaleFieldCopy(orig, cur, j, o);
      && r.plan == cur.(beams := r.plan.beams, refBeams := r.plan.refBeams)
      && (forall k :: 0 <= k < |cur.beams| && k != j ==> r.plan.beams[k] == cur.beams[k])
      && (forall k :: 0 <= k < |cur.refBeams| && k != j ==> r.plan.refBeams[k] == cur.refBeams[k])
  {
  }

  /**
   * Without minimisation a field rescale depends on the copy only through field j and its
   * referenced beam: two copies that agree there get the same outcome there.
   */
  lemma RescaleFieldCopyLocal(orig: Plan, a: Plan, b: Plan, j: nat, o: RescaleRequest)
    requires !o.minimize && j < |a.beams| && j < |b.beams| && a.beams[j] == b.beams[j]
    requires j < |a.refBeams| && j < |b.refBeams| && a.refBeams[j] == b.refBeams[j]
    ensures var ra := RescaleFieldCopy(orig, a, j, o);
      var rb := RescaleFieldCopy(orig, b, j, o);
      ra.err == rb.err && ra.plan.beams[j] == rb.plan.beams[j] && ra.plan.refBeams[j] == rb.plan.refBeams[j]
  {
  }

  /** An exception ends the loop over the fields: the later fields are not rescaled. */
  lemma {:induction false} RescaleFieldsAfterError(orig: Plan, cur: Plan, i: nat, n: nat, o: RescaleRequest)
    requires i <= n <= |cur.beams|
    requires RescaleFields(orig, cur, i, o).err.Some?
    ensures RescaleFields(orig, cur, n, o) == RescaleFields(orig, cur, i, o)
  {
    if n > i {
      RescaleFieldsAfterError(orig, cur, i, n - 1, o);
    }
  }

  /** The loop over the fields leaves the fields from n on alone, and the plan-level attributes. */
  lemma {:induction false} RescaleFieldsFrame(orig: Plan, cur: Plan, n: nat, o: RescaleRequest)
    requires n <= |cur.beams|
    ensures var r := RescaleFields(orig, cur, n, o);
      && r.plan == cur.(beams := r.plan.beams, refBeams := r.plan.refBeams)
      && (forall k :: n <= k < |cur.beams| ==> r.plan.beams[k] == cur.beams[k])
      && (forall k :: n <= k < |cur.refBeams| ==> r.plan.refBeams[k] == cur.refBeams[k])
  {
    if n > 0 {
      var r := RescaleFields(orig, cur, n - 1, o);
      RescaleFieldsFrame(orig, cur, n - 1, o);
      if r.err.None? {
        RescaleFieldCopyFrame(orig, r.plan, n - 1, o);
        assert RescaleFields(orig, cur, n, o) == RescaleFieldCopy(orig, r.plan, n - 1, o);
      } else {
        assert RescaleFields(orig, cur, n, o) == r;
      }
    }
  }

  /**
   * Without minimisation, field j of a loop over the first n fields that raised nothing is field
   * j rescaled on its own from the copy as it was.
   */
  lemma {:induction false} RescaleFieldsAt(orig: Plan, cur: Plan, n: nat, j: nat, o: RescaleRequest)
    requires !o.minimize && j < n <= |cur.beams| && n <= |cur.refBeams|
    requires RescaleFields(orig, cur, n, o).err.None?
    ensures var r := RescaleFields(orig, cur, n, o);
      var f := RescaleFieldCopy(orig, cur, j, o);
      f.err.None? && r.plan.beams[j] == f.plan.beams[j] && r.plan.refBeams[j] == f.plan.refBeams[j]
  {
    var m := n - 1;
    if j < m {
      var r := RescaleFields(orig, cur, m, o);
      assert r.err.None? && RescaleFields(orig, cur, n, o) == RescaleFieldCopy(orig, r.plan, m, o);
      RescaleFieldCopyFrame(orig, r.plan, m, o);
      RescaleFieldsAt(orig, cur, m, j, o);
    } else {
      RescaleFieldsLast(orig, cur, m, o);
    }
  }

  /** The last field of the loop is rescaled as if on its own. */
  lemma RescaleFieldsLast(orig: Plan, cur: Plan, m: nat, o: RescaleRequest)
    requires !o.minimize && m < |cur.beams| && m < |cur.refBeams|
    requires RescaleFields(orig, cur, m + 1, o).err.None?
    ensures var r := RescaleFields(orig, cur, m + 1, o);
      var f := RescaleFieldCopy(orig, cur, m, o);
      f.err.None? && r.plan.beams[m] == f.plan.beams[m] && r.plan.refBeams[m] == f.plan.refBeams[m]
  {
    var r := RescaleFields(orig, cur, m, o);
    assert r.err.None? && RescaleFields(orig, cur, m + 1, o) == RescaleFieldCopy(orig, r.plan, m, o);
    RescaleFieldsFrame(orig, cur, m, o);
    RescaleFieldCopyLocal(orig, r.plan, cur, m, o);
  }

  /** In dose mode without minimisation, a field rescale brings the field's dose to the requested dose. */
  lemma DoseModeHitsTarget(orig: Plan, cur: Plan, j: nat, o: RescaleRequest)
    requires j < |cur.beams| && o.dose != 0.0 && !o.minimize
    requires RescaleFieldCopy(orig, cur, j, o).err.None?
    ensures j < |orig.refBeams| && orig.refBeams[j].dose != 0.0
    ensures var r := RescaleFieldCopy(orig, cur, j, o).plan;
      j < |r.refBeams| && r.refBeams[j].dose == o.dose &&
      r.refBeams[j].meterset == orig.refBeams[j].meterset * (o.dose / orig.refBeams[j].dose)
  {
    RescaleFieldCopyMeaning(orig, cur, j, o);
  }

  /**
   * Dose mode over the whole copy: every field ends at the requested dose, each field scaled by
   * the requested dose over its own original dose.
   */
  lemma DoseModeEveryField(orig: Plan, cur: Plan, o: RescaleRequest)
    requires o.dose != 0.0 && !o.minimize && |cur.beams| <= |cur.refBeams|
    requires RescaleCopy(orig, cur, o).err.None?
    ensures var r := RescaleCopy(orig, cur, o).plan;
      forall j :: 0 <= j < |cur.beams| ==>
        j < |orig.refBeams| && orig.refBeams[j].dose != 0.0 && r.refBeams[j].dose == o.dose &&
        r.refBeams[j].meterset == orig.refBeams[j].meterset * (o.dose / orig.refBeams[j].dose)
  {
    var r := RescaleCopy(orig, cur, o).plan;
    forall j | 0 <= j < |cur.beams|
      ensures j < |orig.refBeams| && orig.refBeams[j].dose != 0.0 && r.refBeams[j].dose == o.dose
      ensures r.refBeams[j].meterset == orig.refBeams[j].meterset * (o.dose / orig.refBeams[j].dose)
    {
      RescaleFieldsAt(orig, cur, |cur.beams|, j, o);
      DoseModeHitsTarget(orig, cur, j, o);
    }
  }

  /**
   * Factor mode: a field rescale multiplies the ORIGINAL meterset and dose by the factor (or by 1
   * without one), times the minimisation factor, whatever the layer weights and the discards.
   */
  lemma FactorModeScales(orig: Plan, cur: Plan, j: nat, o: RescaleRequest)
    requires j < |cur.beams| && o.dose == 0.0
    requires RescaleFieldCopy(orig, cur, j, o).err.None?
    ensures var r := RescaleFieldCopy(orig, cur, j, o).plan;
      var f := if o.factor != 0.0 then o.factor else 1.0;
      var s := FieldMinimize(orig, WithControlPoints(cur, j, r.beams[j].cps), o);
      j < |orig.refBeams| && j < |r.refBeams| && s.Success? &&
      r.refBeams[j].dose == orig.refBeams[j].dose * f * s.value &&
      r.refBeams[j].meterset == orig.refBeams[j].meterset * f * s.value
  {
    assert j < |orig.refBeams| && ScaleFactor(orig, j, o).Success?;
    var sf := ScaleFactor(orig, j, o).value;
    assert sf == if o.factor != 0.0 then o.factor else 1.0;
    assert RescaleFieldCopy(orig, cur, j, o) == WeighFieldCopy(orig, cur, j, o, sf);
    var w := Weighed(orig, cur, j, o, sf);
    assert WeighFieldCopy(orig, cur, j, o, sf) == FinishFieldCopy(orig, cur, j, o, sf, w.cps, w.cum);
    FinishFieldCopyShape(orig, cur, j, o, sf, w.cps, w.cum);
  }

  /**
   * Minimisation scales the totals only: with it, field j's meterset and dose are those without
   * it times the minimisation factor, and the field itself, its weights included, is the same.
   */
  lemma MinimizeScalesTotalsOnly(orig: Plan, cur: Plan, j: nat, o: RescaleRequest)
    requires j < |cur.beams| && o.minimize
    requires RescaleFieldCopy(orig, cur, j, o).err.None?
    ensures var r := RescaleFieldCopy(orig, cur, j, o).plan;
      var u := RescaleFieldCopy(orig, cur, j, o.(minimize := false));
      var s := FieldMinimize(orig, WithControlPoints(cur, j, r.beams[j].cps), o);
      u.err.None? && s.Success? && j < |r.refBeams| &&
      r.beams == u.plan.beams &&
      r.refBeams[j].meterset == u.plan.refBeams[j].meterset * s.value &&
      r.refBeams[j].dose == u.plan.refBeams[j].dose * s.value
  {
    var o' := o.(minimize := false);
    assert j < |orig.refBeams| && ScaleFactor(orig, j, o).Success?;
    assert ScaleFactor(orig, j, o') == ScaleFactor(orig, j, o);
    var sf := ScaleFactor(orig, j, o).value;
    assert RescaleFieldCopy(orig, cur, j, o) == WeighFieldCopy(orig, cur, j, o, sf);
    assert RescaleFieldCopy(orig, cur, j, o') == WeighFieldCopy(orig, cur, j, o', sf);
    var w := Weighed(orig, cur, j, o, sf);
    assert Weighed(orig, cur, j, o', sf) == w;
    assert WeighFieldCopy(orig, cur, j, o, sf) == FinishFieldCopy(orig, cur, j, o, sf, w.cps, w.cum);
    assert WeighFieldCopy(orig, cur, j, o', sf) == FinishFieldCopy(orig, cur, j, o', sf, w.cps, w.cum);
    FinishFieldCopyShape(orig, cur, j, o, sf, w.cps, w.cum);
    FinishFieldCopyShape(orig, cur, j, o', sf, w.cps, w.cum);
  }

  // ---------------------------------------------------------------------------------------------
  // copy: gantry angles, duplication, table position, and the order of the edits
  // ---------------------------------------------------------------------------------------------

  /**
   * The gantry angles of `copy`: a count that differs from the number of fields is only logged;
   * the loop then sets field i to angle i. It runs into an IndexError at the first field without
   * control points (read first) or, when there are fewer angles than fields, at the first field
   * without an angle, after the fields before were set.
   */
  function CopyGantry(p: Plan, angles: seq<real>): (r: Edit)
  {
    var reach := Reach(p.beams);
    var m := if |angles| < reach then |angles| else reach;
    Edit(p.(beams := seq(|p.beams|, j requires 0 <= j < |p.beams| =>
                           if j < m then WithAngle(p.beams[j], angles[j]) else p.beams[j])),
         if m == |p.beams| then None else if m == reach then Some(NoControlPoint) else Some(GantryAngleIndex))
  }

  /**
   * With one angle per field the gantry edit of `copy` is `set_gantry_angles`; with more angles
   * the extra ones are ignored; with fewer it raises IndexError having set the first |angles|,
   * unless a field without control points comes first and raises it.
   */
  lemma CopyGantryOutcome(p: Plan, angles: seq<real>)
    ensures var r := CopyGantry(p, angles);
      && (r.err.None? <==> |angles| >= |p.beams| && FirstControlPoints(p))
      && (r.err.Some? ==> r.err == Some(if Reach(p.beams) <= |angles| then NoControlPoint else GantryAngleIndex))
      && SameShape(p, r.plan) && (FirstControlPoints(p) ==> FirstControlPoints(r.plan))
      && r.plan == p.(beams := r.plan.beams)
      && (forall j :: 0 <= j < |p.beams| ==>
            r.plan.beams[j] == if j < |angles| && j < Reach(p.beams) then WithAngle(p.beams[j], angles[j]) else p.beams[j])
      && (r.err.None? ==> GantryAngles(r.plan) == angles[..|p.beams|])
      && (|angles| == |p.beams| ==> FieldOps.SetGantryAngles(p, angles) == r)
  {
    ReachAll(p);
    var r := CopyGantry(p, angles);
    assert SameShape(p, r.plan);
    if |angles| == |p.beams| {
      var g := FieldOps.SetGantryAngles(p, angles).plan;
      assert forall j :: 0 <= j < |p.beams| ==> r.plan.beams[j] == g.beams[j];
      assert r.plan.beams == g.beams;
    }
  }

  /** The name of item i of the expanded list: `_copy_<i % n>` for every copy but the first. */
  function CopySuffix(name: string, k: nat): (r: string)
    ensures |r| >= |name| && r[..|name|] == name
    ensures k == 0 <==> r == name
  {
    if k == 0 then name else name + "_copy_" + NatToString(k)
  }

  /** The loop body of the duplication in `copy`, for item i of the expanded beam list. */
  function CopyRelabel(b: IonBeam, i: nat, n: nat): IonBeam
    requires n > 0
  {
    b.(name := CopySuffix(b.name, i % n), number := i + 1)
  }

  function CopyRelabelUpTo(ibs: seq<IonBeam>, stop: nat, c: nat): (r: seq<IonBeam>)
    requires c > 0
    ensures |r| == |ibs|
    ensures forall i :: 0 <= i < |ibs| ==> r[i] == if i < stop then CopyRelabel(ibs[i], i, c) else ibs[i]
  {
    seq(|ibs|, i requires 0 <= i < |ibs| => if i < stop then CopyRelabel(ibs[i], i, c) else ibs[i])
  }

  /**
   * The duplication in `copy`: n consecutive copies of every field and referenced beam, the
   * copies renamed and renumbered; IndexError when a beam has no referenced beam.
   */
  function CopyDuplicate(p: Plan, n: int): (r: Edit)
    ensures |r.plan.beams| == |p.beams| * Copies(n) && |r.plan.refBeams| == |p.refBeams| * Copies(n)
    ensures r.plan.header == p.header && r.plan.numberOfBeams == |r.plan.refBeams|
    ensures r.err.Some? ==> r.err == Some(MissingReferencedBeam)
  {
    var c := Copies(n);
    if c == 0 then
      Edit(p.(numberOfBeams := 0, beams := [], refBeams := []), None)
    else
      var ibs := Expand(p.beams, c);
      var rbs := Expand(p.refBeams, c);
      ExpandLength(p.beams, c);
      ExpandLength(p.refBeams, c);
      Edit(p.(numberOfBeams := |rbs|,
              beams := CopyRelabelUpTo(ibs, Relabelled(|ibs|, |rbs|), c),
              refBeams := RenumberUpTo(rbs, |ibs|)),
           if |ibs| <= |rbs| then None else Some(MissingReferencedBeam))
  }

  /**
   * When every field has its referenced beam: NumberOfBeams becomes nf·n, copy k of field j sits
   * at j·n + k with the number j·n + k + 1, keeps the name for k = 0 and gets `_copy_k`
   * otherwise, and its referenced beam carries the same number.
   */
  lemma CopyDuplicateLayout(p: Plan, n: int, j: nat, k: nat)
    requires Paired(p) && n > 0 && j < |p.beams| && k < n
    ensures var r := CopyDuplicate(p, n);
      r.err == None && |r.plan.beams| == |p.beams| * n && r.plan.numberOfBeams == |p.refBeams| * n &&
      j * n + k < |p.beams| * n && j * n + k < |r.plan.refBeams| &&
      r.plan.beams[j * n + k] == p.beams[j].(name := CopySuffix(p.beams[j].name, k), number := j * n + k + 1) &&
      r.plan.refBeams[j * n + k] == p.refBeams[j].(number := j * n + k + 1)
  {
    var i := j * n + k;
    IndexInBlock(j, k, n, |p.beams|);
    MulMonotone(|p.beams|, |p.refBeams|, n);
    ExpandAt(p.beams, n, i);
    ExpandAt(p.refBeams, n, i);
    ExpandLength(p.beams, n);
    ExpandLength(p.refBeams, n);
  }

  /**
   * The two duplications differ in their names: the first copy of a field keeps its name here,
   * while `duplicate_fields` of DicomUtil appends " (1/n)" to it.
   */
  lemma DuplicateNamingDiffers(p: Plan, n: int, j: nat)
    requires Paired(p) && n > 0 && j < |p.beams|
    ensures j * n < |CopyDuplicate(p, n).plan.beams| && j * n < |Duplicate(p, n).plan.beams|
    ensures CopyDuplicate(p, n).plan.beams[j * n].name == p.beams[j].name
    ensures Duplicate(p, n).plan.beams[j * n].name != p.beams[j].name
  {
    CopyDuplicateLayout(p, n, j, 0);
    DuplicateLayout(p, n, j, 0);
  }

  /** Duplication keeps every field's first control point. */
  lemma CopyDuplicateKeepsFirstControlPoints(p: Plan, n: int)
    requires FirstControlPoints(p)
    ensures FirstControlPoints(CopyDuplicate(p, n).plan)
  {
    if n > 0 {
      ExpandKeepsControlPoints(p.beams, n);
    }
  }

  /** The table position of `copy`: three values, or `exit()`. */
  function CopyTable(p: Plan, t: seq<real>): (r: Edit)
    ensures |t| != 3 ==> r == Edit(p, Some(ExitRequested))
    ensures |t| == 3 ==> r == FieldOps.SetTablePosition(p, t)
  {
    if |t| != 3 then Edit(p, Some(ExitRequested)) else FieldOps.SetTablePosition(p, t)
  }

  /** The arguments of `copy`; false, 0, 0.0, "" and [] stand for the arguments that are not given. */
  datatype CopyOptions = CopyOptions(
    weights: seq<real>,
    approve: bool,
    intentCurative: bool,
    date: bool,
    clockDate: string,            // the clock's reading, formatted as RTPlanDate
    clockTime: string,            // and as RTPlanTime
    gantryAngles: seq<real>,
    duplicateFields: int,
    rescaleDose: real,
    rescaleFactor: real,
    tablePosition: seq<real>,
    treatmentMachine: string,
    planLabel: string,
    patientName: string,
    reviewerName: string,
    wizardTr4: bool,
    rescaleMinimize: bool)

  /** No argument given. */
  const NoOptions := CopyOptions([], false, false, false, "", "", [], 0, 0.0, 0.0, [], "", "", "", "", false, false)

  /** `rescale` runs only when layer weights, a dose or a factor is given. */
  predicate RescaleFlag(o: CopyOptions)
  {
    |o.weights| > 0 || o.rescaleDose != 0.0 || o.rescaleFactor != 0.0
  }

  function Request(o: CopyOptions): RescaleRequest
  {
    RescaleRequest(o.rescaleFactor, o.rescaleDose, o.weights, o.rescaleMinimize)
  }

  /**
   * The edits of `copy` after the duplication, in order: treatment machine, approval, intent,
   * date, label, patient name, the reviewer name (written to an attribute outside the model),
   * the TR4 preset and the table position.
   */
  function CopyTail(p: Plan, o: CopyOptions): (r: Edit)
    ensures |r.plan.beams| == |p.beams|
  {
    var m := if |o.treatmentMachine| > 0 then FieldOps.SetTreatmentMachine(p, o.treatmentMachine) else Edit(p, None);
    if m.err.Some? then m
    else
      var n := CopyAttributes(m.plan, o);
      var w := if o.wizardTr4 then FieldOps.SetWizardTr4(n) else Edit(n, None);
      if w.err.Some? then w
      else if |o.tablePosition| > 0 then CopyTable(w.plan, o.tablePosition)
      else w
  }

  /** The plan-level edits of `copy`: approval, intent, date, label and patient name. */
  function CopyAttributes(p: Plan, o: CopyOptions): (r: Plan)
    ensures r == p.(header := r.header)
  {
    var a := if o.approve then Approve(p) else p;
    var i := if o.intentCurative then SetAttr(a, PlanIntent, "CURATIVE") else a;
    var d := if o.date then Stamp(i, o.clockDate, o.clockTime) else i;
    var l := if |o.planLabel| > 0 then SetAttr(d, PlanLabel, o.planLabel) else d;
    if |o.patientName| > 0 then SetAttr(l, PatientName, o.patientName) else l
  }

  /**
   * `copy(...)` of the plan p: the gantry angles, the rescale (before the duplication, which it
   * needs the fields of the original for), the duplication and the remaining edits.
   */
  function CopyPlan(p: Plan, o: CopyOptions): (r: Edit)
    ensures r.err.None? ==> |r.plan.beams| == |p.beams| * (if o.duplicateFields != 0 then Copies(o.duplicateFields) else 1)
  {
    var g := if |o.gantryAngles| > 0 then CopyGantry(p, o.gantryAngles) else Edit(p, None);
    if g.err.Some? then g
    else
      var s := if RescaleFlag(o) then RescaleCopy(p, g.plan, Request(o)) else g;
      if s.err.Some? then s
      else
        var d := if o.duplicateFields != 0 then CopyDuplicate(s.plan, o.duplicateFields) else s;
        if d.err.Some? then d else CopyTail(d.plan, o)
  }

  /** None of the edits after the duplication is asked for. */
  predicate TailQuiet(o: CopyOptions)
  {
    && |o.treatmentMachine| == 0 && !o.approve && !o.intentCurative && !o.date
    && |o.planLabel| == 0 && |o.patientName| == 0 && !o.wizardTr4 && |o.tablePosition| == 0
  }

  /** The edits after the duplication change nothing when none of them is asked for. */
  lemma CopyTailQuiet(p: Plan, o: CopyOptions)
    requires TailQuiet(o)
    ensures CopyTail(p, o) == Edit(p, None)
  {
  }

  /** `rescale_minimize` on its own does nothing: `rescale` is not even called. */
  lemma MinimizeAloneDoesNothing(p: Plan, o: CopyOptions)
    requires o.(rescaleMinimize := false, clockDate := "", clockTime := "", reviewerName := "") == NoOptions
    ensures CopyPlan(p, o) == Edit(p, None)
  {
    CopyTailQuiet(p, o);
  }

  /**
   * Rescale and duplication together, and nothing else: `copy` rescales the plan first and then
   * duplicates the rescaled fields.
   */
  lemma RescaleThenDuplicate(p: Plan, o: CopyOptions)
    requires RescaleFlag(o) && |o.gantryAngles| == 0 && TailQuiet(o) && o.duplicateFields != 0
    ensures var q := RescaleCopy(p, p, Request(o));
      CopyPlan(p, o) == if q.err.Some? then q else CopyDuplicate(q.plan, o.duplicateFields)
  {
    var q := RescaleCopy(p, p, Request(o));
    if q.err.None? {
      CopyTailQuiet(CopyDuplicate(q.plan, o.duplicateFields).plan, o);
    }
  }

  /** So every copy of field j carries field j's rescaled control points, meterset and dose. */
  lemma RescaledBeforeDuplicated(p: Plan, o: CopyOptions, j: nat, k: nat)
    requires Paired(p) && RescaleFlag(o) && |o.gantryAngles| == 0 && TailQuiet(o)
    requires o.duplicateFields > 0 && j < |p.beams| && k < o.duplicateFields
    requires CopyPlan(p, o).err.None?
    ensures var q := RescaleCopy(p, p, Request(o));
      && q.err.None? && j < |q.plan.beams|
      && var n := o.duplicateFields;
         var r := CopyPlan(p, o).plan;
         && j * n + k < |r.beams| && j * n + k < |r.refBeams|
         && r.refBeams[j * n + k] == q.plan.refBeams[j].(number := j * n + k + 1)
         && r.beams[j * n + k].cps == q.plan.beams[j].cps
  {
    RescaleThenDuplicate(p, o);
    var q := RescaleCopy(p, p, Request(o));
    CopyDuplicateLayout(q.plan, o.duplicateFields, j, k);
  }
}
