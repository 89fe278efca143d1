/**
 * `DicomUtil` (dicomfix/dicomutil.py) as a class over the plan it edits in place. Every method
 * is proved against the function of the same operation in Rescale, RescaleModes, FieldOps,
 * Repaint and Modification: the new plan, the new discard counter and the exception raised are
 * those the function gives for the old plan. The loops of the Python methods are loops here.
 */
module DicomUtilities {
  import opened Common
  import opened IonPlan
  import opened Rescale
  import opened RescaleModes
  import opened FieldOps
  import opened Repaint
  import opened Modification

  // ---------------------------------------------------------------------------------------------
  // The loops of apply_rescale_factor, minimize_plan and __init__, on values
  // ---------------------------------------------------------------------------------------------

  /** The loop over the spots of one control point: new weights and the number discarded. */
  method AdmitSpots(ws: seq<real>, factor: real, mpw: real) returns (nw: seq<real>, rejected: nat)
    ensures nw == AdmitAll(ws, factor, mpw)
    ensures rejected == CountRejected(ws, factor, mpw) == |ZeroedSpots(ws, factor, mpw)|
  {
    nw := Zeros(|ws|);
    rejected := 0;
    for k := 0 to |ws|
      invariant |nw| == |ws|
      invariant forall m :: 0 <= m < k ==> nw[m] == Admit(ws[m], factor, mpw)
      invariant rejected == CountRejected(ws[..k], factor, mpw)
    {
      var value := ws[k] * factor;
      CountRejectedPrefixStep(ws, k, factor, mpw);
      if value > 0.0 && value * mpw < MuMin {
        rejected := rejected + 1;
        value := 0.0;
      }
      nw := nw[k := value];
    }
    assert ws[..|ws|] == ws;
    CountRejectedIsZeroed(ws, factor, mpw);
  }

  /** An exception ends the first pass: the later control points are not visited. */
  lemma {:induction false} Pass1AfterError(cps: seq<ControlPoint>, i: nat, n: nat, layerFactors: seq<real>,
                                           mpw: real, factor0: Option<real>)
    requires i <= n <= |cps|
    requires Pass1(cps, i, layerFactors, mpw, factor0).err.Some?
    ensures Pass1(cps, n, layerFactors, mpw, factor0) == Pass1(cps, i, layerFactors, mpw, factor0)
  {
    if n > i {
      Pass1AfterError(cps, i, n - 1, layerFactors, mpw, factor0);
    }
  }

  /**
   * The body of the first loop over the control points of a field, for control point i: the
   * cumulative weight of the control points before, the real-layer factor, and the admission of
   * every spot.
   */
  method LayerStep(w: Walk, i: nat, layerFactors: seq<real>, mpw: real) returns (r: Walk)
    requires i < |w.cps|
    ensures r == WalkStep(w, i, layerFactors, mpw)
  {
    var cp := w.cps[i].(cumulativeWeight := w.cum);
    var cps := w.cps[i := cp];
    var ws := cp.weights;
    var index := w.index;
    var factor := w.factor;
    if HasPositive(ws) {
      if |layerFactors| > 0 {
        if index >= |layerFactors| {
          return w.(cps := cps, err := Some(LayerFactorIndex));
        }
        factor := Some(layerFactors[index]);
      } else {
        factor := Some(1.0);
      }
      index := index + 1;
    }
    if |ws| > 0 && factor.None? {
      return w.(cps := cps, index := index, err := Some(LayerFactorUnbound));
    }
    var nw, rejected := AdmitSpots(ws, factor.GetOr(1.0), mpw);
    r := Walk(cps[i := cp.(weights := nw)], w.cum + Sum(nw), index, factor, w.discarded + rejected, None);
  }

  /** The first loop over the control points of a field, stopping at the first exception. */
  method FirstPass(cps: seq<ControlPoint>, layerFactors: seq<real>, mpw: real, factor0: Option<real>)
    returns (w: Walk)
    ensures w == Pass1(cps, |cps|, layerFactors, mpw, factor0)
  {
    w := Walk(cps, 0.0, 0, factor0, 0, None);
    var i := 0;
    while i < |cps|
      invariant 0 <= i <= |cps| && |w.cps| == |cps|
      invariant w == Pass1(cps, i, layerFactors, mpw, factor0) && w.err.None?
    {
      w := LayerStep(w, i, layerFactors, mpw);
      i := i + 1;
      if w.err.Some? {
        Pass1AfterError(cps, i, |cps|, layerFactors, mpw, factor0);
        return;
      }
    }
  }

  /** The second loop over the control points of a field: the dose reference coefficients. */
  method SecondPass(cps: seq<ControlPoint>, total: real) returns (r: seq<ControlPoint>)
    ensures r == Pass2(cps, total)
  {
    r := cps;
    var running := 0.0;
    for i := 0 to |cps|
      invariant |r| == |cps|
      invariant running == WeightTotal(cps[..i])
      invariant forall k :: 0 <= k < i ==> r[k] == Pass2(cps, total)[k]
      invariant forall k :: i <= k < |cps| ==> r[k] == cps[k]
    {
      var coefficient := if total != 0.0 then running / total else 0.0;
      r := r[i := r[i].(doseCoefficient := coefficient)];
      WeightTotalPrefixStep(cps, i);
      running := running + Sum(cps[i].weights);
    }
  }

  /** The loop of minimize_plan over the spots of one field. */
  method LowestOfField(cps: seq<ControlPoint>, mpw: real, low0: real) returns (low: real)
    ensures low == LowestInField(cps, mpw, low0)
  {
    low := low0;
    for i := 0 to |cps|
      invariant low == LowestInField(cps[..i], mpw, low0)
    {
      assert cps[..i + 1][..i] == cps[..i];
      ghost var start := low;
      var ws := cps[i].weights;
      for k := 0 to |ws|
        invariant low == LowestInLayer(ws[..k], mpw, start)
      {
        assert ws[..k + 1][..k] == ws[..k];
        var w := ws[k];
        if w > 0.0 && w * mpw < low {
          low := w * mpw;
        }
      }
      assert ws[..|ws|] == ws;
    }
    assert cps[..|cps|] == cps;
  }

  /** Spot positions over the control points of one field, as `sum([...])`. */
  function FieldSpotPositions(cps: seq<ControlPoint>): nat
  {
    if |cps| == 0 then 0 else FieldSpotPositions(cps[..|cps| - 1]) + cps[|cps| - 1].numberOfSpots
  }

  /** Spot positions over the control points of the first n fields. */
  function PlanSpotPositions(beams: seq<IonBeam>, n: nat): nat
    requires n <= |beams|
  {
    if n == 0 then 0 else PlanSpotPositions(beams, n - 1) + FieldSpotPositions(beams[n - 1].cps)
  }

  /** The spot count of `__init__`: every spot has two control points, so half the positions. */
  function SpotTotal(p: Plan): nat
  {
    PlanSpotPositions(p.beams, |p.beams|) / 2
  }

  /** The loop of `__init__` over the fields. */
  method CountSpots(p: Plan) returns (total: nat)
    ensures total == SpotTotal(p)
  {
    total := 0;
    for j := 0 to |p.beams|
      invariant total == PlanSpotPositions(p.beams, j)
    {
      total := total + FieldSpotPositions(p.beams[j].cps);
    }
    total := total / 2;
  }

  /** Control point 2i + 1 repeats the spots of control point 2i, as the energy layers are stored. */
  predicate PairedLayers(cps: seq<ControlPoint>)
  {
    |cps| % 2 == 0 && forall i :: 0 <= i < |cps| / 2 ==> cps[2 * i + 1].numberOfSpots == cps[2 * i].numberOfSpots
  }

  /** Spots of the energy layers of a field: the even control points. */
  function LayerSpots(cps: seq<ControlPoint>, m: nat): nat
    requires 2 * m <= |cps|
  {
    if m == 0 then 0 else LayerSpots(cps, m - 1) + cps[2 * (m - 1)].numberOfSpots
  }

  lemma {:induction false} PairedPositions(cps: seq<ControlPoint>, m: nat)
    requires 2 * m <= |cps| && forall i :: 0 <= i < m ==> cps[2 * i + 1].numberOfSpots == cps[2 * i].numberOfSpots
    ensures FieldSpotPositions(cps[..2 * m]) == 2 * LayerSpots(cps, m)
  {
    if m == 0 {
      assert cps[..0] == [];
    } else {
      PairedPositions(cps, m - 1);
      var s := cps[..2 * m];
      assert s[..2 * m - 1] == cps[..2 * m - 1];
      assert cps[..2 * m - 1][..2 * m - 2] == cps[..2 * (m - 1)];
    }
  }

  /** Spots over the energy layers of the first n fields. */
  function PlanLayerSpots(beams: seq<IonBeam>, n: nat): nat
    requires n <= |beams|
  {
    if n == 0 then 0 else PlanLayerSpots(beams, n - 1) + LayerSpots(beams[n - 1].cps, |beams[n - 1].cps| / 2)
  }

  lemma {:induction false} PlanPairedPositions(beams: seq<IonBeam>, n: nat)
    requires n <= |beams| && forall j :: 0 <= j < |beams| ==> PairedLayers(beams[j].cps)
    ensures PlanSpotPositions(beams, n) == 2 * PlanLayerSpots(beams, n)
  {
    if n > 0 {
      PlanPairedPositions(beams, n - 1);
      var cps := beams[n - 1].cps;
      PairedPositions(cps, |cps| / 2);
      assert cps[..2 * (|cps| / 2)] == cps;
    }
  }

  /** When every energy layer is stored as a pair of control points, the count is the number of layer spots. */
  lemma SpotTotalCountsLayers(p: Plan)
    requires forall j :: 0 <= j < |p.beams| ==> PairedLayers(p.beams[j].cps)
    ensures SpotTotal(p) == PlanLayerSpots(p.beams, |p.beams|)
  {
    PlanPairedPositions(p.beams, |p.beams|);
  }

  /**
   * The body of the loop of apply_rescale_factor over the fields, for field j: the count check,
   * the meterset per weight, both passes over the control points and the write-back.
   */
  method RescaleOneField(p: Plan, j: nat, rf: real, layerFactors: seq<real>, factor: Option<real>) returns (r: Run)
    requires j < |p.beams|
    ensures r == RescaleField(p, j, rf, layerFactors, factor)
  {
    var b := p.beams[j];
    var layers := b.numberOfControlPoints / 2;
    if |layerFactors| > 0 && |layerFactors| != layers {
      return Run(p, factor, 0, Some(LayerCountMismatch));
    }
    if j >= |p.refBeams| {
      return Run(p, factor, 0, Some(MissingReferencedBeam));
    }
    if b.finalWeight == 0.0 {
      return Run(p, factor, 0, Some(DivisionByZero));
    }
    var ref := p.refBeams[j];
    var mpw := ref.meterset * rf / b.finalWeight;
    assert mpw == AdmissionRatio(b, ref, rf);
    var w := FirstPass(b.cps, layerFactors, mpw, factor);
    var q := p.(beams := p.beams[j := b.(cps := w.cps)]);
    if w.err.Some? {
      return Run(q, w.factor, w.discarded, w.err);
    }
    if |layerFactors| > 0 && w.index != layers {
      return Run(q, w.factor, w.discarded, Some(LayerCountMismatchAfterRewrite));
    }
    var cps := SecondPass(w.cps, w.cum);
    q := q.(beams := q.beams[j := b.(cps := cps, finalWeight := w.cum)],
            refBeams := q.refBeams[j := ScaledReference(ref, rf)]);
    assert q.beams == p.beams[j := RescaledBeam(b, w)];
    r := Run(q, w.factor, w.discarded, None);
  }

  // ---------------------------------------------------------------------------------------------
  // Exceptions end the loops over fields
  // ---------------------------------------------------------------------------------------------

  lemma {:induction false} RescaleBeamsAfterError(p: Plan, i: nat, n: nat, rf: real, layerFactors: seq<real>)
    requires i <= n <= |p.beams|
    requires RescaleBeams(p, i, rf, layerFactors, None).err.Some?
    ensures RescaleBeams(p, n, rf, layerFactors, None) == RescaleBeams(p, i, rf, layerFactors, None)
  {
    if n > i {
      RescaleBeamsAfterError(p, i, n - 1, rf, layerFactors);
    }
  }

  lemma {:induction false} RescaleDoseAfterError(p: Plan, i: nat, n: nat, newDose: real, layerFactors: seq<real>)
    requires i <= n <= |p.beams|
    requires RescaleDoseLoop(p, i, newDose, layerFactors).err.Some?
    ensures RescaleDoseLoop(p, n, newDose, layerFactors) == RescaleDoseLoop(p, i, newDose, layerFactors)
  {
    if n > i {
      RescaleDoseAfterError(p, i, n - 1, newDose, layerFactors);
    }
  }

  lemma {:induction false} LowestSpotAfterError(p: Plan, i: nat, n: nat)
    requires i <= n <= |p.beams|
    requires LowestSpot(p, i).Failure?
    ensures LowestSpot(p, n) == LowestSpot(p, i)
  {
    if n > i {
      LowestSpotAfterError(p, i, n - 1);
    }
  }

  lemma {:induction false} RepaintFieldsAfterError(p: Plan, i: nat, n: nat, copies: int)
    requires i <= n <= |p.beams|
    requires RepaintFields(p, i, copies).err.Some?
    ensures RepaintFields(p, n, copies) == RepaintFields(p, i, copies)
  {
    if n > i {
      RepaintFieldsAfterError(p, i, n - 1, copies);
    }
  }

  // ---------------------------------------------------------------------------------------------
  // The loop of set_repainting over one field, and the stages of modify
  // ---------------------------------------------------------------------------------------------

  /** The loop of set_repainting over the control points of one field. */
  method RepaintControlPoints(cps: seq<ControlPoint>, n: int, mpw: real) returns (r: Layers)
    ensures r == RepaintLayers(cps, |cps|, n, mpw)
  {
    var out := cps;
    var discarded: nat := 0;
    var i := 0;
    while i < |cps|
      invariant i <= |cps|
      invariant RepaintLayers(cps, i, n, mpw) == Layers(out, discarded, None)
    {
      var s := RepaintPoint(cps[i], i, n, mpw);
      out := out[i := s.cp];
      discarded := discarded + s.discarded;
      if s.err.Some? {
        RepaintLayersAfterError(cps, i + 1, |cps|, n, mpw);
        return Layers(out, discarded, s.err);
      }
      i := i + 1;
    }
    r := Layers(out, discarded, None);
  }

  lemma {:induction false} RepaintLayersAfterError(cps: seq<ControlPoint>, i: nat, m: nat, n: int, mpw: real)
    requires i <= m <= |cps|
    requires RepaintLayers(cps, i, n, mpw).err.Some?
    ensures RepaintLayers(cps, m, n, mpw) == RepaintLayers(cps, i, n, mpw)
  {
    if m > i {
      RepaintLayersAfterError(cps, i, m - 1, n, mpw);
    }
  }

  /** What `modify` does from stage k on, after `discarded` spots were discarded before it. */
  ghost function Continue(p: Plan, o: ModifyOptions, k: nat, discarded: nat): Modified
  {
    var s := RunSteps(p, StepsFrom(o, k));
    s.(discarded := discarded + s.discarded)
  }

  /** Stage k of `modify` when its option is not given: the run goes on with stage k + 1. */
  lemma ModifySkips(p0: Plan, o: ModifyOptions, k: nat, q: Plan, d: nat)
    requires k < StageCount && Stage(o, k).None?
    requires ModifyPlan(p0, o) == Continue(q, o, k, d)
    ensures ModifyPlan(p0, o) == Continue(q, o, k + 1, d)
  {
    StageStep(q, o, k);
  }

  /** Stage k of `modify` when it ran edit s with outcome m: its exception ends the run, or stage k + 1 follows. */
  lemma ModifyRuns(p0: Plan, o: ModifyOptions, k: nat, q: Plan, d: nat, s: Step, m: Modified)
    requires k < StageCount && Stage(o, k) == Some(s)
    requires ModifyPlan(p0, o) == Continue(q, o, k, d) && m == RunSteps(q, [s])
    ensures m.err.Some? ==> ModifyPlan(p0, o) == m.(discarded := d + m.discarded)
    ensures m.err.None? ==> ModifyPlan(p0, o) == Continue(m.plan, o, k + 1, d + m.discarded)
    ensures m.err.None? && FirstControlPoints(q) ==> FirstControlPoints(m.plan)
  {
    RunOne(q, s);
    StageStep(q, o, k);
  }

  // ---------------------------------------------------------------------------------------------
  // The class
  // ---------------------------------------------------------------------------------------------

  class DicomUtil {
    /** The plan being edited. */
    var dicom: Plan
    /** Spots discarded for falling below MuMin, over all operations so far. */
    var spotsDiscarded: nat
    var totalNumberOfSpots: nat

    /** `__init__` on the plan the file holds (reading the file is not part of the model). */
    constructor (p: Plan)
      ensures dicom == p && spotsDiscarded == 0 && totalNumberOfSpots == SpotTotal(p)
    {
      var total := CountSpots(p);
      dicom := p;
      spotsDiscarded := 0;
      totalNumberOfSpots := total;
    }

    /** `apply_rescale_factor(rescale_factor, layer_factors)`; an empty list stands for None. */
    method ApplyRescaleFactor(rf: real, layerFactors: seq<real>) returns (err: Option<Error>)
      modifies this
      ensures var r := ApplyRescale(old(dicom), rf, layerFactors);
        dicom == r.plan && spotsDiscarded == old(spotsDiscarded) + r.discarded && err == r.err
      ensures totalNumberOfSpots == old(totalNumberOfSpots)
    {
      ghost var p0 := dicom;
      var factor: Option<real> := None;
      var j := 0;
      err := None;
      while j < |dicom.beams|
        invariant j <= |dicom.beams| == |p0.beams| && spotsDiscarded >= old(spotsDiscarded)
        invariant RescaleBeams(p0, j, rf, layerFactors, None)
                  == Run(dicom, factor, spotsDiscarded - old(spotsDiscarded), None)
        invariant totalNumberOfSpots == old(totalNumberOfSpots) && err == None
      {
        var r := RescaleOneField(dicom, j, rf, layerFactors, factor);
        dicom := r.plan;
        spotsDiscarded := spotsDiscarded + r.discarded;
        factor := r.factor;
        if r.err.Some? {
          err := r.err;
          RescaleBeamsAfterError(p0, j + 1, |p0.beams|, rf, layerFactors);
          return;
        }
        j := j + 1;
      }
    }

    /** `minimize_plan`: the smallest positive spot of the plan is rescaled to MuMin. */
    method MinimizePlan() returns (err: Option<Error>)
      modifies this
      ensures var r := Minimize(old(dicom));
        dicom == r.plan && spotsDiscarded == old(spotsDiscarded) + r.discarded && err == r.err
      ensures totalNumberOfSpots == old(totalNumberOfSpots)
    {
      var p := dicom;
      var low := LowestStart;
      var j := 0;
      while j < |p.beams|
        invariant j <= |p.beams| && LowestSpot(p, j) == Success(low)
        invariant dicom == p && spotsDiscarded == old(spotsDiscarded) && totalNumberOfSpots == old(totalNumberOfSpots)
      {
        if j >= |p.refBeams| || p.beams[j].finalWeight == 0.0 {
          err := Some(if j >= |p.refBeams| then MissingReferencedBeam else DivisionByZero);
          LowestSpotAfterError(p, j + 1, |p.beams|);
          return;
        }
        var b := p.beams[j];
        var mpw := p.refBeams[j].meterset / b.finalWeight;
        low := LowestOfField(b.cps, mpw, low);
        j := j + 1;
      }
      if low == 0.0 {
        return Some(DivisionByZero);
      }
      err := ApplyRescaleFactor(MuMin / low, []);
    }

    /** `rescale_dose(new_dose, layer_factors)`: one rescale of the whole plan per field. */
    method RescaleDose(newDose: real, layerFactors: seq<real>) returns (err: Option<Error>)
      modifies this
      ensures var r := RescaleModes.RescaleDose(old(dicom), newDose, layerFactors);
        dicom == r.plan && spotsDiscarded == old(spotsDiscarded) + r.discarded && err == r.err
      ensures totalNumberOfSpots == old(totalNumberOfSpots)
    {
      ghost var p0 := dicom;
      var j := 0;
      err := None;
      while j < |dicom.beams|
        invariant j <= |dicom.beams| == |p0.beams| && spotsDiscarded >= old(spotsDiscarded)
        invariant var r := RescaleDoseLoop(p0, j, newDose, layerFactors);
          r.plan == dicom && r.discarded == spotsDiscarded - old(spotsDiscarded) && r.err == None
        invariant totalNumberOfSpots == old(totalNumberOfSpots) && err == None
      {
        err := RescaleDoseBeam(j, newDose, layerFactors);
        if err.Some? {
          RescaleDoseAfterError(p0, j + 1, |p0.beams|, newDose, layerFactors);
          return;
        }
        j := j + 1;
      }
    }

    /** One pass of `rescale_dose`: the whole plan rescaled by the ratio of doses of field j. */
    method RescaleDoseBeam(j: nat, newDose: real, layerFactors: seq<real>) returns (err: Option<Error>)
      modifies this
      ensures j >= |old(dicom).refBeams| ==>
        dicom == old(dicom) && spotsDiscarded == old(spotsDiscarded) && err == Some(MissingReferencedBeam)
      ensures j < |old(dicom).refBeams| && old(dicom).refBeams[j].dose == 0.0 ==>
        dicom == old(dicom) && spotsDiscarded == old(spotsDiscarded) && err == Some(DivisionByZero)
      ensures j < |old(dicom).refBeams| && old(dicom).refBeams[j].dose != 0.0 ==>
        var s := ApplyRescale(old(dicom), newDose / old(dicom).refBeams[j].dose, layerFactors);
        dicom == s.plan && spotsDiscarded == old(spotsDiscarded) + s.discarded && err == s.err
      ensures totalNumberOfSpots == old(totalNumberOfSpots)
    {
      if j >= |dicom.refBeams| || dicom.refBeams[j].dose == 0.0 {
        return Some(if j >= |dicom.refBeams| then MissingReferencedBeam else DivisionByZero);
      }
      err := ApplyRescaleFactor(newDose / dicom.refBeams[j].dose, layerFactors);
    }

    /** `rescale_plan(config)` with the layer factors already read from the weights file. */
    method RescalePlan(o: RescaleOptions) returns (err: Option<Error>)
      modifies this
      ensures var r := RescaleModes.RescalePlan(old(dicom), o);
        dicom == r.plan && spotsDiscarded == old(spotsDiscarded) + r.discarded && err == r.err
      ensures totalNumberOfSpots == old(totalNumberOfSpots)
    {
      if o.minimize {
        if o.factor != 0.0 || |o.layerFactors| > 0 {
          return Some(ModeConflict);
        }
        err := MinimizePlan();
      } else if o.dose != 0.0 {
        err := RescaleDose(o.dose, o.layerFactors);
      } else if o.factor != 0.0 {
        err := ApplyRescaleFactor(o.factor, o.layerFactors);
      } else if |o.layerFactors| > 0 {
        err := ApplyRescaleFactor(1.0, o.layerFactors);
      } else {
        err := None;
      }
    }

    /** `duplicate_fields(n)` */
    method DuplicateFields(n: int) returns (err: Option<Error>)
      modifies this
      ensures var e := Duplicate(old(dicom), n); dicom == e.plan && err == e.err
      ensures spotsDiscarded == old(spotsDiscarded) && totalNumberOfSpots == old(totalNumberOfSpots)
    {
      ghost var p0 := dicom;
      var c := Copies(n);
      var rbs := Expand(dicom.refBeams, c);
      var ibs := Expand(dicom.beams, c);
      dicom := dicom.(numberOfBeams := |rbs|, beams := ibs, refBeams := rbs);
      if c == 0 {
        ExpandLength(p0.beams, 0);
        ExpandLength(p0.refBeams, 0);
        return None;
      }
      var i := 0;
      while i < |ibs|
        invariant i <= |ibs| && i <= |rbs|
        invariant dicom == p0.(numberOfBeams := |rbs|, beams := RelabelUpTo(ibs, i, c), refBeams := RenumberUpTo(rbs, i))
        invariant spotsDiscarded == old(spotsDiscarded) && totalNumberOfSpots == old(totalNumberOfSpots)
      {
        var ib := dicom.beams[i];
        dicom := dicom.(beams := dicom.beams[i := ib.(name := CopyLabel(ib.name, i % c, c), number := i + 1)]);
        if i >= |dicom.refBeams| {
          assert dicom.beams == RelabelUpTo(ibs, i + 1, c);
          assert RenumberUpTo(rbs, i) == RenumberUpTo(rbs, |ibs|);
          return Some(MissingReferencedBeam);
        }
        dicom := dicom.(refBeams := dicom.refBeams[i := dicom.refBeams[i].(number := i + 1)]);
        assert dicom.beams == RelabelUpTo(ibs, i + 1, c);
        assert dicom.refBeams == RenumberUpTo(rbs, i + 1);
        i := i + 1;
      }
      err := None;
    }

    /** `set_gantry_angles(gantry_angles)` */
    method SetGantryAngles(angles: seq<real>) returns (err: Option<Error>)
      modifies this
      ensures var e := FieldOps.SetGantryAngles(old(dicom), angles); dicom == e.plan && err == e.err
      ensures spotsDiscarded == old(spotsDiscarded) && totalNumberOfSpots == old(totalNumberOfSpots)
    {
      if |angles| != |dicom.beams| {
        return Some(GantryAngleCount);
      }
      ghost var p0 := dicom;
      for i := 0 to |dicom.beams|
        invariant spotsDiscarded == old(spotsDiscarded) && totalNumberOfSpots == old(totalNumberOfSpots)
        invariant dicom == p0.(beams := dicom.beams) && |dicom.beams| == |p0.beams|
        invariant forall j :: 0 <= j < i ==> |p0.beams[j].cps| > 0
        invariant forall j :: 0 <= j < |p0.beams| ==>
          dicom.beams[j] == if j < i then WithAngle(p0.beams[j], angles[j]) else p0.beams[j]
      {
        var ib := dicom.beams[i];
        if |ib.cps| == 0 {
          ReachIs(p0.beams, i);
          return Some(NoControlPoint);
        }
        dicom := dicom.(beams := dicom.beams[i := ib.(cps := ib.cps[0 := ib.cps[0].(gantryAngle := angles[i])])]);
      }
      ReachIs(p0.beams, |p0.beams|);
      err := None;
    }

    /** `set_table_position(table_position)`: vertical, longitudinal and lateral, in that order. */
    method SetTablePosition(t: seq<real>) returns (err: Option<Error>)
      modifies this
      ensures var e := FieldOps.SetTablePosition(old(dicom), t); dicom == e.plan && err == e.err
      ensures spotsDiscarded == old(spotsDiscarded) && totalNumberOfSpots == old(totalNumberOfSpots)
    {
      if |t| != 3 {
        return Some(TablePositionArity);
      }
      ghost var p0 := dicom;
      for i := 0 to |dicom.beams|
        invariant spotsDiscarded == old(spotsDiscarded) && totalNumberOfSpots == old(totalNumberOfSpots)
        invariant dicom == p0.(beams := dicom.beams) && |dicom.beams| == |p0.beams|
        invariant forall j :: 0 <= j < i ==> |p0.beams[j].cps| > 0
        invariant forall j :: 0 <= j < |p0.beams| ==> dicom.beams[j] == if j < i then WithTable(p0.beams[j], t) else p0.beams[j]
      {
        var ib := dicom.beams[i];
        if |ib.cps| == 0 {
          ReachIs(p0.beams, i);
          return Some(NoControlPoint);
        }
        var cp := ib.cps[0].(tableVertical := t[0], tableLongitudinal := t[1], tableLateral := t[2]);
        dicom := dicom.(beams := dicom.beams[i := ib.(cps := ib.cps[0 := cp])]);
      }
      ReachIs(p0.beams, |p0.beams|);
      err := if |dicom.beams| == 0 then Some(NoFields) else None;
    }

    /** `set_snout_position(snout_position)` */
    method SetSnoutPosition(s: real) returns (err: Option<Error>)
      modifies this
      ensures var e := FieldOps.SetSnoutPosition(old(dicom), s); dicom == e.plan && err == e.err
      ensures spotsDiscarded == old(spotsDiscarded) && totalNumberOfSpots == old(totalNumberOfSpots)
    {
      ghost var p0 := dicom;
      for i := 0 to |dicom.beams|
        invariant spotsDiscarded == old(spotsDiscarded) && totalNumberOfSpots == old(totalNumberOfSpots)
        invariant dicom == p0.(beams := dicom.beams) && |dicom.beams| == |p0.beams|
        invariant forall j :: 0 <= j < i ==> |p0.beams[j].cps| > 0
        invariant forall j :: 0 <= j < |p0.beams| ==> dicom.beams[j] == if j < i then WithSnout(p0.beams[j], s) else p0.beams[j]
      {
        var ib := dicom.beams[i];
        if |ib.cps| == 0 {
          ReachIs(p0.beams, i);
          return Some(NoControlPoint);
        }
        dicom := dicom.(beams := dicom.beams[i := ib.(cps := ib.cps[0 := ib.cps[0].(snoutPosition := s)])]);
      }
      ReachIs(p0.beams, |p0.beams|);
      err := if |dicom.beams| == 0 then Some(NoFields) else None;
    }

    /** `set_treatment_machine(machine_name)` */
    method SetTreatmentMachine(name: string) returns (err: Option<Error>)
      modifies this
      ensures var e := FieldOps.SetTreatmentMachine(old(dicom), name); dicom == e.plan && err == e.err
      ensures spotsDiscarded == old(spotsDiscarded) && totalNumberOfSpots == old(totalNumberOfSpots)
    {
      ghost var p0 := dicom;
      for i := 0 to |dicom.beams|
        invariant spotsDiscarded == old(spotsDiscarded) && totalNumberOfSpots == old(totalNumberOfSpots)
        invariant dicom == p0.(beams := dicom.beams) && |dicom.beams| == |p0.beams|
        invariant forall j :: 0 <= j < |p0.beams| ==> dicom.beams[j] == if j < i then p0.beams[j].(machine := name) else p0.beams[j]
      {
        dicom := dicom.(beams := dicom.beams[i := dicom.beams[i].(machine := name)]);
      }
      err := if |dicom.beams| == 0 then Some(NoFields) else None;
    }

    /** `approve_plan` */
    method ApprovePlan()
      modifies this
      ensures dicom == Approve(old(dicom))
      ensures spotsDiscarded == old(spotsDiscarded) && totalNumberOfSpots == old(totalNumberOfSpots)
    {
      dicom := dicom.(header := dicom.header.(approvalStatus := "APPROVED"));
    }

    /** `set_current_date`, with the clock's reading formatted as date and time given. */
    method SetCurrentDate(date: string, time: string)
      modifies this
      ensures dicom == Stamp(old(dicom), date, time)
      ensures spotsDiscarded == old(spotsDiscarded) && totalNumberOfSpots == old(totalNumberOfSpots)
    {
      dicom := dicom.(header := dicom.header.(planDate := date));
      dicom := dicom.(header := dicom.header.(planTime := time));
    }

    /** `set_intent_to_curative` */
    method SetIntentToCurative()
      modifies this
      ensures dicom == SetAttr(old(dicom), PlanIntent, "CURATIVE")
      ensures spotsDiscarded == old(spotsDiscarded) && totalNumberOfSpots == old(totalNumberOfSpots)
    {
      dicom := dicom.(header := dicom.header.(planIntent := "CURATIVE"));
    }

    /** `set_plan_label(plan_label)` */
    method SetPlanLabel(text: string)
      modifies this
      ensures dicom == SetAttr(old(dicom), PlanLabel, text)
      ensures spotsDiscarded == old(spotsDiscarded) && totalNumberOfSpots == old(totalNumberOfSpots)
    {
      dicom := dicom.(header := dicom.header.(planLabel := text));
    }

    /** `set_patient_name(patient_name)` */
    method SetPatientName(name: string)
      modifies this
      ensures dicom == SetAttr(old(dicom), PatientName, name)
      ensures spotsDiscarded == old(spotsDiscarded) && totalNumberOfSpots == old(totalNumberOfSpots)
    {
      dicom := dicom.(header := dicom.header.(patientName := name));
    }

    /** `set_reviewer_name(reviewer_name)` */
    method SetReviewerName(name: string)
      modifies this
      ensures dicom == SetAttr(old(dicom), ReviewerName, name)
      ensures spotsDiscarded == old(spotsDiscarded) && totalNumberOfSpots == old(totalNumberOfSpots)
    {
      dicom := dicom.(header := dicom.header.(reviewerName := name));
    }

    /** `set_wizard_tr4` */
    method SetWizardTr4() returns (err: Option<Error>)
      modifies this
      ensures var e := FieldOps.SetWizardTr4(old(dicom)); dicom == e.plan && err == e.err
      ensures spotsDiscarded == old(spotsDiscarded) && totalNumberOfSpots == old(totalNumberOfSpots)
    {
      ghost var p0 := dicom;
      dicom := dicom.(header := dicom.header.(approvalStatus := "APPROVED"));
      for i := 0 to |dicom.beams|
        invariant spotsDiscarded == old(spotsDiscarded) && totalNumberOfSpots == old(totalNumberOfSpots)
        invariant dicom == Approve(p0).(beams := dicom.beams) && |dicom.beams| == |p0.beams|
        invariant forall j :: 0 <= j < i ==> |p0.beams[j].cps| > 0
        invariant forall j :: 0 <= j < |p0.beams| ==> dicom.beams[j] == if j < i then Tr4Beam(p0.beams[j]) else p0.beams[j]
      {
        var ib := dicom.beams[i].(machine := "TR4");
        if |ib.cps| == 0 {
          dicom := dicom.(beams := dicom.beams[i := ib]);
          ReachIs(p0.beams, i);
          return Some(NoControlPoint);
        }
        var cp := ib.cps[0].(gantryAngle := 90.0, snoutPosition := 421.0);
        dicom := dicom.(beams := dicom.beams[i := ib.(cps := ib.cps[0 := cp])]);
      }
      ReachIs(p0.beams, |p0.beams|);
      err := if |dicom.beams| == 0 then Some(NoFields) else None;
    }

    /**
     * `set_range_shifter(range_shifter)`; None stands for Python's None. The thickness written is
     * the one of the code as written (ShifterWetAsWritten).
     */
    method SetRangeShifter(rs: Option<string>) returns (err: Option<Error>)
      modifies this
      ensures match FieldOps.SetRangeShifter(old(dicom), rs, false)
        case Success(q) => dicom == q && err == None
        case Failure(e) => dicom == old(dicom) && err == Some(e)
      ensures spotsDiscarded == old(spotsDiscarded) && totalNumberOfSpots == old(totalNumberOfSpots)
    {
      ghost var p0 := dicom;
      if rs.None? {
        for i := 0 to |dicom.beams|
          invariant spotsDiscarded == old(spotsDiscarded) && totalNumberOfSpots == old(totalNumberOfSpots)
          invariant dicom == p0.(beams := dicom.beams) && |dicom.beams| == |p0.beams|
          invariant forall j :: 0 <= j < |p0.beams| ==> dicom.beams[j] == if j < i then RemoveShifter(p0.beams[j]) else p0.beams[j]
        {
          var ib := dicom.beams[i];
          if ib.rangeShifter.Some? {
            dicom := dicom.(beams := dicom.beams[i := ib.(rangeShifter := None, numberOfRangeShifters := 0)]);
          }
        }
        return None;
      }
      var id := rs.value;
      if id != "RS_2CM" && id != "RS_5CM" {
        return Some(UnknownRangeShifter);
      }
      for i := 0 to |dicom.beams|
        invariant spotsDiscarded == old(spotsDiscarded) && totalNumberOfSpots == old(totalNumberOfSpots)
        invariant dicom == p0.(beams := dicom.beams) && |dicom.beams| == |p0.beams|
        invariant forall j :: 0 <= j < |p0.beams| ==> dicom.beams[j] == if j < i then InstallShifter(p0.beams[j], id, false) else p0.beams[j]
      {
        var ib := dicom.beams[i];
        var cps := ib.cps;
        for k := 0 to |cps|
          invariant |cps| == |ib.cps|
          invariant forall m :: 0 <= m < |cps| ==>
            cps[m] == (if m < k then ib.cps[m].(rangeShifterSetting := Some(ShifterSetting(id, false))) else ib.cps[m])
        {
          cps := cps[k := cps[k].(rangeShifterSetting := Some(RangeShifterSetting("IN", 98.0, if id == "RS_2CM" then 57.0 else 22.8, 1)))];
        }
        dicom := dicom.(beams := dicom.beams[i := ib.(numberOfRangeShifters := 1,
                                                      rangeShifter := Some(RangeShifter(1, id, "BINARY")),
                                                      cps := cps)]);
      }
      err := None;
    }

    /** `set_repainting(n)` */
    method SetRepainting(n: int) returns (err: Option<Error>)
      modifies this
      ensures var r := Repaint.SetRepainting(old(dicom), n);
        dicom == r.plan && spotsDiscarded == old(spotsDiscarded) + r.discarded && err == r.err
      ensures totalNumberOfSpots == old(totalNumberOfSpots)
    {
      ghost var p0 := dicom;
      var j := 0;
      while j < |dicom.beams|
        invariant j <= |dicom.beams| == |p0.beams| && spotsDiscarded >= old(spotsDiscarded)
        invariant var r := RepaintFields(p0, j, n);
          r.plan == dicom && r.discarded == spotsDiscarded - old(spotsDiscarded) && r.err == None
        invariant totalNumberOfSpots == old(totalNumberOfSpots)
      {
        err := RepaintBeam(j, n);
        if err.Some? {
          RepaintFieldsAfterError(p0, j + 1, |p0.beams|, n);
          return;
        }
        j := j + 1;
      }
      err := None;
    }

    /** One field of `set_repainting(n)`: its control points repainted, or the exception it raises. */
    method RepaintBeam(j: nat, n: int) returns (err: Option<Error>)
      requires j < |dicom.beams|
      modifies this
      ensures var f := RepaintField(old(dicom), j, n);
        dicom == f.plan && spotsDiscarded == old(spotsDiscarded) + f.discarded && err == f.err
      ensures totalNumberOfSpots == old(totalNumberOfSpots)
    {
      if j >= |dicom.refBeams| || dicom.beams[j].finalWeight == 0.0 {
        return Some(if j >= |dicom.refBeams| then MissingReferencedBeam else DivisionByZero);
      }
      var b := dicom.beams[j];
      var mpw := dicom.refBeams[j].meterset / b.finalWeight;
      var l := RepaintControlPoints(b.cps, n, mpw);
      dicom := dicom.(beams := dicom.beams[j := b.(cps := l.cps)]);
      spotsDiscarded := spotsDiscarded + l.discarded;
      err := l.err;
    }

    /** The call `modify` makes for one requested edit. */
    method Perform(s: Step) returns (err: Option<Error>)
      modifies this
      ensures spotsDiscarded >= old(spotsDiscarded) && totalNumberOfSpots == old(totalNumberOfSpots)
      ensures Modified(dicom, spotsDiscarded - old(spotsDiscarded), err) == RunSteps(old(dicom), [s])
    {
      RunOne(dicom, s);
      err := None;
      match s
      case Approval => ApprovePlan();
      case DateStamp(date, time) => SetCurrentDate(date, time);
      case CurativeIntent => SetIntentToCurative();
      case Rescaling(ro) => err := RescalePlan(ro);
      case Duplication(n) => err := DuplicateFields(n);
      case Gantry(angles) => err := SetGantryAngles(angles);
      case Table(t) => err := SetTablePosition(t);
      case Snout(position) => err := SetSnoutPosition(position);
      case Machine(name) => err := SetTreatmentMachine(name);
      case Label(text) => SetPlanLabel(text);
      case Patient(name) => SetPatientName(name);
      case Reviewer(name) => SetReviewerName(name);
      case WizardTr4 => err := SetWizardTr4();
      case Shifter(id) => err := SetRangeShifter(Some(id));
      case Repainting(n) => err := SetRepainting(n);
    }

    /**
     * Stage k of `modify`: the k-th `if config.<option>:` and the call it guards. The run from
     * p0 is tracked through Continue, with the spots discarded since `base`.
     */
    method RunStage(ghost p0: Plan, o: ModifyOptions, k: nat, ghost base: nat) returns (err: Option<Error>)
      requires k < StageCount && spotsDiscarded >= base
      requires ModifyPlan(p0, o) == Continue(dicom, o, k, spotsDiscarded - base)
      modifies this
      ensures spotsDiscarded >= old(spotsDiscarded) && totalNumberOfSpots == old(totalNumberOfSpots)
      ensures err.None? ==> ModifyPlan(p0, o) == Continue(dicom, o, k + 1, spotsDiscarded - base)
      ensures err.None? && FirstControlPoints(old(dicom)) ==> FirstControlPoints(dicom)
      ensures err.Some? ==> ModifyPlan(p0, o) == Modified(dicom, spotsDiscarded - base, err)
    {
      match Stage(o, k)
      case None =>
        ModifySkips(p0, o, k, dicom, spotsDiscarded - base);
        err := None;
      case Some(s) =>
        ghost var q, d := dicom, spotsDiscarded - base;
        err := Perform(s);
        ModifyRuns(p0, o, k, q, d, s, Modified(dicom, spotsDiscarded - base - d, err));
    }

    /**
     * `modify(config)`: the fifteen guarded calls in their fixed order, stage k being the k-th
     * (Stage); the first exception ends the run and is returned.
     */
    method Modify(o: ModifyOptions) returns (err: Option<Error>)
      modifies this
      ensures var m := ModifyPlan(old(dicom), o);
        dicom == m.plan && spotsDiscarded == old(spotsDiscarded) + m.discarded && err == m.err
      ensures totalNumberOfSpots == old(totalNumberOfSpots)
    {
      ghost var p0, base := dicom, spotsDiscarded;
      err := None;
      for k := 0 to StageCount
        invariant spotsDiscarded >= base && err == None
        invariant totalNumberOfSpots == old(totalNumberOfSpots)
        invariant ModifyPlan(p0, o) == Continue(dicom, o, k, spotsDiscarded - base)
      {
        err := RunStage(p0, o, k, base);
        if err.Some? { return; }
      }
    }
  }
}
