/**
 * The rescale engine of `DicomUtil` (dicomfix/dicomutil.py): the whole-plan rescale by one
 * factor with optional per-layer factors, the spot-minimising factor, the per-field dose rescale
 * and the selection between them. Each operation is a function from the plan to a `Run`: the new
 * plan, the number of spots discarded, and the exception raised, if any. When an exception is
 * raised the plan is the one the code has left behind at that point, since it edits in place.
 */
module Rescale {
  import opened Common
  import opened IonPlan

  /** State of the first pass over a field's control points. */
  datatype Walk = Walk(
    cps: seq<ControlPoint>,   // control points, those before the cursor rewritten
    cum: real,                // running sum of the new weights
    index: nat,               // index of the next real energy layer
    factor: Option<real>,     // the layer factor last assigned, if any
    discarded: nat,           // spots discarded so far in this field
    err: Option<Error>)

  /** Result of a rescale: the plan afterwards, the layer factor variable, and the discards. */
  datatype Run = Run(plan: Plan, factor: Option<real>, discarded: nat, err: Option<Error>)

  /** The factor of the real energy layer with the given index. */
  function LayerFactor(layerFactors: seq<real>, index: nat): real
  {
    if index < |layerFactors| then layerFactors[index] else 1.0
  }

  /** Number of control points among the first n that carry a positive weight (real energy layers). */
  function PositiveBefore(cps: seq<ControlPoint>, n: nat): nat
    requires n <= |cps|
  {
    if n == 0 then 0
    else PositiveBefore(cps, n - 1) + (if HasPositive(cps[n - 1].weights) then 1 else 0)
  }

  /** One step of the first pass, on control point i. */
  function WalkStep(w: Walk, i: nat, layerFactors: seq<real>, mpw: real): (r: Walk)
    requires i < |w.cps|
    ensures |r.cps| == |w.cps|
  {
    var cp := w.cps[i].(cumulativeWeight := w.cum);
    var cps1 := w.cps[i := cp];
    var ws := cp.weights;
    var isReal := HasPositive(ws);
    if isReal && |layerFactors| > 0 && w.index >= |layerFactors| then
      w.(cps := cps1, err := Some(LayerFactorIndex))
    else
      var factor := if isReal then Some(if |layerFactors| > 0 then layerFactors[w.index] else 1.0) else w.factor;
      var index := if isReal then w.index + 1 else w.index;
      if |ws| > 0 && factor.None? then
        w.(cps := cps1, index := index, err := Some(LayerFactorUnbound))
      else
        var f := factor.GetOr(1.0);
        var nw := AdmitAll(ws, f, mpw);
        Walk(cps1[i := cp.(weights := nw)], w.cum + Sum(nw), index, factor,
             w.discarded + CountRejected(ws, f, mpw), None)
  }

  /** The first pass over control points 0 .. n-1, stopping at the first exception. */
  function Pass1(cps: seq<ControlPoint>, n: nat, layerFactors: seq<real>, mpw: real, factor0: Option<real>): (r: Walk)
    requires n <= |cps|
    ensures |r.cps| == |cps|
    decreases n, 1
  {
    if n == 0 then Walk(cps, 0.0, 0, factor0, 0, None) else Pass1Through(cps, n - 1, layerFactors, mpw, factor0)
  }

  /** The first pass over control points 0 .. i: control point i is visited unless an earlier one raised. */
  function Pass1Through(cps: seq<ControlPoint>, i: nat, layerFactors: seq<real>, mpw: real, factor0: Option<real>): (r: Walk)
    requires i < |cps|
    ensures |r.cps| == |cps|
    decreases i + 1, 0
  {
    var w := Pass1(cps, i, layerFactors, mpw, factor0);
    if w.err.Some? then w else WalkStep(w, i, layerFactors, mpw)
  }

  predicate NonNegativeWeights(cps: seq<ControlPoint>)
  {
    forall i :: 0 <= i < |cps| ==> NonNegative(cps[i].weights)
  }

  /** Reference count of the spots the first n control points discard. */
  function Discards(cps: seq<ControlPoint>, n: nat, layerFactors: seq<real>, mpw: real): nat
    requires n <= |cps|
  {
    if n == 0 then 0
    else Discards(cps, n - 1, layerFactors, mpw)
         + (if HasPositive(cps[n - 1].weights)
            then CountRejected(cps[n - 1].weights, LayerFactor(layerFactors, PositiveBefore(cps, n - 1)), mpw)
            else 0)
  }

  /** What the first pass has done to control point i once it is behind the cursor. */
  predicate Rewritten(orig: ControlPoint, cps: seq<ControlPoint>, i: nat, layerFactors: seq<real>,
                      mpw: real, positiveBefore: nat)
    requires i < |cps|
  {
    && cps[i] == orig.(cumulativeWeight := WeightTotal(cps[..i]), weights := cps[i].weights)
    && (HasPositive(orig.weights) ==>
          (|layerFactors| == 0 || positiveBefore < |layerFactors|)
          && cps[i].weights == AdmitAll(orig.weights, LayerFactor(layerFactors, positiveBefore), mpw))
    && (NonNegative(orig.weights) && !HasPositive(orig.weights) ==> cps[i].weights == orig.weights)
  }

  /** The factor the step on control point i multiplies the weights with. */
  function StepFactor(w: Walk, i: nat, layerFactors: seq<real>): real
    requires i < |w.cps|
  {
    (if HasPositive(w.cps[i].weights) then Some(LayerFactor(layerFactors, w.index)) else w.factor).GetOr(1.0)
  }

  /** A step that raises nothing rewrites control point i only. */
  lemma StepShape(w: Walk, i: nat, layerFactors: seq<real>, mpw: real)
    requires i < |w.cps|
    requires WalkStep(w, i, layerFactors, mpw).err.None?
    ensures var f := StepFactor(w, i, layerFactors);
      var nw := AdmitAll(w.cps[i].weights, f, mpw);
      var r := WalkStep(w, i, layerFactors, mpw);
      && r.cps == w.cps[i := w.cps[i].(cumulativeWeight := w.cum, weights := nw)]
      && r.cum == w.cum + Sum(nw)
      && r.index == w.index + (if HasPositive(w.cps[i].weights) then 1 else 0)
      && r.discarded == w.discarded + CountRejected(w.cps[i].weights, f, mpw)
      && (HasPositive(w.cps[i].weights) && |layerFactors| > 0 ==> w.index < |layerFactors|)
  {
  }

  /** Rewritten depends only on the control points up to i. */
  lemma RewrittenFrame(orig: ControlPoint, a: seq<ControlPoint>, b: seq<ControlPoint>, i: nat,
                       layerFactors: seq<real>, mpw: real, positiveBefore: nat)
    requires i < |a| && i < |b| && a[..i + 1] == b[..i + 1]
    requires Rewritten(orig, a, i, layerFactors, mpw, positiveBefore)
    ensures Rewritten(orig, b, i, layerFactors, mpw, positiveBefore)
  {
    assert a[..i] == a[..i + 1][..i] == b[..i + 1][..i] == b[..i];
    assert a[i] == a[..i + 1][i] == b[..i + 1][i] == b[i];
  }

  /** The weights of a layer without positive weights are left as they are when none is negative. */
  lemma ZeroLayerKept(ws: seq<real>, f: real, mpw: real)
    requires NonNegative(ws) && !HasPositive(ws)
    ensures AdmitAll(ws, f, mpw) == ws && CountRejected(ws, f, mpw) == 0
  {
    NotPositiveIsZero(ws);
    AdmitZeros(ws, f, mpw);
  }

  /** Facts about the cursor position of a first pass that raised nothing. */
  lemma {:induction false} Pass1Cursor(cps: seq<ControlPoint>, n: nat, layerFactors: seq<real>, mpw: real,
                                       factor0: Option<real>)
    requires n <= |cps|
    requires Pass1(cps, n, layerFactors, mpw, factor0).err.None?
    ensures var w := Pass1(cps, n, layerFactors, mpw, factor0);
      && (forall k :: n <= k < |cps| ==> w.cps[k] == cps[k])
      && w.index == PositiveBefore(cps, n)
      && w.cum == WeightTotal(w.cps[..n])
      && (NonNegativeWeights(cps) ==> w.discarded == Discards(cps, n, layerFactors, mpw))
  {
    if n > 0 {
      var m := n - 1;
      var w := Pass1(cps, m, layerFactors, mpw, factor0);
      Pass1Cursor(cps, m, layerFactors, mpw, factor0);
      StepShape(w, m, layerFactors, mpw);
      var r := WalkStep(w, m, layerFactors, mpw);
      assert r.cps[..m] == w.cps[..m];
      WeightTotalPrefixStep(r.cps, m);
      if NonNegativeWeights(cps) && !HasPositive(cps[m].weights) {
        ZeroLayerKept(cps[m].weights, StepFactor(w, m, layerFactors), mpw);
      }
    }
  }

  /**
   * A first pass that raised nothing has written each control point's cumulative weight as the
   * sum of the new weights before it, scaled and admitted the weights of each real energy layer
   * with the factor of its rank among the real layers, and left the all-zero layers alone.
   */
  lemma {:induction false} Pass1Meaning(cps: seq<ControlPoint>, n: nat, layerFactors: seq<real>, mpw: real,
                                        factor0: Option<real>)
    requires n <= |cps|
    requires Pass1(cps, n, layerFactors, mpw, factor0).err.None?
    ensures var w := Pass1(cps, n, layerFactors, mpw, factor0);
      forall i :: 0 <= i < n ==> Rewritten(cps[i], w.cps, i, layerFactors, mpw, PositiveBefore(cps, i))
  {
    if n > 0 {
      var m := n - 1;
      var w := Pass1(cps, m, layerFactors, mpw, factor0);
      Pass1Meaning(cps, m, layerFactors, mpw, factor0);
      Pass1Cursor(cps, m, layerFactors, mpw, factor0);
      StepShape(w, m, layerFactors, mpw);
      var r := WalkStep(w, m, layerFactors, mpw);
      forall i | 0 <= i < m
        ensures Rewritten(cps[i], r.cps, i, layerFactors, mpw, PositiveBefore(cps, i))
      {
        assert r.cps[..i + 1] == w.cps[..i + 1];
        RewrittenFrame(cps[i], w.cps, r.cps, i, layerFactors, mpw, PositiveBefore(cps, i));
      }
      assert r.cps[..m] == w.cps[..m];
      if NonNegative(cps[m].weights) && !HasPositive(cps[m].weights) {
        ZeroLayerKept(cps[m].weights, StepFactor(w, m, layerFactors), mpw);
      }
    }
  }

  /** The dose-reference coefficient: a running weight over the field total, 0.0 for a zero total. */
  function Coefficient(prefix: real, total: real): real
  {
    if total != 0.0 then prefix / total else 0.0
  }

  /** The second pass: each coefficient is the new weight of the earlier control points over the total. */
  function Pass2(cps: seq<ControlPoint>, total: real): (r: seq<ControlPoint>)
    ensures |r| == |cps|
  {
    seq(|cps|, i requires 0 <= i < |cps| => cps[i].(doseCoefficient := Coefficient(WeightTotal(cps[..i]), total)))
  }

  /** The body of the loop over fields, for field j. */
  function RescaleField(p: Plan, j: nat, rf: real, layerFactors: seq<real>, factor0: Option<real>): (r: Run)
    requires j < |p.beams|
    ensures |r.plan.beams| == |p.beams| && |r.plan.refBeams| == |p.refBeams|
  {
    var b := p.beams[j];
    var layers := b.numberOfControlPoints / 2;
    if |layerFactors| > 0 && |layerFactors| != layers then Run(p, factor0, 0, Some(LayerCountMismatch))
    else if j >= |p.refBeams| then Run(p, factor0, 0, Some(MissingReferencedBeam))
    else if b.finalWeight == 0.0 then Run(p, factor0, 0, Some(DivisionByZero))
    else
      var w := Pass1(b.cps, |b.cps|, layerFactors, AdmissionRatio(b, p.refBeams[j], rf), factor0);
      FinishField(p, j, w, rf, layerFactors)
  }

  /** Field j after both passes, its total written back. */
  function RescaledBeam(b: IonBeam, w: Walk): IonBeam
  {
    b.(cps := Pass2(w.cps, w.cum), finalWeight := w.cum)
  }

  function ScaledReference(ref: ReferencedBeam, rf: real): ReferencedBeam
  {
    ref.(dose := ref.dose * rf, meterset := ref.meterset * rf)
  }

  /** What follows the first pass over field j: the late count check, the second pass, the write-back. */
  function FinishField(p: Plan, j: nat, w: Walk, rf: real, layerFactors: seq<real>): (r: Run)
    requires j < |p.beams| && j < |p.refBeams|
    ensures |r.plan.beams| == |p.beams| && |r.plan.refBeams| == |p.refBeams|
  {
    var b := p.beams[j];
    var touched := p.(beams := p.beams[j := b.(cps := w.cps)]);
    if w.err.Some? then Run(touched, w.factor, w.discarded, w.err)
    else if |layerFactors| > 0 && w.index != b.numberOfControlPoints / 2 then
      Run(touched, w.factor, w.discarded, Some(LayerCountMismatchAfterRewrite))
    else
      Run(p.(beams := p.beams[j := RescaledBeam(b, w)], refBeams := p.refBeams[j := ScaledReference(p.refBeams[j], rf)]),
          w.factor, w.discarded, None)
  }

  /** The loop over the first n fields; the layer factor variable lives on from field to field. */
  function RescaleBeams(p: Plan, n: nat, rf: real, layerFactors: seq<real>, factor0: Option<real>): (r: Run)
    requires n <= |p.beams|
    ensures |r.plan.beams| == |p.beams| && |r.plan.refBeams| == |p.refBeams|
  {
    if n == 0 then Run(p, factor0, 0, None)
    else
      var r := RescaleBeams(p, n - 1, rf, layerFactors, factor0);
      if r.err.Some? then r
      else
        var s := RescaleField(r.plan, n - 1, rf, layerFactors, r.factor);
        s.(discarded := r.discarded + s.discarded)
  }

  /** `apply_rescale_factor(rescale_factor, layer_factors)`; an empty list stands for no factors. */
  function ApplyRescale(p: Plan, rf: real, layerFactors: seq<real>): (r: Run)
    ensures |r.plan.beams| == |p.beams| && |r.plan.refBeams| == |p.refBeams|
    ensures r.err.Some? ==> RescaleError(r.err.value)
  {
    RescaleBeamsErrors(p, |p.beams|, rf, layerFactors, None);
    RescaleBeams(p, |p.beams|, rf, layerFactors, None)
  }

  /** The meterset per weight used by the admission rule: the new meterset over the ORIGINAL final weight. */
  function AdmissionRatio(ob: IonBeam, oref: ReferencedBeam, rf: real): real
  {
    if ob.finalWeight == 0.0 then 0.0 else oref.meterset * rf / ob.finalWeight
  }

  /** The bookkeeping of a rescaled field: prefix-before cumulative weights, coefficients and total. */
  predicate Bookkept(ob: IonBeam, nb: IonBeam)
  {
    && |nb.cps| == |ob.cps|
    && nb == ob.(cps := nb.cps, finalWeight := WeightTotal(nb.cps))
    && forall i :: 0 <= i < |ob.cps| ==> BookkeptAt(ob.cps, nb.cps, i)
  }

  /** Control point i keeps everything but its weights, its cumulative weight and its coefficient. */
  predicate BookkeptAt(ocps: seq<ControlPoint>, ncps: seq<ControlPoint>, i: nat)
    requires i < |ocps| == |ncps|
  {
    ncps[i] == ocps[i].(cumulativeWeight := WeightTotal(ncps[..i]),
                        doseCoefficient := Coefficient(WeightTotal(ncps[..i]), WeightTotal(ncps)),
                        weights := ncps[i].weights)
  }

  /** The new weights: each real energy layer scaled by its factor and admitted, all-zero layers kept. */
  predicate WeightsRescaled(ocps: seq<ControlPoint>, ncps: seq<ControlPoint>, layerFactors: seq<real>, mpw: real)
    requires |ncps| == |ocps|
  {
    forall i :: 0 <= i < |ocps| ==> LayerRescaled(ocps, ncps, layerFactors, mpw, i)
  }

  /** The new weights of control point i. */
  predicate LayerRescaled(ocps: seq<ControlPoint>, ncps: seq<ControlPoint>, layerFactors: seq<real>, mpw: real, i: nat)
    requires i < |ocps| == |ncps|
  {
    && (HasPositive(ocps[i].weights) ==>
          ncps[i].weights == AdmitAll(ocps[i].weights, LayerFactor(layerFactors, PositiveBefore(ocps, i)), mpw))
    && (NonNegative(ocps[i].weights) && !HasPositive(ocps[i].weights) ==> ncps[i].weights == ocps[i].weights)
  }

  /** How a successfully rescaled field and its referenced beam relate to the original ones. */
  predicate FieldRescaled(ob: IonBeam, oref: ReferencedBeam, nb: IonBeam, nref: ReferencedBeam,
                          rf: real, layerFactors: seq<real>)
  {
    && nref == oref.(dose := oref.dose * rf, meterset := oref.meterset * rf)
    && Bookkept(ob, nb)
    && WeightsRescaled(ob.cps, nb.cps, layerFactors, AdmissionRatio(ob, oref, rf))
  }

  /** The two passes over one field, when the first raised nothing. */
  lemma PassesMeaning(ob: IonBeam, layerFactors: seq<real>, mpw: real, factor0: Option<real>)
    requires Pass1(ob.cps, |ob.cps|, layerFactors, mpw, factor0).err.None?
    ensures var w := Pass1(ob.cps, |ob.cps|, layerFactors, mpw, factor0);
      var nb := ob.(cps := Pass2(w.cps, w.cum), finalWeight := w.cum);
      && Bookkept(ob, nb)
      && WeightsRescaled(ob.cps, nb.cps, layerFactors, mpw)
      && w.index == PositiveBefore(ob.cps, |ob.cps|)
      && (NonNegativeWeights(ob.cps) ==> w.discarded == Discards(ob.cps, |ob.cps|, layerFactors, mpw))
  {
    var w := Pass1(ob.cps, |ob.cps|, layerFactors, mpw, factor0);
    Pass1Cursor(ob.cps, |ob.cps|, layerFactors, mpw, factor0);
    var cps2 := Pass2(w.cps, w.cum);
    PassesTotal(ob, layerFactors, mpw, factor0);
    forall i | 0 <= i < |ob.cps|
      ensures BookkeptAt(ob.cps, cps2, i) && LayerRescaled(ob.cps, cps2, layerFactors, mpw, i)
    {
      PassesAt(ob, layerFactors, mpw, factor0, i);
    }
  }

  /** The final weight the first pass accumulates is the total of the rewritten field. */
  lemma PassesTotal(ob: IonBeam, layerFactors: seq<real>, mpw: real, factor0: Option<real>)
    requires Pass1(ob.cps, |ob.cps|, layerFactors, mpw, factor0).err.None?
    ensures var w := Pass1(ob.cps, |ob.cps|, layerFactors, mpw, factor0);
      w.cum == WeightTotal(Pass2(w.cps, w.cum))
  {
    var w := Pass1(ob.cps, |ob.cps|, layerFactors, mpw, factor0);
    Pass1Cursor(ob.cps, |ob.cps|, layerFactors, mpw, factor0);
    var cps2 := Pass2(w.cps, w.cum);
    assert w.cps[..|w.cps|] == w.cps && cps2[..|cps2|] == cps2;
    WeightTotalSameWeights(cps2, w.cps);
  }

  /** Control point i after the two passes. */
  lemma PassesAt(ob: IonBeam, layerFactors: seq<real>, mpw: real, factor0: Option<real>, i: nat)
    requires Pass1(ob.cps, |ob.cps|, layerFactors, mpw, factor0).err.None? && i < |ob.cps|
    ensures var w := Pass1(ob.cps, |ob.cps|, layerFactors, mpw, factor0);
      var cps2 := Pass2(w.cps, w.cum);
      && cps2[i] == ob.cps[i].(cumulativeWeight := WeightTotal(cps2[..i]),
                               doseCoefficient := Coefficient(WeightTotal(cps2[..i]), w.cum),
                               weights := cps2[i].weights)
      && (HasPositive(ob.cps[i].weights) ==>
            cps2[i].weights == AdmitAll(ob.cps[i].weights, LayerFactor(layerFactors, PositiveBefore(ob.cps, i)), mpw))
      && (NonNegative(ob.cps[i].weights) && !HasPositive(ob.cps[i].weights) ==> cps2[i].weights == ob.cps[i].weights)
  {
    var w := Pass1(ob.cps, |ob.cps|, layerFactors, mpw, factor0);
    Pass1Meaning(ob.cps, |ob.cps|, layerFactors, mpw, factor0);
    assert Rewritten(ob.cps[i], w.cps, i, layerFactors, mpw, PositiveBefore(ob.cps, i));
    var cps2 := Pass2(w.cps, w.cum);
    WeightTotalSameWeights(cps2[..i], w.cps[..i]);
  }

  /**
   * A field rescale that raised nothing found the referenced beam, a non-zero final weight and,
   * with layer factors, as many real layers as factors; it changed field j and its referenced beam only,
   * as FieldRescaled says, and counted the spots the reference count Discards gives.
   */
  lemma RescaleFieldMeaning(p: Plan, j: nat, rf: real, layerFactors: seq<real>, factor0: Option<real>)
    requires j < |p.beams|
    requires RescaleField(p, j, rf, layerFactors, factor0).err.None?
    ensures var r := RescaleField(p, j, rf, layerFactors, factor0);
      var ob := p.beams[j];
      && j < |p.refBeams| && ob.finalWeight != 0.0
      && (|layerFactors| > 0 ==> |layerFactors| == ob.numberOfControlPoints / 2 == PositiveBefore(ob.cps, |ob.cps|))
      && r.plan == p.(beams := p.beams[j := r.plan.beams[j]], refBeams := p.refBeams[j := r.plan.refBeams[j]])
      && FieldRescaled(ob, p.refBeams[j], r.plan.beams[j], r.plan.refBeams[j], rf, layerFactors)
  {
    var ob := p.beams[j];
    var mpw := AdmissionRatio(ob, p.refBeams[j], rf);
    var w := Pass1(ob.cps, |ob.cps|, layerFactors, mpw, factor0);
    PassesMeaning(ob, layerFactors, mpw, factor0);
    var r := RescaleField(p, j, rf, layerFactors, factor0);
    assert r.plan.beams[j] == RescaledBeam(ob, w);
    assert r.plan.refBeams[j] == ScaledReference(p.refBeams[j], rf);
  }

  /** The frame part of RescaleFieldMeaning: only field j and its referenced beam change. */
  lemma RescaleFieldFrame(p: Plan, j: nat, rf: real, layerFactors: seq<real>, factor0: Option<real>)
    requires j < |p.beams|
    requires RescaleField(p, j, rf, layerFactors, factor0).err.None?
    ensures var r := RescaleField(p, j, rf, layerFactors, factor0);
      && j < |p.refBeams|
      && r.plan == p.(beams := p.beams[j := r.plan.beams[j]], refBeams := p.refBeams[j := r.plan.refBeams[j]])
  {
    var ob := p.beams[j];
    var w := Pass1(ob.cps, |ob.cps|, layerFactors, AdmissionRatio(ob, p.refBeams[j], rf), factor0);
    var r := RescaleField(p, j, rf, layerFactors, factor0);
    assert r.plan == p.(beams := p.beams[j := RescaledBeam(ob, w)], refBeams := p.refBeams[j := ScaledReference(p.refBeams[j], rf)]);
  }

  /** With no negative weight in the field, the count is the reference count of rejected spots. */
  lemma RescaleFieldDiscards(p: Plan, j: nat, rf: real, layerFactors: seq<real>, factor0: Option<real>)
    requires j < |p.beams|
    requires RescaleField(p, j, rf, layerFactors, factor0).err.None?
    requires NonNegativeWeights(p.beams[j].cps)
    ensures j < |p.refBeams|
    ensures RescaleField(p, j, rf, layerFactors, factor0).discarded
            == Discards(p.beams[j].cps, |p.beams[j].cps|, layerFactors, AdmissionRatio(p.beams[j], p.refBeams[j], rf))
  {
    var ob := p.beams[j];
    PassesMeaning(ob, layerFactors, AdmissionRatio(ob, p.refBeams[j], rf), factor0);
  }

  predicate AllNonNegative(p: Plan)
  {
    forall j :: 0 <= j < |p.beams| ==> NonNegativeWeights(p.beams[j].cps)
  }

  /** Reference count of the spots discarded in field j. */
  function FieldDiscards(p: Plan, j: nat, rf: real, layerFactors: seq<real>): nat
    requires j < |p.beams|
  {
    if j < |p.refBeams| then
      Discards(p.beams[j].cps, |p.beams[j].cps|, layerFactors, AdmissionRatio(p.beams[j], p.refBeams[j], rf))
    else 0
  }

  /** Reference count of the spots discarded in the first n fields. */
  function PlanDiscards(p: Plan, n: nat, rf: real, layerFactors: seq<real>): nat
    requires n <= |p.beams|
  {
    if n == 0 then 0 else PlanDiscards(p, n - 1, rf, layerFactors) + FieldDiscards(p, n - 1, rf, layerFactors)
  }

  /**
   * A rescale of the first n fields that raised nothing has rescaled each of them as FieldRescaled
   * says, has left the later fields and every other attribute of the plan alone, and, when no weight
   * is negative, counted exactly the spots the reference count gives.
   */
  lemma RescaleBeamsMeaning(p: Plan, n: nat, rf: real, layerFactors: seq<real>, factor0: Option<real>)
    requires n <= |p.beams|
    requires RescaleBeams(p, n, rf, layerFactors, factor0).err.None?
    ensures var r := RescaleBeams(p, n, rf, layerFactors, factor0);
      && n <= |p.refBeams|
      && r.plan == p.(beams := r.plan.beams, refBeams := r.plan.refBeams)
      && (forall j :: 0 <= j < n ==>
            FieldRescaled(p.beams[j], p.refBeams[j], r.plan.beams[j], r.plan.refBeams[j], rf, layerFactors))
      && (forall j :: n <= j < |p.beams| ==> r.plan.beams[j] == p.beams[j])
      && (forall j :: n <= j < |p.refBeams| ==> r.plan.refBeams[j] == p.refBeams[j])
      && (AllNonNegative(p) ==> r.discarded == PlanDiscards(p, n, rf, layerFactors))
  {
    RescaleBeamsFrame(p, n, rf, layerFactors, factor0);
    RescaleBeamsFields(p, n, rf, layerFactors, factor0);
    if AllNonNegative(p) {
      RescaleBeamsCount(p, n, rf, layerFactors, factor0);
    }
  }

  /** A rescale of the first n fields that raised nothing did not raise over the first n - 1. */
  lemma RescaleBeamsPrefixOk(p: Plan, n: nat, rf: real, layerFactors: seq<real>, factor0: Option<real>)
    requires 0 < n <= |p.beams|
    requires RescaleBeams(p, n, rf, layerFactors, factor0).err.None?
    ensures RescaleBeams(p, n - 1, rf, layerFactors, factor0).err.None?
  {
  }

  /** The frame part of RescaleBeamsMeaning: only the fields and referenced beams change, and only the first n. */
  lemma {:induction false} RescaleBeamsFrame(p: Plan, n: nat, rf: real, layerFactors: seq<real>, factor0: Option<real>)
    requires n <= |p.beams|
    requires RescaleBeams(p, n, rf, layerFactors, factor0).err.None?
    ensures var r := RescaleBeams(p, n, rf, layerFactors, factor0);
      && n <= |p.refBeams|
      && r.plan == p.(beams := r.plan.beams, refBeams := r.plan.refBeams)
      && (forall j :: n <= j < |p.beams| ==> r.plan.beams[j] == p.beams[j])
      && (forall j :: n <= j < |p.refBeams| ==> r.plan.refBeams[j] == p.refBeams[j])
  {
    if n > 0 {
      var m := n - 1;
      var r := RescaleBeams(p, m, rf, layerFactors, factor0);
      RescaleBeamsPrefixOk(p, n, rf, layerFactors, factor0);
      RescaleBeamsFrame(p, m, rf, layerFactors, factor0);
      RescaleFieldFrame(r.plan, m, rf, layerFactors, r.factor);
    }
  }

  /** The fields part of RescaleBeamsMeaning. */
  lemma RescaleBeamsFields(p: Plan, n: nat, rf: real, layerFactors: seq<real>, factor0: Option<real>)
    requires n <= |p.beams|
    requires RescaleBeams(p, n, rf, layerFactors, factor0).err.None?
    ensures var r := RescaleBeams(p, n, rf, layerFactors, factor0);
      && n <= |p.refBeams|
      && (forall j :: 0 <= j < n ==>
            FieldRescaled(p.beams[j], p.refBeams[j], r.plan.beams[j], r.plan.refBeams[j], rf, layerFactors))
  {
    RescaleBeamsFrame(p, n, rf, layerFactors, factor0);
    var r := RescaleBeams(p, n, rf, layerFactors, factor0);
    forall j | 0 <= j < n
      ensures FieldRescaled(p.beams[j], p.refBeams[j], r.plan.beams[j], r.plan.refBeams[j], rf, layerFactors)
    {
      RescaleBeamsFieldAt(p, n, j, rf, layerFactors, factor0);
    }
  }

  /** Field j of the first n, rescaled as FieldRescaled says. */
  lemma {:induction false} RescaleBeamsFieldAt(p: Plan, n: nat, j: nat, rf: real, layerFactors: seq<real>, factor0: Option<real>)
    requires j < n <= |p.beams|
    requires RescaleBeams(p, n, rf, layerFactors, factor0).err.None?
    ensures var r := RescaleBeams(p, n, rf, layerFactors, factor0);
      && j < |p.refBeams|
      && FieldRescaled(p.beams[j], p.refBeams[j], r.plan.beams[j], r.plan.refBeams[j], rf, layerFactors)
  {
    var m := n - 1;
    var r := RescaleBeams(p, m, rf, layerFactors, factor0);
    RescaleBeamsPrefixOk(p, n, rf, layerFactors, factor0);
    RescaleFieldMeaning(r.plan, m, rf, layerFactors, r.factor);
    var s := RescaleField(r.plan, m, rf, layerFactors, r.factor);
    assert RescaleBeams(p, n, rf, layerFactors, factor0).plan == s.plan;
    if j < m {
      RescaleBeamsFieldAt(p, m, j, rf, layerFactors, factor0);
      assert s.plan.beams[j] == r.plan.beams[j] && s.plan.refBeams[j] == r.plan.refBeams[j];
    } else {
      RescaleBeamsFrame(p, m, rf, layerFactors, factor0);
      assert r.plan.beams[j] == p.beams[j] && r.plan.refBeams[j] == p.refBeams[j];
    }
  }

  /** The discard part of RescaleBeamsMeaning. */
  lemma {:induction false} RescaleBeamsCount(p: Plan, n: nat, rf: real, layerFactors: seq<real>, factor0: Option<real>)
    requires n <= |p.beams| && AllNonNegative(p)
    requires RescaleBeams(p, n, rf, layerFactors, factor0).err.None?
    ensures RescaleBeams(p, n, rf, layerFactors, factor0).discarded == PlanDiscards(p, n, rf, layerFactors)
  {
    if n > 0 {
      var m := n - 1;
      assert NonNegativeWeights(p.beams[m].cps);
      RescaleBeamsCountStep(p, n, rf, layerFactors, factor0);
      RescaleBeamsCount(p, m, rf, layerFactors, factor0);
      assert PlanDiscards(p, n, rf, layerFactors) == PlanDiscards(p, m, rf, layerFactors) + FieldDiscards(p, m, rf, layerFactors);
    }
  }

  /** One field's worth of RescaleBeamsCount. */
  lemma RescaleBeamsCountStep(p: Plan, n: nat, rf: real, layerFactors: seq<real>, factor0: Option<real>)
    requires 0 < n <= |p.beams| && NonNegativeWeights(p.beams[n - 1].cps)
    requires RescaleBeams(p, n, rf, layerFactors, factor0).err.None?
    ensures RescaleBeams(p, n - 1, rf, layerFactors, factor0).err.None?
    ensures RescaleBeams(p, n, rf, layerFactors, factor0).discarded
            == RescaleBeams(p, n - 1, rf, layerFactors, factor0).discarded + FieldDiscards(p, n - 1, rf, layerFactors)
  {
    var m := n - 1;
    var r := RescaleBeams(p, m, rf, layerFactors, factor0);
    RescaleBeamsPrefixOk(p, n, rf, layerFactors, factor0);
    RescaleBeamsFrame(p, m, rf, layerFactors, factor0);
    assert r.plan.beams[m] == p.beams[m] && r.plan.refBeams[m] == p.refBeams[m];
    RescaleFieldDiscards(r.plan, m, rf, layerFactors, r.factor);
  }

  /** The whole-plan statement of RescaleBeamsMeaning, for `apply_rescale_factor`. */
  lemma ApplyRescaleMeaning(p: Plan, rf: real, layerFactors: seq<real>)
    requires ApplyRescale(p, rf, layerFactors).err.None?
    ensures var r := ApplyRescale(p, rf, layerFactors);
      && Paired(p)
      && r.plan == p.(beams := r.plan.beams, refBeams := r.plan.refBeams)
      && (forall j :: 0 <= j < |p.beams| ==>
            FieldRescaled(p.beams[j], p.refBeams[j], r.plan.beams[j], r.plan.refBeams[j], rf, layerFactors))
      && (forall j :: |p.beams| <= j < |p.refBeams| ==> r.plan.refBeams[j] == p.refBeams[j])
      && (AllNonNegative(p) ==> r.discarded == PlanDiscards(p, |p.beams|, rf, layerFactors))
  {
    RescaleBeamsMeaning(p, |p.beams|, rf, layerFactors, None);
  }

  /** A rescale that raised nothing keeps every field and every control point. */
  lemma ApplyRescaleShape(p: Plan, rf: real, layerFactors: seq<real>)
    requires ApplyRescale(p, rf, layerFactors).err.None?
    ensures SameShape(p, ApplyRescale(p, rf, layerFactors).plan)
  {
    ApplyRescaleMeaning(p, rf, layerFactors);
  }

  /** The first coefficient is 0; the last is 1 when the last control point weighs nothing and the total does. */
  lemma CoefficientEnds(ob: IonBeam, nb: IonBeam)
    requires Bookkept(ob, nb) && |nb.cps| > 0
    ensures nb.cps[0].doseCoefficient == 0.0
    ensures WeightTotal(nb.cps) != 0.0 && Sum(nb.cps[|nb.cps| - 1].weights) == 0.0
            ==> nb.cps[|nb.cps| - 1].doseCoefficient == 1.0
  {
    assert nb.cps[..0] == [];
    var n := |nb.cps|;
    var t := WeightTotal(nb.cps);
    assert BookkeptAt(ob.cps, nb.cps, 0) && BookkeptAt(ob.cps, nb.cps, n - 1);
    if t != 0.0 && Sum(nb.cps[n - 1].weights) == 0.0 {
      assert t == WeightTotal(nb.cps[..n - 1]) + Sum(nb.cps[n - 1].weights);
      assert nb.cps[n - 1].doseCoefficient == Coefficient(t, t);
      CoefficientOfTotal(t);
    }
  }

  lemma CoefficientOfTotal(t: real)
    requires t != 0.0
    ensures Coefficient(t, t) == 1.0
  {
  }

  /** The running weight over a prefix never decreases when no weight is negative. */
  lemma {:induction false} WeightTotalMonotone(cps: seq<ControlPoint>, i: nat, k: nat)
    requires i <= k <= |cps| && NonNegativeWeights(cps)
    ensures 0.0 <= WeightTotal(cps[..i]) <= WeightTotal(cps[..k])
  {
    if k > i {
      WeightTotalMonotone(cps, i, k - 1);
      WeightTotalPrefixStep(cps, k - 1);
      SumNonNegative(cps[k - 1].weights);
    } else if i > 0 {
      WeightTotalMonotone(cps, i - 1, i - 1);
      WeightTotalPrefixStep(cps, i - 1);
      SumNonNegative(cps[i - 1].weights);
    } else {
      assert cps[..0] == [];
    }
  }

  /** With no negative new weight the coefficients run from 0 up to at most 1 without decreasing. */
  lemma CoefficientsNormalised(ob: IonBeam, nb: IonBeam, i: nat, k: nat)
    requires Bookkept(ob, nb) && NonNegativeWeights(nb.cps)
    requires i <= k < |nb.cps|
    ensures 0.0 <= nb.cps[i].doseCoefficient <= nb.cps[k].doseCoefficient <= 1.0
  {
    var t := WeightTotal(nb.cps);
    var a := WeightTotal(nb.cps[..i]);
    var b := WeightTotal(nb.cps[..k]);
    assert BookkeptAt(ob.cps, nb.cps, i) && BookkeptAt(ob.cps, nb.cps, k);
    assert nb.cps[i].doseCoefficient == Coefficient(a, t);
    assert nb.cps[k].doseCoefficient == Coefficient(b, t);
    WeightTotalMonotone(nb.cps, i, k);
    WeightTotalMonotone(nb.cps, k, |nb.cps|);
    assert nb.cps[..|nb.cps|] == nb.cps;
    CoefficientOrder(a, b, t);
  }

  /** Running weights 0 <= a <= b <= t give coefficients 0 <= a / t <= b / t <= 1. */
  lemma CoefficientOrder(a: real, b: real, t: real)
    requires 0.0 <= a <= b <= t
    ensures 0.0 <= Coefficient(a, t) <= Coefficient(b, t) <= 1.0
  {
    if t != 0.0 {
      DivideMonotone(a, b, t);
      DivideMonotone(b, t, t);
    }
  }

  lemma DivideMonotone(a: real, b: real, t: real)
    requires a <= b && t > 0.0
    ensures a / t <= b / t && t / t == 1.0
  {
  }

  /**
   * A factor list whose length is not the first field's layer count raises before anything is
   * written: the plan is returned unchanged and no spot is counted.
   */
  lemma {:induction false} EarlyMismatchUntouched(p: Plan, n: nat, rf: real, layerFactors: seq<real>)
    requires 0 < n <= |p.beams|
    requires |layerFactors| > 0 && |layerFactors| != p.beams[0].numberOfControlPoints / 2
    ensures RescaleBeams(p, n, rf, layerFactors, None) == Run(p, None, 0, Some(LayerCountMismatch))
  {
    if n > 1 {
      EarlyMismatchUntouched(p, n - 1, rf, layerFactors);
    }
  }

  /**
   * The late count check raises after the first pass: the field's weights and cumulative weights
   * are already rewritten, while its final weight, coefficients and referenced beam are not.
   */
  lemma LateMismatchRewritten(p: Plan, j: nat, rf: real, layerFactors: seq<real>, factor0: Option<real>)
    requires j < |p.beams|
    requires RescaleField(p, j, rf, layerFactors, factor0).err == Some(LayerCountMismatchAfterRewrite)
    ensures var r := RescaleField(p, j, rf, layerFactors, factor0);
      var ob := p.beams[j];
      var nb := r.plan.beams[j];
      && |layerFactors| == ob.numberOfControlPoints / 2 != PositiveBefore(ob.cps, |ob.cps|)
      && j < |p.refBeams|
      && r.plan == p.(beams := p.beams[j := nb])
      && nb == ob.(cps := nb.cps)
      && forall i :: 0 <= i < |ob.cps| ==>
           Rewritten(ob.cps[i], nb.cps, i, layerFactors, AdmissionRatio(ob, p.refBeams[j], rf), PositiveBefore(ob.cps, i))
  {
    var ob := p.beams[j];
    assert j < |p.refBeams| && ob.finalWeight != 0.0;
    var mpw := AdmissionRatio(ob, p.refBeams[j], rf);
    Pass1Errors(ob.cps, |ob.cps|, layerFactors, mpw, factor0);
    Pass1Cursor(ob.cps, |ob.cps|, layerFactors, mpw, factor0);
    Pass1Meaning(ob.cps, |ob.cps|, layerFactors, mpw, factor0);
  }

  /** A layer factor is ready when one is already assigned or the first control point is a real layer. */
  predicate FactorReady(cps: seq<ControlPoint>, factor0: Option<real>)
  {
    factor0.Some? || (|cps| > 0 && HasPositive(cps[0].weights))
  }

  /** Without layer factors the first pass raises nothing once a factor is ready. */
  lemma {:induction false} Pass1NoFactors(cps: seq<ControlPoint>, n: nat, mpw: real, factor0: Option<real>)
    requires n <= |cps| && FactorReady(cps, factor0)
    ensures Pass1(cps, n, [], mpw, factor0).err.None?
    ensures factor0.Some? || n > 0 ==> Pass1(cps, n, [], mpw, factor0).factor.Some?
  {
    if n > 0 {
      Pass1NoFactors(cps, n - 1, mpw, factor0);
      if n - 1 == 0 {
        assert Pass1(cps, 0, [], mpw, factor0).cps == cps;
      }
    }
  }

  /** The first field's first control point is a real energy layer (or there is no field). */
  predicate StartsWithRealLayer(p: Plan)
  {
    |p.beams| == 0 || FactorReady(p.beams[0].cps, None)
  }

  /** Without layer factors, a plan with a referenced beam and a non-zero final weight per field rescales without error. */
  lemma {:induction false} RescaleBeamsNoFactors(p: Plan, n: nat, rf: real)
    requires n <= |p.beams| && Paired(p) && StartsWithRealLayer(p)
    requires forall j :: 0 <= j < |p.beams| ==> p.beams[j].finalWeight != 0.0
    ensures RescaleBeams(p, n, rf, [], None).err.None?
    ensures n > 0 ==> RescaleBeams(p, n, rf, [], None).factor.Some?
  {
    if n > 0 {
      var m := n - 1;
      RescaleBeamsNoFactors(p, m, rf);
      var r := RescaleBeams(p, m, rf, [], None);
      RescaleBeamsMeaning(p, m, rf, [], None);
      var b := r.plan.beams[m];
      assert b == p.beams[m];
      Pass1NoFactors(b.cps, |b.cps|, AdmissionRatio(b, r.plan.refBeams[m], rf), r.factor);
    }
  }

  lemma ApplyRescaleNoFactors(p: Plan, rf: real)
    requires Paired(p) && StartsWithRealLayer(p)
    requires forall j :: 0 <= j < |p.beams| ==> p.beams[j].finalWeight != 0.0
    ensures ApplyRescale(p, rf, []).err.None?
  {
    RescaleBeamsNoFactors(p, |p.beams|, rf);
  }

  /** The exceptions the rescale can raise. */
  predicate RescaleError(e: Error)
  {
    e in {LayerCountMismatch, MissingReferencedBeam, DivisionByZero, LayerFactorIndex, LayerFactorUnbound,
          LayerCountMismatchAfterRewrite}
  }

  lemma {:induction false} Pass1Errors(cps: seq<ControlPoint>, n: nat, layerFactors: seq<real>, mpw: real, factor0: Option<real>)
    requires n <= |cps|
    ensures var e := Pass1(cps, n, layerFactors, mpw, factor0).err;
      e.Some? ==> e.value == LayerFactorIndex || e.value == LayerFactorUnbound
  {
    if n > 0 {
      Pass1Errors(cps, n - 1, layerFactors, mpw, factor0);
    }
  }

  lemma {:induction false} RescaleBeamsErrors(p: Plan, n: nat, rf: real, layerFactors: seq<real>, factor0: Option<real>)
    requires n <= |p.beams|
    ensures var e := RescaleBeams(p, n, rf, layerFactors, factor0).err;
      e.Some? ==> RescaleError(e.value)
  {
    if n > 0 {
      RescaleBeamsErrors(p, n - 1, rf, layerFactors, factor0);
      var r := RescaleBeams(p, n - 1, rf, layerFactors, factor0);
      if r.err.None? && n - 1 < |r.plan.refBeams| {
        var b := r.plan.beams[n - 1];
        Pass1Errors(b.cps, |b.cps|, layerFactors, AdmissionRatio(b, r.plan.refBeams[n - 1], rf), r.factor);
      }
    }
  }
}
