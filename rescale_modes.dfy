/**
 * The three ways `DicomUtil` chooses a rescale factor (dicomfix/dicomutil.py): minimising the
 * plan so that its smallest spot gets MuMin, rescaling to a new field dose, and the selection
 * between these, a plain factor and layer factors alone.
 */
module RescaleModes {
  import opened Common
  import opened IonPlan
  import opened Rescale

  /** The initial value of the smallest spot MU seen, larger than any plausible spot. */
  const LowestStart: real := 9900000000.0

  /** MU per unit weight of a field: its meterset over its final cumulative weight. */
  function MetersetPerWeight(b: IonBeam, ref: ReferencedBeam): real
  {
    if b.finalWeight == 0.0 then 0.0 else ref.meterset / b.finalWeight
  }

  /** The MU of a spot of the given weight. */
  function Mu(w: real, mpw: real): real
  {
    w * mpw
  }

  /** The running minimum over the positive spots of one control point, in order. */
  function LowestInLayer(ws: seq<real>, mpw: real, low: real): real
  {
    if |ws| == 0 then low
    else
      var l := LowestInLayer(ws[..|ws| - 1], mpw, low);
      var w := ws[|ws| - 1];
      if w > 0.0 && Mu(w, mpw) < l then Mu(w, mpw) else l
  }

  function LowestInField(cps: seq<ControlPoint>, mpw: real, low: real): real
  {
    if |cps| == 0 then low
    else LowestInLayer(cps[|cps| - 1].weights, mpw, LowestInField(cps[..|cps| - 1], mpw, low))
  }

  /** The running minimum over the first n fields, or the exception the meterset lookup raises. */
  function LowestSpot(p: Plan, n: nat): (r: Result<real>)
    requires n <= |p.beams|
    ensures r.Failure? ==> r.error == MissingReferencedBeam || r.error == DivisionByZero
  {
    if n == 0 then Success(LowestStart)
    else
      match LowestSpot(p, n - 1)
      case Failure(e) => Failure(e)
      case Success(low) =>
        if n - 1 >= |p.refBeams| then Failure(MissingReferencedBeam)
        else if p.beams[n - 1].finalWeight == 0.0 then Failure(DivisionByZero)
        else Success(LowestInField(p.beams[n - 1].cps, MetersetPerWeight(p.beams[n - 1], p.refBeams[n - 1]), low))
  }

  /** The factor `minimize_plan` rescales with. */
  function MinimizeFactor(p: Plan): Result<real>
  {
    match LowestSpot(p, |p.beams|)
    case Failure(e) => Failure(e)
    case Success(low) => if low == 0.0 then Failure(DivisionByZero) else Success(MuMin / low)
  }

  /** `minimize_plan` */
  function Minimize(p: Plan): (r: Run)
    ensures |r.plan.beams| == |p.beams|
    ensures r.err.Some? ==> RescaleError(r.err.value)
  {
    match MinimizeFactor(p)
    case Failure(e) => Run(p, None, 0, Some(e))
    case Success(s) => ApplyRescale(p, s, [])
  }

  predicate IsSpot(p: Plan, j: nat, i: nat, k: nat)
  {
    j < |p.beams| && j < |p.refBeams| && i < |p.beams[j].cps| && k < |p.beams[j].cps[i].weights|
  }

  /** The MU of spot k of control point i of field j. */
  function SpotMu(p: Plan, j: nat, i: nat, k: nat): real
    requires IsSpot(p, j, i, k)
  {
    Mu(p.beams[j].cps[i].weights[k], MetersetPerWeight(p.beams[j], p.refBeams[j]))
  }

  /** The running minimum over one layer is at most its start and each positive spot, and is one of them. */
  lemma {:induction false} LowestInLayerBound(ws: seq<real>, mpw: real, low: real)
    ensures LowestInLayer(ws, mpw, low) <= low
    ensures forall k :: 0 <= k < |ws| && ws[k] > 0.0 ==> LowestInLayer(ws, mpw, low) <= Mu(ws[k], mpw)
    ensures LowestInLayer(ws, mpw, low) == low
            || exists k :: 0 <= k < |ws| && ws[k] > 0.0 && LowestInLayer(ws, mpw, low) == Mu(ws[k], mpw)
  {
    if |ws| > 0 {
      var p := ws[..|ws| - 1];
      LowestInLayerBound(p, mpw, low);
      var l := LowestInLayer(p, mpw, low);
      if l != low {
        var k: nat :| 0 <= k < |p| && p[k] > 0.0 && l == Mu(p[k], mpw);
        assert ws[k] == p[k];
      }
    }
  }

  lemma {:induction false} LowestInFieldBound(cps: seq<ControlPoint>, mpw: real, low: real)
    ensures LowestInField(cps, mpw, low) <= low
    ensures forall i: nat, k: nat :: 0 <= i < |cps| && 0 <= k < |cps[i].weights| && cps[i].weights[k] > 0.0
              ==> LowestInField(cps, mpw, low) <= Mu(cps[i].weights[k], mpw)
    ensures LowestInField(cps, mpw, low) == low
            || exists i: nat, k: nat :: 0 <= i < |cps| && 0 <= k < |cps[i].weights| && cps[i].weights[k] > 0.0
                 && LowestInField(cps, mpw, low) == Mu(cps[i].weights[k], mpw)
  {
    if |cps| > 0 {
      var n := |cps| - 1;
      var p := cps[..n];
      LowestInFieldBound(p, mpw, low);
      var l := LowestInField(p, mpw, low);
      LowestInLayerBound(cps[n].weights, mpw, l);
      var r := LowestInField(cps, mpw, low);
      if r != low {
        if r == l {
          var i: nat, k: nat :| 0 <= i < |p| && 0 <= k < |p[i].weights| && p[i].weights[k] > 0.0 && l == Mu(p[i].weights[k], mpw);
          assert cps[i] == p[i];
        } else {
          var k: nat :| 0 <= k < |cps[n].weights| && cps[n].weights[k] > 0.0 && r == Mu(cps[n].weights[k], mpw);
        }
      }
      forall i: nat, k: nat | 0 <= i < n && 0 <= k < |cps[i].weights| && cps[i].weights[k] > 0.0
        ensures r <= Mu(cps[i].weights[k], mpw)
      {
        assert cps[i] == p[i];
      }
    }
  }

  /**
   * The smallest spot MU found over the first n fields is at most the start value and at most
   * every positive spot's MU, and it is the start value or the MU of a positive spot.
   */
  lemma {:induction false} LowestSpotBound(p: Plan, n: nat)
    requires n <= |p.beams|
    requires LowestSpot(p, n).Success?
    ensures var low := LowestSpot(p, n).value;
      && n <= |p.refBeams|
      && low <= LowestStart
      && (forall j: nat, i: nat, k: nat :: j < n && IsSpot(p, j, i, k) && p.beams[j].cps[i].weights[k] > 0.0 ==> low <= SpotMu(p, j, i, k))
      && (low == LowestStart
          || exists j: nat, i: nat, k: nat :: j < n && IsSpot(p, j, i, k) && p.beams[j].cps[i].weights[k] > 0.0 && low == SpotMu(p, j, i, k))
  {
    if n > 0 {
      var m := n - 1;
      LowestSpotBound(p, m);
      var l := LowestSpot(p, m).value;
      var b := p.beams[m];
      var mpw := MetersetPerWeight(b, p.refBeams[m]);
      LowestInFieldBound(b.cps, mpw, l);
      var low := LowestSpot(p, n).value;
      assert low == LowestInField(b.cps, mpw, l);
      if low != LowestStart && low == l {
        var j: nat, i: nat, k: nat :| j < m && IsSpot(p, j, i, k) && p.beams[j].cps[i].weights[k] > 0.0 && l == SpotMu(p, j, i, k);
      } else if low != l {
        var i: nat, k: nat :| 0 <= i < |b.cps| && 0 <= k < |b.cps[i].weights| && b.cps[i].weights[k] > 0.0 && low == Mu(b.cps[i].weights[k], mpw);
        assert IsSpot(p, m, i, k) && low == SpotMu(p, m, i, k);
      }
      forall j: nat, i: nat, k: nat | j < n && IsSpot(p, j, i, k) && p.beams[j].cps[i].weights[k] > 0.0
        ensures low <= SpotMu(p, j, i, k)
      {
      }
    }
  }

  /** The minimum search raises nothing when every field has its referenced beam and a non-zero final weight. */
  lemma {:induction false} LowestSpotSucceeds(p: Plan, n: nat)
    requires n <= |p.beams| && Paired(p)
    requires forall j :: 0 <= j < |p.beams| ==> p.beams[j].finalWeight != 0.0
    ensures LowestSpot(p, n).Success?
  {
    if n > 0 {
      LowestSpotSucceeds(p, n - 1);
    }
  }

  /** Rescaling by s multiplies the admission ratio of each field by s. */
  lemma RatioScales(b: IonBeam, ref: ReferencedBeam, s: real)
    requires b.finalWeight != 0.0
    ensures AdmissionRatio(b, ref, s) == MetersetPerWeight(b, ref) * s
  {
    var f := b.finalWeight;
    var m := ref.meterset;
    assert (m * s) / f == (m / f) * s by {
      assert ((m / f) * s) * f == (m / f * f) * s;
      assert m / f * f == m;
    }
  }

  /** The MU of spot (j, i, k) once the plan is rescaled by s without layer factors. */
  function ScaledSpotMu(p: Plan, j: nat, i: nat, k: nat, s: real): real
    requires IsSpot(p, j, i, k)
  {
    Mu(p.beams[j].cps[i].weights[k], AdmissionRatio(p.beams[j], p.refBeams[j], s))
  }

  /** Every positive spot has at least MuMin after the rescale by s. */
  ghost predicate PositiveSpotsAtLeastMin(p: Plan, s: real)
  {
    forall j: nat, i: nat, k: nat :: IsSpot(p, j, i, k) && p.beams[j].cps[i].weights[k] > 0.0 ==>
      ScaledSpotMu(p, j, i, k, s) >= MuMin
  }

  /** Some positive spot has exactly MuMin after the rescale by s. */
  ghost predicate SomeSpotAtMin(p: Plan, s: real)
  {
    exists j: nat, i: nat, k: nat :: IsSpot(p, j, i, k) && p.beams[j].cps[i].weights[k] > 0.0 &&
      ScaledSpotMu(p, j, i, k, s) == MuMin
  }

  /** A spot whose MU is at least low is not rejected once the meterset is scaled by MuMin / low. */
  lemma ScaledSpotAdmitted(w: real, mpw: real, low: real)
    requires w > 0.0 && low > 0.0 && Mu(w, mpw) >= low
    ensures Mu(w, mpw * (MuMin / low)) >= MuMin
    ensures Mu(w, mpw) == low ==> Mu(w, mpw * (MuMin / low)) == MuMin
  {
    var s := MuMin / low;
    assert Mu(w, mpw * s) == Mu(w, mpw) * s;
    assert low * s == MuMin;
    assert Mu(w, mpw) * s >= low * s;
  }

  /** A layer none of whose spots is rejected keeps its weights under factor 1.0 and counts nothing. */
  lemma {:induction false} NoneRejected(ws: seq<real>, mpw: real)
    requires forall k :: 0 <= k < |ws| ==> !RejectedSpot(ws[k], 1.0, mpw)
    ensures AdmitAll(ws, 1.0, mpw) == ws && CountRejected(ws, 1.0, mpw) == 0
  {
    if |ws| > 0 {
      NoneRejected(ws[..|ws| - 1], mpw);
    }
  }

  /** No spot of field j is rejected when the plan is rescaled by s without layer factors. */
  predicate NoSpotRejected(p: Plan, j: nat, s: real)
    requires j < |p.beams| && j < |p.refBeams|
  {
    forall i: nat, k: nat :: i < |p.beams[j].cps| && k < |p.beams[j].cps[i].weights| ==>
      !RejectedSpot(p.beams[j].cps[i].weights[k], 1.0, AdmissionRatio(p.beams[j], p.refBeams[j], s))
  }

  lemma {:induction false} DiscardsNone(cps: seq<ControlPoint>, n: nat, mpw: real)
    requires n <= |cps|
    requires forall i: nat, k: nat :: i < |cps| && k < |cps[i].weights| ==> !RejectedSpot(cps[i].weights[k], 1.0, mpw)
    ensures Discards(cps, n, [], mpw) == 0
  {
    if n > 0 {
      DiscardsNone(cps, n - 1, mpw);
      NoneRejected(cps[n - 1].weights, mpw);
    }
  }

  lemma {:induction false} PlanDiscardsNone(p: Plan, n: nat, s: real)
    requires n <= |p.beams| && Paired(p)
    requires forall j :: 0 <= j < |p.beams| ==> NoSpotRejected(p, j, s)
    ensures PlanDiscards(p, n, s, []) == 0
  {
    if n > 0 {
      PlanDiscardsNone(p, n - 1, s);
      var b := p.beams[n - 1];
      assert NoSpotRejected(p, n - 1, s);
      DiscardsNone(b.cps, |b.cps|, AdmissionRatio(b, p.refBeams[n - 1], s));
    }
  }

  /**
   * `minimize_plan` on a plan whose fields have positive metersets and final weights and no
   * negative weight: the factor is MuMin over the smallest positive spot MU; the rescale raises
   * nothing, discards no spot, keeps every weight and multiplies metersets and doses by the factor.
   */
  lemma MinimizeOutcome(p: Plan)
    requires Paired(p) && AllNonNegative(p) && StartsWithRealLayer(p)
    requires forall j :: 0 <= j < |p.beams| ==> p.beams[j].finalWeight > 0.0 && p.refBeams[j].meterset > 0.0
    ensures MinimizeFactor(p).Success?
    ensures var s := MinimizeFactor(p).value;
      s == MuMin / LowestSpot(p, |p.beams|).value && s > 0.0 && Minimize(p) == ApplyRescale(p, s, [])
    ensures Minimize(p).err.None? && Minimize(p).discarded == 0
    ensures var r := Minimize(p);
      && (forall j :: 0 <= j < |p.beams| ==> |r.plan.beams[j].cps| == |p.beams[j].cps|)
      && (forall j, i :: 0 <= j < |p.beams| && 0 <= i < |p.beams[j].cps| ==>
            r.plan.beams[j].cps[i].weights == p.beams[j].cps[i].weights)
    ensures forall j :: 0 <= j < |p.beams| ==> Minimize(p).plan.refBeams[j] == ScaledReference(p.refBeams[j], MinimizeFactor(p).value)
  {
    MinimizeSpots(p);
    var s := MinimizeFactor(p).value;
    ScaledNoneRejected(p, s);
    ApplyRescaleNoFactors(p, s);
    KeepsWeights(p, s);
  }

  /**
   * After `minimize_plan`'s factor is applied (same requirements), every positive spot has at
   * least MuMin and, unless the plan has no positive spot, the smallest one has exactly MuMin.
   */
  lemma MinimizeSpots(p: Plan)
    requires Paired(p)
    requires forall j :: 0 <= j < |p.beams| ==> p.beams[j].finalWeight > 0.0 && p.refBeams[j].meterset > 0.0
    ensures MinimizeFactor(p).Success?
    ensures var s := MinimizeFactor(p).value;
      s == MuMin / LowestSpot(p, |p.beams|).value && s > 0.0 && Minimize(p) == ApplyRescale(p, s, [])
    ensures PositiveSpotsAtLeastMin(p, MinimizeFactor(p).value)
    ensures LowestSpot(p, |p.beams|).value < LowestStart ==> SomeSpotAtMin(p, MinimizeFactor(p).value)
  {
    LowestSpotSucceeds(p, |p.beams|);
    var low := LowestSpot(p, |p.beams|).value;
    LowestPositive(p);
    var s := MuMin / low;
    assert MinimizeFactor(p) == Success(s);
    ScaledSpotsAdmitted(p, low, s);
  }

  /** With positive metersets and final weights the smallest spot MU is positive. */
  lemma LowestPositive(p: Plan)
    requires Paired(p)
    requires forall j :: 0 <= j < |p.beams| ==> p.beams[j].finalWeight > 0.0 && p.refBeams[j].meterset > 0.0
    requires LowestSpot(p, |p.beams|).Success?
    ensures LowestSpot(p, |p.beams|).value > 0.0
  {
    LowestSpotBound(p, |p.beams|);
    var low := LowestSpot(p, |p.beams|).value;
    if low != LowestStart {
      var j: nat, i: nat, k: nat :| IsSpot(p, j, i, k) && p.beams[j].cps[i].weights[k] > 0.0 && low == SpotMu(p, j, i, k);
      assert IsSpot(p, j, i, k);
      assert j < |p.beams|;
      assert MetersetPerWeight(p.beams[j], p.refBeams[j]) > 0.0;
    }
  }

  /** After scaling by MuMin / low every positive spot has at least MuMin, and the smallest exactly MuMin. */
  lemma ScaledSpotsAdmitted(p: Plan, low: real, s: real)
    requires Paired(p)
    requires forall j :: 0 <= j < |p.beams| ==> p.beams[j].finalWeight > 0.0
    requires LowestSpot(p, |p.beams|) == Success(low) && low > 0.0 && s == MuMin / low
    ensures PositiveSpotsAtLeastMin(p, s)
    ensures low < LowestStart ==> SomeSpotAtMin(p, s)
  {
    LowestSpotBound(p, |p.beams|);
    forall j: nat, i: nat, k: nat | IsSpot(p, j, i, k) && p.beams[j].cps[i].weights[k] > 0.0
      ensures ScaledSpotMu(p, j, i, k, s) >= MuMin
      ensures SpotMu(p, j, i, k) == low ==> ScaledSpotMu(p, j, i, k, s) == MuMin
    {
      RatioScales(p.beams[j], p.refBeams[j], s);
      ScaledSpotAdmitted(p.beams[j].cps[i].weights[k], MetersetPerWeight(p.beams[j], p.refBeams[j]), low);
    }
    if low < LowestStart {
      var j: nat, i: nat, k: nat :| IsSpot(p, j, i, k) && p.beams[j].cps[i].weights[k] > 0.0 && low == SpotMu(p, j, i, k);
      assert ScaledSpotMu(p, j, i, k, s) == MuMin;
    }
  }

  /** When every positive spot gets at least MuMin, no spot is rejected. */
  lemma ScaledNoneRejected(p: Plan, s: real)
    requires Paired(p) && AllNonNegative(p)
    requires PositiveSpotsAtLeastMin(p, s)
    ensures forall j :: 0 <= j < |p.beams| ==> NoSpotRejected(p, j, s)
  {
    forall j | 0 <= j < |p.beams| ensures NoSpotRejected(p, j, s) {
      forall i: nat, k: nat | i < |p.beams[j].cps| && k < |p.beams[j].cps[i].weights|
        ensures !RejectedSpot(p.beams[j].cps[i].weights[k], 1.0, AdmissionRatio(p.beams[j], p.refBeams[j], s))
      {
        assert IsSpot(p, j, i, k);
        assert NonNegative(p.beams[j].cps[i].weights);
      }
    }
  }

  /** A rescale by s without layer factors that rejects no spot keeps every weight and counts nothing. */
  lemma KeepsWeights(p: Plan, s: real)
    requires Paired(p) && AllNonNegative(p)
    requires forall j :: 0 <= j < |p.beams| ==> NoSpotRejected(p, j, s)
    requires ApplyRescale(p, s, []).err.None?
    ensures var r := ApplyRescale(p, s, []);
      && r.discarded == 0
      && (forall j :: 0 <= j < |p.beams| ==> |r.plan.beams[j].cps| == |p.beams[j].cps|)
      && (forall j, i :: 0 <= j < |p.beams| && 0 <= i < |p.beams[j].cps| ==>
            r.plan.beams[j].cps[i].weights == p.beams[j].cps[i].weights)
      && (forall j :: 0 <= j < |p.beams| ==> r.plan.refBeams[j] == ScaledReference(p.refBeams[j], s))
  {
    ApplyRescaleMeaning(p, s, []);
    PlanDiscardsNone(p, |p.beams|, s);
    var r := ApplyRescale(p, s, []);
    forall j, i | 0 <= j < |p.beams| && 0 <= i < |p.beams[j].cps|
      ensures r.plan.beams[j].cps[i].weights == p.beams[j].cps[i].weights
    {
      var ws := p.beams[j].cps[i].weights;
      assert NoSpotRejected(p, j, s);
      assert FieldRescaled(p.beams[j], p.refBeams[j], r.plan.beams[j], r.plan.refBeams[j], s, []);
      assert LayerRescaled(p.beams[j].cps, r.plan.beams[j].cps, [], AdmissionRatio(p.beams[j], p.refBeams[j], s), i);
      assert NonNegative(ws);
      if HasPositive(ws) {
        NoneRejected(ws, AdmissionRatio(p.beams[j], p.refBeams[j], s));
      }
    }
  }

  /** A rescale by rf that raised nothing has multiplied every referenced dose and meterset by rf. */
  lemma ReferencesScaled(p: Plan, rf: real, layerFactors: seq<real>)
    requires ApplyRescale(p, rf, layerFactors).err.None?
    ensures var r := ApplyRescale(p, rf, layerFactors);
      && |p.beams| <= |p.refBeams|
      && ScaledDoses(p, r.plan, rf)
  {
    ApplyRescaleMeaning(p, rf, layerFactors);
    var r := ApplyRescale(p, rf, layerFactors);
    forall m | 0 <= m < |p.beams|
      ensures r.plan.refBeams[m].dose == p.refBeams[m].dose * rf && r.plan.refBeams[m].meterset == p.refBeams[m].meterset * rf
    {
      assert FieldRescaled(p.beams[m], p.refBeams[m], r.plan.beams[m], r.plan.refBeams[m], rf, layerFactors);
    }
  }

  /** Every field's dose and meterset in q are those in p times c. */
  predicate ScaledDoses(p: Plan, q: Plan, c: real)
  {
    && |p.beams| <= |p.refBeams| && |q.refBeams| == |p.refBeams|
    && forall m :: 0 <= m < |p.beams| ==>
         q.refBeams[m].dose == p.refBeams[m].dose * c && q.refBeams[m].meterset == p.refBeams[m].meterset * c
  }

  /** Scaling by c, then by newDose over the dose that c left on field `last`, scales by newDose over that field's original dose. */
  lemma ScaledDosesChain(p: Plan, cur: Plan, t: Plan, c: real, newDose: real, last: nat)
    requires last < |p.beams| && |cur.beams| == |p.beams|
    requires ScaledDoses(p, cur, c) && cur.refBeams[last].dose != 0.0
    requires ScaledDoses(cur, t, newDose / cur.refBeams[last].dose)
    ensures p.refBeams[last].dose != 0.0
    ensures ScaledDoses(p, t, newDose / p.refBeams[last].dose)
    ensures t.refBeams[last].dose == newDose
  {
    var d := p.refBeams[last].dose;
    assert cur.refBeams[last].dose == d * c;
    var s := newDose / (d * c);
    forall m | 0 <= m < |p.beams|
      ensures t.refBeams[m].dose == p.refBeams[m].dose * (newDose / d)
      ensures t.refBeams[m].meterset == p.refBeams[m].meterset * (newDose / d)
    {
      ChainedScale(p.refBeams[m].dose, c, newDose, d);
      ChainedScale(p.refBeams[m].meterset, c, newDose, d);
    }
    assert d * (newDose / d) == newDose;
  }

  /** The loop of `rescale_dose` over the first n fields: each pass rescales the whole plan. */
  function RescaleDoseLoop(p: Plan, n: nat, newDose: real, layerFactors: seq<real>): (r: Run)
    requires n <= |p.beams|
    ensures |r.plan.beams| == |p.beams| && |r.plan.refBeams| == |p.refBeams|
  {
    if n == 0 then Run(p, None, 0, None)
    else
      var r := RescaleDoseLoop(p, n - 1, newDose, layerFactors);
      if r.err.Some? then r
      else if n - 1 >= |r.plan.refBeams| then r.(err := Some(MissingReferencedBeam))
      else if r.plan.refBeams[n - 1].dose == 0.0 then r.(err := Some(DivisionByZero))
      else
        var s := ApplyRescale(r.plan, newDose / r.plan.refBeams[n - 1].dose, layerFactors);
        s.(discarded := r.discarded + s.discarded)
  }

  /** `rescale_dose(new_dose, layer_factors)` */
  function RescaleDose(p: Plan, newDose: real, layerFactors: seq<real>): (r: Run)
    ensures |r.plan.beams| == |p.beams| && |r.plan.refBeams| == |p.refBeams|
    ensures r.err.Some? ==> RescaleError(r.err.value)
  {
    RescaleDoseErrors(p, |p.beams|, newDose, layerFactors);
    RescaleDoseLoop(p, |p.beams|, newDose, layerFactors)
  }

  lemma ChainedScale(d: real, q: real, newDose: real, last: real)
    requires last != 0.0 && q != 0.0
    ensures d * q * (newDose / (last * q)) == d * (newDose / last)
  {
    assert q != 0.0;
    var t := newDose / (last * q);
    assert t * (last * q) == newDose;
    assert (t * q) * last == newDose;
    assert t * q == newDose / last;
  }

  /**
   * After n passes of `rescale_dose` that raised nothing, whatever the layer factors, every dose
   * and meterset of the plan is its original value times new_dose over the original dose of field
   * n - 1; field n - 1 itself ends at new_dose.
   */
  lemma {:induction false} RescaleDoseScales(p: Plan, n: nat, newDose: real, layerFactors: seq<real>)
    requires 0 < n <= |p.beams|
    requires RescaleDoseLoop(p, n, newDose, layerFactors).err.None?
    ensures n <= |p.refBeams| && p.refBeams[n - 1].dose != 0.0
    ensures ScaledDoses(p, RescaleDoseLoop(p, n, newDose, layerFactors).plan, newDose / p.refBeams[n - 1].dose)
    ensures RescaleDoseLoop(p, n, newDose, layerFactors).plan.refBeams[n - 1].dose == newDose
  {
    RescaleDoseStep(p, n, newDose, layerFactors);
    var cur := RescaleDoseLoop(p, n - 1, newDose, layerFactors).plan;
    var s := newDose / cur.refBeams[n - 1].dose;
    ReferencesScaled(cur, s, layerFactors);
    if n == 1 {
      assert cur == p;
      assert p.refBeams[0].dose * s == newDose;
    } else {
      RescaleDoseScales(p, n - 1, newDose, layerFactors);
      ScaledDosesChain(p, cur, ApplyRescale(cur, s, layerFactors).plan, newDose / p.refBeams[n - 2].dose, newDose, n - 1);
    }
  }

  /** Pass n of `rescale_dose`, when it raised nothing, rescales the plan the earlier passes left. */
  lemma RescaleDoseStep(p: Plan, n: nat, newDose: real, layerFactors: seq<real>)
    requires 0 < n <= |p.beams|
    requires RescaleDoseLoop(p, n, newDose, layerFactors).err.None?
    ensures var r := RescaleDoseLoop(p, n - 1, newDose, layerFactors);
      && r.err.None? && n - 1 < |r.plan.refBeams| && r.plan.refBeams[n - 1].dose != 0.0
      && var s := ApplyRescale(r.plan, newDose / r.plan.refBeams[n - 1].dose, layerFactors);
         s.err.None? && RescaleDoseLoop(p, n, newDose, layerFactors).plan == s.plan
  {
  }

  /**
   * `rescale_dose` that raised nothing, whatever the layer factors: every field's dose and meterset
   * is its original value times new_dose over the original dose of the last field, so the last
   * field (and the only field of a one-field plan) ends at new_dose.
   */
  lemma RescaleDoseMeaning(p: Plan, newDose: real, layerFactors: seq<real>)
    requires |p.beams| > 0
    requires RescaleDose(p, newDose, layerFactors).err.None?
    ensures var n := |p.beams|;
      && n <= |p.refBeams| && p.refBeams[n - 1].dose != 0.0
      && ScaledDoses(p, RescaleDose(p, newDose, layerFactors).plan, newDose / p.refBeams[n - 1].dose)
      && RescaleDose(p, newDose, layerFactors).plan.refBeams[n - 1].dose == newDose
  {
    RescaleDoseScales(p, |p.beams|, newDose, layerFactors);
  }

  /** The passes of `rescale_dose` that raised nothing keep every field and every control point. */
  lemma {:induction false} RescaleDoseShape(p: Plan, n: nat, newDose: real, layerFactors: seq<real>)
    requires n <= |p.beams|
    requires RescaleDoseLoop(p, n, newDose, layerFactors).err.None?
    ensures SameShape(p, RescaleDoseLoop(p, n, newDose, layerFactors).plan)
  {
    if n > 0 {
      RescaleDoseStep(p, n, newDose, layerFactors);
      RescaleDoseShape(p, n - 1, newDose, layerFactors);
      var r := RescaleDoseLoop(p, n - 1, newDose, layerFactors);
      ApplyRescaleShape(r.plan, newDose / r.plan.refBeams[n - 1].dose, layerFactors);
    }
  }

  /**
   * The rescale options as `rescale_plan` reads them: a factor or dose of 0.0 stands for an option
   * not given (Python treats both alike), and an empty list for no layer factors.
   */
  datatype RescaleOptions = RescaleOptions(minimize: bool, dose: real, factor: real, layerFactors: seq<real>)

  /** `rescale_plan`: minimise, else rescale to a dose, else by a factor, else by layer factors alone. */
  function RescalePlan(p: Plan, o: RescaleOptions): (r: Run)
    ensures |r.plan.beams| == |p.beams|
    ensures r.err.Some? ==> r.err == Some(ModeConflict) || RescaleError(r.err.value)
  {
    if o.minimize then
      if o.factor != 0.0 || |o.layerFactors| > 0 then Run(p, None, 0, Some(ModeConflict)) else Minimize(p)
    else if o.dose != 0.0 then RescaleDose(p, o.dose, o.layerFactors)
    else if o.factor != 0.0 then ApplyRescale(p, o.factor, o.layerFactors)
    else if |o.layerFactors| > 0 then ApplyRescale(p, 1.0, o.layerFactors)
    else Run(p, None, 0, None)
  }

  lemma {:induction false} RescaleDoseErrors(p: Plan, n: nat, newDose: real, layerFactors: seq<real>)
    requires n <= |p.beams|
    ensures var e := RescaleDoseLoop(p, n, newDose, layerFactors).err;
      e.Some? ==> RescaleError(e.value)
  {
    if n > 0 {
      RescaleDoseErrors(p, n - 1, newDose, layerFactors);
    }
  }

  /**
   * The mode conflict is raised exactly when minimisation is asked for together with a factor or
   * layer factors (a dose is silently ignored then), and it leaves the plan untouched; no other mode
   * raises it.
   */
  lemma ModeConflictExactly(p: Plan, o: RescaleOptions)
    ensures RescalePlan(p, o).err == Some(ModeConflict) <==> o.minimize && (o.factor != 0.0 || |o.layerFactors| > 0)
    ensures RescalePlan(p, o).err == Some(ModeConflict) ==> RescalePlan(p, o).plan == p && RescalePlan(p, o).discarded == 0
  {
  }

  /** Without minimisation a dose wins over a factor, and a factor over layer factors alone. */
  lemma ModePrecedence(p: Plan, o: RescaleOptions)
    requires !o.minimize
    ensures o.dose != 0.0 ==> RescalePlan(p, o) == RescaleDose(p, o.dose, o.layerFactors)
    ensures o.dose == 0.0 && o.factor != 0.0 ==> RescalePlan(p, o) == ApplyRescale(p, o.factor, o.layerFactors)
    ensures o.dose == 0.0 && o.factor == 0.0 && |o.layerFactors| > 0 ==> RescalePlan(p, o) == ApplyRescale(p, 1.0, o.layerFactors)
    ensures o.dose == 0.0 && o.factor == 0.0 && |o.layerFactors| == 0 ==> RescalePlan(p, o) == Run(p, None, 0, None)
  {
  }

  /** A `rescale_plan` that raised nothing, in whichever mode, keeps every field and every control point. */
  lemma RescalePlanShape(p: Plan, o: RescaleOptions)
    requires RescalePlan(p, o).err.None?
    ensures SameShape(p, RescalePlan(p, o).plan)
  {
    if o.minimize {
      if MinimizeFactor(p).Success? {
        ApplyRescaleShape(p, MinimizeFactor(p).value, []);
      }
    } else if o.dose != 0.0 {
      RescaleDoseShape(p, |p.beams|, o.dose, o.layerFactors);
    } else if o.factor != 0.0 {
      ApplyRescaleShape(p, o.factor, o.layerFactors);
    } else if |o.layerFactors| > 0 {
      ApplyRescaleShape(p, 1.0, o.layerFactors);
    }
  }
}
