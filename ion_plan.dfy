/**
 * The part of a DICOM RT Ion Plan (RT Ion Beams Module, DICOM PS3.3 section C.8.8.25, and the
 * fraction group's referenced beams) that the rescale engines read and write, together with the
 * bookkeeping sums over it and the minimum-MU admission rule shared by both engines.
 */
module IonPlan {
  import opened Common

  /** At least this many MU in a single spot. */
  const MuMin: real := 1.0

  datatype RangeShifter = RangeShifter(number: int, id: string, kind: string)

  datatype RangeShifterSetting = RangeShifterSetting(
    setting: string,
    isocenterDistance: real,
    waterEquivalentThickness: real,
    referencedNumber: int)

  /** One item of the IonControlPointSequence. Weights are always a list, also for a single spot. */
  datatype ControlPoint = ControlPoint(
    energy: real,                       // NominalBeamEnergy [MeV]
    numberOfSpots: nat,                 // NumberOfScanSpotPositions
    positions: seq<real>,               // ScanSpotPositionMap: x0, y0, x1, y1, ... [mm]
    weights: seq<real>,                 // ScanSpotMetersetWeights
    cumulativeWeight: real,             // CumulativeMetersetWeight
    doseCoefficient: real,              // CumulativeDoseReferenceCoefficient of the first referenced dose reference
    paintings: int,                     // NumberOfPaintings
    spotSize: Option<(real, real)>,     // ScanningSpotSize, when the control point carries one
    gantryAngle: real,
    snoutPosition: real,
    tableVertical: real,
    tableLongitudinal: real,
    tableLateral: real,
    rangeShifterSetting: Option<RangeShifterSetting>)

  /** One item of the IonBeamSequence (a field). */
  datatype IonBeam = IonBeam(
    name: string,
    number: int,
    machine: string,
    numberOfControlPoints: nat,
    cps: seq<ControlPoint>,
    finalWeight: real,                  // FinalCumulativeMetersetWeight
    numberOfRangeShifters: int,
    rangeShifter: Option<RangeShifter>)

  /** One item of the first fraction group's ReferencedBeamSequence. */
  datatype ReferencedBeam = ReferencedBeam(number: int, dose: real, meterset: real)

  /** The plan-level attributes the edits write: patient, label, date, intent and approval. */
  datatype Header = Header(
    patientId: string,
    patientName: string,
    planLabel: string,
    planDate: string,                   // RTPlanDate
    planTime: string,                   // RTPlanTime
    planIntent: string,
    approvalStatus: string,
    reviewerName: string)

  datatype Plan = Plan(
    header: Header,
    numberOfBeams: int,                 // the fraction group's NumberOfBeams
    beams: seq<IonBeam>,
    refBeams: seq<ReferencedBeam>)

  /** Every ion beam j has its referenced beam j, which the engines index by position. */
  predicate Paired(p: Plan)
  {
    |p.refBeams| >= |p.beams|
  }

  /** Every field has a first control point, where the field geometry is stored. */
  predicate FirstControlPoints(p: Plan)
  {
    forall j :: 0 <= j < |p.beams| ==> |p.beams[j].cps| > 0
  }

  /**
   * How far a loop over the fields that reads every field's first control point gets before the
   * IndexError of a field without control points: that field's index, or the number of fields.
   */
  function Reach(beams: seq<IonBeam>): (r: nat)
    ensures r <= |beams|
    ensures forall j :: 0 <= j < r ==> |beams[j].cps| > 0
    ensures r < |beams| ==> |beams[r].cps| == 0
  {
    ReachFrom(beams, 0)
  }

  function ReachFrom(beams: seq<IonBeam>, i: nat): (r: nat)
    requires i <= |beams|
    ensures i <= r <= |beams|
    ensures forall j :: i <= j < r ==> |beams[j].cps| > 0
    ensures r < |beams| ==> |beams[r].cps| == 0
    decreases |beams| - i
  {
    if i == |beams| || |beams[i].cps| == 0 then i else ReachFrom(beams, i + 1)
  }

  /** The loop gets through every field exactly when every field has a first control point. */
  lemma ReachAll(p: Plan)
    ensures Reach(p.beams) == |p.beams| <==> FirstControlPoints(p)
  {
  }

  /** The first field without control points is the one with none after fields that all have some. */
  lemma ReachIs(beams: seq<IonBeam>, i: nat)
    requires i <= |beams| && forall j :: 0 <= j < i ==> |beams[j].cps| > 0
    requires i < |beams| ==> |beams[i].cps| == 0
    ensures Reach(beams) == i
  {
  }

  /** The same number of fields, each with the same number of control points. */
  predicate SameShape(p: Plan, q: Plan)
  {
    |q.beams| == |p.beams| && forall j :: 0 <= j < |p.beams| ==> |q.beams[j].cps| == |p.beams[j].cps|
  }

  /** Plans of the same shape stop the loop at the same field. */
  lemma ReachSameShape(p: Plan, q: Plan)
    requires SameShape(p, q)
    ensures Reach(q.beams) == Reach(p.beams)
  {
    ReachIs(q.beams, Reach(p.beams));
  }

  /** Sum of all spot weights of a sequence of control points, in order. */
  function WeightTotal(cps: seq<ControlPoint>): real
  {
    if |cps| == 0 then 0.0 else WeightTotal(cps[..|cps| - 1]) + Sum(cps[|cps| - 1].weights)
  }

  lemma WeightTotalPrefixStep(cps: seq<ControlPoint>, i: nat)
    requires i < |cps|
    ensures WeightTotal(cps[..i + 1]) == WeightTotal(cps[..i]) + Sum(cps[i].weights)
  {
    assert cps[..i + 1][..i] == cps[..i];
  }

  /** The total depends on the weights only. */
  lemma {:induction false} WeightTotalSameWeights(a: seq<ControlPoint>, b: seq<ControlPoint>)
    requires |a| == |b|
    requires forall i :: 0 <= i < |a| ==> a[i].weights == b[i].weights
    ensures WeightTotal(a) == WeightTotal(b)
  {
    if |a| > 0 {
      WeightTotalSameWeights(a[..|a| - 1], b[..|b| - 1]);
    }
  }

  predicate HasPositive(ws: seq<real>)
  {
    exists k :: 0 <= k < |ws| && ws[k] > 0.0
  }

  predicate AllZero(ws: seq<real>)
  {
    forall k :: 0 <= k < |ws| ==> ws[k] == 0.0
  }

  predicate NonNegative(ws: seq<real>)
  {
    forall k :: 0 <= k < |ws| ==> ws[k] >= 0.0
  }

  /** The admission rule: a positive candidate weight whose MU falls below MuMin is discarded. */
  predicate Rejected(value: real, metersetPerWeight: real)
  {
    value > 0.0 && value * metersetPerWeight < MuMin
  }

  /** The new weight of one spot: its weight times the layer factor, unless that is rejected. */
  function Admit(weight: real, factor: real, metersetPerWeight: real): real
  {
    var value := weight * factor;
    if Rejected(value, metersetPerWeight) then 0.0 else value
  }

  predicate RejectedSpot(weight: real, factor: real, metersetPerWeight: real)
  {
    Rejected(weight * factor, metersetPerWeight)
  }

  /** New weights of one control point. */
  function AdmitAll(ws: seq<real>, factor: real, metersetPerWeight: real): (r: seq<real>)
    ensures |r| == |ws|
    ensures forall k :: 0 <= k < |ws| ==> r[k] == Admit(ws[k], factor, metersetPerWeight)
  {
    seq(|ws|, k requires 0 <= k < |ws| => Admit(ws[k], factor, metersetPerWeight))
  }

  /** Number of spots of one control point the admission rule discards. */
  function CountRejected(ws: seq<real>, factor: real, metersetPerWeight: real): nat
  {
    if |ws| == 0 then 0
    else CountRejected(ws[..|ws| - 1], factor, metersetPerWeight)
         + (if RejectedSpot(ws[|ws| - 1], factor, metersetPerWeight) then 1 else 0)
  }

  lemma CountRejectedPrefixStep(ws: seq<real>, k: nat, factor: real, mpw: real)
    requires k < |ws|
    ensures CountRejected(ws[..k + 1], factor, mpw)
            == CountRejected(ws[..k], factor, mpw) + (if RejectedSpot(ws[k], factor, mpw) then 1 else 0)
  {
    assert ws[..k + 1][..k] == ws[..k];
  }

  predicate Zeroed(ws: seq<real>, factor: real, mpw: real, k: nat)
    requires k < |ws|
  {
    ws[k] * factor > 0.0 && AdmitAll(ws, factor, mpw)[k] == 0.0
  }

  /** Indices of the spots that had a positive candidate weight and were set to 0.0. */
  function ZeroedSpots(ws: seq<real>, factor: real, mpw: real): set<nat>
  {
    set k: nat | k < |ws| && Zeroed(ws, factor, mpw, k)
  }

  /** A spot is zeroed exactly when the rule rejects its candidate weight; otherwise it keeps it. */
  lemma AdmitAllMeaning(ws: seq<real>, factor: real, mpw: real, k: nat)
    requires k < |ws|
    ensures Zeroed(ws, factor, mpw, k) <==> RejectedSpot(ws[k], factor, mpw)
    ensures !RejectedSpot(ws[k], factor, mpw) ==> AdmitAll(ws, factor, mpw)[k] == ws[k] * factor
  {
  }

  /** The discard count is exactly the number of spots that were zeroed by the rule. */
  lemma {:induction false} CountRejectedIsZeroed(ws: seq<real>, factor: real, mpw: real)
    ensures CountRejected(ws, factor, mpw) == |ZeroedSpots(ws, factor, mpw)|
  {
    if |ws| == 0 {
      assert ZeroedSpots(ws, factor, mpw) == {};
    } else {
      var n := |ws| - 1;
      var p := ws[..n];
      CountRejectedIsZeroed(p, factor, mpw);
      var zp := ZeroedSpots(p, factor, mpw);
      var z := ZeroedSpots(ws, factor, mpw);
      forall k: nat | k < n ensures k in z <==> k in zp {
        AdmitAllMeaning(ws, factor, mpw, k);
        AdmitAllMeaning(p, factor, mpw, k);
      }
      AdmitAllMeaning(ws, factor, mpw, n);
      if RejectedSpot(ws[n], factor, mpw) {
        assert z == zp + {n};
      } else {
        assert z == zp;
      }
    }
  }

  /** Lowering a positive weight can only keep a rejected spot rejected. */
  lemma AdmissionMonotone(w1: real, w2: real, mpw: real)
    requires Rejected(w1, mpw)
    requires 0.0 < w2 <= w1 && mpw >= 0.0
    ensures Rejected(w2, mpw)
  {
    assert (w1 - w2) * mpw >= 0.0;
  }

  /** A control point without positive weights and without negative ones is all zero. */
  lemma NotPositiveIsZero(ws: seq<real>)
    requires NonNegative(ws) && !HasPositive(ws)
    ensures AllZero(ws)
  {
  }

  /** All-zero weights stay all zero, whatever the factor, and no spot is counted. */
  lemma {:induction false} AdmitZeros(ws: seq<real>, factor: real, mpw: real)
    requires AllZero(ws)
    ensures AllZero(AdmitAll(ws, factor, mpw)) && CountRejected(ws, factor, mpw) == 0
  {
    if |ws| > 0 {
      AdmitZeros(ws[..|ws| - 1], factor, mpw);
    }
  }
}
