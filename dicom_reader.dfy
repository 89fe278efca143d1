/**
 * The reader of Varian DICOM RT Ion plans into spot tables. The data set is given as a value
 * (reading the file is I/O), with each optional control-point attribute as an Option. The
 * reader keeps the last value of energy, spot count, repaint count, positions and MU from one
 * control point to the next, also across fields, and appends a layer at every control point
 * that carries a spot size and whose MU sum is positive.
 */
module DicomReader {
  import opened Common
  import opened Particles

  /** Particles * dE/dx per MU used for Varian plans without a beam model. */
  const DicomFactor: real := 17247566.1

  /** The control-point attributes the reader looks at, each present or not. */
  datatype ControlPoint = ControlPoint(
    nominalBeamEnergy: Option<real>,           // [MeV]
    numberOfScanSpotPositions: Option<int>,
    numberOfPaintings: Option<int>,
    scanSpotPositionMap: Option<seq<real>>,    // x0, y0, x1, y1, ... [mm]
    scanSpotMetersetWeights: Option<seq<real>>,
    scanningSpotSize: Option<(real, real)>)    // FWHM in x and y [mm]

  /** An item of the ReferencedBeamSequence of the first fraction group. */
  datatype ReferencedBeam = ReferencedBeam(beamDose: real, beamMeterset: real)

  /** An item of the IonBeamSequence. */
  datatype IonBeam = IonBeam(finalCumulativeMetersetWeight: real, numberOfControlPoints: int,
                             controlPoints: seq<ControlPoint>)

  datatype Dataset = Dataset(
    patientId: string,
    patientName: string,
    rtPlanLabel: string,
    rtPlanDate: string,
    sopInstanceUid: string,
    numberOfBeams: int,
    referencedBeams: seq<ReferencedBeam>,
    ionBeams: seq<IonBeam>)

  /** The reader's locals that survive from one control point to the next; None while unassigned. */
  datatype Carried = Carried(
    energy: Option<real>,
    nSpots: Option<int>,
    nRepaint: Option<int>,
    pos: Option<seq<(real, real)>>,
    mu: Option<seq<real>>,
    cmu: real)

  /** The locals before the first field. */
  const Unassigned: Carried := Carried(None, None, None, None, None, 0.0)

  /** `np.array(p).reshape(n, 2)`: the flat position map as (x, y) pairs. */
  function Pairs(p: seq<real>): (r: seq<(real, real)>)
    requires |p| % 2 == 0
    ensures |r| == |p| / 2 && forall k :: 0 <= k < |r| ==> r[k] == (p[2 * k], p[2 * k + 1])
  {
    seq(|p| / 2, k requires 0 <= k < |p| / 2 => (p[2 * k], p[2 * k + 1]))
  }

  /** The position map: it needs a spot count, and numpy raises unless it has two entries per spot (-1: any even size). */
  function SetPositions(p: seq<real>, s: Carried): Result<Carried>
  {
    if s.nSpots.None? then Failure(NameUnbound)
    else if !((s.nSpots.value >= 0 && |p| == 2 * s.nSpots.value) || (s.nSpots.value == -1 && |p| % 2 == 0)) then
      Failure(ReshapeMismatch)
    else Success(s.(pos := Some(Pairs(p))))
  }

  /** The meterset weights: one per spot, each turned into MU, and the MU sum. */
  function SetWeights(w: seq<real>, mpw: real, s: Carried): Result<Carried>
  {
    if s.nSpots.None? then Failure(NameUnbound)
    else if !((s.nSpots.value >= 0 && |w| == s.nSpots.value) || s.nSpots.value == -1) then Failure(ReshapeMismatch)
    else
      var mu := Scale(w, mpw);
      Success(s.(mu := Some(mu), cmu := Sum(mu)))
  }

  /**
   * `np.c_[_pos, _mu]` as a spot table. As written it has three columns, x, y and MU; the
   * corrected reader fills a fourth with the MU, as the PLD reader does.
   */
  function SpotRows(pos: seq<(real, real)>, mu: seq<real>, corrected: bool): (r: seq<Row>)
    requires |pos| == |mu|
    ensures |r| == |pos|
    ensures forall k :: 0 <= k < |r| ==>
      r[k].x == pos[k].0 && r[k].y == pos[k].1 && r[k].mu == mu[k] && (corrected ==> r[k].particles == mu[k])
  {
    seq(|pos|, k requires 0 <= k < |pos| => Row(pos[k].0, pos[k].1, mu[k], if corrected then mu[k] else 0.0))
  }

  /**
   * The attributes of one control point up to the spot size, in the order the reader tests
   * them. Logging the spot count reads the energy, so that attribute needs one earlier.
   */
  function Absorb(cp: ControlPoint, mpw: real, s: Carried): Result<Carried>
  {
    var s1 := if cp.nominalBeamEnergy.Some? then s.(energy := cp.nominalBeamEnergy) else s;
    var s2 :- if cp.numberOfScanSpotPositions.None? then Success(s1)
              else if s1.energy.None? then Failure(NameUnbound)
              else Success(s1.(nSpots := cp.numberOfScanSpotPositions));
    var s3 := if cp.numberOfPaintings.Some? then s2.(nRepaint := cp.numberOfPaintings) else s2;
    var s4 :- if cp.scanSpotPositionMap.Some? then SetPositions(cp.scanSpotPositionMap.value, s3) else Success(s3);
    if cp.scanSpotMetersetWeights.Some? then SetWeights(cp.scanSpotMetersetWeights.value, mpw, s4) else Success(s4)
  }

  /**
   * One control point: its attributes, then, when it carries a spot size, a layer of the
   * current positions and MU if the current MU sum is positive.
   */
  function ControlPointStep(cp: ControlPoint, mpw: real, s: Carried, corrected: bool): Result<(Carried, Option<RowLayer>)>
  {
    var t :- Absorb(cp, mpw, s);
    if cp.scanningSpotSize.None? then Success((t, None))
    else if t.pos.None? || t.mu.None? then Failure(NameUnbound)
    else if |t.pos.value| != |t.mu.value| then Failure(ColumnMismatch)
    else if t.cmu <= 0.0 then Success((t, None))
    else if t.energy.None? || t.nRepaint.None? || t.nSpots.None? then Failure(NameUnbound)
    else
      var rows := SpotRows(t.pos.value, t.mu.value, corrected);
      Success((t, Some(NewRowLayer(rows, corrected, cp.scanningSpotSize.value, t.energy.value, t.energy.value,
                                   0.0, t.cmu, t.nRepaint.value, t.nSpots.value))))
  }

  /** The body of the control-point loop: the step, and the layer appended when there is one. */
  function PointStep(mpw: real, corrected: bool): ((Carried, seq<RowLayer>), ControlPoint) -> Result<(Carried, seq<RowLayer>)>
  {
    (acc: (Carried, seq<RowLayer>), cp: ControlPoint) =>
      var r :- ControlPointStep(cp, mpw, acc.0, corrected);
      Success((r.0, if r.1.Some? then acc.1 + [r.1.value] else acc.1))
  }

  /** The MU of one unit of meterset weight. */
  function PerWeight(meterset: real, finalWeight: real): real
    requires finalWeight != 0.0
  {
    meterset / finalWeight
  }

  /**
   * Field i: the ion beam with the same index gives the final meterset weight, which divides
   * the beam meterset, and the control points, looped over with the MU sum reset to 0.0.
   */
  function ReadField(d: Dataset, i: nat, rb: ReferencedBeam, s: Carried, scaling: real,
                     corrected: bool): (r: Result<(Carried, BeamField)>)
    ensures i >= |d.ionBeams| ==> r == Failure(MissingIonBeam)
    ensures i < |d.ionBeams| && d.ionBeams[i].finalCumulativeMetersetWeight == 0.0 ==> r == Failure(DivisionByZero)
    ensures r.Success? ==>
      r.value.1.cumMu == rb.beamMeterset && r.value.1.dose == rb.beamDose && r.value.1.scaling == scaling
  {
    if i >= |d.ionBeams| then Failure(MissingIonBeam)
    else
      var ib := d.ionBeams[i];
      if ib.finalCumulativeMetersetWeight == 0.0 then Failure(DivisionByZero)
      else
        var mpw := PerWeight(rb.beamMeterset, ib.finalCumulativeMetersetWeight);
        var r :- Fold(ib.controlPoints, (s.(cmu := 0.0), []), PointStep(mpw, corrected));
        Success((r.0, NewField.(layers := r.1, nLayers := ib.numberOfControlPoints, dose := rb.beamDose,
                                cumMu := rb.beamMeterset, metersetWeightFinal := ib.finalCumulativeMetersetWeight,
                                metersetPerWeight := mpw, csetWeight := 1.0, scaling := scaling,
                                sopInstanceUid := d.sopInstanceUid)))
  }

  /** The body of the field loop over `enumerate(ReferencedBeamSequence)`. */
  function FieldStep(d: Dataset, scaling: real, corrected: bool):
    ((Carried, seq<BeamField>), (nat, ReferencedBeam)) -> Result<(Carried, seq<BeamField>)>
  {
    (acc: (Carried, seq<BeamField>), p: (nat, ReferencedBeam)) =>
      var r :- ReadField(d, p.0, p.1, acc.0, scaling, corrected);
      Success((r.0, acc.1 + [r.1]))
  }

  function Fields(d: Dataset, scaling: real, corrected: bool): Result<(Carried, seq<BeamField>)>
  {
    Fold(Enumerate(d.referencedBeams), (Unassigned, []), FieldStep(d, scaling, corrected))
  }

  /** The plan attributes taken from the data set. */
  function DicomPlan(d: Dataset, fields: seq<BeamField>, scaling: real): PlanData
  {
    NewPlan.(header := PlanHeader(d.patientId, d.patientName, "", "", d.rtPlanLabel, d.rtPlanDate, "", d.sopInstanceUid),
             fields := fields, nFields := d.numberOfBeams, factor := DicomFactor, scaling := scaling)
  }

  /**
   * `load_DICOM_VARIAN`; `ds` is None when pydicom is not installed, and the reader then
   * returns a default plan.
   */
  function LoadDicom(ds: Option<Dataset>, scaling: real, corrected: bool): (r: Result<PlanData>)
    ensures ds.None? ==> r == Success(NewPlan)
    ensures ds.Some? && r.Success? ==>
      r.value.nFields == ds.value.numberOfBeams && r.value.factor == DicomFactor && r.value.scaling == scaling
  {
    if ds.None? then Success(NewPlan)
    else
      var r :- Fields(ds.value, scaling, corrected);
      Success(DicomPlan(ds.value, r.1, scaling))
  }

  // ---------------------------------------------------------------------------------------
  // Properties

  /**
   * The MU of a control point with meterset weights are the weights times the field's MU per
   * weight, summed into the MU sum; the reshape raises unless there is one weight per spot.
   */
  lemma SetWeightsMeaning(w: seq<real>, mpw: real, s: Carried)
    ensures SetWeights(w, mpw, s).Success? <==>
      s.nSpots.Some? && ((s.nSpots.value >= 0 && |w| == s.nSpots.value) || s.nSpots.value == -1)
    ensures SetWeights(w, mpw, s).Success? ==>
      var t := SetWeights(w, mpw, s).value;
      t.mu == Some(Scale(w, mpw)) && t.cmu == Sum(w) * mpw && t == s.(mu := t.mu, cmu := t.cmu)
  {
    if SetWeights(w, mpw, s).Success? {
      var mu := Scale(w, mpw);
      assert SetWeights(w, mpw, s).value == s.(mu := Some(mu), cmu := Sum(mu));
      SumScale(w, mpw);
    }
  }

  /**
   * A control point yields a layer exactly when it carries a spot size and the MU sum after it
   * is positive. The layer's spots are the current positions with the current MU, its MU is
   * that sum, and it has a particle column exactly in the corrected reader.
   */
  lemma ControlPointMeaning(cp: ControlPoint, mpw: real, s: Carried, corrected: bool)
    requires ControlPointStep(cp, mpw, s, corrected).Success?
    ensures var r := ControlPointStep(cp, mpw, s, corrected).value;
      (r.1.Some? <==> cp.scanningSpotSize.Some? && r.0.cmu > 0.0)
      && (cp.nominalBeamEnergy.Some? ==> r.0.energy == cp.nominalBeamEnergy)
      && (cp.scanSpotMetersetWeights.Some? ==> r.0.mu == Some(Scale(cp.scanSpotMetersetWeights.value, mpw)))
      && (r.1.Some? ==>
            var l := r.1.value;
            r.0.pos.Some? && r.0.mu.Some? && r.0.energy.Some? && |l.rows| == |r.0.pos.value| == |r.0.mu.value|
            && (forall k :: 0 <= k < |l.rows| ==>
                  l.rows[k].x == r.0.pos.value[k].0 && l.rows[k].y == r.0.pos.value[k].1 && l.rows[k].mu == r.0.mu.value[k])
            && l.cumMu == r.0.cmu && l.hasParticleColumn == corrected
            && l.spotSize == cp.scanningSpotSize.value
            && l.energyNominal == r.0.energy.value && l.energyMeasured == l.energyNominal)
  {
  }

  /** The MU sum is positive only after MU were read, and it is then their sum. */
  predicate SumTracks(s: Carried)
  {
    s.cmu > 0.0 ==> s.mu.Some? && s.cmu == Sum(s.mu.value)
  }

  /** A layer the reader can append: a row per spot, MU summing to a positive layer MU, and the particle column only when corrected. */
  predicate GoodLayer(l: RowLayer, corrected: bool)
  {
    |l.rows| > 0 && l.cumMu > 0.0 && l.cumMu == Sum(Mus(l.rows)) && l.hasParticleColumn == corrected
    && (corrected ==> forall k :: 0 <= k < |l.rows| ==> l.rows[k].particles == l.rows[k].mu)
    && l.energyMeasured == l.energyNominal
  }

  /** The attributes keep the MU sum in step with the MU. */
  lemma AbsorbKeeps(cp: ControlPoint, mpw: real, s: Carried)
    requires SumTracks(s) && Absorb(cp, mpw, s).Success?
    ensures SumTracks(Absorb(cp, mpw, s).value)
  {
    if cp.scanSpotMetersetWeights.Some? {
      var t := Absorb(cp, mpw, s).value;
      assert t.mu.Some? && t.cmu == Sum(Scale(cp.scanSpotMetersetWeights.value, mpw));
    }
  }

  /** Every control point keeps the MU sum in step with the MU and appends only good layers. */
  lemma StepKeeps(cp: ControlPoint, mpw: real, s: Carried, corrected: bool)
    requires SumTracks(s) && ControlPointStep(cp, mpw, s, corrected).Success?
    ensures var r := ControlPointStep(cp, mpw, s, corrected).value;
      SumTracks(r.0) && (r.1.Some? ==> GoodLayer(r.1.value, corrected))
  {
    AbsorbKeeps(cp, mpw, s);
    var r := ControlPointStep(cp, mpw, s, corrected).value;
    if r.1.Some? {
      var l := r.1.value;
      assert Mus(l.rows) == r.0.mu.value;
      assert r.0.mu.value != [];
    }
  }

  /** What the control-point loop keeps: the MU sum in step, and only good layers so far. */
  predicate PointsGood(acc: (Carried, seq<RowLayer>), corrected: bool)
  {
    SumTracks(acc.0) && forall k :: 0 <= k < |acc.1| ==> GoodLayer(acc.1[k], corrected)
  }

  lemma PointStepKeeps(mpw: real, corrected: bool)
    ensures forall acc, cp :: PointsGood(acc, corrected) && PointStep(mpw, corrected)(acc, cp).Success? ==>
      PointsGood(PointStep(mpw, corrected)(acc, cp).value, corrected)
  {
    forall acc, cp | PointsGood(acc, corrected) && PointStep(mpw, corrected)(acc, cp).Success?
      ensures PointsGood(PointStep(mpw, corrected)(acc, cp).value, corrected)
    {
      StepKeeps(cp, mpw, acc.0, corrected);
    }
  }

  /**
   * A field that is read takes its MU per weight from the beam meterset over the final
   * meterset weight, its MU, dose and layer count from the data set. It raises when there is
   * no ion beam with its index or the final weight is 0.0.
   */
  lemma ReadFieldMeaning(d: Dataset, i: nat, rb: ReferencedBeam, s: Carried, scaling: real, corrected: bool)
    ensures ReadField(d, i, rb, s, scaling, corrected).Success? ==>
      var f, ib := ReadField(d, i, rb, s, scaling, corrected).value.1, d.ionBeams[i];
      ib.finalCumulativeMetersetWeight != 0.0
      && f.metersetPerWeight == rb.beamMeterset / ib.finalCumulativeMetersetWeight
      && f.cumMu == rb.beamMeterset && f.dose == rb.beamDose && f.csetWeight == 1.0 && f.scaling == scaling
      && f.nLayers == ib.numberOfControlPoints && f.metersetWeightFinal == ib.finalCumulativeMetersetWeight
  {
  }

  /** The layers of a field that is read are all good, and the MU sum stays in step. */
  lemma ReadFieldGood(d: Dataset, i: nat, rb: ReferencedBeam, s: Carried, scaling: real, corrected: bool)
    requires SumTracks(s) && ReadField(d, i, rb, s, scaling, corrected).Success?
    ensures var r := ReadField(d, i, rb, s, scaling, corrected).value;
      SumTracks(r.0) && forall k :: 0 <= k < |r.1.layers| ==> GoodLayer(r.1.layers[k], corrected)
  {
    var ib := d.ionBeams[i];
    var mpw := PerWeight(rb.beamMeterset, ib.finalCumulativeMetersetWeight);
    PointStepKeeps(mpw, corrected);
    FoldInvariant(ib.controlPoints, (s.(cmu := 0.0), []), PointStep(mpw, corrected), acc => PointsGood(acc, corrected));
  }

  /** What the field loop keeps: the MU sum in step, and only good layers in the fields so far. */
  predicate FieldsGood(acc: (Carried, seq<BeamField>), corrected: bool)
  {
    SumTracks(acc.0)
    && forall j, k :: 0 <= j < |acc.1| && 0 <= k < |acc.1[j].layers| ==> GoodLayer(acc.1[j].layers[k], corrected)
  }

  lemma FieldStepKeeps(d: Dataset, scaling: real, corrected: bool)
    ensures forall acc, p :: FieldsGood(acc, corrected) && FieldStep(d, scaling, corrected)(acc, p).Success? ==>
      FieldsGood(FieldStep(d, scaling, corrected)(acc, p).value, corrected)
  {
    forall acc, p | FieldsGood(acc, corrected) && FieldStep(d, scaling, corrected)(acc, p).Success?
      ensures FieldsGood(FieldStep(d, scaling, corrected)(acc, p).value, corrected)
    {
      ReadFieldGood(d, p.0, p.1, acc.0, scaling, corrected);
    }
  }

  /**
   * Every layer of a DICOM plan that is read comes from a control point with a positive MU
   * sum: it has at least one spot, its MU is the sum of its spots' MU, and it has a particle
   * column exactly in the corrected reader.
   */
  lemma DicomLayersGood(ds: Option<Dataset>, scaling: real, corrected: bool)
    requires LoadDicom(ds, scaling, corrected).Success?
    ensures var fs := LoadDicom(ds, scaling, corrected).value.fields;
      forall j, k :: 0 <= j < |fs| && 0 <= k < |fs[j].layers| ==> GoodLayer(fs[j].layers[k], corrected)
  {
    if ds.Some? {
      var d := ds.value;
      FieldStepKeeps(d, scaling, corrected);
      FoldInvariant(Enumerate(d.referencedBeams), (Unassigned, []), FieldStep(d, scaling, corrected),
                    acc => FieldsGood(acc, corrected));
    }
  }

  /** The field loop yields one field per referenced beam, field i read with ion beam i. */
  lemma {:induction false} FieldsMeaning(d: Dataset, xs: seq<(nat, ReferencedBeam)>, scaling: real, corrected: bool)
    ensures Fold(xs, (Unassigned, []), FieldStep(d, scaling, corrected)).Success? ==>
      var fs := Fold(xs, (Unassigned, []), FieldStep(d, scaling, corrected)).value.1;
      |fs| == |xs| && forall j :: 0 <= j < |xs| ==>
        xs[j].0 < |d.ionBeams| && d.ionBeams[xs[j].0].finalCumulativeMetersetWeight != 0.0
        && fs[j].cumMu == xs[j].1.beamMeterset && fs[j].dose == xs[j].1.beamDose
        && fs[j].metersetPerWeight == xs[j].1.beamMeterset / d.ionBeams[xs[j].0].finalCumulativeMetersetWeight
        && fs[j].nLayers == d.ionBeams[xs[j].0].numberOfControlPoints
    decreases |xs|
  {
    if |xs| > 0 {
      var n := |xs| - 1;
      FieldsMeaning(d, xs[..n], scaling, corrected);
      var acc := Fold(xs[..n], (Unassigned, []), FieldStep(d, scaling, corrected));
      if acc.Success? {
        ReadFieldMeaning(d, xs[n].0, xs[n].1, acc.value.0, scaling, corrected);
      }
    }
  }

  /**
   * A DICOM plan that is read has one field per referenced beam, field i built from
   * referenced beam i and ion beam i, the plan's declared number of beams and the Varian factor.
   */
  lemma LoadDicomMeaning(ds: Option<Dataset>, scaling: real, corrected: bool)
    ensures ds.Some? && LoadDicom(ds, scaling, corrected).Success? ==>
      var p, d := LoadDicom(ds, scaling, corrected).value, ds.value;
      p.nFields == d.numberOfBeams && p.factor == DicomFactor && p.scaling == scaling
      && p.header.patientId == d.patientId && p.header.planLabel == d.rtPlanLabel
      && |p.fields| == |d.referencedBeams| && |d.ionBeams| >= |d.referencedBeams|
      && forall j :: 0 <= j < |p.fields| ==>
           d.ionBeams[j].finalCumulativeMetersetWeight != 0.0
           && p.fields[j].cumMu == d.referencedBeams[j].beamMeterset
           && p.fields[j].metersetPerWeight == d.referencedBeams[j].beamMeterset / d.ionBeams[j].finalCumulativeMetersetWeight
  {
    if ds.Some? {
      var d := ds.value;
      FieldsMeaning(d, Enumerate(d.referencedBeams), scaling, corrected);
      if LoadDicom(ds, scaling, corrected).Success? && |d.referencedBeams| > 0 {
        var n := |d.referencedBeams| - 1;
        assert Enumerate(d.referencedBeams)[n].0 == n;
      }
    }
  }

  // ---------------------------------------------------------------------------------------
  // The loops

  /** The control-point loop of one field. */
  method ReadPoints(cps: seq<ControlPoint>, mpw: real, s: Carried, corrected: bool)
    returns (r: Result<(Carried, seq<RowLayer>)>)
    ensures r == Fold(cps, (s, []), PointStep(mpw, corrected))
  {
    var cur := s;
    var layers: seq<RowLayer> := [];
    var k := 0;
    while k < |cps|
      invariant 0 <= k <= |cps|
      invariant Fold(cps[..k], (s, []), PointStep(mpw, corrected)) == Success((cur, layers))
    {
      FoldStep(cps, k, (s, []), PointStep(mpw, corrected));
      var step := ControlPointStep(cps[k], mpw, cur, corrected);
      if step.Failure? {
        FoldStick(cps, k + 1, (s, []), PointStep(mpw, corrected));
        return Failure(step.error);
      }
      cur := step.value.0;
      if step.value.1.Some? {
        layers := layers + [step.value.1.value];
      }
      k := k + 1;
    }
    assert cps[..k] == cps;
    return Success((cur, layers));
  }

  /** `load_DICOM_VARIAN`: the loop over the referenced beams, each with its control points. */
  method ReadDicom(ds: Option<Dataset>, scaling: real, corrected: bool) returns (r: Result<PlanData>)
    ensures r == LoadDicom(ds, scaling, corrected)
  {
    if ds.None? {
      return Success(NewPlan);
    }
    var d := ds.value;
    var xs := Enumerate(d.referencedBeams);
    var cur := Unassigned;
    var fields: seq<BeamField> := [];
    var j := 0;
    while j < |xs|
      invariant 0 <= j <= |xs|
      invariant Fold(xs[..j], (Unassigned, []), FieldStep(d, scaling, corrected)) == Success((cur, fields))
    {
      FoldStep(xs, j, (Unassigned, []), FieldStep(d, scaling, corrected));
      var (i, rb) := xs[j];
      if i >= |d.ionBeams| {
        FoldStick(xs, j + 1, (Unassigned, []), FieldStep(d, scaling, corrected));
        return Failure(MissingIonBeam);
      }
      var ib := d.ionBeams[i];
      if ib.finalCumulativeMetersetWeight == 0.0 {
        FoldStick(xs, j + 1, (Unassigned, []), FieldStep(d, scaling, corrected));
        return Failure(DivisionByZero);
      }
      var mpw := PerWeight(rb.beamMeterset, ib.finalCumulativeMetersetWeight);
      var pts := ReadPoints(ib.controlPoints, mpw, cur.(cmu := 0.0), corrected);
      if pts.Failure? {
        FoldStick(xs, j + 1, (Unassigned, []), FieldStep(d, scaling, corrected));
        return Failure(pts.error);
      }
      cur := pts.value.0;
      fields := fields + [NewField.(layers := pts.value.1, nLayers := ib.numberOfControlPoints, dose := rb.beamDose,
                                    cumMu := rb.beamMeterset, metersetWeightFinal := ib.finalCumulativeMetersetWeight,
                                    metersetPerWeight := mpw, csetWeight := 1.0, scaling := scaling,
                                    sopInstanceUid := d.sopInstanceUid)];
      j := j + 1;
    }
    assert xs[..j] == xs;
    return Success(DicomPlan(d, fields, scaling));
  }
}
