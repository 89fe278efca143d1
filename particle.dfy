/**
 * Particle accounting of a loaded spot plan: the stopping-power domain guard, conversion of
 * spot MU to particle numbers (through a beam model, or through the stopping power of air and
 * a vendor factor), and layer and field totals and extents. Layers here are spot tables of
 * rows [x, y, mu, particles] with a spot-size pair, the layout the loaders build.
 */
module Particles {
  import opened Common
  import Layers
  import Text

  /** The stopping-power fit is valid from 1 MeV to 500 MeV. */
  const EnergyMin: real := 1.0
  const EnergyMax: real := 500.0

  /**
   * The ICRU Report 49 fit for the mass stopping power of air, an exponential of a polynomial
   * in log(E): kept abstract, and positive.
   */
  type StoppingPowerFit = f: real -> real | forall e: real :: f(e) > 0.0 witness (e: real) => 1.0

  /** `dedx_air`: the fit inside its domain, ValueError outside it. */
  function DedxAir(energy: real, fit: StoppingPowerFit): (r: Result<real>)
    ensures r.Success? <==> EnergyMin <= energy <= EnergyMax
    ensures r.Success? ==> r.value == fit(energy) && r.value > 0.0
    ensures r.Failure? ==> r.error == EnergyOutOfRange
  {
    if energy > 500.0 || energy < 1.0 then Failure(EnergyOutOfRange) else Success(fit(energy))
  }

  /**
   * A beam model: particles per MU, measured energy, energy spread and the spot sigmas in x
   * and y, each as a function of the nominal energy, and the FWHM of a unit sigma.
   */
  datatype BeamModel = BeamModel(
    ppmu: real -> real,
    energy: real -> real,
    espread: real -> real,
    sigmaX: real -> real,
    sigmaY: real -> real,
    fwhmPerSigma: real)

  /** One row of a spot table: position [mm], MU, and particle number. */
  datatype Row = Row(x: real, y: real, mu: real, particles: real)

  datatype RowLayer = RowLayer(
    rows: seq<Row>,
    hasParticleColumn: bool,         // false for a table of only x, y and MU columns
    spotSize: (real, real),          // FWHM in x and y [mm]
    energyNominal: real,             // [MeV]
    energyMeasured: real,            // [MeV]
    espread: real,                   // [MeV]
    cumMu: real,
    cumParticles: real,
    repaint: int,
    nSpots: int,
    muToPartCoef: real,
    isEmpty: bool,
    xmin: real, xmax: real, ymin: real, ymax: real)

  datatype BeamField = BeamField(
    layers: seq<RowLayer>,
    nLayers: int,
    dose: real,                      // [Gy]
    cumMu: real,
    cumParticles: real,
    csetWeight: real,
    scaling: real,                   // applied to every particle number of the field
    xmin: real, xmax: real, ymin: real, ymax: real,
    cmu: real,                       // total MU of a PLD field
    metersetWeightFinal: real,       // final cumulative meterset weight of a DICOM field
    metersetPerWeight: real,
    sopInstanceUid: string)

  datatype PlanHeader = PlanHeader(
    patientId: string,
    patientName: string,
    patientInitials: string,
    patientFirstname: string,
    planLabel: string,
    planDate: string,
    beamName: string,
    sopInstanceUid: string)

  /** Everything a plan holds apart from its beam model. */
  datatype PlanData = PlanData(
    header: PlanHeader,
    fields: seq<BeamField>,
    nFields: int,
    factor: real,                    // particles * dE/dx per MU, used without a beam model
    scaling: real,
    flipXY: bool,
    flipX: bool,
    flipY: bool)

  /** The result of a step that may raise: the state reached, and the exception if one was raised. */
  datatype Outcome<T> = Outcome(value: T, err: Option<Error>)

  /**
   * A Python loop that updates each element of a list in turn, from element i on: the first
   * step that raises leaves its partial update in place and the rest of the list untouched.
   */
  function RunFrom<T>(xs: seq<T>, i: nat, step: T -> Outcome<T>): Outcome<seq<T>>
    requires i <= |xs|
    decreases |xs| - i
  {
    if i == |xs| then Outcome([], None)
    else
      var h := step(xs[i]);
      if h.err.Some? then Outcome([h.value] + xs[i + 1..], h.err)
      else
        var t := RunFrom(xs, i + 1, step);
        Outcome([h.value] + t.value, t.err)
  }

  /** The whole loop over xs. */
  function RunEach<T>(xs: seq<T>, step: T -> Outcome<T>): Outcome<seq<T>>
  {
    RunFrom(xs, 0, step)
  }

  /** The loop keeps the length of the list. */
  lemma {:induction false} RunFromLength<T>(xs: seq<T>, i: nat, step: T -> Outcome<T>)
    requires i <= |xs|
    ensures |RunFrom(xs, i, step).value| == |xs| - i
    decreases |xs| - i
  {
    if i < |xs| {
      RunFromLength(xs, i + 1, step);
    }
  }

  lemma RunEachLength<T>(xs: seq<T>, step: T -> Outcome<T>)
    ensures |RunEach(xs, step).value| == |xs|
  {
    RunFromLength(xs, 0, step);
  }

  /** From element i on, the loop finishes without raising exactly when every step does, and then holds each step's result. */
  lemma {:induction false} RunFromAll<T>(xs: seq<T>, i: nat, step: T -> Outcome<T>)
    requires i <= |xs|
    ensures |RunFrom(xs, i, step).value| == |xs| - i
    ensures RunFrom(xs, i, step).err.None? <==> forall k :: i <= k < |xs| ==> step(xs[k]).err.None?
    ensures RunFrom(xs, i, step).err.None? ==>
      forall k :: i <= k < |xs| ==> RunFrom(xs, i, step).value[k - i] == step(xs[k]).value
    decreases |xs| - i
  {
    RunFromLength(xs, i, step);
    if i < |xs| {
      RunFromAll(xs, i + 1, step);
    }
  }

  /** The loop finishes without raising exactly when every step does, and then element k is step k's result. */
  lemma RunEachAll<T>(xs: seq<T>, step: T -> Outcome<T>)
    ensures |RunEach(xs, step).value| == |xs|
    ensures RunEach(xs, step).err.None? <==> forall k :: 0 <= k < |xs| ==> step(xs[k]).err.None?
    ensures RunEach(xs, step).err.None? ==> forall k :: 0 <= k < |xs| ==> RunEach(xs, step).value[k] == step(xs[k]).value
  {
    RunFromAll(xs, 0, step);
  }

  /** The loop state before a loop over xs starts: nothing processed yet. */
  lemma RunEachStart<T>(xs: seq<T>, step: T -> Outcome<T>)
    ensures RunEach(xs, step) == Outcome([] + RunFrom(xs, 0, step).value, RunFrom(xs, 0, step).err)
  {
    assert [] + RunFrom(xs, 0, step).value == RunFrom(xs, 0, step).value;
  }

  /**
   * One step of a loop over xs that has processed its first i elements into done: a step that
   * raises ends the loop with the rest untouched, one that does not extends done.
   */
  lemma RunEachAdvance<T>(xs: seq<T>, step: T -> Outcome<T>, done: seq<T>, i: nat)
    requires i < |xs|
    requires RunEach(xs, step) == Outcome(done + RunFrom(xs, i, step).value, RunFrom(xs, i, step).err)
    ensures step(xs[i]).err.Some? ==>
      RunEach(xs, step) == Outcome(done + [step(xs[i]).value] + xs[i + 1..], step(xs[i]).err)
    ensures step(xs[i]).err.None? ==>
      RunEach(xs, step) ==
        Outcome((done + [step(xs[i]).value]) + RunFrom(xs, i + 1, step).value, RunFrom(xs, i + 1, step).err)
  {
    var h := step(xs[i]);
    if h.err.Some? {
      assert done + ([h.value] + xs[i + 1..]) == done + [h.value] + xs[i + 1..];
    } else {
      var t := RunFrom(xs, i + 1, step).value;
      assert done + ([h.value] + t) == (done + [h.value]) + t;
    }
  }

  /** A loop over xs that processed every element without raising. */
  lemma RunEachEnd<T>(xs: seq<T>, step: T -> Outcome<T>, done: seq<T>)
    requires RunEach(xs, step) == Outcome(done + RunFrom(xs, |xs|, step).value, RunFrom(xs, |xs|, step).err)
    ensures RunEach(xs, step) == Outcome(done, None)
  {
    assert done + [] == done;
  }

  /** A layer as the loaders construct it; the derived totals and extents start at zero. */
  function NewRowLayer(rows: seq<Row>, hasParticleColumn: bool, spotSize: (real, real), energyNominal: real,
                       energyMeasured: real, espread: real, cumMu: real, repaint: int, nSpots: int): RowLayer
  {
    RowLayer(rows, hasParticleColumn, spotSize, energyNominal, energyMeasured, espread, cumMu, 0.0,
             repaint, nSpots, 0.0, true, 0.0, 0.0, 0.0, 0.0)
  }

  /** `Field()` with its declared defaults. */
  const NewField: BeamField := BeamField([], 0, 0.0, 0.0, 0.0, 0.0, 1.0, 0.0, 0.0, 0.0, 0.0, 0.0, 0.0, 0.0, "")

  /** `Plan()` with its declared defaults. */
  const NewPlan: PlanData := PlanData(PlanHeader("", "", "", "", "", "", "", ""), [], 0, 1.0, 1.0, false, false, false)

  // ---------------------------------------------------------------------------------------
  // First loop of apply_beammodel: MU to particles, layer by layer

  /** The spot FWHM in x and y of a beam model at a nominal energy: each sigma times the FWHM of a unit sigma. */
  function ModelSpotSize(m: BeamModel, e: real): (real, real)
  {
    (m.sigmaX(e) * m.fwhmPerSigma, m.sigmaY(e) * m.fwhmPerSigma)
  }

  /** The coefficient without a beam model: the vendor factor over the stopping power of air. */
  function PerStoppingPower(factor: real, dedx: real): real
    requires dedx > 0.0
  {
    factor / dedx
  }

  /** A spot's particle number: its MU times the layer coefficient times the field scaling. */
  function ParticleNumber(mu: real, coef: real, scaling: real): real
  {
    mu * coef * scaling
  }

  /** Column 3 of the spot table set to column 2 times the coefficient times the field scaling. */
  function WithParticles(rows: seq<Row>, coef: real, scaling: real): (r: seq<Row>)
    ensures |r| == |rows|
  {
    seq(|rows|, k requires 0 <= k < |rows| => rows[k].(particles := ParticleNumber(rows[k].mu, coef, scaling)))
  }

  /**
   * One layer of the first loop. With a beam model the coefficient, measured energy and energy
   * spread are looked up at the nominal energy before the particle column is written, and the
   * spot size after it; without one the coefficient is the vendor factor over the stopping
   * power of air at the measured energy.
   */
  function ConvertLayer(l: RowLayer, scaling: real, model: Option<BeamModel>, factor: real,
                        fit: StoppingPowerFit): (r: Outcome<RowLayer>)
    ensures |r.value.rows| == |l.rows|
    ensures r.value.(muToPartCoef := l.muToPartCoef, energyMeasured := l.energyMeasured, espread := l.espread,
                     rows := l.rows, spotSize := l.spotSize) == l
  {
    if model.Some? then
      var m := model.value;
      var e := l.energyNominal;
      var c := m.ppmu(e);
      var l1 := l.(muToPartCoef := c, energyMeasured := m.energy(e), espread := m.espread(e));
      if !l.hasParticleColumn then Outcome(l1, Some(MissingParticleColumn))
      else Outcome(l1.(rows := WithParticles(l.rows, c, scaling),
                       spotSize := ModelSpotSize(m, e)), None)
    else
      match DedxAir(l.energyMeasured, fit)
      case Failure(e) => Outcome(l, Some(e))
      case Success(d) =>
        var c := PerStoppingPower(factor, d);
        var l1 := l.(muToPartCoef := c);
        if !l.hasParticleColumn then Outcome(l1, Some(MissingParticleColumn))
        else Outcome(l1.(rows := WithParticles(l.rows, c, scaling)), None)
  }

  /** The layers of one field in order, stopping at the first that raises. */
  function ConvertLayers(ls: seq<RowLayer>, scaling: real, model: Option<BeamModel>, factor: real,
                         fit: StoppingPowerFit): (r: Outcome<seq<RowLayer>>)
    ensures |r.value| == |ls|
  {
    RunEachLength(ls, l => ConvertLayer(l, scaling, model, factor, fit));
    RunEach(ls, l => ConvertLayer(l, scaling, model, factor, fit))
  }

  function ConvertField(f: BeamField, model: Option<BeamModel>, factor: real, fit: StoppingPowerFit): Outcome<BeamField>
  {
    var r := ConvertLayers(f.layers, f.scaling, model, factor, fit);
    Outcome(f.(layers := r.value), r.err)
  }

  /** All fields in order, stopping at the first layer that raises. */
  function ConvertFields(fs: seq<BeamField>, model: Option<BeamModel>, factor: real,
                         fit: StoppingPowerFit): (r: Outcome<seq<BeamField>>)
    ensures |r.value| == |fs|
  {
    RunEachLength(fs, f => ConvertField(f, model, factor, fit));
    RunEach(fs, f => ConvertField(f, model, factor, fit))
  }

  /** The conversion coefficient the first loop uses for a layer whose lookups succeed. */
  function Coefficient(l: RowLayer, model: Option<BeamModel>, factor: real, fit: StoppingPowerFit): real
  {
    if model.Some? then model.value.ppmu(l.energyNominal) else PerStoppingPower(factor, fit(l.energyMeasured))
  }

  /**
   * A layer converts without raising exactly when its table has a particle column and, without
   * a beam model, its measured energy is inside the stopping-power domain.
   */
  lemma ConvertLayerSucceeds(l: RowLayer, scaling: real, model: Option<BeamModel>, factor: real, fit: StoppingPowerFit)
    ensures ConvertLayer(l, scaling, model, factor, fit).err.None? <==>
      l.hasParticleColumn && (model.Some? || EnergyMin <= l.energyMeasured <= EnergyMax)
    ensures ConvertLayer(l, scaling, model, factor, fit).err.Some? ==>
      ConvertLayer(l, scaling, model, factor, fit).err.value in {MissingParticleColumn, EnergyOutOfRange}
  {
    if model.None? && EnergyMin <= l.energyMeasured <= EnergyMax {
      assert DedxAir(l.energyMeasured, fit) == Success(fit(l.energyMeasured));
    }
  }

  /**
   * After a conversion without error every row's particle number is its MU times the
   * coefficient times the field scaling, and positions and MU are kept.
   */
  lemma ConvertLayerParticles(l: RowLayer, scaling: real, model: Option<BeamModel>, factor: real, fit: StoppingPowerFit)
    requires ConvertLayer(l, scaling, model, factor, fit).err.None?
    ensures var r := ConvertLayer(l, scaling, model, factor, fit).value;
      var c := Coefficient(l, model, factor, fit);
      r.muToPartCoef == c && |r.rows| == |l.rows| && r.isEmpty == l.isEmpty
      && r.energyNominal == l.energyNominal
      && forall k :: 0 <= k < |l.rows| ==>
           r.rows[k].x == l.rows[k].x && r.rows[k].y == l.rows[k].y && r.rows[k].mu == l.rows[k].mu
           && r.rows[k].particles == ParticleNumber(l.rows[k].mu, c, scaling)
  {
    var o := ConvertLayer(l, scaling, model, factor, fit);
    var c := Coefficient(l, model, factor, fit);
    if model.None? {
      ConvertLayerSucceeds(l, scaling, model, factor, fit);
      assert DedxAir(l.energyMeasured, fit) == Success(fit(l.energyMeasured));
      assert o.value == l.(muToPartCoef := c, rows := WithParticles(l.rows, c, scaling));
    } else {
      assert o.value.rows == WithParticles(l.rows, c, scaling);
      assert o.value.muToPartCoef == c;
    }
    ParticlesWritten(l.rows, c, scaling);
  }

  /**
   * With a beam model the measured energy, energy spread and spot size come from the model at
   * the nominal energy; without one they are kept.
   */
  lemma ConvertLayerLookups(l: RowLayer, scaling: real, model: Option<BeamModel>, factor: real, fit: StoppingPowerFit)
    requires ConvertLayer(l, scaling, model, factor, fit).err.None?
    ensures var r := ConvertLayer(l, scaling, model, factor, fit).value;
      var e := l.energyNominal;
      if model.Some? then
        r.energyMeasured == model.value.energy(e) && r.espread == model.value.espread(e)
        && r.spotSize == ModelSpotSize(model.value, e)
      else
        r.energyMeasured == l.energyMeasured && r.espread == l.espread && r.spotSize == l.spotSize
  {
  }

  lemma ParticlesWritten(rows: seq<Row>, c: real, scaling: real)
    ensures forall k :: 0 <= k < |rows| ==>
      WithParticles(rows, c, scaling)[k] == rows[k].(particles := ParticleNumber(rows[k].mu, c, scaling))
  {
  }

  /** A field's layers convert without raising exactly when every layer does, each on its own. */
  lemma ConvertLayersAll(ls: seq<RowLayer>, scaling: real, model: Option<BeamModel>, factor: real,
                                            fit: StoppingPowerFit)
    ensures ConvertLayers(ls, scaling, model, factor, fit).err.None? <==>
      forall k :: 0 <= k < |ls| ==> ConvertLayer(ls[k], scaling, model, factor, fit).err.None?
    ensures ConvertLayers(ls, scaling, model, factor, fit).err.None? ==>
      forall k :: 0 <= k < |ls| ==>
        ConvertLayers(ls, scaling, model, factor, fit).value[k] == ConvertLayer(ls[k], scaling, model, factor, fit).value
  {
    RunEachAll(ls, l => ConvertLayer(l, scaling, model, factor, fit));
  }

  /** Every field converts without raising exactly when every field does, each on its own. */
  lemma ConvertFieldsAll(fs: seq<BeamField>, model: Option<BeamModel>, factor: real,
                                            fit: StoppingPowerFit)
    ensures ConvertFields(fs, model, factor, fit).err.None? <==>
      forall j :: 0 <= j < |fs| ==> ConvertField(fs[j], model, factor, fit).err.None?
    ensures ConvertFields(fs, model, factor, fit).err.None? ==>
      forall j :: 0 <= j < |fs| ==> ConvertFields(fs, model, factor, fit).value[j] == ConvertField(fs[j], model, factor, fit).value
  {
    RunEachAll(fs, f => ConvertField(f, model, factor, fit));
  }

  // ---------------------------------------------------------------------------------------
  // Second loop of apply_beammodel: layer and field totals and extents

  function Mus(rows: seq<Row>): (r: seq<real>)
    ensures |r| == |rows| && forall k :: 0 <= k < |rows| ==> r[k] == rows[k].mu
  {
    seq(|rows|, k requires 0 <= k < |rows| => rows[k].mu)
  }

  function ParticleColumn(rows: seq<Row>): (r: seq<real>)
    ensures |r| == |rows| && forall k :: 0 <= k < |rows| ==> r[k] == rows[k].particles
  {
    seq(|rows|, k requires 0 <= k < |rows| => rows[k].particles)
  }

  /** The rows read as spot records (position and MU; the older layout keeps no spot size per row). */
  function AsSpots(rows: seq<Row>): (r: seq<Layers.Spot>)
    ensures |r| == |rows|
    ensures forall k :: 0 <= k < |rows| ==> r[k].x == rows[k].x && r[k].y == rows[k].y && r[k].mu == rows[k].mu
  {
    seq(|rows|, k requires 0 <= k < |rows| => Layers.Spot(rows[k].x, rows[k].y, rows[k].mu, 0.0, 0.0))
  }

  /** One layer of the second loop, for a layer with at least one row. */
  function LayerTotals(l: RowLayer): RowLayer
    requires |l.rows| > 0
  {
    var mu := Sum(Mus(l.rows));
    l.(nSpots := |l.rows|,
       xmin := Layers.Min(Layers.Xs(AsSpots(l.rows))), xmax := Layers.Max(Layers.Xs(AsSpots(l.rows))),
       ymin := Layers.Min(Layers.Ys(AsSpots(l.rows))), ymax := Layers.Max(Layers.Ys(AsSpots(l.rows))),
       cumMu := mu,
       isEmpty := if mu > 0.0 then false else l.isEmpty,
       cumParticles := Sum(ParticleColumn(l.rows)))
  }

  /**
   * A layer's totals are the column sums over all its rows, its count is the row count, its
   * extents bound every row (zero-MU rows included) and are attained by some row, and it is
   * marked non-empty once it carries MU, never marked empty again.
   */
  lemma LayerTotalsMeaning(l: RowLayer)
    requires |l.rows| > 0
    ensures var r := LayerTotals(l);
      r.rows == l.rows && r.nSpots == |l.rows|
      && r.cumMu == Sum(Mus(l.rows)) && r.cumParticles == Sum(ParticleColumn(l.rows))
      && (r.isEmpty <==> l.isEmpty && !(r.cumMu > 0.0))
      && (forall k :: 0 <= k < |l.rows| ==>
            r.xmin <= l.rows[k].x <= r.xmax && r.ymin <= l.rows[k].y <= r.ymax)
      && (exists k :: 0 <= k < |l.rows| && l.rows[k].x == r.xmin)
      && (exists k :: 0 <= k < |l.rows| && l.rows[k].x == r.xmax)
      && (exists k :: 0 <= k < |l.rows| && l.rows[k].y == r.ymin)
      && (exists k :: 0 <= k < |l.rows| && l.rows[k].y == r.ymax)
  {
    var r := LayerTotals(l);
    var xs, ys := Layers.Xs(AsSpots(l.rows)), Layers.Ys(AsSpots(l.rows));
    var a :| 0 <= a < |xs| && xs[a] == r.xmin;
    var b :| 0 <= b < |xs| && xs[b] == r.xmax;
    var c :| 0 <= c < |ys| && ys[c] == r.ymin;
    var d :| 0 <= d < |ys| && ys[d] == r.ymax;
    assert l.rows[a].x == r.xmin && l.rows[b].x == r.xmax;
    assert l.rows[c].y == r.ymin && l.rows[d].y == r.ymax;
  }

  /** The index of the first layer without rows, or the number of layers. */
  function FirstEmpty(ls: seq<RowLayer>): (k: nat)
    ensures k <= |ls|
    ensures forall i :: 0 <= i < k ==> |ls[i].rows| > 0
    ensures k < |ls| ==> |ls[k].rows| == 0
    decreases |ls|
  {
    if |ls| == 0 || |ls[0].rows| == 0 then 0
    else
      var k := FirstEmpty(ls[1..]);
      assert forall i :: 1 <= i < k + 1 ==> ls[1..][i - 1] == ls[i];
      k + 1
  }

  /** The first n layers with their totals. */
  function Totalled(ls: seq<RowLayer>, n: nat): (r: seq<RowLayer>)
    requires n <= |ls| && forall i :: 0 <= i < n ==> |ls[i].rows| > 0
    ensures |r| == n
  {
    seq(n, i requires 0 <= i < n => LayerTotals(ls[i]))
  }

  function CumMus(ls: seq<RowLayer>): (r: seq<real>)
    ensures |r| == |ls| && forall k :: 0 <= k < |ls| ==> r[k] == ls[k].cumMu
  {
    seq(|ls|, k requires 0 <= k < |ls| => ls[k].cumMu)
  }

  function CumParticles(ls: seq<RowLayer>): (r: seq<real>)
    ensures |r| == |ls| && forall k :: 0 <= k < |ls| ==> r[k] == ls[k].cumParticles
  {
    seq(|ls|, k requires 0 <= k < |ls| => ls[k].cumParticles)
  }

  function XMins(ls: seq<RowLayer>): (r: seq<real>)
    ensures |r| == |ls| && forall k :: 0 <= k < |ls| ==> r[k] == ls[k].xmin
  {
    seq(|ls|, k requires 0 <= k < |ls| => ls[k].xmin)
  }

  function XMaxs(ls: seq<RowLayer>): (r: seq<real>)
    ensures |r| == |ls| && forall k :: 0 <= k < |ls| ==> r[k] == ls[k].xmax
  {
    seq(|ls|, k requires 0 <= k < |ls| => ls[k].xmax)
  }

  function YMins(ls: seq<RowLayer>): (r: seq<real>)
    ensures |r| == |ls| && forall k :: 0 <= k < |ls| ==> r[k] == ls[k].ymin
  {
    seq(|ls|, k requires 0 <= k < |ls| => ls[k].ymin)
  }

  function YMaxs(ls: seq<RowLayer>): (r: seq<real>)
    ensures |r| == |ls| && forall k :: 0 <= k < |ls| ==> r[k] == ls[k].ymax
  {
    seq(|ls|, k requires 0 <= k < |ls| => ls[k].ymax)
  }

  /** The six field attributes the second loop accumulates over the layers. */
  datatype Totals = Totals(cumParticles: real, cumMu: real, xmin: real, xmax: real, ymin: real, ymax: real)

  /** The field attributes after one more totalled layer t, as the loop body updates them. */
  function Accumulate(a: Totals, t: RowLayer): Totals
  {
    Totals(a.cumParticles + t.cumParticles, a.cumMu + t.cumMu,
           if t.xmin < a.xmin then t.xmin else a.xmin, if t.xmax > a.xmax then t.xmax else a.xmax,
           if t.ymin < a.ymin then t.ymin else a.ymin, if t.ymax > a.ymax then t.ymax else a.ymax)
  }

  /** The field attributes after the loop body has run over the totalled layers done, from 0.0. */
  function Accumulated(done: seq<RowLayer>): Totals
    decreases |done|
  {
    if |done| == 0 then Totals(0.0, 0.0, 0.0, 0.0, 0.0, 0.0)
    else Accumulate(Accumulated(done[..|done| - 1]), done[|done| - 1])
  }

  function WithTotals(f: BeamField, layers: seq<RowLayer>, a: Totals): BeamField
  {
    f.(layers := layers, cumParticles := a.cumParticles, cumMu := a.cumMu,
       xmin := a.xmin, xmax := a.xmax, ymin := a.ymin, ymax := a.ymax)
  }

  /**
   * One field of the second loop: the layers are totalled in order, and the first layer
   * without rows raises when its minimum is taken, after its spot count was set to 0.
   */
  function FieldTotals(f: BeamField): (r: Outcome<BeamField>)
    ensures |r.value.layers| == |f.layers|
    ensures r.err.None? <==> forall k :: 0 <= k < |f.layers| ==> |f.layers[k].rows| > 0
    ensures r.err.Some? ==> r.err == Some(EmptySpotTable)
  {
    var k := FirstEmpty(f.layers);
    var done := Totalled(f.layers, k);
    if k < |f.layers| then
      Outcome(WithTotals(f, done + [f.layers[k].(nSpots := 0)] + f.layers[k + 1..], Accumulated(done)), Some(EmptySpotTable))
    else Outcome(WithTotals(f, done, Accumulated(done)), None)
  }

  function TotalFields(fs: seq<BeamField>): (r: Outcome<seq<BeamField>>)
    ensures |r.value| == |fs|
  {
    RunEachLength(fs, FieldTotals);
    RunEach(fs, FieldTotals)
  }

  /** `apply_beammodel`: the first loop over every field, then the second. */
  function ApplyModel(fs: seq<BeamField>, model: Option<BeamModel>, factor: real, fit: StoppingPowerFit): (r: Outcome<seq<BeamField>>)
    ensures |r.value| == |fs|
  {
    var c := ConvertFields(fs, model, factor, fit);
    if c.err.Some? then c else TotalFields(c.value)
  }

  /**
   * After totals without error each layer holds its own totals, the field MU and particle
   * totals are the sums of the layer totals, and the field extents include 0.0 and bound every
   * layer's extents.
   */
  lemma FieldTotalsMeaning(f: BeamField)
    requires FieldTotals(f).err.None?
    ensures var g := FieldTotals(f).value;
      |g.layers| == |f.layers|
      && (forall k :: 0 <= k < |f.layers| ==> g.layers[k] == LayerTotals(f.layers[k]))
      && g.cumMu == Sum(CumMus(g.layers)) && g.cumParticles == Sum(CumParticles(g.layers))
      && g.xmin <= 0.0 <= g.xmax && g.ymin <= 0.0 <= g.ymax
      && (forall k :: 0 <= k < |g.layers| ==>
            g.xmin <= g.layers[k].xmin && g.layers[k].xmax <= g.xmax
            && g.ymin <= g.layers[k].ymin && g.layers[k].ymax <= g.ymax)
  {
    var done := Totalled(f.layers, |f.layers|);
    AccumulatedSums(done);
    AccumulatedBounds(done);
  }

  /** After totals without error each field extent is 0.0 or the extent of one of its layers. */
  lemma FieldExtentsAttained(f: BeamField)
    requires FieldTotals(f).err.None?
    ensures var g := FieldTotals(f).value;
      (g.xmin == 0.0 || exists k :: 0 <= k < |g.layers| && g.layers[k].xmin == g.xmin)
      && (g.xmax == 0.0 || exists k :: 0 <= k < |g.layers| && g.layers[k].xmax == g.xmax)
      && (g.ymin == 0.0 || exists k :: 0 <= k < |g.layers| && g.layers[k].ymin == g.ymin)
      && (g.ymax == 0.0 || exists k :: 0 <= k < |g.layers| && g.layers[k].ymax == g.ymax)
  {
    AccumulatedAttained(Totalled(f.layers, |f.layers|));
  }

  /** The accumulated field MU and particle totals are the sums of the layer totals. */
  lemma {:induction false} AccumulatedSums(done: seq<RowLayer>)
    ensures Accumulated(done).cumParticles == Sum(CumParticles(done))
    ensures Accumulated(done).cumMu == Sum(CumMus(done))
    decreases |done|
  {
    if |done| > 0 {
      var n := |done| - 1;
      AccumulatedSums(done[..n]);
      assert CumParticles(done)[..n] == CumParticles(done[..n]);
      assert CumMus(done)[..n] == CumMus(done[..n]);
    }
  }

  /** The accumulated field extents include 0.0 and bound every layer's extents. */
  lemma {:induction false} AccumulatedBounds(done: seq<RowLayer>)
    ensures var a := Accumulated(done);
      a.xmin <= 0.0 <= a.xmax && a.ymin <= 0.0 <= a.ymax
      && forall k :: 0 <= k < |done| ==>
           a.xmin <= done[k].xmin && done[k].xmax <= a.xmax && a.ymin <= done[k].ymin && done[k].ymax <= a.ymax
    decreases |done|
  {
    if |done| > 0 {
      var n := |done| - 1;
      AccumulatedBounds(done[..n]);
      assert forall k :: 0 <= k < n ==> done[..n][k] == done[k];
    }
  }

  /** Each accumulated field extent is 0.0 or the extent of some layer. */
  lemma {:induction false} AccumulatedAttained(done: seq<RowLayer>)
    ensures var a := Accumulated(done);
      (a.xmin == 0.0 || exists k :: 0 <= k < |done| && done[k].xmin == a.xmin)
      && (a.xmax == 0.0 || exists k :: 0 <= k < |done| && done[k].xmax == a.xmax)
      && (a.ymin == 0.0 || exists k :: 0 <= k < |done| && done[k].ymin == a.ymin)
      && (a.ymax == 0.0 || exists k :: 0 <= k < |done| && done[k].ymax == a.ymax)
    decreases |done|
  {
    if |done| > 0 {
      var n := |done| - 1;
      AccumulatedAttained(done[..n]);
      assert forall k :: 0 <= k < n ==> done[..n][k] == done[k];
    }
  }

  /** The second loop succeeds exactly when every field's totals do, each field on its own. */
  lemma TotalFieldsAll(fs: seq<BeamField>)
    ensures TotalFields(fs).err.None? <==> forall j :: 0 <= j < |fs| ==> FieldTotals(fs[j]).err.None?
    ensures TotalFields(fs).err.None? ==> forall j :: 0 <= j < |fs| ==> TotalFields(fs).value[j] == FieldTotals(fs[j]).value
  {
    RunEachAll(fs, FieldTotals);
  }

  /** A layer that converts and has a row: a particle column, and a usable energy without a beam model. */
  predicate LayerConvertible(l: RowLayer, model: Option<BeamModel>)
  {
    l.hasParticleColumn && |l.rows| > 0 && (model.Some? || EnergyMin <= l.energyMeasured <= EnergyMax)
  }

  /** Every layer of every field of the plan converts and has a row. */
  predicate Convertible(fs: seq<BeamField>, model: Option<BeamModel>)
  {
    forall j, k :: 0 <= j < |fs| && 0 <= k < |fs[j].layers| ==> LayerConvertible(fs[j].layers[k], model)
  }

  /** A field goes through both loops without raising exactly when each of its layers is convertible. */
  lemma FieldApplies(f: BeamField, model: Option<BeamModel>, factor: real, fit: StoppingPowerFit)
    ensures var c := ConvertField(f, model, factor, fit);
      (c.err.None? && FieldTotals(c.value).err.None?) <==>
        forall k :: 0 <= k < |f.layers| ==> LayerConvertible(f.layers[k], model)
  {
    var c := ConvertField(f, model, factor, fit);
    ConvertLayersAll(f.layers, f.scaling, model, factor, fit);
    forall k | 0 <= k < |f.layers|
      ensures ConvertLayer(f.layers[k], f.scaling, model, factor, fit).err.None? <==>
        f.layers[k].hasParticleColumn && (model.Some? || EnergyMin <= f.layers[k].energyMeasured <= EnergyMax)
      ensures |ConvertLayer(f.layers[k], f.scaling, model, factor, fit).value.rows| == |f.layers[k].rows|
    {
      ConvertLayerSucceeds(f.layers[k], f.scaling, model, factor, fit);
    }
  }

  /**
   * `apply_beammodel` succeeds exactly when every layer has a particle column and a row and,
   * without a beam model, a measured energy inside the stopping-power domain. Then field j is
   * field j converted layer by layer and then totalled.
   */
  lemma ApplyModelMeaning(fs: seq<BeamField>, model: Option<BeamModel>, factor: real, fit: StoppingPowerFit)
    ensures ApplyModel(fs, model, factor, fit).err.None? <==> Convertible(fs, model)
    ensures ApplyModel(fs, model, factor, fit).err.None? ==>
      |ApplyModel(fs, model, factor, fit).value| == |fs|
      && forall j :: 0 <= j < |fs| ==>
           ApplyModel(fs, model, factor, fit).value[j] == FieldTotals(ConvertField(fs[j], model, factor, fit).value).value
  {
    ConvertFieldsAll(fs, model, factor, fit);
    var c := ConvertFields(fs, model, factor, fit);
    forall j | 0 <= j < |fs|
      ensures var cj := ConvertField(fs[j], model, factor, fit);
        (cj.err.None? && FieldTotals(cj.value).err.None?) <==>
          forall k :: 0 <= k < |fs[j].layers| ==> LayerConvertible(fs[j].layers[k], model)
    {
      FieldApplies(fs[j], model, factor, fit);
    }
    if c.err.None? {
      TotalFieldsAll(c.value);
    }
  }

  // ---------------------------------------------------------------------------------------
  // The loops of apply_beammodel

  /** The first loop over the layers of one field. */
  method ConvertLayersLoop(ls: seq<RowLayer>, scaling: real, model: Option<BeamModel>, factor: real,
                           fit: StoppingPowerFit) returns (r: Outcome<seq<RowLayer>>)
    ensures r == ConvertLayers(ls, scaling, model, factor, fit)
  {
    ghost var step := l => ConvertLayer(l, scaling, model, factor, fit);
    var done: seq<RowLayer> := [];
    var i := 0;
    RunEachStart(ls, step);
    while i < |ls|
      invariant 0 <= i <= |ls| && |done| == i
      invariant RunEach(ls, step) == Outcome(done + RunFrom(ls, i, step).value, RunFrom(ls, i, step).err)
    {
      var h := ConvertLayer(ls[i], scaling, model, factor, fit);
      assert h == step(ls[i]);
      RunEachAdvance(ls, step, done, i);
      if h.err.Some? {
        return Outcome(done + [h.value] + ls[i + 1..], h.err);
      }
      done := done + [h.value];
      i := i + 1;
    }
    RunEachEnd(ls, step, done);
    return Outcome(done, None);
  }

  /** The first i + 1 layers totalled are the first i layers totalled and layer i totalled. */
  lemma TotalledSnoc(ls: seq<RowLayer>, i: nat)
    requires i < |ls| && (forall j :: 0 <= j < i ==> |ls[j].rows| > 0) && |ls[i].rows| > 0
    ensures Totalled(ls, i + 1) == Totalled(ls, i) + [LayerTotals(ls[i])]
  {
  }

  /** The second loop over a field stops at the first layer without rows, or after the last layer. */
  lemma FieldTotalsStop(f: BeamField, i: nat)
    requires i <= FirstEmpty(f.layers)
    requires i == |f.layers| || |f.layers[i].rows| == 0
    ensures i == FirstEmpty(f.layers)
    ensures var done := Totalled(f.layers, i);
      FieldTotals(f) ==
        if i < |f.layers| then
          Outcome(WithTotals(f, done + [f.layers[i].(nSpots := 0)] + f.layers[i + 1..], Accumulated(done)), Some(EmptySpotTable))
        else Outcome(WithTotals(f, done, Accumulated(done)), None)
  {
  }

  /**
   * The second loop over the layers of one field, up to the first layer without rows, where
   * taking the minimum raises: the layers before it totalled, and the field attributes
   * accumulated over them.
   */
  method AccumulateLayers(ls: seq<RowLayer>) returns (done: seq<RowLayer>, acc: Totals, i: nat)
    ensures i == FirstEmpty(ls) && done == Totalled(ls, i) && acc == Accumulated(done)
  {
    done, acc, i := [], Totals(0.0, 0.0, 0.0, 0.0, 0.0, 0.0), 0;
    while i < |ls| && |ls[i].rows| > 0
      invariant i <= FirstEmpty(ls)
      invariant done == Totalled(ls, i)
      invariant acc == Accumulated(done)
    {
      var t := LayerTotals(ls[i]);
      assert i != FirstEmpty(ls);
      assert (done + [t])[..|done|] == done;
      TotalledSnoc(ls, i);
      done := done + [t];
      acc := Accumulate(acc, t);
      i := i + 1;
    }
  }

  /** The second loop over one field: the field totals, or the exception of its first layer without rows. */
  method TotalsLoop(f: BeamField) returns (r: Outcome<BeamField>)
    ensures r == FieldTotals(f)
  {
    var done, acc, i := AccumulateLayers(f.layers);
    FieldTotalsStop(f, i);
    if i < |f.layers| {
      return Outcome(WithTotals(f, done + [f.layers[i].(nSpots := 0)] + f.layers[i + 1..], acc), Some(EmptySpotTable));
    }
    return Outcome(WithTotals(f, done, acc), None);
  }

  /** The first loop of `apply_beammodel` over every field. */
  method ConvertFieldsLoop(fs: seq<BeamField>, model: Option<BeamModel>, factor: real,
                           fit: StoppingPowerFit) returns (r: Outcome<seq<BeamField>>)
    ensures r == ConvertFields(fs, model, factor, fit)
  {
    ghost var step := f => ConvertField(f, model, factor, fit);
    var done: seq<BeamField> := [];
    var i := 0;
    RunEachStart(fs, step);
    while i < |fs|
      invariant 0 <= i <= |fs| && |done| == i
      invariant RunEach(fs, step) == Outcome(done + RunFrom(fs, i, step).value, RunFrom(fs, i, step).err)
    {
      var c := ConvertLayersLoop(fs[i].layers, fs[i].scaling, model, factor, fit);
      var h := Outcome(fs[i].(layers := c.value), c.err);
      assert h == step(fs[i]);
      RunEachAdvance(fs, step, done, i);
      if h.err.Some? {
        return Outcome(done + [h.value] + fs[i + 1..], h.err);
      }
      done := done + [h.value];
      i := i + 1;
    }
    RunEachEnd(fs, step, done);
    return Outcome(done, None);
  }

  /** The second loop of `apply_beammodel` over every field. */
  method TotalFieldsLoop(fs: seq<BeamField>) returns (r: Outcome<seq<BeamField>>)
    ensures r == TotalFields(fs)
  {
    var done: seq<BeamField> := [];
    var i := 0;
    RunEachStart(fs, FieldTotals);
    while i < |fs|
      invariant 0 <= i <= |fs| && |done| == i
      invariant RunEach(fs, FieldTotals) == Outcome(done + RunFrom(fs, i, FieldTotals).value, RunFrom(fs, i, FieldTotals).err)
    {
      var h := TotalsLoop(fs[i]);
      RunEachAdvance(fs, FieldTotals, done, i);
      if h.err.Some? {
        return Outcome(done + [h.value] + fs[i + 1..], h.err);
      }
      done := done + [h.value];
      i := i + 1;
    }
    RunEachEnd(fs, FieldTotals, done);
    return Outcome(done, None);
  }
}
