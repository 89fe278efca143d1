/**
 * `DicomUtil.set_repainting` (dicomfix/dicomutil.py 492-539): every spot is split into n
 * repaintings. Even control points get their weights divided by n, odd control points (the
 * zero-weight echo layers) get zeros, the weight list and the position map are repeated n times,
 * and on even control points every spot whose MU falls below the minimum is zeroed and counted.
 */
module Repaint {
  import opened Common
  import opened IonPlan

  /** The repaint check: spot MU below the minimum, zero-weight spots included. */
  predicate BelowMin(w: real, metersetPerWeight: real)
  {
    w * metersetPerWeight < MuMin
  }

  /** Every spot is zero or has at least the minimum MU. */
  predicate AllAdmitted(ws: seq<real>, metersetPerWeight: real)
  {
    forall k :: 0 <= k < |ws| ==> ws[k] == 0.0 || !BelowMin(ws[k], metersetPerWeight)
  }

  /** `w if mu >= MU_MIN else 0.0` */
  function Kept(w: real, metersetPerWeight: real): (r: real)
    ensures r == 0.0 || (r == w && !BelowMin(w, metersetPerWeight))
  {
    if BelowMin(w, metersetPerWeight) then 0.0 else w
  }

  function KeepAdmitted(ws: seq<real>, metersetPerWeight: real): (r: seq<real>)
    ensures |r| == |ws|
  {
    seq(|ws|, k requires 0 <= k < |ws| => Kept(ws[k], metersetPerWeight))
  }

  /** `sum(mu < MU_MIN for mu in _mu)` */
  function CountBelow(ws: seq<real>, metersetPerWeight: real): nat
  {
    if |ws| == 0 then 0
    else CountBelow(ws[..|ws| - 1], metersetPerWeight) + (if BelowMin(ws[|ws| - 1], metersetPerWeight) then 1 else 0)
  }

  lemma {:induction false} CountBelowAppend(a: seq<real>, b: seq<real>, mpw: real)
    ensures CountBelow(a + b, mpw) == CountBelow(a, mpw) + CountBelow(b, mpw)
  {
    if |b| == 0 {
      assert a + b == a;
    } else {
      assert (a + b)[..|a + b| - 1] == a + b[..|b| - 1];
      CountBelowAppend(a, b[..|b| - 1], mpw);
    }
  }

  /** Every repetition of a list has the same spots below the minimum. */
  lemma {:induction false} CountBelowRepeat(s: seq<real>, n: nat, mpw: real)
    ensures CountBelow(Repeat(s, n), mpw) == n * CountBelow(s, mpw)
  {
    if n > 0 {
      CountBelowRepeat(s, n - 1, mpw);
      CountBelowAppend(Repeat(s, n - 1), s, mpw);
      assert (n - 1) * CountBelow(s, mpw) + CountBelow(s, mpw) == n * CountBelow(s, mpw);
    }
  }

  /** A list with no spot below the minimum: some spot is, if and only if the count is positive. */
  lemma {:induction false} CountBelowZeroMeaning(ws: seq<real>, mpw: real)
    ensures CountBelow(ws, mpw) == 0 <==> forall k :: 0 <= k < |ws| ==> !BelowMin(ws[k], mpw)
  {
    if |ws| > 0 {
      var p := ws[..|ws| - 1];
      CountBelowZeroMeaning(p, mpw);
      assert forall k :: 0 <= k < |p| ==> p[k] == ws[k];
    }
  }

  /** Where no spot is below the minimum, the admission step keeps the list as it is. */
  lemma KeepAdmittedNone(ws: seq<real>, mpw: real)
    requires CountBelow(ws, mpw) == 0
    ensures KeepAdmitted(ws, mpw) == ws
  {
    CountBelowZeroMeaning(ws, mpw);
  }

  /**
   * The weights of control point i after the split: `[w / n for w in w]` on even control points,
   * `[0.0] * len(w)` on odd ones, then repeated n times.
   */
  function SplitWeights(ws: seq<real>, i: nat, n: nat): seq<real>
    requires n > 0
  {
    Repeat(if i % 2 == 0 then Scale(ws, 1.0 / (n as real)) else Zeros(|ws|), n)
  }

  lemma MulInverse(x: real, n: real)
    requires n != 0.0
    ensures n * (x * (1.0 / n)) == x
  {
  }

  /**
   * The split has n times as many spots; on an even control point it keeps the layer's total
   * weight (each spot is split into n parts of w / n), on an odd one it is all zeros.
   */
  lemma SplitWeightsMeaning(ws: seq<real>, i: nat, n: nat)
    requires n > 0
    ensures |SplitWeights(ws, i, n)| == |ws| * n
    ensures i % 2 == 0 ==> Sum(SplitWeights(ws, i, n)) == Sum(ws)
    ensures forall k :: 0 <= k < |SplitWeights(ws, i, n)| ==>
      |ws| > 0 && SplitWeights(ws, i, n)[k] == if i % 2 == 0 then ws[k % |ws|] / (n as real) else 0.0
  {
    SplitWeightsAt(ws, i, n);
    if i % 2 == 0 {
      SplitWeightsSum(ws, n);
    }
  }

  /** The split is empty exactly when there are no weights to split. */
  lemma SplitWeightsEmpty(ws: seq<real>, i: nat, n: nat)
    requires n > 0
    ensures |SplitWeights(ws, i, n)| == 0 <==> |ws| == 0
  {
    RepeatLength(if i % 2 == 0 then Scale(ws, 1.0 / (n as real)) else Zeros(|ws|), n);
  }

  lemma SplitWeightsSum(ws: seq<real>, n: nat)
    requires n > 0
    ensures Sum(SplitWeights(ws, 0, n)) == Sum(ws)
  {
    var part := Scale(ws, 1.0 / (n as real));
    assert SplitWeights(ws, 0, n) == Repeat(part, n);
    SumRepeat(part, n);
    SumScale(ws, 1.0 / (n as real));
    MulInverse(Sum(ws), n as real);
  }

  lemma SplitWeightsAt(ws: seq<real>, i: nat, n: nat)
    requires n > 0
    ensures |SplitWeights(ws, i, n)| == |ws| * n
    ensures forall k :: 0 <= k < |SplitWeights(ws, i, n)| ==>
      |ws| > 0 && SplitWeights(ws, i, n)[k] == if i % 2 == 0 then ws[k % |ws|] / (n as real) else 0.0
  {
    var part := if i % 2 == 0 then Scale(ws, 1.0 / (n as real)) else Zeros(|ws|);
    assert SplitWeights(ws, i, n) == Repeat(part, n);
    RepeatLength(part, n);
    forall k | 0 <= k < |ws| * n
      ensures |ws| > 0 && Repeat(part, n)[k] == part[k % |ws|]
    {
      RepeatAt(part, n, k);
    }
  }

  /** `ScanSpotPositionMap * 5`, written out. */
  function Fivefold<T>(s: seq<T>): (r: seq<T>)
    ensures |r| == 5 * |s|
  {
    s + s + s + s + s
  }

  /** It is five copies of the map, one after the other. */
  lemma FivefoldRepeats<T>(s: seq<T>)
    ensures Fivefold(s) == Repeat(s, 5)
  {
    assert Repeat(s, 1) == [] + s == s;
    assert Repeat(s, 2) == s + s;
    assert Repeat(s, 3) == s + s + s;
    assert Repeat(s, 4) == s + s + s + s;
  }

  /** Control point i after repainting, the spots it discarded, and the ValueError of `min([])`. */
  datatype Painted = Painted(cp: ControlPoint, discarded: nat, err: Option<Error>)

  /**
   * One iteration of the control-point loop: the position map is repeated 5 times and then n
   * times, the spot count multiplied by n, the weights split; an even control point then zeroes
   * and counts its spots below the minimum, and without spots fails on the minimum of an empty list.
   * For n == 0 an even control point with spots fails on the division `weight / n` after the
   * position map was made fivefold; for n <= 0 Python's list repetition leaves no spot at all, so
   * every even control point fails on the minimum of an empty list.
   */
  function RepaintPoint(cp: ControlPoint, i: nat, n: int, mpw: real): (r: Painted)
    ensures r.err.Some? <==> i % 2 == 0 && (n <= 0 || |cp.weights| == 0)
    ensures r.err == Some(DivisionByZero) <==> i % 2 == 0 && n == 0 && |cp.weights| > 0
    ensures r.err.Some? || i % 2 != 0 ==> r.discarded == 0
  {
    if n == 0 && i % 2 == 0 && |cp.weights| > 0 then
      Painted(cp.(positions := Fivefold(cp.positions)), 0, Some(DivisionByZero))
    else
    var c: nat := if n > 0 then n else 0;
    var nw := if n > 0 then SplitWeightsEmpty(cp.weights, i, c); SplitWeights(cp.weights, i, c) else [];
    var cp1 := cp.(weights := nw, positions := Repeat(Fivefold(cp.positions), c), numberOfSpots := cp.numberOfSpots * c);
    if i % 2 != 0 then Painted(cp1, 0, None)
    else if |nw| == 0 then Painted(cp1, 0, Some(EmptySpotTable))
    else Painted(cp1.(weights := KeepAdmitted(nw, mpw)), CountBelow(nw, mpw), None)
  }

  /**
   * What one control point becomes: n times the spots, the position map repeated 5·n times,
   * nothing else of the control point changed; even control points fail exactly when they have
   * no spots.
   */
  lemma RepaintPointShape(cp: ControlPoint, i: nat, n: nat, mpw: real)
    requires n > 0
    ensures var r := RepaintPoint(cp, i, n, mpw);
      r.cp.numberOfSpots == cp.numberOfSpots * n && |r.cp.weights| == |cp.weights| * n &&
      r.cp.positions == Repeat(Fivefold(cp.positions), n) &&
      r.cp == cp.(weights := r.cp.weights, positions := r.cp.positions, numberOfSpots := r.cp.numberOfSpots) &&
      (r.err.Some? <==> i % 2 == 0 && |cp.weights| == 0) &&
      (r.err.Some? ==> r.err == Some(EmptySpotTable))
  {
    SplitWeightsAt(cp.weights, i, n);
    if |cp.weights| > 0 {
      MulAtLeast(|cp.weights|, n);
    }
  }

  /** Odd control points end all zero and count nothing. */
  lemma RepaintPointOdd(cp: ControlPoint, i: nat, n: nat, mpw: real)
    requires n > 0 && i % 2 != 0
    ensures var r := RepaintPoint(cp, i, n, mpw);
      r.err == None && r.discarded == 0 && forall k :: 0 <= k < |r.cp.weights| ==> r.cp.weights[k] == 0.0
  {
    SplitWeightsAt(cp.weights, i, n);
  }

  /**
   * An even control point with spots ends with every spot either zeroed or at least the minimum
   * MU, n times as many spots counted as the split weights have below the minimum, and, when none
   * is, the layer's total weight unchanged.
   */
  lemma RepaintPointEven(cp: ControlPoint, i: nat, n: nat, mpw: real)
    requires n > 0 && i % 2 == 0 && |cp.weights| > 0
    ensures var r := RepaintPoint(cp, i, n, mpw);
      r.err == None &&
      r.discarded == n * CountBelow(Scale(cp.weights, 1.0 / (n as real)), mpw) &&
      AllAdmitted(r.cp.weights, mpw) &&
      (r.discarded == 0 ==> Sum(r.cp.weights) == Sum(cp.weights))
  {
    RepaintEvenCount(cp, i, n, mpw);
    RepaintEvenAdmitted(cp, i, n, mpw);
    if RepaintPoint(cp, i, n, mpw).discarded == 0 {
      RepaintEvenTotal(cp, i, n, mpw);
    }
  }

  lemma RepaintEvenAdmitted(cp: ControlPoint, i: nat, n: nat, mpw: real)
    requires n > 0 && i % 2 == 0 && |cp.weights| > 0
    ensures AllAdmitted(RepaintPoint(cp, i, n, mpw).cp.weights, mpw)
  {
    RepaintEvenCount(cp, i, n, mpw);
    KeepAdmittedAtLeastMin(SplitWeights(cp.weights, i, n), mpw);
  }

  /** After the admission step every spot is zero or has at least the minimum MU. */
  lemma KeepAdmittedAtLeastMin(ws: seq<real>, mpw: real)
    ensures AllAdmitted(KeepAdmitted(ws, mpw), mpw)
  {
    var r := KeepAdmitted(ws, mpw);
    forall k | 0 <= k < |r|
      ensures r[k] == 0.0 || !BelowMin(r[k], mpw)
    {
      assert r[k] == Kept(ws[k], mpw);
    }
  }

  lemma RepaintEvenCount(cp: ControlPoint, i: nat, n: nat, mpw: real)
    requires n > 0 && i % 2 == 0 && |cp.weights| > 0
    ensures var r := RepaintPoint(cp, i, n, mpw);
      r.err == None && r.cp.weights == KeepAdmitted(SplitWeights(cp.weights, i, n), mpw) &&
      r.discarded == CountBelow(SplitWeights(cp.weights, i, n), mpw) &&
      r.discarded == n * CountBelow(Scale(cp.weights, 1.0 / (n as real)), mpw)
  {
    var part := Scale(cp.weights, 1.0 / (n as real));
    var nw := SplitWeights(cp.weights, i, n);
    assert nw == Repeat(part, n);
    RepeatLength(part, n);
    MulAtLeast(|part|, n);
    CountBelowRepeat(part, n, mpw);
  }

  lemma RepaintEvenTotal(cp: ControlPoint, i: nat, n: nat, mpw: real)
    requires n > 0 && i % 2 == 0 && |cp.weights| > 0
    requires RepaintPoint(cp, i, n, mpw).discarded == 0
    ensures Sum(RepaintPoint(cp, i, n, mpw).cp.weights) == Sum(cp.weights)
  {
    RepaintEvenCount(cp, i, n, mpw);
    var nw := SplitWeights(cp.weights, i, n);
    KeepAdmittedNone(nw, mpw);
    SplitWeightsSum(cp.weights, n);
    assert SplitWeights(cp.weights, 0, n) == nw;
  }

  /** The three lemmas above, for one control point. */
  lemma RepaintPointMeaning(cp: ControlPoint, i: nat, n: nat, mpw: real)
    requires n > 0
    ensures var r := RepaintPoint(cp, i, n, mpw);
      r.cp.numberOfSpots == cp.numberOfSpots * n && |r.cp.weights| == |cp.weights| * n &&
      r.cp.positions == Repeat(Fivefold(cp.positions), n) &&
      r.cp == cp.(weights := r.cp.weights, positions := r.cp.positions, numberOfSpots := r.cp.numberOfSpots) &&
      (r.err.Some? <==> i % 2 == 0 && |cp.weights| == 0) &&
      (r.err.Some? ==> r.err == Some(EmptySpotTable))
    ensures var r := RepaintPoint(cp, i, n, mpw);
      i % 2 != 0 ==> r.discarded == 0 && forall k :: 0 <= k < |r.cp.weights| ==> r.cp.weights[k] == 0.0
    ensures var r := RepaintPoint(cp, i, n, mpw);
      var part := Scale(cp.weights, 1.0 / (n as real));
      i % 2 == 0 && r.err == None ==>
        r.discarded == n * CountBelow(part, mpw) &&
        AllAdmitted(r.cp.weights, mpw) &&
        (r.discarded == 0 ==> Sum(r.cp.weights) == Sum(cp.weights))
  {
    RepaintPointShape(cp, i, n, mpw);
    if i % 2 != 0 {
      RepaintPointOdd(cp, i, n, mpw);
    } else if |cp.weights| > 0 {
      RepaintPointEven(cp, i, n, mpw);
    }
  }

  /**
   * An illustration on one fixed input: repainting can discard spots that were admitted before.
   * A single 1.5 MU spot split in two gives two spots of 0.75 MU, both zeroed and counted. The
   * all-inputs facts behind it are RepaintEvenCount and RepaintCountsZeroWeights.
   */
  lemma RepaintSplitBelowMin(cp: ControlPoint)
    requires cp.weights == [1.5]
    ensures var r := RepaintPoint(cp, 0, 2, 1.0);
      !BelowMin(1.5, 1.0) && r.err == None && r.discarded == 2 && r.cp.weights == [0.0, 0.0]
  {
    SplitOneAndAHalf();
    HalvesBelowMin();
  }

  /** Illustration: 1.5 split over two paintings is 0.75 twice (SplitWeightsAt for all inputs). */
  lemma SplitOneAndAHalf()
    ensures SplitWeights([1.5], 0, 2) == [0.75, 0.75]
  {
    assert Scale([1.5], 1.0 / 2.0) == [0.75];
    assert Repeat([0.75], 1) == [0.75];
  }

  /** Illustration: two 0.75 MU spots are both counted and zeroed (KeepAdmittedAtLeastMin for all inputs). */
  lemma HalvesBelowMin()
    ensures CountBelow([0.75, 0.75], 1.0) == 2 && KeepAdmitted([0.75, 0.75], 1.0) == [0.0, 0.0]
  {
    assert [0.75, 0.75][..1] == [0.75];
    assert [0.75][..0] == [];
  }

  /** Each copy of a zero-weight spot on an even control point is counted as discarded. */
  lemma RepaintCountsZeroWeights(cp: ControlPoint, i: nat, n: nat, mpw: real, k: nat)
    requires n > 0 && i % 2 == 0 && k < |cp.weights| && cp.weights[k] == 0.0
    ensures RepaintPoint(cp, i, n, mpw).err == None && RepaintPoint(cp, i, n, mpw).discarded >= n
  {
    var part := Scale(cp.weights, 1.0 / (n as real));
    RepaintPointMeaning(cp, i, n, mpw);
    CountBelowZeroMeaning(part, mpw);
    assert BelowMin(part[k], mpw);
    MulAtLeast(CountBelow(part, mpw), n);
    SplitWeightsMeaning(cp.weights, i, n);
    MulAtLeast(|cp.weights|, n);
  }

  /** The first m control points of a field repainted; stops at the first failing control point. */
  datatype Layers = Layers(cps: seq<ControlPoint>, discarded: nat, err: Option<Error>)

  function RepaintLayers(cps: seq<ControlPoint>, m: nat, n: int, mpw: real): (r: Layers)
    requires m <= |cps|
    ensures |r.cps| == |cps|
    decreases m, 1
  {
    if m == 0 then Layers(cps, 0, None) else RepaintLayer(cps, m - 1, n, mpw)
  }

  /** The first i + 1 control points: control point i is repainted unless one before it failed. */
  function RepaintLayer(cps: seq<ControlPoint>, i: nat, n: int, mpw: real): (r: Layers)
    requires i < |cps|
    ensures |r.cps| == |cps|
    decreases i + 1, 0
  {
    var w := RepaintLayers(cps, i, n, mpw);
    if w.err.Some? then w
    else
      var s := RepaintPoint(cps[i], i, n, mpw);
      Layers(w.cps[i := s.cp], w.discarded + s.discarded, s.err)
  }

  /**
   * A control point fails exactly when it is even and has no spots or n is not positive: with
   * ZeroDivisionError for n == 0 and spots to divide, otherwise with the ValueError of `min([])`.
   */
  lemma RepaintPointFails(cp: ControlPoint, i: nat, n: int, mpw: real)
    ensures var r := RepaintPoint(cp, i, n, mpw);
      (r.err.Some? <==> i % 2 == 0 && (|cp.weights| == 0 || n <= 0)) &&
      (r.err.Some? ==> r.err == Some(if n == 0 && |cp.weights| > 0 then DivisionByZero else EmptySpotTable))
  {
    if n > 0 {
      SplitWeightsAt(cp.weights, i, n);
      if |cp.weights| > 0 {
        MulAtLeast(|cp.weights|, n);
      }
    }
  }

  /**
   * For n <= 0 nothing is left of the control point's spots: no weights, no positions and a spot
   * count of zero, unless the division by zero ended the iteration after the fivefold position map.
   */
  lemma RepaintPointNonPositive(cp: ControlPoint, i: nat, n: int, mpw: real)
    requires n <= 0
    ensures var r := RepaintPoint(cp, i, n, mpw);
      r.discarded == 0 &&
      if n == 0 && i % 2 == 0 && |cp.weights| > 0 then r == Painted(cp.(positions := Fivefold(cp.positions)), 0, Some(DivisionByZero))
      else r.cp == cp.(weights := [], positions := [], numberOfSpots := 0) && (r.err.Some? <==> i % 2 == 0)
  {
  }

  /**
   * Without a failure, control point k of the first m is its repainted self and the rest are
   * untouched; a failure is the error of an even control point without spots, or of any even
   * control point when n is not positive.
   */
  lemma RepaintLayersMeaning(cps: seq<ControlPoint>, m: nat, n: int, mpw: real)
    requires m <= |cps|
    ensures var r := RepaintLayers(cps, m, n, mpw);
      (r.err == None ==>
        (forall k :: 0 <= k < m ==> RepaintPoint(cps[k], k, n, mpw).err == None && r.cps[k] == RepaintPoint(cps[k], k, n, mpw).cp) &&
        (forall k :: m <= k < |cps| ==> r.cps[k] == cps[k])) &&
      (r.err.Some? ==>
        (r.err == Some(EmptySpotTable) || (n == 0 && r.err == Some(DivisionByZero))) &&
        exists k :: 0 <= k < m && k % 2 == 0 && (|cps[k].weights| == 0 || n <= 0) && r.err == RepaintPoint(cps[k], k, n, mpw).err)
  {
    if RepaintLayers(cps, m, n, mpw).err == None {
      RepaintLayersDone(cps, m, n, mpw);
    } else {
      RepaintLayersFailure(cps, m, n, mpw);
    }
  }

  lemma RepaintLayersDone(cps: seq<ControlPoint>, m: nat, n: int, mpw: real)
    requires m <= |cps| && RepaintLayers(cps, m, n, mpw).err == None
    ensures var r := RepaintLayers(cps, m, n, mpw);
      (forall k :: 0 <= k < m ==> RepaintPoint(cps[k], k, n, mpw).err == None && r.cps[k] == RepaintPoint(cps[k], k, n, mpw).cp) &&
      (forall k :: m <= k < |cps| ==> r.cps[k] == cps[k])
  {
    var r := RepaintLayers(cps, m, n, mpw);
    forall k | 0 <= k < |cps|
      ensures k < m ==> RepaintPoint(cps[k], k, n, mpw).err == None && r.cps[k] == RepaintPoint(cps[k], k, n, mpw).cp
      ensures m <= k ==> r.cps[k] == cps[k]
    {
      RepaintLayersAt(cps, m, n, mpw, k);
    }
  }

  /** Control point k after the first m were repainted without a failure. */
  lemma {:induction false} RepaintLayersAt(cps: seq<ControlPoint>, m: nat, n: int, mpw: real, k: nat)
    requires m <= |cps| && RepaintLayers(cps, m, n, mpw).err == None && k < |cps|
    ensures var r := RepaintLayers(cps, m, n, mpw);
      k < m ==> RepaintPoint(cps[k], k, n, mpw).err == None && r.cps[k] == RepaintPoint(cps[k], k, n, mpw).cp
    ensures m <= k ==> RepaintLayers(cps, m, n, mpw).cps[k] == cps[k]
  {
    if m > 0 {
      var w := RepaintLayers(cps, m - 1, n, mpw);
      var s := RepaintPoint(cps[m - 1], m - 1, n, mpw);
      var r := RepaintLayers(cps, m, n, mpw);
      assert w.err == None && r.cps == w.cps[m - 1 := s.cp] && s.err == None;
      if k != m - 1 {
        RepaintLayersAt(cps, m - 1, n, mpw, k);
        assert r.cps[k] == w.cps[k];
      }
    }
  }

  lemma {:induction false} RepaintLayersFailure(cps: seq<ControlPoint>, m: nat, n: int, mpw: real)
    requires m <= |cps| && RepaintLayers(cps, m, n, mpw).err.Some?
    ensures var e := RepaintLayers(cps, m, n, mpw).err;
      e == Some(EmptySpotTable) || (n == 0 && e == Some(DivisionByZero))
    ensures exists k ::
      0 <= k < m && k % 2 == 0 && (|cps[k].weights| == 0 || n <= 0) &&
      RepaintLayers(cps, m, n, mpw).err == RepaintPoint(cps[k], k, n, mpw).err
  {
    var w := RepaintLayers(cps, m - 1, n, mpw);
    if w.err.Some? {
      RepaintLayersFailure(cps, m - 1, n, mpw);
    } else {
      RepaintPointFails(cps[m - 1], m - 1, n, mpw);
      assert RepaintLayers(cps, m, n, mpw).err == RepaintPoint(cps[m - 1], m - 1, n, mpw).err;
    }
  }

  /**
   * For n <= 0 the loop over the control points ends at the first one, which is even: it is the
   * only control point changed, nothing is counted, and the loop fails as soon as it runs at all.
   */
  lemma {:induction false} RepaintLayersNonPositive(cps: seq<ControlPoint>, m: nat, n: int, mpw: real)
    requires m <= |cps| && n <= 0
    ensures RepaintLayers(cps, m, n, mpw).err.None? <==> m == 0
    ensures m > 0 ==>
      var s := RepaintPoint(cps[0], 0, n, mpw);
      RepaintLayers(cps, m, n, mpw) == Layers(cps[0 := s.cp], 0, s.err)
  {
    if m > 0 {
      RepaintPointFails(cps[0], 0, n, mpw);
      if m > 1 {
        RepaintLayersNonPositive(cps, m - 1, n, mpw);
      } else {
        assert RepaintLayers(cps, 0, n, mpw) == Layers(cps, 0, None);
      }
    }
  }

  /** The total weight of a list of control points depends only on each one's sum of weights. */
  lemma {:induction false} WeightTotalSameSums(a: seq<ControlPoint>, b: seq<ControlPoint>)
    requires |a| == |b|
    requires forall k :: 0 <= k < |a| ==> Sum(a[k].weights) == Sum(b[k].weights)
    ensures WeightTotal(a) == WeightTotal(b)
  {
    if |a| > 0 {
      WeightTotalSameSums(a[..|a| - 1], b[..|b| - 1]);
    }
  }

  /** Odd control points carry no weight, as the repaint code assumes of the echo layers. */
  predicate EchoLayersEmpty(cps: seq<ControlPoint>)
  {
    forall k :: 0 <= k < |cps| && k % 2 != 0 ==> Sum(cps[k].weights) == 0.0
  }

  /**
   * When no spot is discarded, repainting keeps the field's total weight, so its
   * FinalCumulativeMetersetWeight stays right.
   */
  lemma {:induction false} RepaintLayersKeepTotal(cps: seq<ControlPoint>, n: int, mpw: real)
    requires EchoLayersEmpty(cps)
    requires RepaintLayers(cps, |cps|, n, mpw).err == None && RepaintLayers(cps, |cps|, n, mpw).discarded == 0
    ensures WeightTotal(RepaintLayers(cps, |cps|, n, mpw).cps) == WeightTotal(cps)
  {
    var r := RepaintLayers(cps, |cps|, n, mpw);
    if n <= 0 {
      RepaintLayersNonPositive(cps, |cps|, n, mpw);
      assert r.cps == cps;
      return;
    }
    RepaintLayersMeaning(cps, |cps|, n, mpw);
    forall k | 0 <= k < |cps|
      ensures Sum(r.cps[k].weights) == Sum(cps[k].weights)
    {
      RepaintLayersDiscards(cps, |cps|, n, mpw, k);
      RepaintPointMeaning(cps[k], k, n, mpw);
      if k % 2 != 0 {
        SumZeros(r.cps[k].weights);
      }
    }
    WeightTotalSameSums(r.cps, cps);
  }

  /** Without a failure, the discards are at least control point k's discards. */
  lemma {:induction false} RepaintLayersDiscards(cps: seq<ControlPoint>, m: nat, n: int, mpw: real, k: nat)
    requires k < m <= |cps| && RepaintLayers(cps, m, n, mpw).err == None
    ensures RepaintPoint(cps[k], k, n, mpw).discarded <= RepaintLayers(cps, m, n, mpw).discarded
  {
    var w := RepaintLayers(cps, m - 1, n, mpw);
    var s := RepaintPoint(cps[m - 1], m - 1, n, mpw);
    var r := RepaintLayers(cps, m, n, mpw);
    assert w.err == None && r.discarded == w.discarded + s.discarded;
    if k < m - 1 {
      RepaintLayersDiscards(cps, m - 1, n, mpw, k);
    }
  }

  /** The plan after the first fields were repainted, with the spots counted so far. */
  datatype Repainted = Repainted(plan: Plan, discarded: nat, err: Option<Error>)

  /** The MU per unit weight of field j, read before its control points are repainted. */
  function RepaintField(q: Plan, j: nat, n: int): (r: Repainted)
    requires j < |q.beams|
    ensures |r.plan.beams| == |q.beams|
  {
    if j >= |q.refBeams| then Repainted(q, 0, Some(MissingReferencedBeam))
    else
      var b := q.beams[j];
      if b.finalWeight == 0.0 then Repainted(q, 0, Some(DivisionByZero))
      else
        var l := RepaintLayers(b.cps, |b.cps|, n, RepaintRatio(q, j));
        Repainted(q.(beams := q.beams[j := b.(cps := l.cps)]), l.discarded, l.err)
  }

  function RepaintFields(p: Plan, m: nat, n: int): (r: Repainted)
    requires m <= |p.beams|
    ensures |r.plan.beams| == |p.beams|
  {
    if m == 0 then Repainted(p, 0, None)
    else
      var w := RepaintFields(p, m - 1, n);
      if w.err.Some? then w
      else
        var f := RepaintField(w.plan, m - 1, n);
        Repainted(f.plan, w.discarded + f.discarded, f.err)
  }

  /** set_repainting(n) */
  function SetRepainting(p: Plan, n: int): (r: Repainted)
    ensures |r.plan.beams| == |p.beams|
    ensures n <= 0 ==> (r.err.None? <==> forall j :: 0 <= j < |p.beams| ==> Idle(p, j))
  {
    if n <= 0 then RepaintFieldsNonPositive(p, |p.beams|, n); RepaintFields(p, |p.beams|, n)
    else RepaintFields(p, |p.beams|, n)
  }

  /** The MU per unit weight set_repainting uses for field j. */
  function RepaintRatio(p: Plan, j: nat): real
    requires j < |p.beams| && j < |p.refBeams|
  {
    if p.beams[j].finalWeight == 0.0 then 0.0 else p.refBeams[j].meterset / p.beams[j].finalWeight
  }

  /**
   * After the first m fields were repainted without a failure: each of them had its referenced
   * beam and a non-zero final weight, its control points are the repainted control points
   * (with the field's original MU per unit weight), and nothing else of the plan changed.
   */
  lemma RepaintFieldsMeaning(p: Plan, m: nat, n: int)
    requires m <= |p.beams|
    ensures var r := RepaintFields(p, m, n);
      r.err == None ==>
        r.plan == p.(beams := r.plan.beams) &&
        (forall j :: m <= j < |p.beams| ==> r.plan.beams[j] == p.beams[j]) &&
        forall j :: 0 <= j < m ==>
          j < |p.refBeams| && p.beams[j].finalWeight != 0.0 &&
          r.plan.beams[j] == p.beams[j].(cps := RepaintLayers(p.beams[j].cps, |p.beams[j].cps|, n, RepaintRatio(p, j)).cps) &&
          RepaintLayers(p.beams[j].cps, |p.beams[j].cps|, n, RepaintRatio(p, j)).err == None
  {
    var r := RepaintFields(p, m, n);
    if r.err == None {
      RepaintFieldsFrame(p, m, n);
      forall j | 0 <= j < m
        ensures j < |p.refBeams| && p.beams[j].finalWeight != 0.0 &&
          r.plan.beams[j] == p.beams[j].(cps := RepaintLayers(p.beams[j].cps, |p.beams[j].cps|, n, RepaintRatio(p, j)).cps) &&
          RepaintLayers(p.beams[j].cps, |p.beams[j].cps|, n, RepaintRatio(p, j)).err == None
      {
        RepaintFieldsAt(p, m, n, j);
      }
    }
  }

  /** A successful repaint of field j found its referenced beam and a non-zero final weight and changed field j only. */
  lemma RepaintFieldShape(q: Plan, j: nat, n: int)
    requires j < |q.beams|
    requires RepaintField(q, j, n).err == None
    ensures j < |q.refBeams| && q.beams[j].finalWeight != 0.0
    ensures RepaintField(q, j, n).plan == q.(beams := q.beams[j := RepaintedBeam(q, j, n)])
  {
  }

  /** A successful repaint of the first m fields leaves the later fields and the rest of the plan alone. */
  lemma {:induction false} RepaintFieldsFrame(p: Plan, m: nat, n: int)
    requires m <= |p.beams|
    requires RepaintFields(p, m, n).err == None
    ensures var r := RepaintFields(p, m, n);
      r.plan == p.(beams := r.plan.beams) && forall j :: m <= j < |p.beams| ==> r.plan.beams[j] == p.beams[j]
  {
    if m > 0 {
      var w := RepaintFields(p, m - 1, n);
      RepaintFieldsFrame(p, m - 1, n);
      RepaintFieldShape(w.plan, m - 1, n);
    }
  }

  /** Field j with its control points repainted at the field's own MU per unit weight. */
  function RepaintedBeam(p: Plan, j: nat, n: int): IonBeam
    requires j < |p.beams| && j < |p.refBeams|
  {
    p.beams[j].(cps := RepaintLayers(p.beams[j].cps, |p.beams[j].cps|, n, RepaintRatio(p, j)).cps)
  }

  /** Field j of the first m, after a successful repaint of them. */
  lemma {:induction false} RepaintFieldsAt(p: Plan, m: nat, n: int, j: nat)
    requires j < m <= |p.beams|
    requires RepaintFields(p, m, n).err == None
    ensures j < |p.refBeams| && p.beams[j].finalWeight != 0.0
    ensures RepaintFields(p, m, n).plan.beams[j] == RepaintedBeam(p, j, n)
    ensures RepaintLayers(p.beams[j].cps, |p.beams[j].cps|, n, RepaintRatio(p, j)).err == None
  {
    var w := RepaintFields(p, m - 1, n);
    assert w.err == None;
    RepaintFieldsFrame(p, m - 1, n);
    var r := RepaintFields(p, m, n);
    assert r.plan == RepaintField(w.plan, m - 1, n).plan;
    RepaintFieldShape(w.plan, m - 1, n);
    if j < m - 1 {
      RepaintFieldsAt(p, m - 1, n, j);
      assert r.plan.beams[j] == w.plan.beams[j];
    } else {
      assert w.plan.beams[j] == p.beams[j] && w.plan.refBeams == p.refBeams;
      assert RepaintedBeam(w.plan, j, n) == RepaintedBeam(p, j, n);
    }
  }

  /**
   * set_repainting without failure: every control point k of every field j is the repainted
   * control point, and everything else of the plan, FinalCumulativeMetersetWeight and the
   * cumulative weights included, is as it was.
   */
  lemma SetRepaintingMeaning(p: Plan, n: int)
    ensures var r := SetRepainting(p, n);
      r.err == None ==>
        Paired(p) && r.plan.refBeams == p.refBeams && |r.plan.beams| == |p.beams| &&
        forall j :: 0 <= j < |p.beams| ==>
          var b := p.beams[j];
          r.plan.beams[j] == b.(cps := r.plan.beams[j].cps) && |r.plan.beams[j].cps| == |b.cps| &&
          forall k :: 0 <= k < |b.cps| ==>
            r.plan.beams[j].cps[k] == RepaintPoint(b.cps[k], k, n, RepaintRatio(p, j)).cp
  {
    var r := SetRepainting(p, n);
    RepaintFieldsMeaning(p, |p.beams|, n);
    if r.err == None {
      forall j | 0 <= j < |p.beams|
        ensures forall k :: 0 <= k < |p.beams[j].cps| ==>
          r.plan.beams[j].cps[k] == RepaintPoint(p.beams[j].cps[k], k, n, RepaintRatio(p, j)).cp
      {
        var b := p.beams[j];
        RepaintLayersMeaning(b.cps, |b.cps|, n, RepaintRatio(p, j));
      }
    }
  }

  /** Repainting that raised nothing keeps every field and every control point. */
  lemma SetRepaintingShape(p: Plan, n: int)
    requires SetRepainting(p, n).err == None
    ensures SameShape(p, SetRepainting(p, n).plan)
  {
    SetRepaintingMeaning(p, n);
  }

  /** Field j has its referenced beam, a non-zero final weight and no control points. */
  predicate Idle(p: Plan, j: nat)
    requires j < |p.beams|
  {
    j < |p.refBeams| && p.beams[j].finalWeight != 0.0 && |p.beams[j].cps| == 0
  }

  /** For n <= 0 a field repaints without raising exactly when it is idle, and then nothing changes. */
  lemma RepaintFieldNonPositive(p: Plan, j: nat, n: int)
    requires j < |p.beams| && n <= 0
    ensures RepaintField(p, j, n).err.None? <==> Idle(p, j)
    ensures RepaintField(p, j, n).err.None? ==> RepaintField(p, j, n) == Repainted(p, 0, None)
  {
    if j < |p.refBeams| && p.beams[j].finalWeight != 0.0 {
      var b := p.beams[j];
      RepaintLayersNonPositive(b.cps, |b.cps|, n, RepaintRatio(p, j));
      if |b.cps| == 0 {
        assert b.(cps := b.cps) == b;
        assert p.(beams := p.beams[j := b]) == p;
      }
    }
  }

  /**
   * For n <= 0 repainting succeeds exactly when every field has its referenced beam, a non-zero
   * final weight and no control points, and it then changes nothing.
   */
  lemma {:induction false} RepaintFieldsNonPositive(p: Plan, m: nat, n: int)
    requires m <= |p.beams| && n <= 0
    ensures RepaintFields(p, m, n).err.None? <==> forall j :: 0 <= j < m ==> Idle(p, j)
    ensures RepaintFields(p, m, n).err.None? ==> RepaintFields(p, m, n) == Repainted(p, 0, None)
  {
    if m > 0 {
      RepaintFieldsNonPositive(p, m - 1, n);
      var w := RepaintFields(p, m - 1, n);
      if w.err.None? {
        RepaintFieldNonPositive(p, m - 1, n);
      } else {
        var i :| 0 <= i < m - 1 && !Idle(p, i);
      }
    }
  }

  /** set_repainting(n) for n <= 0. */
  lemma SetRepaintingNonPositive(p: Plan, n: int)
    requires n <= 0
    ensures SetRepainting(p, n).err.None? <==> forall j :: 0 <= j < |p.beams| ==> Idle(p, j)
    ensures SetRepainting(p, n).err.None? ==> SetRepainting(p, n) == Repainted(p, 0, None)
  {
    RepaintFieldsNonPositive(p, |p.beams|, n);
  }
}
