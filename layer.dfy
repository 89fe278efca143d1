/**
 * The energy layer record with its list of `Spot` records, and the derived properties
 * `n_spots`, `xmin`, `xmax`, `ymin` and `ymax` (a Python `min`/`max` over the spots,
 * 0.0 for a layer without spots).
 */
module Layers {

  /** A scanned spot: position [mm], monitor units and spot size. */
  datatype Spot = Spot(x: real, y: real, mu: real, sizeX: real, sizeY: real)

  datatype Layer = Layer(
    spots: seq<Spot>,
    energyNominal: real,                 // [MeV]
    energyMeasured: real,                // [MeV]
    espread: real,                       // [MeV]
    cumMu: real,
    cumParticles: real,
    repaint: int,                        // 0 means no repainting
    muToPartCoef: real,
    isEmpty: bool,
    isocenter: (real, real, real),
    gantryAngle: real,
    couchAngle: real,
    snoutPosition: real,                 // [mm]
    sad: (real, real),                   // bending magnet to isocenter, x and y [mm]
    tablePosition: (real, real, real),   // vertical, longitudinal, lateral [mm]
    metersetRate: real)                  // [MU/min]

  /** A spot with the default spot size. */
  function NewSpot(x: real, y: real, mu: real): (s: Spot)
    ensures s.x == x && s.y == y && s.mu == mu && s.sizeX == 0.0 && s.sizeY == 0.0
  {
    Spot(x, y, mu, 0.0, 0.0)
  }

  /**
   * `Layer(spots=spots)`: every other attribute at its declared default. A new layer is
   * marked empty and carries no MU, no particles, no repainting and no conversion coefficient.
   */
  function NewLayer(spots: seq<Spot>): (l: Layer)
    ensures l.spots == spots
    ensures l.isEmpty && l.cumMu == 0.0 && l.cumParticles == 0.0
    ensures l.repaint == 0 && l.muToPartCoef == 0.0
    ensures l.energyNominal == 100.0 && l.energyMeasured == 100.0 && l.espread == 0.0
  {
    Layer(spots, 100.0, 100.0, 0.0, 0.0, 0.0, 0, 0.0, true,
          (0.0, 0.0, 0.0), 0.0, 0.0, 0.0, (0.0, 0.0), (0.0, 0.0, 0.0), 0.0)
  }

  /** The spots' x coordinates, in order. */
  function Xs(spots: seq<Spot>): (r: seq<real>)
    ensures |r| == |spots| && forall k :: 0 <= k < |spots| ==> r[k] == spots[k].x
  {
    seq(|spots|, k requires 0 <= k < |spots| => spots[k].x)
  }

  /** The spots' y coordinates, in order. */
  function Ys(spots: seq<Spot>): (r: seq<real>)
    ensures |r| == |spots| && forall k :: 0 <= k < |spots| ==> r[k] == spots[k].y
  {
    seq(|spots|, k requires 0 <= k < |spots| => spots[k].y)
  }

  /** Python's `min` over a non-empty list: a lower bound that is one of the entries. */
  function Min(s: seq<real>): (r: real)
    requires |s| > 0
    ensures forall k :: 0 <= k < |s| ==> r <= s[k]
    ensures exists k :: 0 <= k < |s| && s[k] == r
  {
    if |s| == 1 then s[0]
    else
      var m := Min(s[..|s| - 1]);
      assert forall k :: 0 <= k < |s| - 1 ==> s[..|s| - 1][k] == s[k];
      if s[|s| - 1] < m then s[|s| - 1] else m
  }

  /** Python's `max` over a non-empty list: an upper bound that is one of the entries. */
  function Max(s: seq<real>): (r: real)
    requires |s| > 0
    ensures forall k :: 0 <= k < |s| ==> s[k] <= r
    ensures exists k :: 0 <= k < |s| && s[k] == r
  {
    if |s| == 1 then s[0]
    else
      var m := Max(s[..|s| - 1]);
      assert forall k :: 0 <= k < |s| - 1 ==> s[..|s| - 1][k] == s[k];
      if s[|s| - 1] > m then s[|s| - 1] else m
  }

  /** `n_spots`: the number of spots. */
  function NSpots(l: Layer): nat
  {
    |l.spots|
  }

  function XMin(l: Layer): real
  {
    if |l.spots| > 0 then Min(Xs(l.spots)) else 0.0
  }

  function XMax(l: Layer): real
  {
    if |l.spots| > 0 then Max(Xs(l.spots)) else 0.0
  }

  function YMin(l: Layer): real
  {
    if |l.spots| > 0 then Min(Ys(l.spots)) else 0.0
  }

  function YMax(l: Layer): real
  {
    if |l.spots| > 0 then Max(Ys(l.spots)) else 0.0
  }

  /** A layer without spots has zero count and all four extents 0.0. */
  lemma EmptyLayerExtents(l: Layer)
    requires |l.spots| == 0
    ensures NSpots(l) == 0
    ensures XMin(l) == 0.0 && XMax(l) == 0.0 && YMin(l) == 0.0 && YMax(l) == 0.0
  {
  }

  /** With spots, every spot lies inside [xmin, xmax] x [ymin, ymax]. */
  lemma ExtentsBound(l: Layer, k: nat)
    requires k < NSpots(l)
    ensures XMin(l) <= l.spots[k].x <= XMax(l)
    ensures YMin(l) <= l.spots[k].y <= YMax(l)
  {
    assert Xs(l.spots)[k] == l.spots[k].x;
    assert Ys(l.spots)[k] == l.spots[k].y;
  }

  /** With spots, each of the four extents is the coordinate of some spot. */
  lemma ExtentsAttained(l: Layer)
    requires NSpots(l) > 0
    ensures exists k :: 0 <= k < NSpots(l) && l.spots[k].x == XMin(l)
    ensures exists k :: 0 <= k < NSpots(l) && l.spots[k].x == XMax(l)
    ensures exists k :: 0 <= k < NSpots(l) && l.spots[k].y == YMin(l)
    ensures exists k :: 0 <= k < NSpots(l) && l.spots[k].y == YMax(l)
  {
    var xs, ys := Xs(l.spots), Ys(l.spots);
    var a :| 0 <= a < |xs| && xs[a] == XMin(l);
    var b :| 0 <= b < |xs| && xs[b] == XMax(l);
    var c :| 0 <= c < |ys| && ys[c] == YMin(l);
    var d :| 0 <= d < |ys| && ys[d] == YMax(l);
    assert l.spots[a].x == XMin(l) && l.spots[b].x == XMax(l);
    assert l.spots[c].y == YMin(l) && l.spots[d].y == YMax(l);
  }

  /** The extents of a non-empty layer are ordered, and a one-spot layer is a point. */
  lemma ExtentsOrdered(l: Layer)
    ensures XMin(l) <= XMax(l) && YMin(l) <= YMax(l)
    ensures NSpots(l) == 1 ==>
      XMin(l) == XMax(l) == l.spots[0].x && YMin(l) == YMax(l) == l.spots[0].y
  {
    if NSpots(l) > 0 {
      ExtentsBound(l, 0);
    }
  }

  /** The extents depend only on the spot positions, not on MU, size or the other attributes. */
  lemma ExtentsOnlyPositions(l: Layer, m: Layer)
    requires |l.spots| == |m.spots|
    requires forall k :: 0 <= k < |l.spots| ==> l.spots[k].x == m.spots[k].x && l.spots[k].y == m.spots[k].y
    ensures NSpots(l) == NSpots(m)
    ensures XMin(l) == XMin(m) && XMax(l) == XMax(m) && YMin(l) == YMin(m) && YMax(l) == YMax(m)
  {
    assert Xs(l.spots) == Xs(m.spots);
    assert Ys(l.spots) == Ys(m.spots);
  }
}
