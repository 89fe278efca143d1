/**
 * The reader of IBA ".pld" plans: the header line with the patient, plan and field data, one
 * "Layer" line per energy layer followed by its element lines, and the cleaning of the
 * element values (near-zero coordinates and MU become 0.0, spots without MU are dropped).
 * `float()`, `int()` and `get_fwhm` are parameters; the file's text is an argument.
 */
module PldReader {
  import opened Common
  import opened Text
  import opened Particles

  /** `float()` and `int()` on a piece of text (None where Python raises), and `get_fwhm`. */
  datatype Parsers = Parsers(toReal: string -> Option<real>, toInt: string -> Option<int>, fwhm: real -> real)

  /** Values closer to zero than this are read as 0.0. */
  const Eps: real := 0.0000000001

  /** Particles * dE/dx per MU used for IBA plans without a beam model. */
  const PldFactor: real := 518210000.0

  /** A line cut at its commas. */
  function Tokens(line: string): seq<string>
  {
    Split(line, ',')
  }

  /** `float(t[k].strip())`: IndexError past the last token, ValueError for a non-number. */
  function TokenReal(t: seq<string>, k: nat, ps: Parsers): (r: Result<real>)
    ensures r.Success? <==> k < |t| && ps.toReal(Strip(t[k])).Some?
    ensures r.Success? ==> r.value == ps.toReal(Strip(t[k])).value
    ensures r.Failure? ==> r.error == if k < |t| then NotANumber else MissingToken
  {
    if k >= |t| then Failure(MissingToken)
    else
      match ps.toReal(Strip(t[k]))
      case None => Failure(NotANumber)
      case Some(v) => Success(v)
  }

  /** `int(t[k].strip())`. */
  function TokenInt(t: seq<string>, k: nat, ps: Parsers): (r: Result<int>)
    ensures r.Success? <==> k < |t| && ps.toInt(Strip(t[k])).Some?
    ensures r.Success? ==> r.value == ps.toInt(Strip(t[k])).value
    ensures r.Failure? ==> r.error == if k < |t| then NotANumber else MissingToken
  {
    if k >= |t| then Failure(MissingToken)
    else
      match ps.toInt(Strip(t[k]))
      case None => Failure(NotANumber)
      case Some(v) => Success(v)
  }

  // ---------------------------------------------------------------------------------------
  // The header line

  /** What the first line of the file holds. */
  datatype PldHead = PldHead(
    patientId: string,
    patientName: string,
    patientInitials: string,
    patientFirstname: string,
    planLabel: string,
    beamName: string,
    cmu: real,
    csetWeight: real,
    nLayers: int)

  /** Tokens 1 to 6 are stripped text, 7 and 8 floats and 9 an integer, read in that order. */
  function ParsePldHeader(line: string, ps: Parsers): (r: Result<PldHead>)
    ensures r.Failure? ==> r.error in {MissingToken, NotANumber}
    ensures |Tokens(line)| < 8 ==> r == Failure(MissingToken)
    ensures r.Success? ==> |Tokens(line)| >= 10 && TokenInt(Tokens(line), 9, ps) == Success(r.value.nLayers)
  {
    var t := Tokens(line);
    if |t| < 7 then Failure(MissingToken)
    else
      var cmu :- TokenReal(t, 7, ps);
      var cset :- TokenReal(t, 8, ps);
      var n :- TokenInt(t, 9, ps);
      Success(PldHead(Strip(t[1]), Strip(t[2]), Strip(t[3]), Strip(t[4]), Strip(t[5]), Strip(t[6]), cmu, cset, n))
  }

  /**
   * The header is read exactly when it has ten tokens of which 7 and 8 are numbers and 9 an
   * integer; a line with fewer than eight tokens raises IndexError.
   */
  lemma PldHeaderMeaning(line: string, ps: Parsers)
    ensures ParsePldHeader(line, ps).Success? <==>
      |Tokens(line)| >= 10 && ps.toReal(Strip(Tokens(line)[7])).Some?
      && ps.toReal(Strip(Tokens(line)[8])).Some? && ps.toInt(Strip(Tokens(line)[9])).Some?
    ensures ParsePldHeader(line, ps).Failure? ==> ParsePldHeader(line, ps).error in {MissingToken, NotANumber}
    ensures |Tokens(line)| < 8 ==> ParsePldHeader(line, ps) == Failure(MissingToken)
    ensures ParsePldHeader(line, ps).Success? ==>
      var h, t := ParsePldHeader(line, ps).value, Tokens(line);
      h.patientId == Strip(t[1]) && h.patientName == Strip(t[2]) && h.patientInitials == Strip(t[3])
      && h.patientFirstname == Strip(t[4]) && h.planLabel == Strip(t[5]) && h.beamName == Strip(t[6])
      && h.cmu == ps.toReal(Strip(t[7])).value && h.csetWeight == ps.toReal(Strip(t[8])).value
      && h.nLayers == ps.toInt(Strip(t[9])).value
  {
  }

  // ---------------------------------------------------------------------------------------
  // Element lines

  /** `if np.abs(v) < eps: v = 0.0` */
  function ClampAbs(v: real): real
  {
    if -Eps < v < Eps then 0.0 else v
  }

  /** `if mu < eps: mu = 0.0` */
  function ClampMu(v: real): real
  {
    if v < Eps then 0.0 else v
  }

  /** An element line: tokens 1, 2 and 3 are x, y and MU, cleaned; the MU fills both MU and particle columns. */
  function ParseElement(line: string, ps: Parsers): (r: Result<Row>)
    ensures r.Failure? ==> r.error in {MissingToken, NotANumber}
    ensures r.Success? ==> |Tokens(line)| >= 4 && CleanRow(r.value)
  {
    var t := Tokens(line);
    var x :- TokenReal(t, 1, ps);
    var y :- TokenReal(t, 2, ps);
    var mu :- TokenReal(t, 3, ps);
    Success(Row(ClampAbs(x), ClampAbs(y), ClampMu(mu), ClampMu(mu)))
  }

  /**
   * An element is read exactly when it has x, y and MU tokens that are numbers. Coordinates
   * within eps of zero and MU below eps become 0.0, other values are kept, and the particle
   * column repeats the MU.
   */
  lemma ParseElementMeaning(line: string, ps: Parsers)
    ensures ParseElement(line, ps).Success? <==>
      |Tokens(line)| >= 4 && ps.toReal(Strip(Tokens(line)[1])).Some?
      && ps.toReal(Strip(Tokens(line)[2])).Some? && ps.toReal(Strip(Tokens(line)[3])).Some?
    ensures ParseElement(line, ps).Failure? ==> ParseElement(line, ps).error in {MissingToken, NotANumber}
    ensures ParseElement(line, ps).Success? ==>
      var r, t := ParseElement(line, ps).value, Tokens(line);
      var x, y, mu := ps.toReal(Strip(t[1])).value, ps.toReal(Strip(t[2])).value, ps.toReal(Strip(t[3])).value;
      (if -Eps < x < Eps then r.x == 0.0 else r.x == x)
      && (if -Eps < y < Eps then r.y == 0.0 else r.y == y)
      && (if mu < Eps then r.mu == 0.0 else r.mu == mu)
      && r.particles == r.mu
  {
  }

  /** `ParseElement` as a function of the line alone. */
  function ElementReader(ps: Parsers): string -> Result<Row>
  {
    e => ParseElement(e, ps)
  }

  /** The body of the element loop: a spot with MU is appended, one without is dropped. */
  function KeepStep(read: string -> Result<Row>): (seq<Row>, string) -> Result<seq<Row>>
  {
    (rows: seq<Row>, e: string) =>
      var row :- read(e);
      Success(if row.mu > 0.0 then rows + [row] else rows)
  }

  /** The element loop of one layer. */
  function ParseElements(els: seq<string>, ps: Parsers): Result<seq<Row>>
  {
    Fold(els, [], KeepStep(ElementReader(ps)))
  }

  /** Every element line read on its own. */
  function Parsed(els: seq<string>, read: string -> Result<Row>): (r: seq<Result<Row>>)
    ensures |r| == |els| && forall k :: 0 <= k < |els| ==> r[k] == read(els[k])
  {
    seq(|els|, k requires 0 <= k < |els| => read(els[k]))
  }

  /** Reference: the rows read that carry MU, in file order. */
  function KeptOf(rs: seq<Result<Row>>): seq<Row>
    decreases |rs|
  {
    if |rs| == 0 then []
    else (if rs[0].Success? && rs[0].value.mu > 0.0 then [rs[0].value] else []) + KeptOf(rs[1..])
  }

  /** Reference: the number of rows without MU. */
  function DroppedOf(rs: seq<Result<Row>>): nat
    decreases |rs|
  {
    if |rs| == 0 then 0
    else (if rs[0].Success? && rs[0].value.mu > 0.0 then 0 else 1) + DroppedOf(rs[1..])
  }

  lemma {:induction false} KeptSnoc(rs: seq<Result<Row>>, r: Result<Row>)
    ensures KeptOf(rs + [r]) == KeptOf(rs) + (if r.Success? && r.value.mu > 0.0 then [r.value] else [])
    ensures DroppedOf(rs + [r]) == DroppedOf(rs) + (if r.Success? && r.value.mu > 0.0 then 0 else 1)
    decreases |rs|
  {
    if |rs| == 0 {
      assert [] + [r] == [r];
    } else {
      assert (rs + [r])[1..] == rs[1..] + [r];
      KeptSnoc(rs[1..], r);
    }
  }

  /**
   * The element loop raises exactly when one of the elements cannot be read. Otherwise it
   * yields the elements with MU in file order, and those plus the dropped ones are all of them.
   */
  lemma {:induction false} KeepMeaning(els: seq<string>, read: string -> Result<Row>)
    ensures Fold(els, [], KeepStep(read)).Success? <==> forall k :: 0 <= k < |els| ==> read(els[k]).Success?
    ensures Fold(els, [], KeepStep(read)).Success? ==>
      Fold(els, [], KeepStep(read)).value == KeptOf(Parsed(els, read))
      && |KeptOf(Parsed(els, read))| + DroppedOf(Parsed(els, read)) == |els|
    decreases |els|
  {
    if |els| > 0 {
      var n := |els| - 1;
      var init := els[..n];
      KeepMeaning(init, read);
      assert Parsed(els, read) == Parsed(init, read) + [read(els[n])];
      KeptSnoc(Parsed(init, read), read(els[n]));
      assert forall k :: 0 <= k < n ==> init[k] == els[k];
    }
  }

  /** A row as the reader builds it: particles equal to MU, MU 0.0 or at least eps, coordinates 0.0 or at least eps away from it. */
  predicate CleanRow(r: Row)
  {
    r.particles == r.mu && (r.mu == 0.0 || r.mu >= Eps)
    && (r.x == 0.0 || r.x <= -Eps || Eps <= r.x) && (r.y == 0.0 || r.y <= -Eps || Eps <= r.y)
  }

  /** The kept rows of clean rows are clean and carry MU of at least eps. */
  lemma {:induction false} KeptClean(rs: seq<Result<Row>>)
    requires forall k :: 0 <= k < |rs| && rs[k].Success? ==> CleanRow(rs[k].value)
    ensures forall k :: 0 <= k < |KeptOf(rs)| ==> CleanRow(KeptOf(rs)[k]) && KeptOf(rs)[k].mu >= Eps
    decreases |rs|
  {
    if |rs| > 0 {
      assert forall k :: 0 <= k < |rs| - 1 ==> rs[1..][k] == rs[k + 1];
      KeptClean(rs[1..]);
    }
  }

  // ---------------------------------------------------------------------------------------
  // Layer lines

  /** What a "Layer" line holds; `count` is token 4 as the window bound reads it, unstripped. */
  datatype LayerHead = LayerHead(count: int, sigma: real, energy: real, cmu: real, nSpots: int, repaint: int)

  /**
   * Token 4 bounds the element window first; then tokens 1 to 4 are sigma, nominal energy, MU
   * and spot count, and token 5, when present, the number of repaintings.
   */
  function LayerHeader(line: string, ps: Parsers): (r: Result<LayerHead>)
    ensures r.Failure? ==> r.error in {MissingToken, NotANumber}
    ensures |Tokens(line)| < 5 ==> r == Failure(MissingToken)
    ensures r.Success? && |Tokens(line)| == 5 ==> r.value.repaint == 0
  {
    var t := Tokens(line);
    if |t| < 5 then Failure(MissingToken)
    else
      match ps.toInt(t[4])
      case None => Failure(NotANumber)
      case Some(count) =>
        var sigma :- TokenReal(t, 1, ps);
        var energy :- TokenReal(t, 2, ps);
        var cmu :- TokenReal(t, 3, ps);
        var n :- TokenInt(t, 4, ps);
        var repaint :- if |t| > 5 then TokenInt(t, 5, ps) else Success(0);
        Success(LayerHead(count, sigma, energy, cmu, n, repaint))
  }

  /** A layer header that is read takes its fields from the tokens 1 to 5. */
  lemma LayerHeaderMeaning(line: string, ps: Parsers)
    requires LayerHeader(line, ps).Success?
    ensures var h, t := LayerHeader(line, ps).value, Tokens(line);
      |t| >= 5 && ps.toInt(t[4]).Some? && h.count == ps.toInt(t[4]).value
      && TokenReal(t, 1, ps) == Success(h.sigma) && TokenReal(t, 2, ps) == Success(h.energy)
      && TokenReal(t, 3, ps) == Success(h.cmu) && TokenInt(t, 4, ps) == Success(h.nSpots)
      && (if |t| > 5 then TokenInt(t, 5, ps) == Success(h.repaint) else h.repaint == 0)
  {
    var t := Tokens(line);
    assert |t| >= 5 && ps.toInt(t[4]).Some?;
    var count := ps.toInt(t[4]).value;
    var a, b, c, d := TokenReal(t, 1, ps), TokenReal(t, 2, ps), TokenReal(t, 3, ps), TokenInt(t, 4, ps);
    assert a.Success? && b.Success? && c.Success? && d.Success?;
    var e := if |t| > 5 then TokenInt(t, 5, ps) else Success(0);
    assert e.Success?;
    assert LayerHeader(line, ps) == Success(LayerHead(count, a.value, b.value, c.value, d.value, e.value));
  }

  /** Python's normalisation of a slice bound: negative counts from the end, and both ends clamp. */
  function SliceBound(b: int, n: nat): (r: nat)
    ensures r <= n
  {
    if b < 0 then (if b + n < 0 then 0 else b + n) else if b > n then n else b
  }

  /** `s[a:b]` */
  function Window<T>(s: seq<T>, a: int, b: int): seq<T>
  {
    var lo, hi := SliceBound(a, |s|), SliceBound(b, |s|);
    if hi <= lo then [] else s[lo..hi]
  }

  /**
   * The elements of the layer on line i are the `count` lines right after it; when the file
   * ends sooner they are the lines up to its end.
   */
  lemma WindowMeaning<T>(s: seq<T>, i: nat, count: nat)
    requires i < |s|
    ensures i + 1 + count <= |s| ==> Window(s, i + 1, i + 1 + count) == s[i + 1..i + 1 + count]
    ensures i + 1 + count > |s| ==> Window(s, i + 1, i + 1 + count) == s[i + 1..]
  {
  }

  /** The layer as the reader builds it: a square spot size from sigma, and the measured energy set to the nominal one. */
  function PldLayer(h: LayerHead, rows: seq<Row>, ps: Parsers): RowLayer
  {
    NewRowLayer(rows, true, (ps.fwhm(h.sigma), ps.fwhm(h.sigma)), h.energy, h.energy, 0.0, h.cmu, h.repaint, h.nSpots)
  }

  /**
   * The layer whose header is line i: its elements are read, the spot count drops by one for
   * each element without MU, and the rows are reshaped to that count, which raises unless it
   * is the number of rows (or -1, which numpy reads as "whatever fits").
   */
  function ParseLayer(header: string, lines: seq<string>, i: int, ps: Parsers): Result<RowLayer>
  {
    var h :- LayerHeader(header, ps);
    var els := Window(lines, i + 1, i + 1 + h.count);
    ShapeLayer(h, els, ParseElements(els, ps), ps)
  }

  /** The rows read from the elements, reshaped to the spot count less the dropped elements. */
  function ShapeLayer(h: LayerHead, els: seq<string>, rows: Result<seq<Row>>, ps: Parsers): Result<RowLayer>
  {
    var rows :- rows;
    var nspots := h.nSpots - (|els| - |rows|);
    if nspots != |rows| && nspots != -1 then Failure(ReshapeMismatch)
    else Success(PldLayer(h, rows, ps))
  }

  /** Whatever reads the elements, a layer that is shaped holds the elements kept, and its count less the dropped ones fits. */
  lemma ShapeLayerRows(h: LayerHead, els: seq<string>, read: string -> Result<Row>, ps: Parsers)
    requires ShapeLayer(h, els, Fold(els, [], KeepStep(read)), ps).Success?
    ensures var l, rs := ShapeLayer(h, els, Fold(els, [], KeepStep(read)), ps).value, Parsed(els, read);
      l.rows == KeptOf(rs) && (h.nSpots - DroppedOf(rs) == |l.rows| || h.nSpots - DroppedOf(rs) == -1)
  {
    KeepMeaning(els, read);
  }

  /**
   * A layer that is read holds exactly its kept elements, all clean; its declared spot count
   * minus the dropped elements is its row count (or -1).
   */
  lemma ParseLayerRows(header: string, lines: seq<string>, i: int, ps: Parsers)
    requires ParseLayer(header, lines, i, ps).Success?
    ensures LayerHeader(header, ps).Success?
    ensures var h, l := LayerHeader(header, ps).value, ParseLayer(header, lines, i, ps).value;
      var rs := Parsed(Window(lines, i + 1, i + 1 + h.count), ElementReader(ps));
      l.rows == KeptOf(rs) && (forall k :: 0 <= k < |l.rows| ==> CleanRow(l.rows[k]) && l.rows[k].mu >= Eps)
      && (h.nSpots - DroppedOf(rs) == |l.rows| || h.nSpots - DroppedOf(rs) == -1)
  {
    ParseLayerShaped(header, lines, i, ps);
    var h := LayerHeader(header, ps).value;
    var els := Window(lines, i + 1, i + 1 + h.count);
    ShapeLayerRows(h, els, ElementReader(ps), ps);
    KeptRowsClean(els, ps);
  }

  /** A layer that is read is its header's window of elements, read and shaped. */
  lemma ParseLayerShaped(header: string, lines: seq<string>, i: int, ps: Parsers)
    requires ParseLayer(header, lines, i, ps).Success?
    ensures LayerHeader(header, ps).Success?
    ensures var h := LayerHeader(header, ps).value; var els := Window(lines, i + 1, i + 1 + h.count);
      ParseLayer(header, lines, i, ps) == ShapeLayer(h, els, Fold(els, [], KeepStep(ElementReader(ps))), ps)
  {
  }

  /** The elements kept from a window are clean and carry MU of at least eps. */
  lemma KeptRowsClean(els: seq<string>, ps: Parsers)
    ensures var kept := KeptOf(Parsed(els, ElementReader(ps)));
      forall k :: 0 <= k < |kept| ==> CleanRow(kept[k]) && kept[k].mu >= Eps
  {
    ParsedClean(els, ps);
    KeptClean(Parsed(els, ElementReader(ps)));
  }

  /** Every element that is read gives a clean row. */
  lemma ParsedClean(els: seq<string>, ps: Parsers)
    ensures var rs := Parsed(els, ElementReader(ps));
      forall k :: 0 <= k < |rs| && rs[k].Success? ==> CleanRow(rs[k].value)
  {
    var rs := Parsed(els, ElementReader(ps));
    forall k | 0 <= k < |rs| && rs[k].Success?
      ensures CleanRow(rs[k].value)
    {
      assert rs[k] == ParseElement(els[k], ps);
    }
  }

  /**
   * A layer that is read has a particle column, a square spot size from its sigma, its energy
   * as both nominal and measured energy and the header's MU, repaint count and spot count.
   */
  lemma ParseLayerAttributes(header: string, lines: seq<string>, i: int, ps: Parsers)
    requires ParseLayer(header, lines, i, ps).Success?
    ensures LayerHeader(header, ps).Success?
    ensures var h, l := LayerHeader(header, ps).value, ParseLayer(header, lines, i, ps).value;
      l.hasParticleColumn && l.spotSize == (ps.fwhm(h.sigma), ps.fwhm(h.sigma))
      && l.energyNominal == h.energy && l.energyMeasured == h.energy && l.espread == 0.0
      && l.cumMu == h.cmu && l.repaint == h.repaint && l.nSpots == h.nSpots
  {
  }

  /**
   * A header whose count is consistent but reaches past the end of the file makes the reshape
   * raise: there are fewer elements than declared.
   */
  lemma LayerPastEnd(header: string, lines: seq<string>, i: nat, ps: Parsers)
    requires i < |lines| && LayerHeader(header, ps).Success?
    requires var h := LayerHeader(header, ps).value;
      h.count == h.nSpots && i + 1 + h.count > |lines|
      && ParseElements(Window(lines, i + 1, i + 1 + h.count), ps).Success?
    ensures ParseLayer(header, lines, i, ps) == Failure(ReshapeMismatch)
  {
    var h := LayerHeader(header, ps).value;
    var els := Window(lines, i + 1, i + 1 + h.count);
    WindowMeaning(lines, i, h.count);
    KeepMeaning(els, ElementReader(ps));
  }

  // ---------------------------------------------------------------------------------------
  // The whole file

  function Lines(text: string): seq<string>
  {
    Split(text, '\n')
  }

  /** `range(1, pldlen)` with each line: the lines after the first, with their numbers. */
  function NumberedLines(text: string): (r: seq<(nat, string)>)
    ensures |r| == |Lines(text)| - 1
    ensures forall k :: 0 <= k < |r| ==> r[k] == (k + 1, Lines(text)[k + 1])
  {
    Enumerate(Lines(text))[1..]
  }

  /** A numbered line that starts a layer. */
  predicate IsHeader(p: (nat, string))
  {
    Contains(p.1, "Layer")
  }

  /** The layer that starts on a numbered line. */
  function LayerReader(lines: seq<string>, ps: Parsers): ((nat, string)) -> Result<RowLayer>
  {
    (p: (nat, string)) => ParseLayer(p.1, lines, p.0, ps)
  }

  /** The line loop: every line that contains "Layer" starts a layer, appended in order. */
  function ParseLayers(text: string, ps: Parsers): Result<seq<RowLayer>>
  {
    Fold(NumberedLines(text), [], CollectStep(IsHeader, LayerReader(Lines(text), ps)))
  }

  /** The plan: one field carrying the header's MU, cset weight and layer count, and the IBA factor. */
  function PldPlan(h: PldHead, layers: seq<RowLayer>, scaling: real): PlanData
  {
    var f := NewField.(layers := layers, nLayers := h.nLayers, csetWeight := h.csetWeight, scaling := scaling, cmu := h.cmu);
    NewPlan.(header := PlanHeader(h.patientId, h.patientName, h.patientInitials, h.patientFirstname, h.planLabel, "", h.beamName, ""),
             fields := [f], nFields := 1, factor := PldFactor, scaling := scaling)
  }

  /** `load_PLD_IBA`: the header line, then every line after it. */
  function LoadPld(text: string, scaling: real, ps: Parsers): (r: Result<PlanData>)
    ensures |Tokens(Lines(text)[0])| < 8 ==> r == Failure(MissingToken)
    ensures r.Success? ==>
      |r.value.fields| == 1 && r.value.nFields == 1 && r.value.factor == PldFactor && r.value.scaling == scaling
  {
    var h :- ParsePldHeader(Lines(text)[0], ps);
    var layers :- ParseLayers(text, ps);
    Success(PldPlan(h, layers, scaling))
  }

  /** Reference: the numbered lines that contain "Layer", in order. */
  function Headers(text: string): seq<(nat, string)>
  {
    Filter(NumberedLines(text), IsHeader)
  }

  /** Every header line is a line of the file after the first, with its own number. */
  lemma HeadersFrom(text: string)
    ensures forall k :: 0 <= k < |Headers(text)| ==>
      1 <= Headers(text)[k].0 < |Lines(text)| && Headers(text)[k].1 == Lines(text)[Headers(text)[k].0]
      && IsHeader(Headers(text)[k])
  {
    FilterKeeps(NumberedLines(text), IsHeader);
  }

  /** The line loop in terms of the header lines. */
  lemma ReadHeaders(text: string, ps: Parsers)
    ensures ParseLayers(text, ps).Success? <==>
      forall k :: 0 <= k < |Headers(text)| ==> ParseLayer(Headers(text)[k].1, Lines(text), Headers(text)[k].0, ps).Success?
    ensures ParseLayers(text, ps).Success? ==>
      var ls, hs := ParseLayers(text, ps).value, Headers(text);
      |ls| == |hs| && forall k :: 0 <= k < |hs| ==> ls[k] == ParseLayer(hs[k].1, Lines(text), hs[k].0, ps).value
  {
    var read := LayerReader(Lines(text), ps);
    var hs := Headers(text);
    CollectMeaning(NumberedLines(text), IsHeader, read);
    assert forall k :: 0 <= k < |hs| ==> read(hs[k]) == ParseLayer(hs[k].1, Lines(text), hs[k].0, ps);
  }

  /**
   * A PLD file is read exactly when its header is and each of its "Layer" lines after the first
   * gives a layer.
   */
  lemma LoadPldSucceeds(text: string, scaling: real, ps: Parsers)
    ensures LoadPld(text, scaling, ps).Success? <==>
      ParsePldHeader(Lines(text)[0], ps).Success?
      && forall k :: 0 <= k < |Headers(text)| ==> ParseLayer(Headers(text)[k].1, Lines(text), Headers(text)[k].0, ps).Success?
  {
    ReadHeaders(text, ps);
  }

  /**
   * A PLD plan that is read has exactly one field, with the MU, cset weight and layer count
   * of the header (the layer count as written there, not as counted), and the IBA factor.
   */
  lemma LoadPldField(text: string, scaling: real, ps: Parsers)
    requires LoadPld(text, scaling, ps).Success?
    ensures ParsePldHeader(Lines(text)[0], ps).Success?
    ensures var p, h := LoadPld(text, scaling, ps).value, ParsePldHeader(Lines(text)[0], ps).value;
      |p.fields| == 1 && p.nFields == 1 && p.factor == PldFactor && p.scaling == scaling
      && p.fields[0].scaling == scaling && p.fields[0].cmu == h.cmu && p.fields[0].csetWeight == h.csetWeight
      && p.fields[0].nLayers == h.nLayers
      && p.header.patientId == h.patientId && p.header.patientName == h.patientName
      && p.header.planLabel == h.planLabel && p.header.beamName == h.beamName
  {
  }

  /** The field holds one layer per "Layer" line after the first line, in order, each read from its own line. */
  lemma LoadPldLayers(text: string, scaling: real, ps: Parsers)
    requires LoadPld(text, scaling, ps).Success?
    ensures var ls, hs := LoadPld(text, scaling, ps).value.fields[0].layers, Headers(text);
      |ls| == |hs| && forall k :: 0 <= k < |hs| ==>
        ParseLayer(hs[k].1, Lines(text), hs[k].0, ps).Success? && ls[k] == ParseLayer(hs[k].1, Lines(text), hs[k].0, ps).value
  {
    ReadHeaders(text, ps);
  }

  /** Every layer of a PLD plan that is read has a particle column. */
  lemma LoadPldParticleColumns(text: string, scaling: real, ps: Parsers)
    requires LoadPld(text, scaling, ps).Success?
    ensures var fs := LoadPld(text, scaling, ps).value.fields;
      |fs| == 1 && forall k :: 0 <= k < |fs[0].layers| ==> fs[0].layers[k].hasParticleColumn
  {
    LoadPldField(text, scaling, ps);
    LoadPldLayers(text, scaling, ps);
    var ls, hs := LoadPld(text, scaling, ps).value.fields[0].layers, Headers(text);
    forall k | 0 <= k < |ls|
      ensures ls[k].hasParticleColumn
    {
      ParseLayerAttributes(hs[k].1, Lines(text), hs[k].0, ps);
    }
  }

  /**
   * A PLD plan that is read converts exactly when each of its layers kept a spot and, without
   * a beam model, has an energy in the stopping-power domain.
   */
  lemma LoadPldConvertible(text: string, scaling: real, ps: Parsers, model: Option<BeamModel>)
    requires LoadPld(text, scaling, ps).Success?
    ensures var fs := LoadPld(text, scaling, ps).value.fields;
      |fs| == 1
      && (Convertible(fs, model) <==>
            forall k :: 0 <= k < |fs[0].layers| ==>
              |fs[0].layers[k].rows| > 0 && (model.Some? || EnergyMin <= fs[0].layers[k].energyMeasured <= EnergyMax))
  {
    LoadPldParticleColumns(text, scaling, ps);
  }

  // ---------------------------------------------------------------------------------------
  // The loops

  /**
   * The element loop of one layer: the rows that `read` gives with MU are appended, and the
   * spot count drops by one for each of the others.
   */
  method KeepRows(els: seq<string>, read: string -> Result<Row>, declared: int) returns (r: Result<seq<Row>>, nspots: int)
    ensures r == Fold(els, [], KeepStep(read))
    ensures r.Success? ==> nspots == declared - (|els| - |r.value|)
  {
    var rows: seq<Row> := [];
    nspots := declared;
    var k := 0;
    while k < |els|
      invariant 0 <= k <= |els|
      invariant Fold(els[..k], [], KeepStep(read)) == Success(rows)
      invariant nspots == declared - (k - |rows|)
    {
      FoldStep(els, k, [], KeepStep(read));
      var e := read(els[k]);
      if e.Failure? {
        FoldStick(els, k + 1, [], KeepStep(read));
        return Failure(e.error), nspots;
      }
      if e.value.mu > 0.0 {
        rows := rows + [e.value];
      } else {
        nspots := nspots - 1;
      }
      k := k + 1;
    }
    assert els[..k] == els;
    return Success(rows), nspots;
  }

  /** One layer: its header, its element loop and the reshape of the rows to the spot count. */
  method ReadLayer(header: string, lines: seq<string>, i: int, ps: Parsers) returns (r: Result<RowLayer>)
    ensures r == ParseLayer(header, lines, i, ps)
  {
    var h := LayerHeader(header, ps);
    if h.Failure? {
      return Failure(h.error);
    }
    var head := h.value;
    var els := Window(lines, i + 1, i + 1 + head.count);
    var rows, nspots := KeepRows(els, ElementReader(ps), head.nSpots);
    assert ParseLayer(header, lines, i, ps) == ShapeLayer(head, els, rows, ps);
    if rows.Failure? {
      return Failure(rows.error);
    }
    if nspots != |rows.value| && nspots != -1 {
      return Failure(ReshapeMismatch);
    }
    return Success(PldLayer(head, rows.value, ps));
  }

  /** `load_PLD_IBA`: the header, then the loop over the lines after it. */
  method ReadPld(text: string, scaling: real, ps: Parsers) returns (r: Result<PlanData>)
    ensures r == LoadPld(text, scaling, ps)
  {
    var lines := Lines(text);
    var h := ParsePldHeader(lines[0], ps);
    if h.Failure? {
      return Failure(h.error);
    }
    var xs := NumberedLines(text);
    var layers: seq<RowLayer> := [];
    var k := 0;
    while k < |xs|
      invariant 0 <= k <= |xs|
      invariant Fold(xs[..k], [], CollectStep(IsHeader, LayerReader(lines, ps))) == Success(layers)
    {
      FoldStep(xs, k, [], CollectStep(IsHeader, LayerReader(lines, ps)));
      var (i, line) := xs[k];
      if IsHeader((i, line)) {
        var l := ReadLayer(line, lines, i, ps);
        if l.Failure? {
          FoldStick(xs, k + 1, [], CollectStep(IsHeader, LayerReader(lines, ps)));
          return Failure(l.error);
        }
        layers := layers + [l.value];
      }
      k := k + 1;
    }
    assert xs[..k] == xs;
    return Success(PldPlan(h.value, layers, scaling));
  }
}
