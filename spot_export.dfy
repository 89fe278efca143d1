/**
 * The spot-list export of a plan: the column-format guard, the choice of fields and file
 * names, the unit conversions, the flips that are applied to the spot table in place while it
 * is written, and the exceptions raised on the way. A written file is its name, its column
 * format and its lines as numbers; the text formatting of the numbers is not modelled.
 */
module SpotExport {
  import opened Common
  import opened Particles
  import Text

  /** One line of a spot list: energy and energy spread [GeV], position and FWHM [cm], and the weight. */
  datatype SpotLine = SpotLine(energy: real, espread: real, x: real, y: real, fwhmX: real, fwhmY: real, weight: real)

  /** A written file: its name, the column format of its header and lines, and its lines. */
  datatype OutputFile = OutputFile(name: string, columns: int, lines: seq<SpotLine>)

  /** The plan's three flip flags and the choice of nominal or measured energy. */
  datatype Options = Options(flipXY: bool, flipX: bool, flipY: bool, nominal: bool)

  /** A step that may raise and that writes output: the state reached, what it wrote, and the exception. */
  datatype Emitted<T, O> = Emitted(value: T, out: seq<O>, err: Option<Error>)

  /**
   * A Python loop over a list from index i on that updates each element in place and writes
   * output: the first step that raises keeps its partial update and what it wrote, and leaves
   * the rest of the list untouched.
   */
  function EmitFrom<T, O>(xs: seq<T>, i: nat, step: (nat, T) -> Emitted<T, O>): Emitted<seq<T>, O>
    requires i <= |xs|
    decreases |xs| - i
  {
    if i == |xs| then Emitted([], [], None)
    else
      var h := step(i, xs[i]);
      if h.err.Some? then Emitted([h.value] + xs[i + 1..], h.out, h.err)
      else
        var t := EmitFrom(xs, i + 1, step);
        Emitted([h.value] + t.value, h.out + t.out, t.err)
  }

  /** The outputs in order, one after the other. */
  function Concat<O>(ss: seq<seq<O>>): seq<O>
    decreases |ss|
  {
    if |ss| == 0 then [] else ss[0] + Concat(ss[1..])
  }

  /** What each step from index i on writes when run on its own. */
  function OutsFrom<T, O>(xs: seq<T>, i: nat, step: (nat, T) -> Emitted<T, O>): (r: seq<seq<O>>)
    requires i <= |xs|
    ensures |r| == |xs| - i && forall k :: 0 <= k < |r| ==> r[k] == step(i + k, xs[i + k]).out
  {
    seq(|xs| - i, k requires 0 <= k < |xs| - i => step(i + k, xs[i + k]).out)
  }

  lemma {:induction false} EmitFromLength<T, O>(xs: seq<T>, i: nat, step: (nat, T) -> Emitted<T, O>)
    requires i <= |xs|
    ensures |EmitFrom(xs, i, step).value| == |xs| - i
    decreases |xs| - i
  {
    if i < |xs| {
      EmitFromLength(xs, i + 1, step);
    }
  }

  /**
   * From index i on the loop finishes without raising exactly when every step does; then
   * element k is step k's result and the output is what the steps write, in order.
   */
  lemma {:induction false} EmitFromAll<T, O>(xs: seq<T>, i: nat, step: (nat, T) -> Emitted<T, O>)
    requires i <= |xs|
    ensures |EmitFrom(xs, i, step).value| == |xs| - i
    ensures EmitFrom(xs, i, step).err.None? <==> forall k :: i <= k < |xs| ==> step(k, xs[k]).err.None?
    ensures EmitFrom(xs, i, step).err.None? ==>
      (forall k :: i <= k < |xs| ==> EmitFrom(xs, i, step).value[k - i] == step(k, xs[k]).value)
      && EmitFrom(xs, i, step).out == Concat(OutsFrom(xs, i, step))
    decreases |xs| - i
  {
    EmitFromLength(xs, i, step);
    if i < |xs| {
      EmitFromAll(xs, i + 1, step);
      var os := OutsFrom(xs, i, step);
      assert os[1..] == OutsFrom(xs, i + 1, step);
    }
  }

  /** The exception the loop raises is one that some step raises. */
  lemma {:induction false} EmitFromErrors<T, O>(xs: seq<T>, i: nat, step: (nat, T) -> Emitted<T, O>, errs: set<Error>)
    requires i <= |xs|
    requires forall k :: i <= k < |xs| ==> step(k, xs[k]).err.Some? ==> step(k, xs[k]).err.value in errs
    ensures EmitFrom(xs, i, step).err.Some? ==> EmitFrom(xs, i, step).err.value in errs
    decreases |xs| - i
  {
    if i < |xs| {
      EmitFromErrors(xs, i + 1, step, errs);
    }
  }

  /** The loop state before a loop over xs starts: nothing processed and nothing written. */
  lemma EmitStart<T, O>(xs: seq<T>, step: (nat, T) -> Emitted<T, O>)
    ensures EmitFrom(xs, 0, step) ==
      Emitted([] + EmitFrom(xs, 0, step).value, [] + EmitFrom(xs, 0, step).out, EmitFrom(xs, 0, step).err)
  {
    assert [] + EmitFrom(xs, 0, step).value == EmitFrom(xs, 0, step).value;
    assert [] + EmitFrom(xs, 0, step).out == EmitFrom(xs, 0, step).out;
  }

  /**
   * One step of a loop over xs that has processed its first i elements into done and written
   * out: a step that raises ends the loop, one that does not extends done and out.
   */
  lemma EmitAdvance<T, O>(xs: seq<T>, step: (nat, T) -> Emitted<T, O>, done: seq<T>, out: seq<O>, i: nat)
    requires i < |xs|
    requires EmitFrom(xs, 0, step) ==
      Emitted(done + EmitFrom(xs, i, step).value, out + EmitFrom(xs, i, step).out, EmitFrom(xs, i, step).err)
    ensures step(i, xs[i]).err.Some? ==>
      EmitFrom(xs, 0, step) == Emitted(done + [step(i, xs[i]).value] + xs[i + 1..], out + step(i, xs[i]).out, step(i, xs[i]).err)
    ensures step(i, xs[i]).err.None? ==>
      EmitFrom(xs, 0, step) ==
        Emitted((done + [step(i, xs[i]).value]) + EmitFrom(xs, i + 1, step).value,
                (out + step(i, xs[i]).out) + EmitFrom(xs, i + 1, step).out, EmitFrom(xs, i + 1, step).err)
  {
    var h := step(i, xs[i]);
    if h.err.Some? {
      assert done + ([h.value] + xs[i + 1..]) == done + [h.value] + xs[i + 1..];
    } else {
      var t := EmitFrom(xs, i + 1, step);
      assert done + ([h.value] + t.value) == (done + [h.value]) + t.value;
      assert out + (h.out + t.out) == (out + h.out) + t.out;
    }
  }

  /** A loop over xs that processed every element without raising. */
  lemma EmitEnd<T, O>(xs: seq<T>, step: (nat, T) -> Emitted<T, O>, done: seq<T>, out: seq<O>)
    requires EmitFrom(xs, 0, step) ==
      Emitted(done + EmitFrom(xs, |xs|, step).value, out + EmitFrom(xs, |xs|, step).out, EmitFrom(xs, |xs|, step).err)
    ensures EmitFrom(xs, 0, step) == Emitted(done, out, None)
  {
    assert done + [] == done;
    assert out + [] == out;
  }

  // ---------------------------------------------------------------------------------------
  // One spot, one layer, one field

  /** The in-place flips of a spot position: x negated for flip_x, y negated for flip_y. */
  function FlipRow(r: Row, o: Options): (f: Row)
    ensures f.mu == r.mu && f.particles == r.particles
  {
    r.(x := if o.flipX then -r.x else r.x, y := if o.flipY then -r.y else r.y)
  }

  /** The exported energy [GeV]: nominal or measured [MeV] times 0.001. */
  function ExportEnergy(l: RowLayer, nominal: bool): real
  {
    (if nominal then l.energyNominal else l.energyMeasured) * 0.001
  }

  /**
   * The line of a flipped spot: mm to cm for position and FWHM, x and y exchanged for flip_xy,
   * and the particle number as the weight.
   */
  function LineOf(l: RowLayer, r: Row, o: Options): SpotLine
  {
    var e, s := ExportEnergy(l, o.nominal), l.espread * 0.001;
    if o.flipXY then SpotLine(e, s, r.y * 0.1, r.x * 0.1, l.spotSize.1 * 0.1, l.spotSize.0 * 0.1, r.particles)
    else SpotLine(e, s, r.x * 0.1, r.y * 0.1, l.spotSize.0 * 0.1, l.spotSize.1 * 0.1, r.particles)
  }

  /** One spot of the spot loop: flipped first, then the weight read from column 3, which a three-column table lacks. */
  function ExportRow(l: RowLayer, o: Options): (nat, Row) -> Emitted<Row, SpotLine>
  {
    (k: nat, r: Row) =>
      var f := FlipRow(r, o);
      if !l.hasParticleColumn then Emitted(f, [], Some(MissingParticleColumn))
      else Emitted(f, [LineOf(l, f, o)], None)
  }

  /** One layer of the layer loop; a layer marked empty is skipped. */
  function ExportLayer(l: RowLayer, o: Options): (r: Emitted<RowLayer, SpotLine>)
    ensures |r.value.rows| == |l.rows| && r.value.(rows := l.rows) == l
    ensures r.err.Some? ==> r.err == Some(MissingParticleColumn)
    ensures l.isEmpty ==> r == Emitted(l, [], None)
  {
    if l.isEmpty then Emitted(l, [], None)
    else
      EmitFromLength(l.rows, 0, ExportRow(l, o));
      EmitFromErrors(l.rows, 0, ExportRow(l, o), {MissingParticleColumn});
      var r := EmitFrom(l.rows, 0, ExportRow(l, o));
      Emitted(l.(rows := r.value), r.out, r.err)
  }

  function ExportLayerStep(o: Options): (nat, RowLayer) -> Emitted<RowLayer, SpotLine>
  {
    (k: nat, l: RowLayer) => ExportLayer(l, o)
  }

  /** One field: its layers in order, then the log line that reads the first layer, which raises for a field without layers. */
  function ExportField(f: BeamField, o: Options): (e: Emitted<BeamField, SpotLine>)
    ensures |e.value.layers| == |f.layers| && e.value.(layers := f.layers) == f
    ensures e.err.Some? ==> e.err.value in {MissingParticleColumn, NoLayers}
    ensures |f.layers| == 0 ==> e == Emitted(f, [], Some(NoLayers))
  {
    EmitFromLength(f.layers, 0, ExportLayerStep(o));
    EmitFromErrors(f.layers, 0, ExportLayerStep(o), {MissingParticleColumn, NoLayers});
    var r := EmitFrom(f.layers, 0, ExportLayerStep(o));
    if r.err.Some? then Emitted(f.(layers := r.value), r.out, r.err)
    else if |f.layers| == 0 then Emitted(f, [], Some(NoLayers))
    else Emitted(f.(layers := r.value), r.out, None)
  }

  // ---------------------------------------------------------------------------------------
  // File names and the loop over fields

  /** `f"{j:02d}"`: at least two digits, zero-padded. */
  function TwoDigits(j: nat): (r: string)
    ensures |r| >= 2 && forall k :: 0 <= k < |r| ==> '0' <= r[k] <= '9'
  {
    if j < 10 then "0" + NatToString(j) else NatToString(j)
  }

  /** `fn.stem`: the file name without its suffix. */
  function Stem(name: string): (r: string)
    ensures r + Text.Suffix(name) == name
  {
    name[..|name| - |Text.Suffix(name)|]
  }

  /** The name of the file of field number j when every field is written: `<stem>_<jj><suffix>`. */
  function NumberedName(name: string, j: nat): string
  {
    Stem(name) + "_" + TwoDigits(j) + Text.Suffix(name)
  }

  /** Field number j (counted from 1) is written when every field is asked for or when it is the one asked for. */
  predicate Selected(fieldNr: int, j: nat)
  {
    fieldNr == 0 || j == fieldNr
  }

  function FileName(name: string, fieldNr: int, j: nat): string
  {
    if fieldNr == 0 then NumberedName(name, j) else name
  }

  /** One field of the field loop, at index i: skipped unless selected, else exported and its file written. */
  function ExportFieldStep(name: string, cols: int, fieldNr: int, o: Options): (nat, BeamField) -> Emitted<BeamField, OutputFile>
  {
    (i: nat, f: BeamField) =>
      if !Selected(fieldNr, i + 1) then Emitted(f, [], None)
      else
        var e := ExportField(f, o);
        if e.err.Some? then Emitted(e.value, [], e.err)
        else Emitted(e.value, [OutputFile(FileName(name, fieldNr, i + 1), cols, e.out)], None)
  }

  /** The plan's fields after an export (flipped in place), the files written, and the exception raised. */
  datatype ExportResult = ExportResult(fields: seq<BeamField>, files: seq<OutputFile>, err: Option<Error>)

  /** `Plan.export`: the column format is checked first, then the fields are exported in order. */
  function Export(fs: seq<BeamField>, name: string, cols: int, fieldNr: int, o: Options): (r: ExportResult)
    ensures |r.fields| == |fs|
    ensures r.err == Some(ColumnCount) <==> cols != 5 && cols != 6 && cols != 7
    ensures r.err == Some(ColumnCount) ==> r.fields == fs && r.files == []
    ensures r.err.Some? ==> r.err.value in {ColumnCount, MissingParticleColumn, NoLayers}
  {
    if cols != 5 && cols != 6 && cols != 7 then ExportResult(fs, [], Some(ColumnCount))
    else
      EmitFromLength(fs, 0, ExportFieldStep(name, cols, fieldNr, o));
      EmitFromErrors(fs, 0, ExportFieldStep(name, cols, fieldNr, o), {MissingParticleColumn, NoLayers});
      var r := EmitFrom(fs, 0, ExportFieldStep(name, cols, fieldNr, o));
      ExportResult(r.value, r.out, r.err)
  }

  // ---------------------------------------------------------------------------------------
  // What the export writes and what it does to the plan

  /** The table positions after the flips. */
  function FlippedRows(rows: seq<Row>, o: Options): (r: seq<Row>)
    ensures |r| == |rows| && forall k :: 0 <= k < |rows| ==> r[k] == FlipRow(rows[k], o)
  {
    seq(|rows|, k requires 0 <= k < |rows| => FlipRow(rows[k], o))
  }

  /** The lines a layer contributes: none when it is marked empty, else one per spot in table order. */
  function LayerLines(l: RowLayer, o: Options): (r: seq<SpotLine>)
    ensures |r| == if l.isEmpty then 0 else |l.rows|
  {
    if l.isEmpty then [] else seq(|l.rows|, k requires 0 <= k < |l.rows| => LineOf(l, FlipRow(l.rows[k], o), o))
  }

  /** A layer that can be written: skipped, with a particle column, or without spots. */
  predicate LayerWritable(l: RowLayer)
  {
    l.isEmpty || l.hasParticleColumn || |l.rows| == 0
  }

  /** A field that can be written: at least one layer, and every layer writable. */
  predicate FieldWritable(f: BeamField)
  {
    |f.layers| > 0 && forall k :: 0 <= k < |f.layers| ==> LayerWritable(f.layers[k])
  }

  lemma {:induction false} ConcatSingletons<O>(ss: seq<seq<O>>, r: seq<O>)
    requires |ss| == |r| && forall k :: 0 <= k < |ss| ==> ss[k] == [r[k]]
    ensures Concat(ss) == r
    decreases |ss|
  {
    if |ss| > 0 {
      ConcatSingletons(ss[1..], r[1..]);
      assert [r[0]] + r[1..] == r;
    }
  }

  /** A list of outputs of which only entry m is non-empty concatenates to entry m. */
  lemma {:induction false} ConcatOne<O>(ss: seq<seq<O>>, m: int)
    requires forall k :: 0 <= k < |ss| && k != m ==> ss[k] == []
    ensures Concat(ss) == if 0 <= m < |ss| then ss[m] else []
    decreases |ss|
  {
    if |ss| > 0 {
      ConcatOne(ss[1..], m - 1);
      if m == 0 {
        assert forall k :: 0 <= k < |ss[1..]| ==> ss[1..][k] == [];
        ConcatEmpty(ss[1..]);
        assert ss[0] + [] == ss[0];
      }
    }
  }

  lemma {:induction false} ConcatEmpty<O>(ss: seq<seq<O>>)
    requires forall k :: 0 <= k < |ss| ==> ss[k] == []
    ensures Concat(ss) == []
    decreases |ss|
  {
    if |ss| > 0 {
      ConcatEmpty(ss[1..]);
    }
  }

  /**
   * A layer is written without raising exactly when it is writable. A written layer that is
   * not marked empty has every spot flipped in place and contributes one line per spot; a layer
   * with spots but no particle column keeps its first spot flipped and raises.
   */
  lemma ExportLayerMeaning(l: RowLayer, o: Options)
    ensures ExportLayer(l, o).err.None? <==> LayerWritable(l)
    ensures ExportLayer(l, o).err.Some? ==>
      ExportLayer(l, o).err == Some(MissingParticleColumn)
      && ExportLayer(l, o).value == l.(rows := [FlipRow(l.rows[0], o)] + l.rows[1..])
      && ExportLayer(l, o).out == []
    ensures ExportLayer(l, o).err.None? ==>
      ExportLayer(l, o).value == (if l.isEmpty then l else l.(rows := FlippedRows(l.rows, o)))
      && ExportLayer(l, o).out == LayerLines(l, o)
  {
    if !l.isEmpty {
      var step := ExportRow(l, o);
      var r := EmitFrom(l.rows, 0, step);
      EmitFromAll(l.rows, 0, step);
      if l.hasParticleColumn {
        assert r.value == FlippedRows(l.rows, o);
        ConcatSingletons(OutsFrom(l.rows, 0, step), LayerLines(l, o));
      } else if |l.rows| > 0 {
        assert step(0, l.rows[0]).err.Some?;
      }
    }
  }

  /**
   * A field is written without raising exactly when it has a layer and every layer is
   * writable; then each layer is written on its own and the lines are the layers' lines in
   * order. The exception raised is a missing particle column or a field without layers.
   */
  lemma ExportFieldMeaning(f: BeamField, o: Options)
    ensures ExportField(f, o).err.None? <==> FieldWritable(f)
    ensures ExportField(f, o).err.Some? ==> ExportField(f, o).err.value in {MissingParticleColumn, NoLayers}
    ensures ExportField(f, o).err.None? ==>
      var g := ExportField(f, o).value;
      g == f.(layers := g.layers) && |g.layers| == |f.layers|
      && (forall k :: 0 <= k < |f.layers| ==> g.layers[k] == ExportLayer(f.layers[k], o).value)
      && ExportField(f, o).out == Concat(seq(|f.layers|, k requires 0 <= k < |f.layers| => LayerLines(f.layers[k], o)))
  {
    var step := ExportLayerStep(o);
    EmitFromAll(f.layers, 0, step);
    forall k | 0 <= k < |f.layers|
      ensures step(k, f.layers[k]).err.None? <==> LayerWritable(f.layers[k])
      ensures step(k, f.layers[k]).err.Some? ==> step(k, f.layers[k]).err.value in {MissingParticleColumn, NoLayers}
      ensures step(k, f.layers[k]).err.None? ==> step(k, f.layers[k]).out == LayerLines(f.layers[k], o)
    {
      ExportLayerMeaning(f.layers[k], o);
    }
    EmitFromErrors(f.layers, 0, step, {MissingParticleColumn, NoLayers});
    if EmitFrom(f.layers, 0, step).err.None? {
      assert OutsFrom(f.layers, 0, step) == seq(|f.layers|, k requires 0 <= k < |f.layers| => LayerLines(f.layers[k], o));
    }
  }

  /** One field of the field loop, in terms of the field exported on its own. */
  lemma ExportFieldStepMeaning(name: string, cols: int, fieldNr: int, o: Options, j: nat, f: BeamField)
    ensures var h := ExportFieldStep(name, cols, fieldNr, o)(j, f);
      (h.err.None? <==> !Selected(fieldNr, j + 1) || FieldWritable(f))
      && (h.err.Some? ==> h.err.value in {MissingParticleColumn, NoLayers})
      && (h.err.None? ==>
            h.value == (if Selected(fieldNr, j + 1) then ExportField(f, o).value else f)
            && h.out == if Selected(fieldNr, j + 1) then [OutputFile(FileName(name, fieldNr, j + 1), cols, ExportField(f, o).out)] else [])
  {
    ExportFieldMeaning(f, o);
  }

  /**
   * With a supported column format the export raises exactly when a selected field is not
   * writable, and then for a missing particle column or a field without layers.
   */
  lemma ExportFieldsSucceed(fs: seq<BeamField>, name: string, cols: int, fieldNr: int, o: Options)
    requires cols == 5 || cols == 6 || cols == 7
    ensures Export(fs, name, cols, fieldNr, o).err.None? <==>
      forall j :: 0 <= j < |fs| && Selected(fieldNr, j + 1) ==> FieldWritable(fs[j])
    ensures Export(fs, name, cols, fieldNr, o).err.Some? ==>
      Export(fs, name, cols, fieldNr, o).err.value in {MissingParticleColumn, NoLayers}
  {
    var step := ExportFieldStep(name, cols, fieldNr, o);
    EmitFromAll(fs, 0, step);
    forall j | 0 <= j < |fs|
      ensures step(j, fs[j]).err.None? <==> !Selected(fieldNr, j + 1) || FieldWritable(fs[j])
      ensures step(j, fs[j]).err.Some? ==> step(j, fs[j]).err.value in {MissingParticleColumn, NoLayers}
    {
      ExportFieldStepMeaning(name, cols, fieldNr, o, j, fs[j]);
    }
    EmitFromErrors(fs, 0, step, {MissingParticleColumn, NoLayers});
  }

  /**
   * Without raising, each selected field is written on its own, the others are left as they
   * are, and the files are those of the selected fields, in field order.
   */
  lemma ExportFieldsMeaning(fs: seq<BeamField>, name: string, cols: int, fieldNr: int, o: Options)
    requires cols == 5 || cols == 6 || cols == 7
    requires Export(fs, name, cols, fieldNr, o).err.None?
    ensures var r := Export(fs, name, cols, fieldNr, o);
      |r.fields| == |fs|
      && (forall j :: 0 <= j < |fs| ==>
            r.fields[j] == if Selected(fieldNr, j + 1) then ExportField(fs[j], o).value else fs[j])
      && r.files == Concat(FilesOf(fs, name, cols, fieldNr, o))
  {
    var step := ExportFieldStep(name, cols, fieldNr, o);
    EmitFromAll(fs, 0, step);
    var e := EmitFrom(fs, 0, step);
    forall j | 0 <= j < |fs|
      ensures e.value[j] == if Selected(fieldNr, j + 1) then ExportField(fs[j], o).value else fs[j]
      ensures step(j, fs[j]).out == FilesOf(fs, name, cols, fieldNr, o)[j]
    {
      ExportFieldStepMeaning(name, cols, fieldNr, o, j, fs[j]);
    }
    assert OutsFrom(fs, 0, step) == FilesOf(fs, name, cols, fieldNr, o);
  }

  /** The file each field writes on its own: one file for a selected field, none for the others. */
  function FilesOf(fs: seq<BeamField>, name: string, cols: int, fieldNr: int, o: Options): (r: seq<seq<OutputFile>>)
    ensures |r| == |fs|
  {
    seq(|fs|, j requires 0 <= j < |fs| =>
      if Selected(fieldNr, j + 1) then [OutputFile(FileName(name, fieldNr, j + 1), cols, ExportField(fs[j], o).out)] else [])
  }

  /**
   * The export raises the column-format error exactly when the format has other than 5, 6 or
   * 7 columns, and then writes nothing and leaves the plan as it is.
   */
  lemma ExportColumns(fs: seq<BeamField>, name: string, cols: int, fieldNr: int, o: Options)
    ensures Export(fs, name, cols, fieldNr, o).err == Some(ColumnCount) <==> cols != 5 && cols != 6 && cols != 7
    ensures cols != 5 && cols != 6 && cols != 7 ==>
      Export(fs, name, cols, fieldNr, o).files == [] && Export(fs, name, cols, fieldNr, o).fields == fs
  {
    if cols == 5 || cols == 6 || cols == 7 {
      ExportFieldsSucceed(fs, name, cols, fieldNr, o);
    }
  }

  /** With field number 0 a successful export writes one file per field, named with the two-digit field number. */
  lemma ExportAllFields(fs: seq<BeamField>, name: string, cols: int, o: Options)
    requires Export(fs, name, cols, 0, o).err.None?
    ensures var files := Export(fs, name, cols, 0, o).files;
      |files| == |fs|
      && forall j :: 0 <= j < |fs| ==> files[j] == OutputFile(NumberedName(name, j + 1), cols, ExportField(fs[j], o).out)
  {
    ExportColumns(fs, name, cols, 0, o);
    ExportFieldsMeaning(fs, name, cols, 0, o);
    var files := AllFilesNumbered(fs, name, cols, o);
    ConcatSingletons(FilesOf(fs, name, cols, 0, o), files);
  }

  /** With field number 0 every field has its file, under its numbered name. */
  lemma AllFilesNumbered(fs: seq<BeamField>, name: string, cols: int, o: Options) returns (files: seq<OutputFile>)
    ensures |files| == |fs|
    ensures forall j :: 0 <= j < |fs| ==> files[j] == OutputFile(NumberedName(name, j + 1), cols, ExportField(fs[j], o).out)
    ensures forall j :: 0 <= j < |fs| ==> FilesOf(fs, name, cols, 0, o)[j] == [files[j]]
  {
    files := seq(|fs|, j requires 0 <= j < |fs| => OutputFile(NumberedName(name, j + 1), cols, ExportField(fs[j], o).out));
    var ss := FilesOf(fs, name, cols, 0, o);
    forall j | 0 <= j < |fs|
      ensures ss[j] == [files[j]]
    {
      assert Selected(0, j + 1) && FileName(name, 0, j + 1) == NumberedName(name, j + 1);
    }
  }

  /** With the number of an existing field a successful export writes that field alone, under the given name. */
  lemma ExportOneField(fs: seq<BeamField>, name: string, cols: int, fieldNr: int, o: Options)
    requires 1 <= fieldNr <= |fs|
    requires Export(fs, name, cols, fieldNr, o).err.None?
    ensures Export(fs, name, cols, fieldNr, o).files == [OutputFile(name, cols, ExportField(fs[fieldNr - 1], o).out)]
  {
    ExportColumns(fs, name, cols, fieldNr, o);
    ExportFieldsMeaning(fs, name, cols, fieldNr, o);
    ConcatOne(FilesOf(fs, name, cols, fieldNr, o), fieldNr - 1);
  }

  /** With any other field number the export writes nothing and leaves the plan as it is. */
  lemma ExportNoField(fs: seq<BeamField>, name: string, cols: int, fieldNr: int, o: Options)
    requires fieldNr < 0 || fieldNr > |fs|
    requires Export(fs, name, cols, fieldNr, o).err.None?
    ensures Export(fs, name, cols, fieldNr, o).files == [] && Export(fs, name, cols, fieldNr, o).fields == fs
  {
    ExportColumns(fs, name, cols, fieldNr, o);
    ExportFieldsMeaning(fs, name, cols, fieldNr, o);
    ConcatOne(FilesOf(fs, name, cols, fieldNr, o), -1);
    assert Export(fs, name, cols, fieldNr, o).fields == fs;
  }

  /** Flipping a spot twice gives it back. */
  lemma FlipRowTwice(r: Row, o: Options)
    ensures FlipRow(FlipRow(r, o), o) == r
  {
  }

  /** Writing a writable layer twice leaves its table as it was, and the second write does not raise either. */
  lemma ExportLayerTwice(l: RowLayer, o: Options)
    requires LayerWritable(l)
    ensures LayerWritable(ExportLayer(l, o).value)
    ensures ExportLayer(ExportLayer(l, o).value, o).value == l
  {
    ExportLayerMeaning(l, o);
    var m := ExportLayer(l, o).value;
    ExportLayerMeaning(m, o);
    if !l.isEmpty {
      assert FlippedRows(FlippedRows(l.rows, o), o) == l.rows;
    }
  }

  /** Writing a writable field twice leaves it as it was. */
  lemma ExportFieldTwice(f: BeamField, o: Options)
    requires FieldWritable(f)
    ensures FieldWritable(ExportField(f, o).value)
    ensures ExportField(ExportField(f, o).value, o).value == f
  {
    ExportFieldMeaning(f, o);
    var g := ExportField(f, o).value;
    forall k | 0 <= k < |f.layers|
      ensures LayerWritable(g.layers[k]) && ExportLayer(g.layers[k], o).value == f.layers[k]
    {
      ExportLayerTwice(f.layers[k], o);
    }
    ExportFieldMeaning(g, o);
    assert ExportField(g, o).value.layers == f.layers;
  }

  /**
   * The flips are applied to the plan itself, so a second export with the same options gives
   * back the plan as it was before the first, and raises no more than the first did.
   */
  lemma ExportTwiceRestores(fs: seq<BeamField>, name: string, cols: int, fieldNr: int, o: Options)
    requires Export(fs, name, cols, fieldNr, o).err.None?
    ensures Export(Export(fs, name, cols, fieldNr, o).fields, name, cols, fieldNr, o).err.None?
    ensures Export(Export(fs, name, cols, fieldNr, o).fields, name, cols, fieldNr, o).fields == fs
  {
    ExportColumns(fs, name, cols, fieldNr, o);
    ExportFieldsSucceed(fs, name, cols, fieldNr, o);
    ExportFieldsMeaning(fs, name, cols, fieldNr, o);
    var gs := Export(fs, name, cols, fieldNr, o).fields;
    forall j | 0 <= j < |fs| && Selected(fieldNr, j + 1)
      ensures FieldWritable(gs[j]) && ExportField(gs[j], o).value == fs[j]
    {
      ExportFieldTwice(fs[j], o);
    }
    ExportFieldsSucceed(gs, name, cols, fieldNr, o);
    ExportFieldsMeaning(gs, name, cols, fieldNr, o);
  }

  // ---------------------------------------------------------------------------------------
  // The loops of Plan.export

  /** The spot loop of one layer that is not skipped: each spot flipped in place, then its line. */
  method ExportLayerLoop(l: RowLayer, o: Options) returns (r: Emitted<RowLayer, SpotLine>)
    ensures r == ExportLayer(l, o)
  {
    if l.isEmpty {
      return Emitted(l, [], None);
    }
    ghost var step := ExportRow(l, o);
    var done: seq<Row> := [];
    var out: seq<SpotLine> := [];
    var i := 0;
    EmitStart(l.rows, step);
    while i < |l.rows|
      invariant 0 <= i <= |l.rows| && |done| == i
      invariant EmitFrom(l.rows, 0, step) ==
        Emitted(done + EmitFrom(l.rows, i, step).value, out + EmitFrom(l.rows, i, step).out, EmitFrom(l.rows, i, step).err)
    {
      var spot := FlipRow(l.rows[i], o);
      EmitAdvance(l.rows, step, done, out, i);
      if !l.hasParticleColumn {
        return Emitted(l.(rows := done + [spot] + l.rows[i + 1..]), out, Some(MissingParticleColumn));
      }
      done := done + [spot];
      out := out + [LineOf(l, spot, o)];
      i := i + 1;
    }
    EmitEnd(l.rows, step, done, out);
    return Emitted(l.(rows := done), out, None);
  }

  /** The layer loop of one field, then the log line that reads its first layer. */
  method ExportFieldLoop(f: BeamField, o: Options) returns (r: Emitted<BeamField, SpotLine>)
    ensures r == ExportField(f, o)
  {
    ghost var step := ExportLayerStep(o);
    var done: seq<RowLayer> := [];
    var out: seq<SpotLine> := [];
    var i := 0;
    EmitStart(f.layers, step);
    while i < |f.layers|
      invariant 0 <= i <= |f.layers| && |done| == i
      invariant EmitFrom(f.layers, 0, step) ==
        Emitted(done + EmitFrom(f.layers, i, step).value, out + EmitFrom(f.layers, i, step).out, EmitFrom(f.layers, i, step).err)
    {
      var h := ExportLayerLoop(f.layers[i], o);
      assert h == step(i, f.layers[i]);
      EmitAdvance(f.layers, step, done, out, i);
      if h.err.Some? {
        return Emitted(f.(layers := done + [h.value] + f.layers[i + 1..]), out + h.out, h.err);
      }
      done := done + [h.value];
      out := out + h.out;
      i := i + 1;
    }
    EmitEnd(f.layers, step, done, out);
    if |f.layers| == 0 {
      return Emitted(f, [], Some(NoLayers));
    }
    return Emitted(f.(layers := done), out, None);
  }

  /** The body of the field loop for field i: skipped unless selected, else exported and its file written. */
  method ExportFieldAt(f: BeamField, i: nat, name: string, cols: int, fieldNr: int, o: Options)
    returns (e: Emitted<BeamField, OutputFile>)
    ensures e == ExportFieldStep(name, cols, fieldNr, o)(i, f)
  {
    var j := i + 1;
    if !Selected(fieldNr, j) {
      return Emitted(f, [], None);
    }
    var fout := if fieldNr == 0 then NumberedName(name, j) else name;
    var x := ExportFieldLoop(f, o);
    if x.err.Some? {
      return Emitted(x.value, [], x.err);
    }
    return Emitted(x.value, [OutputFile(fout, cols, x.out)], None);
  }

  /** `Plan.export` on the plan's fields: the column check, then the field loop. */
  method ExportLoop(fs: seq<BeamField>, name: string, cols: int, fieldNr: int, o: Options) returns (r: ExportResult)
    ensures r == Export(fs, name, cols, fieldNr, o)
  {
    if cols != 5 && cols != 6 && cols != 7 {
      return ExportResult(fs, [], Some(ColumnCount));
    }
    ghost var step := ExportFieldStep(name, cols, fieldNr, o);
    var done: seq<BeamField> := [];
    var files: seq<OutputFile> := [];
    var i := 0;
    EmitStart(fs, step);
    while i < |fs|
      invariant 0 <= i <= |fs| && |done| == i
      invariant EmitFrom(fs, 0, step) ==
        Emitted(done + EmitFrom(fs, i, step).value, files + EmitFrom(fs, i, step).out, EmitFrom(fs, i, step).err)
    {
      EmitAdvance(fs, step, done, files, i);
      var e := ExportFieldAt(fs[i], i, name, cols, fieldNr, o);
      if e.err.Some? {
        return ExportResult(done + [e.value] + fs[i + 1..], files + e.out, e.err);
      }
      done := done + [e.value];
      files := files + e.out;
      i := i + 1;
    }
    EmitEnd(fs, step, done, files);
    return ExportResult(done, files, None);
  }
}
