/**
 * Loading a plan file: the reader is chosen by the lower-cased suffix of the file name, the
 * plan read is converted from MU to particles, and the flip options are recorded. The file's
 * contents are given as a value: the text of a PLD file and the data set of a DICOM file
 * (None when pydicom is not installed).
 */
module Loader {
  import opened Common
  import opened Text
  import opened Particles
  import opened PldReader
  import opened DicomReader
  import opened Plans

  datatype Request = Request(name: string, model: Option<BeamModel>, scaling: real,
                             flipXY: bool, flipX: bool, flipY: bool)

  /** What reading the file would give each reader. */
  datatype Disk = Disk(text: string, dataset: Option<Dataset>)

  /** `load_RASTER_GSI`, which reads nothing: a default plan with the scaling. */
  function LoadRaster(scaling: real): PlanData
  {
    NewPlan.(scaling := scaling)
  }

  /** The file name's suffix, lower-cased, as the dispatcher compares it. */
  function Extension(name: string): string
  {
    Lower(Suffix(name))
  }

  /** The reader the suffix selects; `corrected` chooses the DICOM reader with the particle column. */
  function Read(req: Request, disk: Disk, ps: Parsers, corrected: bool): (r: Result<PlanData>)
    ensures Extension(req.name) !in [".pld", ".dcm", ".rst"] ==> r == Failure(UnknownSuffix)
    ensures Extension(req.name) == ".rst" ==> r == Success(NewPlan.(scaling := req.scaling))
    ensures Extension(req.name) == ".dcm" && disk.dataset.None? ==> r == Success(NewPlan)
  {
    var ext := Extension(req.name);
    if ext == ".pld" then LoadPld(disk.text, req.scaling, ps)
    else if ext == ".dcm" then LoadDicom(disk.dataset, req.scaling, corrected)
    else if ext == ".rst" then Success(LoadRaster(req.scaling))
    else Failure(UnknownSuffix)
  }

  /** `apply_beammodel` on the plan read, then the flips, which it sets afterwards. */
  function Finish(p: PlanData, req: Request, fit: StoppingPowerFit): Result<PlanData>
  {
    var a := ApplyModel(p.fields, req.model, p.factor, fit);
    if a.err.Some? then Failure(a.err.value)
    else Success(p.(fields := a.value, flipXY := req.flipXY, flipX := req.flipX, flipY := req.flipY))
  }

  function LoadWith(req: Request, disk: Disk, ps: Parsers, fit: StoppingPowerFit, corrected: bool): (r: Result<PlanData>)
    ensures Extension(req.name) !in [".pld", ".dcm", ".rst"] ==> r == Failure(UnknownSuffix)
    ensures Read(req, disk, ps, corrected).Failure? ==> r == Failure(Read(req, disk, ps, corrected).error)
    ensures r.Success? ==>
      Read(req, disk, ps, corrected).Success? && |r.value.fields| == |Read(req, disk, ps, corrected).value.fields|
      && r.value.header == Read(req, disk, ps, corrected).value.header
      && r.value.flipXY == req.flipXY && r.value.flipX == req.flipX && r.value.flipY == req.flipY
  {
    var p :- Read(req, disk, ps, corrected);
    Finish(p, req, fit)
  }

  /** `load` with the DICOM reader as written: its spot tables have no particle column. */
  function LoadAsWritten(req: Request, disk: Disk, ps: Parsers, fit: StoppingPowerFit): (r: Result<PlanData>)
    ensures Extension(req.name) !in [".pld", ".dcm", ".rst"] ==> r == Failure(UnknownSuffix)
    ensures Read(req, disk, ps, false).Failure? ==> r == Failure(Read(req, disk, ps, false).error)
    ensures r.Success? ==>
      Read(req, disk, ps, false).Success? && |r.value.fields| == |Read(req, disk, ps, false).value.fields|
      && r.value.header == Read(req, disk, ps, false).value.header
      && r.value.flipXY == req.flipXY && r.value.flipX == req.flipX && r.value.flipY == req.flipY
  {
    LoadWith(req, disk, ps, fit, false)
  }

  /** `load` with the corrected DICOM reader. */
  function Load(req: Request, disk: Disk, ps: Parsers, fit: StoppingPowerFit): (r: Result<PlanData>)
    ensures Extension(req.name) !in [".pld", ".dcm", ".rst"] ==> r == Failure(UnknownSuffix)
    ensures Read(req, disk, ps, true).Failure? ==> r == Failure(Read(req, disk, ps, true).error)
    ensures r.Success? ==>
      Read(req, disk, ps, true).Success? && |r.value.fields| == |Read(req, disk, ps, true).value.fields|
      && r.value.header == Read(req, disk, ps, true).value.header
      && r.value.flipXY == req.flipXY && r.value.flipX == req.flipX && r.value.flipY == req.flipY
  {
    LoadWith(req, disk, ps, fit, true)
  }

  // ---------------------------------------------------------------------------------------
  // Properties

  /**
   * A file loads exactly when its reader succeeds and every layer read converts; an exception
   * of the reader is the exception of the load.
   */
  lemma LoadSucceeds(req: Request, disk: Disk, ps: Parsers, fit: StoppingPowerFit, corrected: bool)
    ensures LoadWith(req, disk, ps, fit, corrected).Success? <==>
      Read(req, disk, ps, corrected).Success? && Convertible(Read(req, disk, ps, corrected).value.fields, req.model)
    ensures Read(req, disk, ps, corrected).Failure? ==>
      LoadWith(req, disk, ps, fit, corrected) == Failure(Read(req, disk, ps, corrected).error)
  {
    var r := Read(req, disk, ps, corrected);
    if r.Success? {
      ApplyModelMeaning(r.value.fields, req.model, r.value.factor, fit);
    }
  }

  /**
   * The plan loaded is the plan read with each field converted and totalled and the requested
   * flips; the header, factor, scaling and number of fields are the reader's.
   */
  lemma LoadMeaning(req: Request, disk: Disk, ps: Parsers, fit: StoppingPowerFit, corrected: bool)
    requires LoadWith(req, disk, ps, fit, corrected).Success?
    ensures Read(req, disk, ps, corrected).Success?
    ensures var p, q := LoadWith(req, disk, ps, fit, corrected).value, Read(req, disk, ps, corrected).value;
      p.header == q.header && p.factor == q.factor && p.scaling == q.scaling && p.nFields == q.nFields
      && p.flipXY == req.flipXY && p.flipX == req.flipX && p.flipY == req.flipY
      && |p.fields| == |q.fields|
      && forall j :: 0 <= j < |q.fields| ==>
           p.fields[j] == FieldTotals(ConvertField(q.fields[j], req.model, q.factor, fit).value).value
  {
    var r := Read(req, disk, ps, corrected);
    ApplyModelMeaning(r.value.fields, req.model, r.value.factor, fit);
  }

  /** Only the suffixes .pld, .dcm and .rst, in any case, have a reader. */
  lemma UnknownSuffixRaises(req: Request, disk: Disk, ps: Parsers, fit: StoppingPowerFit)
    requires Extension(req.name) !in [".pld", ".dcm", ".rst"]
    ensures Load(req, disk, ps, fit) == Failure(UnknownSuffix)
  {
  }

  /**
   * An illustration: the suffix is compared after lower-casing, so `plan.PLD` is read as a PLD
   * file. Text.Lower and Read state the general case.
   */
  lemma SuffixCaseIgnored(req: Request)
    requires Suffix(req.name) == ".PLD"
    ensures Extension(req.name) == ".pld"
  {
    assert Lower(".PLD") == ".pld";
  }

  /** A raster file always loads, to a plan without fields that keeps the scaling. */
  lemma RasterLoadsEmpty(req: Request, disk: Disk, ps: Parsers, fit: StoppingPowerFit)
    requires Extension(req.name) == ".rst"
    ensures Load(req, disk, ps, fit).Success?
    ensures var p := Load(req, disk, ps, fit).value;
      p.fields == [] && p.nFields == 0 && p.scaling == req.scaling && p.flipX == req.flipX
  {
    ApplyModelMeaning([], req.model, NewPlan.factor, fit);
  }

  /** Without pydicom a DICOM file loads to a default plan: no fields and scaling 1.0, whatever scaling was asked for. */
  lemma DicomWithoutPydicom(req: Request, disk: Disk, ps: Parsers, fit: StoppingPowerFit)
    requires Extension(req.name) == ".dcm" && disk.dataset.None?
    ensures Load(req, disk, ps, fit).Success?
    ensures var p := Load(req, disk, ps, fit).value; p.fields == [] && p.scaling == 1.0
  {
    ApplyModelMeaning([], req.model, NewPlan.factor, fit);
  }

  /**
   * As written, a DICOM plan that holds a layer cannot load: its spot tables have three
   * columns and the particle conversion reads a fourth.
   */
  lemma DicomAsWrittenFails(req: Request, disk: Disk, ps: Parsers, fit: StoppingPowerFit, j: nat)
    requires Extension(req.name) == ".dcm"
    requires var r := LoadDicom(disk.dataset, req.scaling, false);
      r.Success? && j < |r.value.fields| && |r.value.fields[j].layers| > 0
    ensures LoadAsWritten(req, disk, ps, fit).Failure?
  {
    var q := LoadDicom(disk.dataset, req.scaling, false).value;
    DicomLayersGood(disk.dataset, req.scaling, false);
    assert !LayerConvertible(q.fields[j].layers[0], req.model);
    LoadSucceeds(req, disk, ps, fit, false);
  }

  /**
   * Corrected, a DICOM plan that is read loads exactly when there is a beam model or every
   * layer's energy lies in the stopping-power domain; its layers' spots are never empty.
   */
  lemma DicomLoads(req: Request, disk: Disk, ps: Parsers, fit: StoppingPowerFit)
    requires Extension(req.name) == ".dcm" && LoadDicom(disk.dataset, req.scaling, true).Success?
    ensures var fs := LoadDicom(disk.dataset, req.scaling, true).value.fields;
      Load(req, disk, ps, fit).Success? <==>
        req.model.Some? || forall j, k :: 0 <= j < |fs| && 0 <= k < |fs[j].layers| ==>
                             EnergyMin <= fs[j].layers[k].energyMeasured <= EnergyMax
  {
    DicomLayersGood(disk.dataset, req.scaling, true);
    LoadSucceeds(req, disk, ps, fit, true);
  }

  /** A PLD file loads exactly when it is read and each layer kept a spot and, without a beam model, has an energy in the stopping-power domain. */
  lemma PldLoads(req: Request, disk: Disk, ps: Parsers, fit: StoppingPowerFit)
    requires Extension(req.name) == ".pld"
    ensures Load(req, disk, ps, fit).Success? <==>
      LoadPld(disk.text, req.scaling, ps).Success?
      && var fs := LoadPld(disk.text, req.scaling, ps).value.fields;
         |fs| == 1 && forall k :: 0 <= k < |fs[0].layers| ==>
           |fs[0].layers[k].rows| > 0 && (req.model.Some? || EnergyMin <= fs[0].layers[k].energyMeasured <= EnergyMax)
  {
    var r := LoadPld(disk.text, req.scaling, ps);
    assert Read(req, disk, ps, true) == r;
    LoadSucceeds(req, disk, ps, fit, true);
    if r.Success? {
      LoadPldConvertible(disk.text, req.scaling, ps, req.model);
    }
  }

  // ---------------------------------------------------------------------------------------
  // The plan object

  /**
   * The dispatch on the suffix, with the loops of the PLD and the DICOM reader; `corrected`
   * chooses the DICOM reader with the particle column.
   */
  method ReadFile(req: Request, disk: Disk, ps: Parsers, corrected: bool) returns (r: Result<PlanData>)
    ensures r == Read(req, disk, ps, corrected)
  {
    var ext := Extension(req.name);
    if ext == ".pld" {
      r := ReadPld(disk.text, req.scaling, ps);
    } else if ext == ".dcm" {
      r := ReadDicom(disk.dataset, req.scaling, corrected);
    } else if ext == ".rst" {
      r := Success(LoadRaster(req.scaling));
    } else {
      r := Failure(UnknownSuffix);
    }
  }

  /**
   * `load`: read the file by its suffix, convert the plan object in place and set its flips; an
   * exception leaves no plan. With `corrected` false this is `load` as written (LoadAsWritten),
   * with `corrected` true the load with the corrected DICOM reader (Load).
   */
  method LoadPlan(req: Request, disk: Disk, ps: Parsers, fit: StoppingPowerFit, corrected: bool)
    returns (p: BeamPlan?, err: Option<Error>)
    ensures err.None? <==> LoadWith(req, disk, ps, fit, corrected).Success?
    ensures err.Some? ==> p == null && err.value == LoadWith(req, disk, ps, fit, corrected).error
    ensures err.None? ==> p != null && fresh(p) && p.Data() == LoadWith(req, disk, ps, fit, corrected).value
  {
    var r := ReadFile(req, disk, ps, corrected);
    if r.Failure? {
      return null, Some(r.error);
    }
    p := new BeamPlan(r.value);
    err := p.ApplyBeamModel(req.model, fit);
    if err.Some? {
      return null, err;
    }
    p.flipXY, p.flipX, p.flipY := req.flipXY, req.flipX, req.flipY;
  }
}
