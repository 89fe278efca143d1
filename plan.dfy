/**
 * The plan object: its header, its fields and its attributes, which the particle accounting
 * and the spot-list export update in place.
 */
module Plans {
  import opened Common
  import opened Particles
  import opened SpotExport

  class BeamPlan {
    var header: PlanHeader
    var fields: seq<BeamField>
    var nFields: int
    var factor: real
    var scaling: real
    var flipXY: bool
    var flipX: bool
    var flipY: bool

    /** Everything the plan holds, as a value. */
    function Data(): PlanData
      reads this
    {
      PlanData(header, fields, nFields, factor, scaling, flipXY, flipX, flipY)
    }

    constructor (d: PlanData)
      ensures Data() == d
    {
      header, fields, nFields := d.header, d.fields, d.nFields;
      factor, scaling := d.factor, d.scaling;
      flipXY, flipX, flipY := d.flipXY, d.flipX, d.flipY;
    }

    /**
     * `Plan.apply_beammodel`: convert every layer of every field, then total every field. The
     * beam model is an argument here; the factor is the plan's own.
     */
    method ApplyBeamModel(model: Option<BeamModel>, fit: StoppingPowerFit) returns (err: Option<Error>)
      modifies this
      ensures Data() == old(Data()).(fields := ApplyModel(old(fields), model, old(factor), fit).value)
      ensures err == ApplyModel(old(fields), model, old(factor), fit).err
    {
      var c := ConvertFieldsLoop(fields, model, factor, fit);
      if c.err.Some? {
        fields := c.value;
        return c.err;
      }
      var t := TotalFieldsLoop(c.value);
      fields := t.value;
      return t.err;
    }

    /**
     * `Plan.export`: write the selected fields as spot lists. The flips are applied to the
     * plan's own spot tables, so the plan changes; the parent directory of the name is not
     * modelled.
     */
    method Export(name: string, cols: int, fieldNr: int, nominal: bool) returns (files: seq<OutputFile>, err: Option<Error>)
      modifies this
      ensures var r := SpotExport.Export(old(fields), name, cols, fieldNr, Options(old(flipXY), old(flipX), old(flipY), nominal));
        Data() == old(Data()).(fields := r.fields) && files == r.files && err == r.err
    {
      var r := ExportLoop(fields, name, cols, fieldNr, Options(flipXY, flipX, flipY, nominal));
      fields := r.fields;
      return r.files, r.err;
    }
  }
}
