/**
 * `DicomUtil.modify` (dicomfix/dicomutil.py 74-126) as a function on plan values: the options
 * select the edits, the edits run in the fixed order of `modify`, and the first exception ends
 * the run with the plan as that edit left it.
 */
module Modification {
  import opened Common
  import opened IonPlan
  import opened Rescale
  import opened RescaleModes
  import opened FieldOps
  import opened Repaint

  /**
   * The options `modify` reads. Python's falsy values stand for an option not given: false, 0,
   * 0.0, the empty string and the empty list. The clock reading of `set_current_date` is given
   * as its two strings.
   */
  datatype ModifyOptions = ModifyOptions(
    approve: bool,
    date: bool,
    clockDate: string,
    clockTime: string,
    intentCurative: bool,
    rescale: RescaleOptions,
    duplicateFields: int,
    gantryAngles: seq<real>,
    tablePosition: seq<real>,
    snoutPosition: real,
    treatmentMachine: string,
    planLabel: string,
    patientName: string,
    reviewerName: string,
    wizardTr4: bool,
    rangeShifter: string,
    repainting: int)

  /** One edit `modify` can run, with its argument. */
  datatype Step =
    | Approval
    | DateStamp(date: string, time: string)
    | CurativeIntent
    | Rescaling(options: RescaleOptions)
    | Duplication(copies: int)
    | Gantry(angles: seq<real>)
    | Table(triple: seq<real>)
    | Snout(position: real)
    | Machine(machine: string)
    | Label(text: string)
    | Patient(patient: string)
    | Reviewer(reviewer: string)
    | WizardTr4
    | Shifter(id: string)
    | Repainting(times: int)

  /** The plan after a run of edits, the spots they discarded, and the exception that ended it. */
  datatype Modified = Modified(plan: Plan, discarded: nat, err: Option<Error>)

  /** The guard of the rescale branch of `modify`: any of the four rescale options given. */
  predicate RescaleRequested(o: RescaleOptions)
  {
    o.minimize || o.dose != 0.0 || o.factor != 0.0 || |o.layerFactors| > 0
  }

  /** The number of guarded calls in `modify` (fix_raystation and print_spots are not modelled). */
  const StageCount: nat := 15

  /** The k-th guarded call of `modify`, when its option is given. */
  function Stage(o: ModifyOptions, k: nat): Option<Step>
  {
    if k == 0 then (if o.approve then Some(Approval) else None)
    else if k == 1 then (if o.date then Some(DateStamp(o.clockDate, o.clockTime)) else None)
    else if k == 2 then (if o.intentCurative then Some(CurativeIntent) else None)
    else if k == 3 then (if RescaleRequested(o.rescale) then Some(Rescaling(o.rescale)) else None)
    else if k == 4 then (if o.duplicateFields != 0 then Some(Duplication(o.duplicateFields)) else None)
    else if k == 5 then (if |o.gantryAngles| > 0 then Some(Gantry(o.gantryAngles)) else None)
    else if k == 6 then (if |o.tablePosition| > 0 then Some(Table(o.tablePosition)) else None)
    else if k == 7 then (if o.snoutPosition != 0.0 then Some(Snout(o.snoutPosition)) else None)
    else if k == 8 then (if |o.treatmentMachine| > 0 then Some(Machine(o.treatmentMachine)) else None)
    else if k == 9 then (if |o.planLabel| > 0 then Some(Label(o.planLabel)) else None)
    else if k == 10 then (if |o.patientName| > 0 then Some(Patient(o.patientName)) else None)
    else if k == 11 then (if |o.reviewerName| > 0 then Some(Reviewer(o.reviewerName)) else None)
    else if k == 12 then (if o.wizardTr4 then Some(WizardTr4) else None)
    else if k == 13 then (if |o.rangeShifter| > 0 then Some(Shifter(o.rangeShifter)) else None)
    else if k == 14 then (if o.repainting != 0 then Some(Repainting(o.repainting)) else None)
    else None
  }

  /** The edits the options select from stage k on, in the order `modify` runs them. */
  function StepsFrom(o: ModifyOptions, k: nat): seq<Step>
    decreases StageCount - k
  {
    if k >= StageCount then []
    else (if Stage(o, k).Some? then [Stage(o, k).value] else []) + StepsFrom(o, k + 1)
  }

  function Requested(o: ModifyOptions): seq<Step>
  {
    StepsFrom(o, 0)
  }

  /** One edit on the plan, as the method `modify` calls for it does it. */
  function ApplyStep(p: Plan, s: Step): (r: Modified)
    ensures !s.Rescaling? && !s.Repainting? ==> r.discarded == 0
    ensures s.Approval? || s.DateStamp? || s.CurativeIntent? || s.Label? || s.Patient? || s.Reviewer? ==>
      r.err.None? && r.plan.beams == p.beams && r.plan.refBeams == p.refBeams && r.plan.header.patientId == p.header.patientId
    ensures s.Gantry? || s.Table? || s.Snout? || s.Machine? || s.WizardTr4? || s.Shifter? ==> |r.plan.beams| == |p.beams|
  {
    match s
    case Approval => Modified(Approve(p), 0, None)
    case DateStamp(date, time) => Modified(Stamp(p, date, time), 0, None)
    case CurativeIntent => Modified(SetAttr(p, PlanIntent, "CURATIVE"), 0, None)
    case Rescaling(ro) => var r := RescalePlan(p, ro); Modified(r.plan, r.discarded, r.err)
    case Duplication(n) => var e := Duplicate(p, n); Modified(e.plan, 0, e.err)
    case Gantry(angles) => var e := SetGantryAngles(p, angles); Modified(e.plan, 0, e.err)
    case Table(t) => var e := SetTablePosition(p, t); Modified(e.plan, 0, e.err)
    case Snout(position) => var e := SetSnoutPosition(p, position); Modified(e.plan, 0, e.err)
    case Machine(name) => var e := SetTreatmentMachine(p, name); Modified(e.plan, 0, e.err)
    case Label(text) => Modified(SetAttr(p, PlanLabel, text), 0, None)
    case Patient(name) => Modified(SetAttr(p, PatientName, name), 0, None)
    case Reviewer(name) => Modified(SetAttr(p, ReviewerName, name), 0, None)
    case WizardTr4 => var e := SetWizardTr4(p); Modified(e.plan, 0, e.err)
    case Shifter(id) =>
      (match SetRangeShifter(p, Some(id), false)
       case Success(q) => Modified(q, 0, None)
       case Failure(e) => Modified(p, 0, Some(e)))
    case Repainting(n) => var r := SetRepainting(p, n); Modified(r.plan, r.discarded, r.err)
  }

  /** Every edit that raised nothing leaves every field with its first control point. */
  lemma StepKeepsFirstControlPoints(p: Plan, s: Step)
    requires FirstControlPoints(p) && ApplyStep(p, s).err.None?
    ensures FirstControlPoints(ApplyStep(p, s).plan)
  {
    match s
    case Rescaling(ro) => RescalePlanShape(p, ro);
    case Duplication(n) => DuplicateKeepsFirstControlPoints(p, n);
    case Gantry(angles) => GantryAnglesReadBack(p, angles);
    case Table(t) => TablePositionReadBack(p, t);
    case Snout(position) => SnoutPositionReadBack(p, position);
    case WizardTr4 =>
    case Shifter(id) => RangeShifterInstalled(p, id, false);
    case Repainting(n) => SetRepaintingShape(p, n);
    case _ =>
  }

  /** The edits in order; the first exception ends the run. */
  function RunSteps(p: Plan, steps: seq<Step>): (r: Modified)
    decreases |steps|, 1
  {
    if |steps| == 0 then Modified(p, 0, None) else RunFirst(p, steps)
  }

  /** The first edit of a non-empty list, then the rest unless it raised. */
  function RunFirst(p: Plan, steps: seq<Step>): (r: Modified)
    requires |steps| > 0
    decreases |steps|, 0
  {
    var m := ApplyStep(p, steps[0]);
    if m.err.Some? then m
    else
      var rest := RunSteps(m.plan, steps[1..]);
      rest.(discarded := m.discarded + rest.discarded)
  }

  /** `modify(config)` */
  function ModifyPlan(p: Plan, o: ModifyOptions): (r: Modified)
    ensures FirstControlPoints(p) && r.err.None? ==> FirstControlPoints(r.plan)
    ensures Requested(o) == [] ==> r == Modified(p, 0, None)
  {
    RunStepsAppend(p, Requested(o), []);
    RunSteps(p, Requested(o))
  }

  // ---------------------------------------------------------------------------------------------
  // Properties
  // ---------------------------------------------------------------------------------------------

  /** No option given: nothing changes and nothing is raised. */
  lemma {:induction false} NothingRequested(p: Plan, o: ModifyOptions)
    requires forall k :: 0 <= k < StageCount ==> Stage(o, k).None?
    ensures Requested(o) == []
    ensures ModifyPlan(p, o) == Modified(p, 0, None)
  {
    NoStagesNoSteps(o, 0);
  }

  lemma {:induction false} NoStagesNoSteps(o: ModifyOptions, k: nat)
    requires forall i :: k <= i < StageCount ==> Stage(o, i).None?
    ensures StepsFrom(o, k) == []
    decreases StageCount - k
  {
    if k < StageCount {
      NoStagesNoSteps(o, k + 1);
    }
  }

  /**
   * Running two lists of edits one after the other is running them joined: an exception in the
   * first ends the run there, otherwise the second starts from the plan the first left.
   */
  lemma {:induction false} RunStepsAppend(p: Plan, a: seq<Step>, b: seq<Step>)
    ensures var r := RunSteps(p, a);
      FirstControlPoints(p) && r.err.None? ==> FirstControlPoints(r.plan)
    ensures var r := RunSteps(p, a);
      RunSteps(p, a + b) == if r.err.Some? then r
                            else var s := RunSteps(r.plan, b); s.(discarded := r.discarded + s.discarded)
    decreases |a|
  {
    if |a| == 0 {
      assert a + b == b;
    } else {
      var m := ApplyStep(p, a[0]);
      assert (a + b)[0] == a[0] && (a + b)[1..] == a[1..] + b;
      if m.err.None? {
        if FirstControlPoints(p) {
          StepKeepsFirstControlPoints(p, a[0]);
        }
        RunStepsAppend(m.plan, a[1..], b);
      }
    }
  }

  /** The run of the stages from k on, after the stage k itself. */
  lemma StageStep(p: Plan, o: ModifyOptions, k: nat)
    requires k < StageCount
    ensures Stage(o, k).None? ==> RunSteps(p, StepsFrom(o, k)) == RunSteps(p, StepsFrom(o, k + 1))
    ensures Stage(o, k).Some? && ApplyStep(p, Stage(o, k).value).err.Some? ==>
      RunSteps(p, StepsFrom(o, k)) == ApplyStep(p, Stage(o, k).value)
    ensures FirstControlPoints(p) && Stage(o, k).Some? && ApplyStep(p, Stage(o, k).value).err.None? ==>
      FirstControlPoints(ApplyStep(p, Stage(o, k).value).plan)
    ensures Stage(o, k).Some? && ApplyStep(p, Stage(o, k).value).err.None? ==>
      var m := ApplyStep(p, Stage(o, k).value);
      var s := RunSteps(m.plan, StepsFrom(o, k + 1));
      RunSteps(p, StepsFrom(o, k)) == s.(discarded := m.discarded + s.discarded)
  {
    var head := if Stage(o, k).Some? then [Stage(o, k).value] else [];
    RunStepsAppend(p, head, StepsFrom(o, k + 1));
    if Stage(o, k).Some? {
      var m := ApplyStep(p, Stage(o, k).value);
      if m.err.None? {
        if FirstControlPoints(p) {
          StepKeepsFirstControlPoints(p, Stage(o, k).value);
        }
        assert head[1..] == [];
      }
    }
  }

  /** A single edit run on its own. */
  lemma RunOne(p: Plan, s: Step)
    ensures RunSteps(p, [s]) == ApplyStep(p, s)
  {
    var m := ApplyStep(p, s);
    assert RunSteps(p, [s]) == RunFirst(p, [s]);
    if m.err.None? {
      assert [s][1..] == [];
      assert RunSteps(m.plan, []) == Modified(m.plan, 0, None);
    }
  }

  /** The edits run in the order of `modify`: rescaling comes before duplication of the fields. */
  lemma RescaleBeforeDuplicate(o: ModifyOptions)
    requires RescaleRequested(o.rescale) && o.duplicateFields != 0
    ensures var steps := Requested(o);
      exists i, k :: 0 <= i < k < |steps| && steps[i] == Rescaling(o.rescale) && steps[k] == Duplication(o.duplicateFields)
  {
    var s4 := StepsFrom(o, 4);
    assert s4 == [Duplication(o.duplicateFields)] + StepsFrom(o, 5);
    var s3 := StepsFrom(o, 3);
    assert s3 == [Rescaling(o.rescale)] + s4;
    var s0 := Requested(o);
    var before := |s0| - |s3|;
    StepsFromSuffix(o, 0, 3);
    assert s0[before] == Rescaling(o.rescale) && s0[before + 1] == Duplication(o.duplicateFields);
  }

  /** The edits from a later stage are a suffix of the edits from an earlier one. */
  lemma {:induction false} StepsFromSuffix(o: ModifyOptions, k: nat, m: nat)
    requires k <= m
    ensures |StepsFrom(o, m)| <= |StepsFrom(o, k)|
    ensures StepsFrom(o, k)[|StepsFrom(o, k)| - |StepsFrom(o, m)|..] == StepsFrom(o, m)
    decreases m - k
  {
    if k < m && k < StageCount {
      StepsFromSuffix(o, k + 1, m);
    }
  }

  /**
   * Rescale and duplication together, and nothing else: every copy of field j carries field j's
   * rescaled meterset and dose, so the plan as a whole delivers n times the rescaled fields.
   */
  lemma RescaledThenDuplicated(p: Plan, o: ModifyOptions, j: nat, k: nat)
    requires Requested(o) == [Rescaling(o.rescale), Duplication(o.duplicateFields)]
    requires ModifyPlan(p, o).err.None?
    requires o.duplicateFields > 0 && j < |p.beams| && k < o.duplicateFields
    ensures var q := RescalePlan(p, o.rescale).plan;
      var n := o.duplicateFields;
      var r := ModifyPlan(p, o).plan;
      && RescalePlan(p, o.rescale).err.None? && Paired(q)
      && j * n + k < |r.refBeams| && j * n + k < |r.beams|
      && r.refBeams[j * n + k].dose == q.refBeams[j].dose
      && r.refBeams[j * n + k].meterset == q.refBeams[j].meterset
      && r.beams[j * n + k].cps == q.beams[j].cps
  {
    var n := o.duplicateFields;
    var rs := RescalePlan(p, o.rescale);
    RunStepsAppend(p, [Rescaling(o.rescale)], [Duplication(n)]);
    assert [Rescaling(o.rescale)] + [Duplication(n)] == Requested(o);
    RunOne(p, Rescaling(o.rescale));
    assert rs.err.None?;
    var q := rs.plan;
    RescalePlanShape(p, o.rescale);
    RunOne(q, Duplication(n));
    var d := Duplicate(q, n);
    assert ModifyPlan(p, o).plan == d.plan && d.err.None?;
    DuplicateSucceedsWhenPaired(q, n);
    DuplicateLayout(q, n, j, k);
  }

  /** Rescale exactly by a factor, and nothing else requested: `modify` is `apply_rescale_factor`. */
  lemma FactorOnly(p: Plan, o: ModifyOptions)
    requires Requested(o) == [Rescaling(o.rescale)]
    requires !o.rescale.minimize && o.rescale.dose == 0.0 && o.rescale.factor != 0.0
    ensures var r := ApplyRescale(p, o.rescale.factor, o.rescale.layerFactors);
      ModifyPlan(p, o) == Modified(r.plan, r.discarded, r.err)
  {
    RunOne(p, Rescaling(o.rescale));
  }
}
