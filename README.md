# dicomfix in Dafny

A model of the core of dicomfix, a tool that edits DICOM RT Ion plans for proton pencil-beam scanning and converts treatment plans into spot lists for Monte Carlo codes. A plan has fields (ion beams). Each field has control points in pairs, one pair per energy layer. Each control point carries spot positions and spot meterset weights, a cumulative meterset weight and a cumulative dose-reference coefficient. Each field also has a final cumulative meterset weight and, in the fraction group, a beam dose and a beam meterset in MU.

What is modelled:

- **The rescale engine (`DicomUtil`, `dicomfix/dicomutil.py`).** It is a class that holds the plan and the `spots_discarded` counter. Its methods are proved equal to functions on plan values, and lemmas state what those functions promise:
  - `apply_rescale_factor`: prefix-before cumulative weights, per-layer factors, the `MU_MIN = 1.0` admission rule, the dose-reference coefficients and the field totals;
  - `minimize_plan`, `rescale_dose` and the mode selection of `rescale_plan`;
  - `duplicate_fields`, the gantry, table and snout setters, `set_range_shifter`, `set_repainting` and `set_wizard_tr4`;
  - the fixed order of the edits in `modify`.
- **The older copy-then-edit variant (`DicomFix`, `dicomfix/dicom_handler.py`):**
  - the edits of `copy`, all made on the copy;
  - `rescale`, with its CSV weights indexed per control-point pair and its per-field discard counter;
  - `get_rescale_for_spot_minimization`.
- **Particle accounting (`dicomfix/plan.py`):**
  - the domain guard of `dedx_air`;
  - `Plan.apply_beammodel`, with the layer and field totals and extents;
  - `Plan.export`: the column check, the field selection and file names, the unit conversions and the in-place flips.
- **The plan loaders (`dicomfix/export.py`):**
  - the suffix dispatch of `load`;
  - the IBA PLD token reader;
  - the Varian DICOM reader with its filter on positive layer MU.
- **Layers (`dicomfix/layer.py`):** the defaults, and the spot count and extents.
- **Option parsing (`dicomfix/config.py`):** the angle, position and snout parsers, and how `Config` routes options through them.

Python exceptions are values here: each operation returns the exception it raises, together with the state reached when it is raised, because the source mutates in place. The source does some things the model takes as given:

- the file text and the DICOM data set are arguments;
- `float()`, `int()`, the stopping-power fit, `get_fwhm` and the beam-model interpolants are function parameters;
- the clock is a date and time argument;
- numbers are exact reals.

The plan loaders and `apply_beammodel` use an older layout of a layer than `dicomfix/layer.py` defines: a numpy table of rows `[x, y, mu, particles]` and a spot-size pair. The model follows that code, and not the `Layer` class, for those files. With the `Layer` class that `dicomfix/layer.py` does define, that code raises before it gets anywhere: see the first lines under "## Left out".

## Model

| member | source | states |
|---|---|---|
| Config.ParseAll | dicomfix/config.py:54 | every comma-separated piece is parsed in order; the list parses exactly when every piece is a number, then holds one value per piece, the scale times that number; otherwise `float()` raises (NotANumber) |
| Config.ParseList | dicomfix/config.py:53-55 | a missing or empty text gives None; the only exception is the ValueError of `float()`; a list read holds one value per comma-separated piece, the scale times its number |
| Config.ParseAngles | dicomfix/config.py:53-55 | a missing or empty angle list gives None; the only exception is ValueError; a list read has one angle per comma-separated piece |
| Config.ParsePosition | dicomfix/config.py:68-70 | a missing or empty position gives None; the only exception is ValueError; a position read has one coordinate per piece, 10 times its number (cm to mm) |
| Config.ParseSnoutPosition | dicomfix/config.py:83-85 | the snout position is None exactly when it is missing or 0.0; otherwise it is the value times 10 (cm to mm), and not zero |
| Config.ParseAnglesMeaning | dicomfix/config.py:53-54 | a non-empty angle list parses exactly when every piece between the commas is a number; the tuple has one angle per piece, in order; otherwise ValueError |
| Config.ParsePositionInMillimetres | dicomfix/config.py:68-70 | the table position parses exactly when the same text parses as angles, and each coordinate is 10 times the corresponding value (cm to mm) |
| Config.ParseAnglesCount | dicomfix/config.py:54 | a list with n commas gives n + 1 values |
| Config.FromArgumentsRouting | dicomfix/config.py:29-35 | `__init__` succeeds exactly when the gantry angles and the table position parse; the three geometry options go through their parsers and the duplicate and rescale options are copied unchanged |
| Config.FromArguments | dicomfix/config.py:29-35 | `Config.__init__` raises only the ValueError of a list parser; otherwise the snout goes through its parser and the duplicate and rescale options are copied unchanged |
| Layers.NewSpot | dicomfix/spot.py:5-11 | a spot keeps its position and MU; its size defaults to 0.0 in x and y |
| Layers.NewLayer | dicomfix/layer.py:26-34 | a new layer holds the spots given, is marked empty, carries no MU, particles, repainting or conversion coefficient, and has 100 MeV nominal and measured energy with no spread |
| Layers.Xs | dicomfix/layer.py:55 | the x coordinates of the spots, one per spot, in order |
| Layers.Ys | dicomfix/layer.py:65 | the y coordinates of the spots, one per spot, in order |
| Layers.Min | dicomfix/layer.py:55 | `min` of a non-empty list is a lower bound of every entry and is one of the entries |
| Layers.Max | dicomfix/layer.py:60 | `max` of a non-empty list is an upper bound of every entry and is one of the entries |
| Layers.EmptyLayerExtents | dicomfix/layer.py:48-70 | a layer without spots has `n_spots` 0 and all four extents 0.0 |
| Layers.ExtentsBound | dicomfix/layer.py:52-70 | every spot of a layer lies inside [xmin, xmax] x [ymin, ymax] |
| Layers.ExtentsAttained | dicomfix/layer.py:52-70 | with spots, each of the four extents is the coordinate of some spot |
| Layers.ExtentsOrdered | dicomfix/layer.py:52-70 | xmin <= xmax and ymin <= ymax; a one-spot layer's extents are that spot's position |
| Layers.ExtentsOnlyPositions | dicomfix/layer.py:48-70 | the spot count and the extents depend only on the spot positions |
| IonPlan.AdmitAll | dicomfix/dicomutil.py:279-313 | the new weights of a control point: one per spot, each the spot's weight times the layer factor unless the admission rule rejects it |
| IonPlan.AdmitAllMeaning | dicomfix/dicomutil.py:297-313 | a spot is set to 0.0 from a positive candidate weight exactly when its MU at the new meterset per weight falls below MU_MIN; otherwise it keeps weight times factor |
| IonPlan.CountRejectedIsZeroed | dicomfix/dicomutil.py:297-312 | the number of spots the loop counts as discarded is the number of spots it zeroed |
| IonPlan.AdmissionMonotone | dicomfix/dicomutil.py:299 | lowering a positive candidate weight keeps a rejected spot rejected |
| IonPlan.NotPositiveIsZero | dicomfix/dicomutil.py:283 | a control point without positive and without negative weights is all zero |
| IonPlan.AdmitZeros | dicomfix/dicomutil.py:279-313 | all-zero weights stay all zero under any factor, and no spot of them is counted as discarded |
| IonPlan.WeightTotalSameWeights | dicomfix/dicomutil.py:317-318 | the cumulative meterset weight of a sequence of control points depends on their weights only |
| IonPlan.Reach | dicomfix/dicomutil.py:412-416 | how far a loop reading `IonControlPointSequence[0]` of every field gets: every field before it has a control point, and the field there, if any, has none |
| IonPlan.ReachFrom | dicomfix/dicomutil.py:412-416 | the same search started at field i: it goes no further back than i, passes only fields with control points and stops at one without |
| IonPlan.ReachAll | dicomfix/dicomutil.py:412-416 | the loop passes every field exactly when every field has a first control point |
| IonPlan.ReachIs | dicomfix/dicomutil.py:412-416 | a position before which every field has a control point and at which the field has none is where the loop stops |
| IonPlan.ReachSameShape | dicomfix/dicomutil.py:412-416 | plans with the same number of fields and of control points per field stop the loop at the same field |
| Rescale.StepShape | dicomfix/dicomutil.py:265-318 | a visit of one control point that raises nothing writes the running sum as its cumulative weight, replaces its weights by the admitted ones (at the factor of its real layer, or the factor left from the last one), adds them to the running sum, advances the real-layer index on a layer with a positive weight and adds the spots it rejected to the count |
| Rescale.Pass1Cursor | dicomfix/dicomutil.py:261-318 | after a first pass over n control points that raised nothing: the later control points are untouched, the real-layer index is the number of real layers seen, the running sum is the new weight of the rewritten ones and, with no negative weight, the discard count is the reference count |
| Rescale.Pass1 | dicomfix/dicomutil.py:265-318 | the first loop over the control points keeps their number |
| Rescale.Pass1Meaning | dicomfix/dicomutil.py:265-318 | every control point visited has as cumulative weight the new weight before it; a real energy layer has its weights scaled by the factor of its rank among the real layers (within the factor list) and admitted; an all-zero layer keeps its weights |
| Rescale.ZeroLayerKept | dicomfix/dicomutil.py:283-313 | a layer without positive and without negative weights is left as it is, whatever the factor, and discards nothing |
| Rescale.PassesMeaning | dicomfix/dicomutil.py:261-357 | the two passes over a field keep every attribute but the weights, cumulative weights, dose coefficients and final weight, which are bookkept from the new weights; the weights are rescaled layer by layer; the real-layer index ends at the number of real layers |
| Rescale.Pass2 | dicomfix/dicomutil.py:332-350 | the second loop over the control points keeps their number |
| Rescale.PassesTotal | dicomfix/dicomutil.py:318-357 | the final cumulative meterset weight written back is the sum of the rewritten weights |
| Rescale.PassesAt | dicomfix/dicomutil.py:265-350 | control point i after both passes: cumulative weight and dose coefficient from the new weights before it, weights rescaled as its layer requires |
| Rescale.WalkStep | dicomfix/dicomutil.py:265-318 | one step of the first loop keeps the number of control points |
| Rescale.Pass1Through | dicomfix/dicomutil.py:265-318 | the first loop run through control point i keeps the number of control points |
| Rescale.RescaleFieldMeaning | dicomfix/dicomutil.py:248-359 | a field rescale that raised nothing found the referenced beam, a non-zero final weight and, with layer factors, as many real layers as factors and half the control points; it changed that field and its referenced beam only, scaling dose and meterset by the factor and bookkeeping the field |
| Rescale.RescaleField | dicomfix/dicomutil.py:241-359 | a field rescale keeps the number of fields and of referenced beams |
| Rescale.RescaleFieldFrame | dicomfix/dicomutil.py:241-359 | a field rescale changes only field j and referenced beam j |
| Rescale.RescaleFieldDiscards | dicomfix/dicomutil.py:297-311 | with no negative weight, the spots counted in a field are the reference count of spots whose candidate MU is below MU_MIN at the new meterset over the original final weight |
| Rescale.FinishField | dicomfix/dicomutil.py:318-359 | finishing a field after its passes keeps the number of fields and of referenced beams |
| Rescale.RescaleBeams | dicomfix/dicomutil.py:241-370 | the loop over the first n fields keeps the number of fields and of referenced beams |
| Rescale.RescaleBeamsMeaning | dicomfix/dicomutil.py:241-370 | a loop over the first n fields that raised nothing rescaled each of them, left the later fields, the later referenced beams and the plan header alone, and counted exactly the reference count of discarded spots |
| Rescale.RescaleBeamsFrame | dicomfix/dicomutil.py:241-370 | the loop over the first n fields changes only those fields and their referenced beams |
| Rescale.RescaleBeamsFields | dicomfix/dicomutil.py:241-370 | each of the first n fields is rescaled as a field rescale on its own would |
| Rescale.RescaleBeamsCount | dicomfix/dicomutil.py:311 | with no negative weight the plan-wide discard counter grows by the sum of the per-field reference counts |
| Rescale.ApplyRescaleMeaning | dicomfix/dicomutil.py:218-370 | `apply_rescale_factor` that raised nothing: every field has its referenced beam, every field is rescaled, the header and the extra referenced beams are unchanged, and the discards are counted exactly |
| Rescale.ApplyRescale | dicomfix/dicomutil.py:218-370 | `apply_rescale_factor` keeps the number of fields and of referenced beams, and raises only the exceptions of its field loop: a layer-count mismatch (before or after the rewrite), a missing referenced beam, a division by zero, or a layer factor out of range or unbound; this assumes two position entries per spot weight, since the IndexError of the discard warning is not modelled |
| Rescale.ApplyRescaleShape | dicomfix/dicomutil.py:218-370 | a rescale that raised nothing keeps the number of fields and of control points in each |
| Rescale.CoefficientEnds | dicomfix/dicomutil.py:336-345 | the first dose coefficient is 0; the last is 1 when the last control point weighs nothing and the field total is not zero |
| Rescale.CoefficientsNormalised | dicomfix/dicomutil.py:336-345 | with no negative new weight the dose coefficients lie in [0, 1] and never decrease along the field |
| Rescale.EarlyMismatchUntouched | dicomfix/dicomutil.py:250-253 | a factor list whose length is not the first field's layer count raises before anything is written: plan unchanged, nothing counted |
| Rescale.LateMismatchRewritten | dicomfix/dicomutil.py:323-326 | the late count check raises after the first pass: the field's weights and cumulative weights are already rewritten, its final weight, coefficients and referenced beam are not |
| Rescale.Pass1NoFactors | dicomfix/dicomutil.py:283-298 | without layer factors the first pass raises nothing once a layer factor is assigned or the first control point is a real layer, and leaves a factor assigned; this assumes two position entries per spot weight, since the IndexError of the discard warning is not modelled |
| Rescale.RescaleBeamsNoFactors | dicomfix/dicomutil.py:241-370 | without layer factors, a plan with a referenced beam and a non-zero final weight per field, whose first control point is a real layer, rescales without an exception; this assumes two position entries per spot weight, since the IndexError of the discard warning is not modelled |
| Rescale.ApplyRescaleNoFactors | dicomfix/dicomutil.py:218-370 | the same for the whole of `apply_rescale_factor`; this assumes two position entries per spot weight, since the IndexError of the discard warning is not modelled |
| Rescale.Pass1Errors | dicomfix/dicomutil.py:283-298 | the first pass raises only an index error into the factor list or an unbound layer factor; this assumes two position entries per spot weight, since the IndexError of the discard warning is not modelled |
| Rescale.RescaleBeamsErrors | dicomfix/dicomutil.py:241-326 | the loop over fields raises only the count mismatch (before or after the rewrite), a missing referenced beam, a zero final weight, or the two first-pass errors; this assumes two position entries per spot weight, since the IndexError of the discard warning is not modelled |
| RescaleModes.LowestInLayerBound | dicomfix/dicomutil.py:193-195 | the running minimum over one control point is at most its start value and at most the MU of every positive spot, and it is the start value or one of those MU |
| RescaleModes.LowestInFieldBound | dicomfix/dicomutil.py:187-195 | the same over every control point of a field |
| RescaleModes.LowestSpotBound | dicomfix/dicomutil.py:180-195 | the smallest spot MU found over the fields is at most 9.9e9 and at most every positive spot's MU (weight times the field's meterset over its final weight), and it is 9.9e9 or the MU of a positive spot |
| RescaleModes.LowestSpotSucceeds | dicomfix/dicomutil.py:182-185 | the search raises nothing when every field has its referenced beam and a non-zero final weight |
| RescaleModes.LowestSpot | dicomfix/dicomutil.py:182-195 | the search over the fields for the smallest spot MU raises only IndexError for a missing referenced beam or ZeroDivisionError for a zero final weight |
| RescaleModes.Minimize | dicomfix/dicomutil.py:176-200 | `minimize_plan` keeps the number of fields |
| RescaleModes.MinimizeOutcome | dicomfix/dicomutil.py:176-200 | on a plan with positive metersets and final weights and no negative weight, `minimize_plan` rescales by MU_MIN over the smallest spot MU without layer factors; it raises nothing, discards no spot, keeps every weight and multiplies each dose and meterset by that factor |
| RescaleModes.MinimizeSpots | dicomfix/dicomutil.py:176-200 | after that rescale every positive spot has at least MU_MIN and, unless the plan has no positive spot, the smallest has exactly MU_MIN |
| RescaleModes.LowestPositive | dicomfix/dicomutil.py:180-197 | with positive metersets and final weights the smallest spot MU is positive, so the factor is defined |
| RescaleModes.ScaledSpotsAdmitted | dicomfix/dicomutil.py:197-200 | scaling by MU_MIN over the smallest MU lifts every positive spot to at least MU_MIN and the smallest to exactly MU_MIN |
| RescaleModes.RatioScales | dicomfix/dicomutil.py:258-259 | rescaling by s multiplies a field's meterset per weight (original final weight) by s |
| RescaleModes.ScaledSpotAdmitted | dicomfix/dicomutil.py:197-200 | a spot with at least the smallest MU gets at least MU_MIN after the rescale, exactly MU_MIN if it was the smallest |
| RescaleModes.NoneRejected | dicomfix/dicomutil.py:297-313 | a control point none of whose spots is rejected keeps its weights under factor 1.0 and counts nothing |
| RescaleModes.ScaledNoneRejected | dicomfix/dicomutil.py:297-311 | when every positive spot gets at least MU_MIN no spot is rejected |
| RescaleModes.KeepsWeights | dicomfix/dicomutil.py:218-370 | a rescale without layer factors that rejects no spot keeps every weight, keeps the control points, counts nothing and scales each referenced dose and meterset |
| RescaleModes.ReferencesScaled | dicomfix/dicomutil.py:257-259 | a rescale by rf that raised nothing multiplied every field's referenced dose and meterset by rf |
| RescaleModes.ScaledDosesChain | dicomfix/dicomutil.py:213-216 | scaling by c and then by new_dose over the dose c left on a field is scaling by new_dose over that field's original dose |
| RescaleModes.RescaleDoseLoop | dicomfix/dicomutil.py:213-216 | each pass of `rescale_dose` keeps the number of fields and referenced beams |
| RescaleModes.RescaleDoseStep | dicomfix/dicomutil.py:213-216 | pass n rescales the whole plan the earlier passes left, by new_dose over field n - 1's current dose |
| RescaleModes.RescaleDoseScales | dicomfix/dicomutil.py:202-216 | after n passes that raised nothing, whatever the layer factors, every dose and meterset is its original value times new_dose over the original dose of field n - 1, which ends at new_dose |
| RescaleModes.RescaleDoseMeaning | dicomfix/dicomutil.py:202-216 | `rescale_dose` that raised nothing scales every field by new_dose over the last field's original dose, so only the last field ends at new_dose |
| RescaleModes.RescaleDoseShape | dicomfix/dicomutil.py:202-216 | `rescale_dose` that raised nothing keeps every field and every control point |
| RescaleModes.RescaleDose | dicomfix/dicomutil.py:202-216 | `rescale_dose` keeps the number of fields and of referenced beams and raises only the exceptions of `apply_rescale_factor` |
| RescaleModes.RescaleDoseErrors | dicomfix/dicomutil.py:213-216 | `rescale_dose` raises only a missing referenced beam, a zero dose, or an exception of `apply_rescale_factor` |
| RescaleModes.ModeConflictExactly | dicomfix/dicomutil.py:164-168 | the "cannot minimize" ValueError is raised exactly when minimisation comes with a factor or layer factors, and leaves the plan untouched; no other mode raises it |
| RescaleModes.ModePrecedence | dicomfix/dicomutil.py:169-174 | without minimisation a dose wins over a factor, a factor over layer factors alone, and layer factors alone rescale by 1.0; with none of them nothing happens |
| RescaleModes.RescalePlanShape | dicomfix/dicomutil.py:149-174 | a `rescale_plan` that raised nothing, in any mode, keeps every field and every control point |
| RescaleModes.RescalePlan | dicomfix/dicomutil.py:149-174 | `rescale_plan` keeps the number of fields and raises the ValueError of conflicting modes or an exception of the selected rescale |
| Repaint.Kept | dicomfix/dicomutil.py:536 | a weight after the admission step is zero, or the weight itself when its MU reaches MU_MIN |
| Repaint.KeepAdmitted | dicomfix/dicomutil.py:536 | the admission step keeps the number of spots |
| Repaint.KeepAdmittedAtLeastMin | dicomfix/dicomutil.py:536 | after the admission step every spot is zero or has at least MU_MIN |
| Repaint.KeepAdmittedNone | dicomfix/dicomutil.py:531-536 | where no spot is below MU_MIN the admission step changes nothing |
| Repaint.CountBelowAppend | dicomfix/dicomutil.py:534 | the count of spots below MU_MIN adds up over concatenated lists |
| Repaint.CountBelowRepeat | dicomfix/dicomutil.py:520-534 | n repetitions of a weight list have n times its spots below MU_MIN |
| Repaint.CountBelowZeroMeaning | dicomfix/dicomutil.py:531 | the count is zero exactly when no spot is below MU_MIN |
| Repaint.SplitWeightsAt | dicomfix/dicomutil.py:516-520 | the split list has n times the spots; spot k is weight k mod len divided by n on even control points and 0.0 on odd ones |
| Repaint.SplitWeightsSum | dicomfix/dicomutil.py:517-520 | on an even control point the split keeps the total weight, which keeps the cumulative weights |
| Repaint.SplitWeightsMeaning | dicomfix/dicomutil.py:513-520 | both of the above together |
| Repaint.SplitWeightsEmpty | dicomfix/dicomutil.py:513-520 | for n > 0 the repeated weight list is empty exactly when the control point had no weights |
| Repaint.SplitOneAndAHalf | dicomfix/dicomutil.py:517-520 | repainting a weight of 1.5 twice gives two weights of 0.75 |
| Repaint.HalvesBelowMin | dicomfix/dicomutil.py:529-536 | two spots of 0.75 MU, below the 1.0 MU minimum, are both counted as discarded and set to 0.0 |
| Repaint.Fivefold | dicomfix/dicomutil.py:504 | `ScanSpotPositionMap * 5` has five times the entries |
| Repaint.FivefoldRepeats | dicomfix/dicomutil.py:504 | it is five copies of the map one after the other; after repainting the map therefore holds five times the two coordinates per spot that NumberOfScanSpotPositions announces, and the model keeps that as written |
| Repaint.RepaintPointShape | dicomfix/dicomutil.py:503-537 | one control point gets n times the spots and weights, its position map repeated five then n times, nothing else changed; it fails exactly when it is even and has no spots, on the `min` of an empty list |
| Repaint.RepaintPointFails | dicomfix/dicomutil.py:516-537 | an even control point fails exactly when it has no spots or n <= 0: ZeroDivisionError for n == 0 with spots, otherwise the ValueError of `min` on an empty list |
| Repaint.RepaintPoint | dicomfix/dicomutil.py:503-537 | one control point fails exactly when it is even and has no spots or n <= 0; ZeroDivisionError exactly for n == 0 with spots; a failing or odd control point discards nothing |
| Repaint.RepaintPointNonPositive | dicomfix/dicomutil.py:516-537 | for n <= 0 nothing is discarded; with n == 0 an even control point with spots raises ZeroDivisionError after the position map was made fivefold; otherwise every spot is gone and the control point fails exactly when it is even |
| Repaint.RepaintPointOdd | dicomfix/dicomutil.py:518-519 | an odd control point ends all zeros and counts nothing |
| Repaint.RepaintPointEven | dicomfix/dicomutil.py:516-536 | an even control point with spots ends with each spot zero or at least MU_MIN, counts n times the split spots below MU_MIN, and keeps its total weight when none was |
| Repaint.RepaintEvenAdmitted | dicomfix/dicomutil.py:529-536 | on an even control point every spot ends zero or at least MU_MIN |
| Repaint.RepaintEvenCount | dicomfix/dicomutil.py:529-536 | its weights are the admitted split weights and its count is n times the count of the weights divided by n |
| Repaint.RepaintEvenTotal | dicomfix/dicomutil.py:516-536 | with nothing discarded its total weight is unchanged |
| Repaint.RepaintPointMeaning | dicomfix/dicomutil.py:503-537 | the shape, odd and even properties of one control point together |
| Repaint.RepaintSplitBelowMin | dicomfix/dicomutil.py:516-536 | repainting can discard a spot that was admitted before: 1.5 MU split in two gives two 0.75 MU spots, both zeroed and counted |
| Repaint.RepaintCountsZeroWeights | dicomfix/dicomutil.py:530-534 | a zero-weight spot on an even control point is counted as discarded, once per repainting |
| Repaint.RepaintLayersMeaning | dicomfix/dicomutil.py:503-537 | over a field's control points without failure, each is its repainted self; a failure is that of an even control point without spots or with n <= 0 |
| Repaint.RepaintLayers | dicomfix/dicomutil.py:503-537 | the loop over the first m control points keeps their number |
| Repaint.RepaintLayer | dicomfix/dicomutil.py:503-537 | the loop run through control point i keeps the number of control points |
| Repaint.RepaintLayersDone | dicomfix/dicomutil.py:503-537 | without failure, the first m control points are repainted and the rest untouched |
| Repaint.RepaintLayersAt | dicomfix/dicomutil.py:503-537 | control point k after the first m were repainted |
| Repaint.RepaintLayersFailure | dicomfix/dicomutil.py:516-537 | a failure comes from an even control point without spots or with n <= 0: `min` of an empty list or, for n == 0, the division by n |
| Repaint.RepaintLayersNonPositive | dicomfix/dicomutil.py:503-537 | for n <= 0 the loop over a field's control points succeeds only when it has none, and otherwise stops at control point 0 |
| Repaint.RepaintLayersKeepTotal | dicomfix/dicomutil.py:506-520 | when odd control points carry no weight and no spot is discarded, repainting keeps the field's total weight, so FinalCumulativeMetersetWeight stays right |
| Repaint.RepaintLayersDiscards | dicomfix/dicomutil.py:534 | the field's count is at least each control point's count |
| Repaint.WeightTotalSameSums | dicomfix/dicomutil.py:506 | the total weight of control points depends only on each one's sum of weights |
| Repaint.RepaintField | dicomfix/dicomutil.py:498-501 | repainting one field keeps the number of fields |
| Repaint.RepaintFieldShape | dicomfix/dicomutil.py:499-501 | a field that repaints had its referenced beam and a non-zero final weight, and only that field changed |
| Repaint.RepaintFields | dicomfix/dicomutil.py:498 | the loop over fields keeps the number of fields |
| Repaint.RepaintFieldsFrame | dicomfix/dicomutil.py:498-539 | repainting the first m fields leaves the later fields and the rest of the plan alone |
| Repaint.RepaintFieldsAt | dicomfix/dicomutil.py:498-539 | field j of the first m is repainted at its own meterset per weight, read before its control points change |
| Repaint.RepaintFieldsMeaning | dicomfix/dicomutil.py:498-539 | the frame and the per-field result together |
| Repaint.SetRepaintingMeaning | dicomfix/dicomutil.py:492-539 | `set_repainting` without failure, for any n: the plan has its referenced beams, every control point k of field j is the repainted control point, and everything else, FinalCumulativeMetersetWeight included, is unchanged |
| Repaint.SetRepaintingShape | dicomfix/dicomutil.py:492-539 | it keeps every field and every control point |
| Repaint.RepaintFieldNonPositive | dicomfix/dicomutil.py:498-537 | for n <= 0 a field repaints without exception exactly when it has its referenced beam, a non-zero final weight and no control points, and then nothing changes |
| Repaint.RepaintFieldsNonPositive | dicomfix/dicomutil.py:498-539 | for n <= 0 the loop over the first m fields raises nothing exactly when each of them is such a field, and then nothing changes |
| Repaint.SetRepaintingNonPositive | dicomfix/dicomutil.py:492-539 | `set_repainting(n)` for n <= 0 raises nothing exactly when every field has its referenced beam, a non-zero final weight and no control points, and then leaves the plan as it was |
| Repaint.SetRepainting | dicomfix/dicomutil.py:492-539 | repainting keeps the number of fields; for n <= 0 it raises nothing exactly when every field has no control points (with its referenced beam and a non-zero final weight) |
| Repaint.MulInverse | dicomfix/dicomutil.py:517-520 | n copies of w / n weigh w |
| FieldOps.Copies | dicomfix/dicomutil.py:385-386 | `range(n)` yields n copies for positive n and none otherwise |
| FieldOps.Duplicate | dicomfix/dicomutil.py:372-396 | the field and referenced-beam lists grow n-fold (to none for n <= 0), the header stays, NumberOfBeams is the new referenced-beam count, and the only exception is the IndexError of a missing referenced beam |
| FieldOps.CopyLabel | dicomfix/dicomutil.py:393 | the copy's name starts with the original name and is longer |
| FieldOps.RelabelUpTo | dicomfix/dicomutil.py:391-395 | the loop renames and renumbers the beams before the stop and leaves the rest |
| FieldOps.RenumberUpTo | dicomfix/dicomutil.py:396 | referenced beam i gets number i + 1 for every i the loop reaches |
| FieldOps.DuplicateNonPositive | dicomfix/dicomutil.py:385-390 | duplicating zero or fewer times leaves a plan without fields or referenced beams and NumberOfBeams 0 |
| FieldOps.DuplicateExpanded | dicomfix/dicomutil.py:382-396 | the new lists are the n-fold expanded lists, NumberOfBeams their referenced-beam count, relabelled and renumbered up to where the loop stops |
| FieldOps.ExpandKeepsControlPoints | dicomfix/dicomutil.py:386 | deep copies keep their control points |
| FieldOps.DuplicateBeamAt | dicomfix/dicomutil.py:386-395 | item i of the new beam list is a copy of field i div n, relabelled when the loop reached it |
| FieldOps.DuplicateRefAt | dicomfix/dicomutil.py:385-396 | item i of the new referenced-beam list is a copy of referenced beam i div n |
| FieldOps.IndexInBlock | dicomfix/dicomutil.py:385-392 | copy k of item j sits at j·n + k, and i mod n recovers k |
| FieldOps.DuplicateLayout | dicomfix/dicomutil.py:372-396 | with every field paired, NumberOfBeams becomes the referenced-beam count times n and copy k of field j sits at j·n + k, named with " (k+1/n)" and numbered j·n + k + 1, like its referenced beam |
| FieldOps.DuplicatePaired | dicomfix/dicomutil.py:372-396 | duplication of a paired plan completes, keeps it paired, numbers beam i and its referenced beam i + 1, and keeps every first control point |
| FieldOps.DuplicateKeepsFirstControlPoints | dicomfix/dicomutil.py:386 | every copy keeps its first control point, whether the loop completes or not |
| FieldOps.DuplicateSucceedsWhenPaired | dicomfix/dicomutil.py:391-396 | with at least one copy the loop completes exactly when every field has its referenced beam |
| FieldOps.DuplicateShortReferences | dicomfix/dicomutil.py:391-396 | with fewer referenced beams the loop ends in IndexError after renaming and renumbering the beam at that index; later copies keep their original names and numbers |
| FieldOps.WithFirst | dicomfix/dicomutil.py:414 | replacing the first control point leaves the others |
| FieldOps.FieldLoopError | dicomfix/dicomutil.py:444-449 | a loop through the first control points followed by a log line on the last field ends without error exactly when the plan has fields that all have a control point; a field without one raises IndexError, an empty plan fails in the log line |
| FieldOps.GantryAngles | dicomfix/dicomutil.py:413 | one gantry angle per field, read from its first control point |
| FieldOps.SetGantryAngles | dicomfix/dicomutil.py:400-416 | only the fields change and their number stays; a wrong count raises ValueError; with one angle per field the edit succeeds exactly when every field has a control point, and otherwise raises IndexError |
| FieldOps.GantryAnglesReadBack | dicomfix/dicomutil.py:400-416 | the angles are accepted only when there is one per field (otherwise ValueError and no change); the fields before the first one without control points then carry their angle, that field raises IndexError and the later ones are untouched; without such a field no error is raised and every angle is read back as given |
| FieldOps.GantryAnglesRestore | dicomfix/dicomutil.py:412-414 | only the gantry angles change: setting the old angles back restores the plan and setting the current ones changes nothing, whether or not a field without control points stops the loop |
| FieldOps.TablePosition | dicomfix/dicomutil.py:430-432 | the table position is the (vertical, longitudinal, lateral) triple |
| FieldOps.SetTablePosition | dicomfix/dicomutil.py:418-436 | only the fields change and their number stays; anything but three values raises ValueError; a triple is set without error exactly when the plan has fields that all have a control point, and a field without one raises IndexError |
| FieldOps.TablePositionReadBack | dicomfix/dicomutil.py:418-436 | anything but three values raises ValueError with no change; a triple goes into the first control point of each field before the first one without control points, which raises IndexError; the other control points and later fields are untouched; a plan without fields fails in the NameError of the log line; setting it again changes nothing |
| FieldOps.SetSnoutPosition | dicomfix/dicomutil.py:438-449 | only the fields change and their number stays; the edit succeeds exactly when the plan has fields that all have a control point, and a field without one raises IndexError |
| FieldOps.SnoutPositionReadBack | dicomfix/dicomutil.py:438-449 | the fields before the first one without control points get the snout position in their first control point, that field raises IndexError and nothing else changes; a plan without fields fails in the log line; setting it again changes nothing |
| FieldOps.SetTreatmentMachine | dicomfix/dicomutil.py:541-551 | only the fields change and their number stays; the edit fails exactly on a plan without fields, in the log line |
| FieldOps.TreatmentMachineReadBack | dicomfix/dicomutil.py:541-551 | every field gets the machine name and nothing else; a plan without fields fails in the log line |
| FieldOps.SetAttr | dicomfix/dicomutil.py:128-147 | a single plan-level assignment keeps the fields, the referenced beams, NumberOfBeams and the patient id |
| FieldOps.SetAttrReadBack | dicomfix/dicomutil.py:553-584 | each single assignment (approval, date, time, intent, label, patient name, reviewer) is read back, changes no other attribute, no field and no referenced beam, and repeating it changes nothing |
| FieldOps.SetAttrCommutes | dicomfix/dicomutil.py:128-147 | assignments to different attributes commute and a later one to the same attribute wins |
| FieldOps.SetWizardTr4 | dicomfix/dicomutil.py:586-602 | the plan is approved and otherwise only its fields change, their number kept; the preset succeeds exactly when the plan has fields that all have a control point, and a field without one raises IndexError |
| FieldOps.WizardTr4Composition | dicomfix/dicomutil.py:586-602 | when every field has a control point the TR4 preset equals approval, gantry angle 90 for every field, snout position 421 and machine "TR4" applied one after another; otherwise the fields before the first one without control points get the preset, that field only the machine name before its IndexError, and the later fields are untouched |
| FieldOps.ShifterWetSwapped | dicomfix/dicomutil.py:488 | as written the thinner RS_2CM gets 57.0 mm and the thicker RS_5CM 22.8 mm: each gets 1.14 times the other one's nominal thickness |
| FieldOps.ShifterWet | dicomfix/dicomutil.py:488 | corrected: each known device gets 1.14 times its own nominal thickness |
| FieldOps.ShifterWetMonotone | dicomfix/dicomutil.py:488 | corrected: the thicker device has the larger water-equivalent thickness |
| FieldOps.ShifterSetting | dicomfix/dicomutil.py:484-489 | the setting is IN at 98 mm and refers to shifter 1; as written a known device gets 1.14 times the other device's nominal thickness, corrected 1.14 times its own |
| FieldOps.InstallShifter | dicomfix/dicomutil.py:473-489 | a field gets one shifter and keeps its control points, each changed only in its setting, which is the device's setting; nothing else of the field changes |
| FieldOps.SetRangeShifter | dicomfix/dicomutil.py:451-489 | ValueError exactly for an id other than None, RS_2CM and RS_5CM; otherwise only the fields change and their number stays |
| FieldOps.RangeShifterInstalled | dicomfix/dicomutil.py:470-489 | a known id is accepted (any other raises ValueError before any change) and installed as shifter 1, type BINARY, in every field; every control point is set IN at 98 mm, refers to shifter 1 and gets the thickness as written (57.0 mm for RS_2CM, 22.8 mm otherwise) or, corrected, 1.14 times the device's nominal thickness; nothing else changes and installing it again changes nothing |
| FieldOps.RangeShifterRemoved | dicomfix/dicomutil.py:462-468 | removal deletes the device only where there is one, resets only those fields' count to 0, and leaves every control point as it was |
| FieldOps.RemovalAfterInstallLeavesSettings | dicomfix/dicomutil.py:462-489 | removing right after installing leaves every control point's settings referring to the deleted shifter 1 |
| Modification.StepKeepsFirstControlPoints | dicomfix/dicomutil.py:80-126 | every edit `modify` calls that raised nothing leaves every field with its first control point |
| Modification.NothingRequested | dicomfix/dicomutil.py:74-126 | with no option given `modify` runs no edit and changes nothing, whatever the plan holds |
| Modification.NoStagesNoSteps | dicomfix/dicomutil.py:80-126 | no guard from stage k on holds, so no edit runs from there |
| Modification.RunStepsAppend | dicomfix/dicomutil.py:80-126 | running two lists of edits in turn is running them joined: an exception in the first ends the run, otherwise the second starts from the plan the first left, and the discarded spots add up; a list that raises nothing keeps every first control point the plan had |
| Modification.StageStep | dicomfix/dicomutil.py:80-126 | a guard that fails skips its edit; an edit that raises ends `modify` with the plan as it left it; otherwise the later edits run on its result |
| Modification.RunOne | dicomfix/dicomutil.py:80-126 | a single selected edit is that edit |
| Modification.RescaleBeforeDuplicate | dicomfix/dicomutil.py:89-93 | the rescale runs before the duplication whenever both are asked for |
| Modification.StepsFromSuffix | dicomfix/dicomutil.py:80-126 | the edits selected from a later guard on come last, in the same order |
| Modification.RescaledThenDuplicated | dicomfix/dicomutil.py:89-93 | with rescale and duplication only, every copy of field j carries field j's rescaled meterset, dose and control points |
| Modification.FactorOnly | dicomfix/dicomutil.py:89-174 | a factor-only rescale makes `modify` exactly `apply_rescale_factor` |
| Modification.ApplyStep | dicomfix/dicomutil.py:80-126 | only the rescale and repaint edits discard spots; the plan-level assignments never raise and keep the fields, the referenced beams and the patient id; the geometry, machine, TR4 and shifter edits keep the number of fields |
| Modification.ModifyPlan | dicomfix/dicomutil.py:74-126 | with nothing requested the plan is unchanged, with no discards and no exception; a run without exception keeps every first control point the plan had |
| DicomUtilities.AdmitSpots | dicomfix/dicomutil.py:297-313 | the loop over one control point's spots gives the admitted weights and counts exactly the spots it zeroed |
| DicomUtilities.Pass1AfterError | dicomfix/dicomutil.py:265-318 | an exception ends the first pass: later control points are not visited |
| DicomUtilities.LayerStep | dicomfix/dicomutil.py:268-316 | one iteration of the first pass is the specification's step |
| DicomUtilities.FirstPass | dicomfix/dicomutil.py:265-318 | the first loop over the control points computes the first pass, stopping at the first exception |
| DicomUtilities.SecondPass | dicomfix/dicomutil.py:332-350 | the second loop computes the cumulative weights and dose reference coefficients of the second pass |
| DicomUtilities.LowestOfField | dicomfix/dicomutil.py:187-195 | the loop of `minimize_plan` over one field finds the field's running minimum |
| DicomUtilities.CountSpots | dicomfix/dicomutil.py:56-59 | the loop of `__init__` counts half the spot positions of every control point of every field |
| DicomUtilities.PairedPositions | dicomfix/dicomutil.py:56-59 | where control point 2i + 1 repeats the spots of 2i, a field's positions are twice its layer spots |
| DicomUtilities.PlanPairedPositions | dicomfix/dicomutil.py:56-59 | the same summed over fields |
| DicomUtilities.SpotTotalCountsLayers | dicomfix/dicomutil.py:56-59 | with every layer stored as a pair of control points, the total is the number of spots of the energy layers |
| DicomUtilities.RescaleOneField | dicomfix/dicomutil.py:248-359 | the loop body over fields of `apply_rescale_factor` rescales field j as specified |
| DicomUtilities.RescaleBeamsAfterError | dicomfix/dicomutil.py:218-370 | an exception in a field ends `apply_rescale_factor` |
| DicomUtilities.RescaleDoseAfterError | dicomfix/dicomutil.py:213-216 | an exception in a pass ends `rescale_dose` |
| DicomUtilities.LowestSpotAfterError | dicomfix/dicomutil.py:182-195 | an exception in a field ends the search of `minimize_plan` |
| DicomUtilities.RepaintFieldsAfterError | dicomfix/dicomutil.py:498-539 | an exception in a field ends `set_repainting` |
| DicomUtilities.RepaintControlPoints | dicomfix/dicomutil.py:503-537 | the loop over one field's control points repaints them as specified, stopping at the first exception |
| DicomUtilities.RepaintLayersAfterError | dicomfix/dicomutil.py:503-537 | an exception in a control point ends the field's loop |
| DicomUtilities.ModifySkips | dicomfix/dicomutil.py:80-126 | a guard whose option is not given moves `modify` on to the next guard |
| DicomUtilities.ModifyRuns | dicomfix/dicomutil.py:80-126 | a guard that runs an edit ends `modify` on its exception or moves on from its result, adding its discarded spots |
| DicomUtilities.DicomUtil.constructor | dicomfix/dicomutil.py:42-59 | the object holds the plan, no spot discarded, and the spot total of the loop over fields |
| DicomUtilities.DicomUtil.ApplyRescaleFactor | dicomfix/dicomutil.py:218-370 | the plan becomes the rescale result, the discards are added, the exception returned, the spot total kept |
| DicomUtilities.DicomUtil.MinimizePlan | dicomfix/dicomutil.py:176-200 | the plan becomes the minimisation result, with its discards and exception |
| DicomUtilities.DicomUtil.RescaleDose | dicomfix/dicomutil.py:202-216 | the plan becomes the result of the per-field passes of `rescale_dose` |
| DicomUtilities.DicomUtil.RescaleDoseBeam | dicomfix/dicomutil.py:213-216 | one pass: IndexError without a referenced beam, ZeroDivisionError on a zero dose, plan untouched; otherwise the whole plan rescaled by new_dose over field j's current dose |
| DicomUtilities.DicomUtil.RescalePlan | dicomfix/dicomutil.py:149-174 | the plan becomes the result of the selected rescale mode |
| DicomUtilities.DicomUtil.DuplicateFields | dicomfix/dicomutil.py:372-398 | the plan becomes the duplicated plan, as far as the loop got, with its exception; counters kept |
| DicomUtilities.DicomUtil.SetGantryAngles | dicomfix/dicomutil.py:400-416 | the plan becomes the gantry edit: ValueError and no change on a wrong count, otherwise the new angles up to the IndexError of a field without control points; counters kept |
| DicomUtilities.DicomUtil.SetTablePosition | dicomfix/dicomutil.py:418-436 | the plan becomes the table edit, with its ValueError, the IndexError of a field without control points and the failure of the log line on an empty plan; counters kept |
| DicomUtilities.DicomUtil.SetSnoutPosition | dicomfix/dicomutil.py:438-449 | the plan becomes the snout edit, with the IndexError of a field without control points and the failure of the log line on an empty plan; counters kept |
| DicomUtilities.DicomUtil.SetTreatmentMachine | dicomfix/dicomutil.py:541-551 | the machine edit with the exception of an empty plan |
| DicomUtilities.DicomUtil.ApprovePlan | dicomfix/dicomutil.py:128-132 | ApprovalStatus becomes "APPROVED", nothing else changes |
| DicomUtilities.DicomUtil.SetCurrentDate | dicomfix/dicomutil.py:134-141 | RTPlanDate and RTPlanTime become the clock's reading |
| DicomUtilities.DicomUtil.SetIntentToCurative | dicomfix/dicomutil.py:143-147 | PlanIntent becomes "CURATIVE" |
| DicomUtilities.DicomUtil.SetPlanLabel | dicomfix/dicomutil.py:553-562 | RTPlanLabel becomes the label |
| DicomUtilities.DicomUtil.SetPatientName | dicomfix/dicomutil.py:564-573 | PatientName becomes the name |
| DicomUtilities.DicomUtil.SetReviewerName | dicomfix/dicomutil.py:575-584 | ReviewerName becomes the name |
| DicomUtilities.DicomUtil.SetWizardTr4 | dicomfix/dicomutil.py:586-602 | the plan becomes the TR4 preset, with the IndexError of a field without control points and the failure of the log line on an empty plan; counters kept |
| DicomUtilities.DicomUtil.SetRangeShifter | dicomfix/dicomutil.py:451-490 | ValueError and no change on an unknown id; otherwise the device is removed, or installed in every field and control point with the thickness as written (57.0 mm for RS_2CM, 22.8 mm otherwise) |
| DicomUtilities.DicomUtil.SetRepainting | dicomfix/dicomutil.py:492-539 | for any n, 0 and negative included, the plan becomes the repainted plan as far as the loop got, with the discards added and the exception returned |
| DicomUtilities.DicomUtil.RepaintBeam | dicomfix/dicomutil.py:499-537 | one field repainted at its own meterset per weight, or its exception |
| DicomUtilities.DicomUtil.Perform | dicomfix/dicomutil.py:80-126 | the call `modify` makes for one edit does that edit and adds its discards |
| DicomUtilities.DicomUtil.RunStage | dicomfix/dicomutil.py:80-126 | one guard of `modify` keeps the object in step with the specified run |
| DicomUtilities.DicomUtil.Modify | dicomfix/dicomutil.py:74-126 | `modify` leaves the plan, the discards and the exception of the specified run of the selected edits |
| HandlerOps.ScaleFactor | dicomfix/dicom_handler.py:267-284 | in dose mode the factor is the requested dose over the field's original dose (ZeroDivisionError on a zero dose), otherwise the requested factor, or 1 |
| HandlerOps.CsvWeight | dicomfix/dicom_handler.py:314-319 | without a weight list every control point gets 1.0; with one, control point i gets entry i div 2, and IndexError past its end |
| HandlerOps.CsvWeightPaired | dicomfix/dicom_handler.py:315 | both control points of energy layer m get entry m |
| HandlerOps.PassStep | dicomfix/dicom_handler.py:307-341 | one step of the first loop keeps the number of control points |
| HandlerOps.WeightPass | dicomfix/dicom_handler.py:307-347 | the first loop keeps the number of control points |
| HandlerOps.WeightPassThrough | dicomfix/dicom_handler.py:307-347 | the same, through control point i |
| HandlerOps.WeightedFrame | dicomfix/dicom_handler.py:311-341 | what the loop wrote to a control point depends only on the control points up to it |
| HandlerOps.WeightPassMeaning | dicomfix/dicom_handler.py:303-341 | a first loop that raised nothing set each control point's cumulative weight to the sum of the new weights before it and its weights to the weight times its pair's entry, zeroing and counting the spots below MU_MIN, and left later control points alone |
| HandlerOps.WeightPassErrors | dicomfix/dicom_handler.py:314-316 | the first loop raises IndexError exactly when a non-empty weight list has fewer than half the visited control points |
| HandlerOps.WeightPassAfterError | dicomfix/dicom_handler.py:307-347 | an exception ends the first loop |
| HandlerOps.Weighed | dicomfix/dicom_handler.py:307-347 | the first loop over field j keeps its number of control points |
| HandlerOps.NewMetersetPerWeight | dicomfix/dicom_handler.py:299-301 | the meterset per weight is the original meterset times the factor over the copy's final weight |
| HandlerOps.RescaleFieldCopy | dicomfix/dicom_handler.py:278-376 | the loop body over the copy's fields keeps every field and control point |
| HandlerOps.WeighFieldCopy | dicomfix/dicom_handler.py:303-363 | the two loops keep every field and control point |
| HandlerOps.FinishFieldCopy | dicomfix/dicom_handler.py:365-376 | the write-back keeps every field and control point |
| HandlerOps.Retotalled | dicomfix/dicom_handler.py:369-376 | the new meterset and dose are the original's times the factor and the minimisation factor; the beam number is kept |
| HandlerOps.RescaleFields | dicomfix/dicom_handler.py:278-386 | the loop over fields keeps every field and control point |
| HandlerOps.RescaleCopy | dicomfix/dicom_handler.py:265-386 | the rescale of the copy keeps the number of fields, of each field's control points and of referenced beams |
| HandlerOps.RescaleFieldCopyMeaning | dicomfix/dicom_handler.py:278-376 | a field rescale that raised nothing found the referenced beam, a factor, a matching weight list and non-zero totals; it changed field j and its referenced beam only: prefix cumulative weights, coefficients over the new total, weights admitted with the original meterset, meterset and dose of the original times the factors |
| HandlerOps.FinishFieldCopyShape | dicomfix/dicom_handler.py:349-376 | the write-back sets the coefficients, FinalCumulativeMetersetWeight to the new total and the retotalled referenced beam |
| HandlerOps.WeighedBookkept | dicomfix/dicom_handler.py:303-363 | the two loops over a field keep the cumulative bookkeeping and give the admitted weights |
| HandlerOps.PassesBookkept | dicomfix/dicom_handler.py:303-363 | the same on the control points alone |
| HandlerOps.Pass2Totals | dicomfix/dicom_handler.py:353-360 | the coefficient loop changes no weight, so every running total stays |
| HandlerOps.RescaleFieldCopyFrame | dicomfix/dicom_handler.py:278-376 | whatever its outcome, a field rescale leaves the other fields and referenced beams alone |
| HandlerOps.RescaleFieldCopyLocal | dicomfix/dicom_handler.py:278-376 | without minimisation a field rescale depends on the copy only through that field and its referenced beam |
| HandlerOps.RescaleFieldsAfterError | dicomfix/dicom_handler.py:278-386 | an exception ends the loop over fields |
| HandlerOps.RescaleFieldsFrame | dicomfix/dicom_handler.py:278-386 | the loop over the first n fields leaves the later fields and the plan-level attributes alone |
| HandlerOps.RescaleFieldsAt | dicomfix/dicom_handler.py:278-386 | without minimisation each field of a completed loop is that field rescaled on its own |
| HandlerOps.RescaleFieldsLast | dicomfix/dicom_handler.py:278-386 | the last field of the loop is rescaled as if on its own |
| HandlerOps.DoseModeHitsTarget | dicomfix/dicom_handler.py:283-300 | in dose mode without minimisation a field ends at the requested dose, its meterset scaled by the same ratio |
| HandlerOps.DoseModeEveryField | dicomfix/dicom_handler.py:278-386 | in dose mode every field ends at the requested dose, each scaled by the ratio to its own original dose |
| HandlerOps.FactorModeScales | dicomfix/dicom_handler.py:267-300 | in factor mode the original meterset and dose are multiplied by the factor (or 1) and the minimisation factor, whatever the weights and discards |
| HandlerOps.MinimizeScalesTotalsOnly | dicomfix/dicom_handler.py:365-376 | minimisation changes only the meterset and dose, by its factor; the fields and weights are those without it |
| HandlerOps.CopyGantryOutcome | dicomfix/dicom_handler.py:127-136 | a wrong number of angles is only logged; the loop sets the fields it reaches and stops with IndexError at a field without control points or, with too few angles, at the end of the angle list; extra angles are ignored; with one angle per field it is `set_gantry_angles` |
| HandlerOps.CopySuffix | dicomfix/dicom_handler.py:159-161 | the first copy keeps its name, the others get `_copy_k` appended |
| HandlerOps.CopyRelabelUpTo | dicomfix/dicom_handler.py:158-164 | the loop renames and renumbers the beams it reaches |
| HandlerOps.CopyDuplicateLayout | dicomfix/dicom_handler.py:144-166 | with every field paired, copy k of field j sits at j·n + k with number j·n + k + 1, named as above, like its referenced beam; NumberOfBeams becomes the referenced-beam count times n |
| HandlerOps.CopyDuplicate | dicomfix/dicom_handler.py:144-166 | the field and referenced-beam lists grow n-fold (to none for n <= 0), the header stays, NumberOfBeams is the new referenced-beam count, and the only exception is the IndexError of a missing referenced beam |
| HandlerOps.DuplicateNamingDiffers | dicomfix/dicom_handler.py:159-161 | the first copy keeps its name here, while `duplicate_fields` of DicomUtil changes it |
| HandlerOps.CopyDuplicateKeepsFirstControlPoints | dicomfix/dicom_handler.py:151-152 | every copy keeps its first control point |
| HandlerOps.CopyTable | dicomfix/dicom_handler.py:212-223 | anything but three values ends in `exit()` with the plan unchanged; three values are the table edit |
| HandlerOps.CopyAttributes | dicomfix/dicom_handler.py:173-194 | the plan-level edits of `copy` change only the header |
| HandlerOps.CopyTailQuiet | dicomfix/dicom_handler.py:168-223 | when none of the later edits is asked for they change nothing |
| HandlerOps.CopyTail | dicomfix/dicom_handler.py:168-223 | the edits after the duplication keep the number of fields |
| HandlerOps.CopyPlan | dicomfix/dicom_handler.py:112-223 | a copy made without exception has the plan's fields times the copies asked for: unchanged for 0, n-fold for n > 0, none for n < 0 |
| HandlerOps.MinimizeAloneDoesNothing | dicomfix/dicom_handler.py:119-142 | `rescale_minimize` alone does not call `rescale`: the copy is the plan |
| HandlerOps.RescaleThenDuplicate | dicomfix/dicom_handler.py:138-166 | with rescale and duplication only, `copy` rescales first and then duplicates the rescaled fields |
| HandlerOps.RescaledBeforeDuplicated | dicomfix/dicom_handler.py:138-166 | so every copy of field j carries field j's rescaled control points, meterset and dose |
| DicomHandler.GantryLoop | dicomfix/dicom_handler.py:127-136 | the gantry loop of `copy` gives the gantry outcome |
| DicomHandler.DuplicateLoop | dicomfix/dicom_handler.py:144-166 | the duplication loop of `copy` gives the duplication outcome |
| DicomHandler.MachineLoop | dicomfix/dicom_handler.py:168-171 | the machine loop gives the machine edit, failing in the log line on a plan without fields |
| DicomHandler.WizardLoop | dicomfix/dicom_handler.py:200-209 | the TR4 loop gives the TR4 preset |
| DicomHandler.TableLoop | dicomfix/dicom_handler.py:212-223 | the table loop gives the table outcome of `copy` |
| DicomHandler.AttributeSteps | dicomfix/dicom_handler.py:173-194 | the plan-level assignments give the attribute edits |
| DicomHandler.TailSteps | dicomfix/dicom_handler.py:168-223 | the edits after the duplication give their specified outcome |
| DicomHandler.WeighControlPoints | dicomfix/dicom_handler.py:303-347 | the first loop over a field gives the first pass |
| DicomHandler.SameShapeFirstControlPoints | dicomfix/dicom_handler.py:141-142 | the rescale keeps every field's first control point |
| DicomHandler.DicomFix.constructor | dicomfix/dicom_handler.py:17-21 | the object holds the plan, no copy yet, no discards |
| DicomHandler.DicomFix.GetRescaleForSpotMinimization | dicomfix/dicom_handler.py:243-263 | the factor taking the copy's lowest positive spot, with the original's metersets, to MU_MIN, or its exception |
| DicomHandler.DicomFix.RescaleField | dicomfix/dicom_handler.py:278-376 | one field of the copy rescaled as specified, the plan untouched |
| DicomHandler.DicomFix.FinishField | dicomfix/dicom_handler.py:349-376 | the coefficients, minimisation and write-back of one field |
| DicomHandler.DicomFix.Rescale | dicomfix/dicom_handler.py:265-386 | `rescale` leaves the specified copy and exception, the plan untouched |
| DicomHandler.DicomFix.Copy | dicomfix/dicom_handler.py:112-223 | `copy` makes the copy the specified run of edits gives, the plan untouched |
| Particles.DedxAir | dicomfix/plan.py:15-29 | the stopping power of air is defined exactly from 1 to 500 MeV, where it is the fit and positive; outside, ValueError |
| Particles.RunFromLength | dicomfix/plan.py:68-69 | a loop that updates each element of a list in turn keeps its length |
| Particles.RunEachLength | dicomfix/plan.py:68-69 | the same over the whole list |
| Particles.RunFromAll | dicomfix/plan.py:68-69 | such a loop finishes without raising exactly when every step does, and then holds each step's result |
| Particles.RunEachAll | dicomfix/plan.py:68-69 | the same from the first element |
| Particles.RunEachStart | dicomfix/plan.py:68-69 | before the loop nothing is processed |
| Particles.RunEachAdvance | dicomfix/plan.py:68-69 | a step that raises ends the loop with the rest untouched, one that does not extends what is done |
| Particles.RunEachEnd | dicomfix/plan.py:68-69 | a loop that processed every element raised nothing |
| Particles.WithParticles | dicomfix/plan.py:74-84 | writing the particle column keeps the number of rows |
| Particles.ConvertLayers | dicomfix/plan.py:69-84 | converting a field's layers keeps their number |
| Particles.ConvertFields | dicomfix/plan.py:68-84 | converting the fields keeps their number |
| Particles.ConvertLayerSucceeds | dicomfix/plan.py:67-84 | a layer converts exactly when its table has a particle column and, without a beam model, its measured energy is in the stopping-power domain; otherwise the IndexError of the column or the ValueError of `dedx_air` |
| Particles.ConvertLayerParticles | dicomfix/plan.py:71-84 | after conversion each row's particles are its MU times the coefficient (the model's particles per MU, or the factor over the stopping power of air) times the field scaling; positions and MU are kept |
| Particles.ConvertLayerLookups | dicomfix/plan.py:71-77 | with a beam model the measured energy, energy spread and spot size come from the model at the nominal energy; without one they are kept |
| Particles.ConvertLayer | dicomfix/plan.py:69-84 | the conversion of a layer keeps its number of spots and changes nothing else than the coefficient, measured energy, energy spread, spot table and spot size |
| Particles.ParticlesWritten | dicomfix/plan.py:74-84 | each row gets its particle number and nothing else changes |
| Particles.ConvertLayersAll | dicomfix/plan.py:69-84 | a field's layers convert exactly when each does on its own |
| Particles.ConvertFieldsAll | dicomfix/plan.py:68-84 | the fields convert exactly when each does on its own |
| Particles.Mus | dicomfix/plan.py:105 | the MU column |
| Particles.ParticleColumn | dicomfix/plan.py:108 | the particle column |
| Particles.AsSpots | dicomfix/plan.py:100-104 | the rows of the older layout read as spots: one spot per row, in order, with the row's x, y and MU, so the layer extents are those of the spot records |
| Particles.LayerTotalsMeaning | dicomfix/plan.py:99-108 | a layer's count is its row count, its totals the column sums, its extents bound every row and are attained, and it is marked non-empty once it carries MU, never marked empty again |
| Particles.FirstEmpty | dicomfix/plan.py:99-101 | the first layer without rows, where `min()` raises |
| Particles.Totalled | dicomfix/plan.py:99-108 | the layers before it are totalled |
| Particles.CumMus | dicomfix/plan.py:111 | the layer MU totals |
| Particles.CumParticles | dicomfix/plan.py:110 | the layer particle totals |
| Particles.XMins | dicomfix/plan.py:113-114 | the layer x minima |
| Particles.XMaxs | dicomfix/plan.py:115-116 | the layer x maxima |
| Particles.YMins | dicomfix/plan.py:118-119 | the layer y minima |
| Particles.YMaxs | dicomfix/plan.py:120-121 | the layer y maxima |
| Particles.TotalFields | dicomfix/plan.py:90-121 | the second loop keeps the number of fields |
| Particles.FieldTotals | dicomfix/plan.py:90-121 | the totals keep the layers; they are computed without error exactly when every layer has a spot, and otherwise the ValueError of `min`/`max` on an empty spot table is raised |
| Particles.FieldTotalsMeaning | dicomfix/plan.py:90-121 | after the totals each layer holds its own totals, the field MU and particles are the sums over layers, and the field extents include 0.0 and bound every layer's extents |
| Particles.FieldExtentsAttained | dicomfix/plan.py:93-121 | each field extent is 0.0 or the extent of one of its layers |
| Particles.AccumulatedSums | dicomfix/plan.py:110-111 | the accumulated field totals are the sums of the layer totals |
| Particles.AccumulatedBounds | dicomfix/plan.py:93-121 | the accumulated extents include 0.0 and bound every layer's extents |
| Particles.AccumulatedAttained | dicomfix/plan.py:93-121 | each accumulated extent is 0.0 or a layer's extent |
| Particles.TotalFieldsAll | dicomfix/plan.py:90-121 | the second loop succeeds exactly when each field's totals do, each on its own |
| Particles.FieldApplies | dicomfix/plan.py:65-121 | a field goes through both loops exactly when every layer has a particle column and a row and, without a beam model, an energy in the domain |
| Particles.ApplyModelMeaning | dicomfix/plan.py:65-121 | `apply_beammodel` succeeds exactly when every layer is convertible, and then field j is field j converted and totalled |
| Particles.ApplyModel | dicomfix/plan.py:65-121 | `apply_beammodel` keeps the number of fields |
| Particles.ConvertLayersLoop | dicomfix/plan.py:69-84 | the layer loop gives the specified conversion |
| Particles.TotalledSnoc | dicomfix/plan.py:99-108 | one more layer totalled extends the totalled layers by it |
| Particles.FieldTotalsStop | dicomfix/plan.py:99-121 | the second loop stops at the first layer without rows or after the last |
| Particles.AccumulateLayers | dicomfix/plan.py:99-121 | the layer loop of the totals gives the totalled layers and the accumulated field attributes, up to the first layer without rows |
| Particles.TotalsLoop | dicomfix/plan.py:90-121 | the totals of one field, or the exception of its first layer without rows |
| Particles.ConvertFieldsLoop | dicomfix/plan.py:67-84 | the first loop over the fields gives the specified conversion |
| Particles.TotalFieldsLoop | dicomfix/plan.py:90-121 | the second loop over the fields gives the specified totals |
| Plans.BeamPlan.constructor | dicomfix/plan.py:33-63 | a plan object holds exactly the header, fields, factor, scaling and flips given |
| Plans.BeamPlan.ApplyBeamModel | dicomfix/plan.py:65-121 | the plan's fields become the converted and totalled fields, or the state reached when the exception is raised, and nothing else changes |
| Plans.BeamPlan.Export | dicomfix/plan.py:139-225 | the files written and the flipped spot tables are those of the export specification, and nothing else of the plan changes |
| Loader.LoadSucceeds | dicomfix/export.py:28-56 | a file loads exactly when its reader succeeds and every layer read converts; an exception of the reader is the exception of the load |
| Loader.LoadMeaning | dicomfix/export.py:46-56 | the plan loaded is the plan read with each field converted and totalled and the requested flips set; header, factor, scaling and field count are the reader's |
| Loader.Read | dicomfix/export.py:31-43 | a suffix other than .pld, .dcm and .rst raises ValueError; .rst gives a default plan with the scaling; .dcm without pydicom a default plan |
| Loader.LoadWith | dicomfix/export.py:28-56 | an unknown suffix raises ValueError and an exception of the reader is that of the load; a plan loaded has the reader's header and number of fields and the flips asked for |
| Loader.LoadAsWritten | dicomfix/export.py:28-56 | `load` as written, with the DICOM reader without particle column: the same unknown-suffix, reader-exception, header, field-count and flip properties |
| Loader.Load | dicomfix/export.py:28-56 | `load` with the corrected DICOM reader: the same unknown-suffix, reader-exception, header, field-count and flip properties |
| Loader.UnknownSuffixRaises | dicomfix/export.py:31-43 | a suffix other than .pld, .dcm or .rst raises ValueError |
| Loader.SuffixCaseIgnored | dicomfix/export.py:31 | the suffix is compared lower-cased, so `.PLD` selects the PLD reader |
| Loader.RasterLoadsEmpty | dicomfix/export.py:249-254 | a raster file always loads, to a plan without fields that keeps the scaling and the flips asked for |
| Loader.DicomWithoutPydicom | dicomfix/export.py:176-183 | without pydicom a DICOM file loads to a default plan: no fields and scaling 1.0 whatever scaling was asked for |
| Loader.DicomAsWrittenFails | dicomfix/export.py:240-243 | as written, any DICOM plan with a layer fails to load, because its spot tables have three columns and the conversion reads a fourth |
| Loader.DicomLoads | dicomfix/export.py:28-56 | with the particle column added, a DICOM plan read loads exactly when there is a beam model or every layer's energy is in the stopping-power domain |
| Loader.PldLoads | dicomfix/export.py:28-56 | a PLD file loads exactly when it is read and each layer has a spot and, without a beam model, an energy in the domain |
| Loader.ReadFile | dicomfix/export.py:31-43 | the dispatch on the suffix gives the reader's result, with the DICOM reader as written or, with `corrected`, with the particle column |
| Loader.LoadPlan | dicomfix/export.py:28-56 | `load` returns a fresh plan object holding the loaded plan exactly when loading succeeds, else the exception; `corrected` selects the DICOM reader with the particle column, otherwise it is `load` as written |
| PldReader.TokenReal | dicomfix/export.py:100-101 | `float(tokens[k].strip())` gives the parsed number, IndexError past the last token and ValueError for text that is not a number |
| PldReader.TokenInt | dicomfix/export.py:102 | `int(tokens[k].strip())` likewise |
| PldReader.PldHeaderMeaning | dicomfix/export.py:93-102 | the first line is read exactly when it has at least ten tokens of which 7 and 8 are numbers and 9 an integer; tokens 1 to 6 become the stripped patient, plan and beam texts; a line with fewer than eight tokens raises IndexError |
| PldReader.ParsePldHeader | dicomfix/export.py:93-102 | the header raises only IndexError or ValueError, IndexError when the line has fewer than eight tokens; a header read had at least ten tokens and its layer count is token 9 |
| PldReader.ParseElementMeaning | dicomfix/export.py:145-158 | an element is read exactly when its tokens 1 to 3 are numbers; coordinates within eps of zero and MU below eps become 0.0, other values are kept, and the particle column repeats the MU |
| PldReader.ParseElement | dicomfix/export.py:145-158 | an element raises only IndexError or ValueError; a row read had four tokens and is clean: its particles equal its MU, its MU is 0.0 or at least eps, and each coordinate is 0.0 or at least eps away from it |
| PldReader.Parsed | dicomfix/export.py:144-150 | every element line read on its own |
| PldReader.KeptSnoc | dicomfix/export.py:161-165 | one more element adds its row to the kept spots when it carries MU, and to the dropped count otherwise |
| PldReader.KeepMeaning | dicomfix/export.py:144-165 | the element loop raises exactly when an element cannot be read; otherwise it yields the elements with MU in file order, and kept plus dropped is every element |
| PldReader.KeptClean | dicomfix/export.py:152-165 | the spots kept are clean and carry MU of at least eps |
| PldReader.LayerHeaderMeaning | dicomfix/export.py:115-131 | a layer line read takes sigma, nominal energy, MU and spot count from tokens 1 to 4, its window length from token 4 unstripped, and the repaint count from token 5 when present, else 0 |
| PldReader.LayerHeader | dicomfix/export.py:111-131 | a "Layer" line raises only IndexError or ValueError, IndexError with fewer than five tokens; with exactly five the repaint count is 0 |
| PldReader.SliceBound | dicomfix/export.py:117 | a normalised slice bound lies within the list |
| PldReader.WindowMeaning | dicomfix/export.py:114-117 | the elements of the layer on line i are the `count` lines after it, or the lines up to the end of the file when it ends sooner |
| PldReader.ShapeLayerRows | dicomfix/export.py:144-167 | a layer that is shaped holds the kept elements, and its declared count less the dropped ones is its row count or -1 |
| PldReader.ParseLayerRows | dicomfix/export.py:111-167 | a layer read holds exactly its kept elements, all clean, and the reshape count fits its rows |
| PldReader.ParseLayerShaped | dicomfix/export.py:111-167 | a layer read had a readable "Layer" line and is the layer shaped from its header and the spots its element lines kept |
| PldReader.KeptRowsClean | dicomfix/export.py:152-165 | every spot kept from element lines is clean and has at least eps MU |
| PldReader.ParsedClean | dicomfix/export.py:145-158 | each element read on its own is clean |
| PldReader.ParseLayerAttributes | dicomfix/export.py:120-142 | a layer read has a particle column, a square spot size from its sigma, its energy as nominal and measured energy, zero energy spread, and the header's MU, repaint count and spot count |
| PldReader.LayerPastEnd | dicomfix/export.py:114-167 | a consistent layer line that reaches past the end of the file makes the reshape raise |
| PldReader.NumberedLines | dicomfix/export.py:106-107 | the loop visits the lines after the first, each with its own number |
| PldReader.HeadersFrom | dicomfix/export.py:106-108 | every layer line is a line after the first, with its own number, and contains "Layer" |
| PldReader.ReadHeaders | dicomfix/export.py:106-168 | the line loop succeeds exactly when every layer line gives a layer, and then yields those layers in order |
| PldReader.LoadPldSucceeds | dicomfix/export.py:59-171 | a PLD file is read exactly when its first line is and each later "Layer" line gives a layer |
| PldReader.LoadPldField | dicomfix/export.py:69-102 | a plan read has one field with the header's MU, cset weight and layer count as written, the field and plan scaling, the patient and plan texts, and the IBA factor 5.1821e8 |
| PldReader.LoadPldLayers | dicomfix/export.py:106-168 | the field holds one layer per "Layer" line after the first, in order, each read from its own line |
| PldReader.LoadPldParticleColumns | dicomfix/export.py:162-167 | every layer of a plan read has a particle column |
| PldReader.LoadPldConvertible | dicomfix/export.py:59-171 | a plan read converts to particles exactly when each layer kept a spot and, without a beam model, has an energy in the stopping-power domain |
| PldReader.LoadPld | dicomfix/export.py:59-171 | a header line with fewer than eight tokens raises IndexError before any layer is read; a plan read has one field, NumberOfFields 1, the IBA factor and the scaling asked for |
| PldReader.KeepRows | dicomfix/export.py:144-165 | the element loop appends the rows with MU and decrements the spot count once for each other row |
| PldReader.ReadLayer | dicomfix/export.py:111-167 | reading one layer gives the specified layer or exception |
| PldReader.ReadPld | dicomfix/export.py:59-171 | `load_PLD_IBA` gives the specified plan or exception |
| DicomReader.Pairs | dicomfix/export.py:232 | the flat position map reshaped to (x, y) pairs, one per spot, in order |
| DicomReader.SpotRows | dicomfix/export.py:240 | the spot table holds each spot's position and MU in order; the corrected table also fills the particle column with the MU |
| DicomReader.SetWeightsMeaning | dicomfix/export.py:233-236 | meterset weights are read exactly when a spot count was assigned and they match it (or it is -1); the MU are the weights times the MU per weight, and their sum is the weights' sum times it |
| DicomReader.ControlPointMeaning | dicomfix/export.py:224-245 | a control point appends a layer exactly when it carries a spot size and the MU sum after it is positive; the layer holds the current positions and MU, the MU sum, the spot size and the current energy as both energies, and has a particle column exactly when corrected |
| DicomReader.AbsorbKeeps | dicomfix/export.py:224-236 | the attributes of a control point keep the MU sum equal to the sum of the current MU |
| DicomReader.StepKeeps | dicomfix/export.py:224-245 | every control point keeps that and appends only layers with spots, a positive MU equal to their sum, and a particle column only when corrected |
| DicomReader.PointStepKeeps | dicomfix/export.py:221-245 | the body of the control-point loop keeps the same |
| DicomReader.ReadFieldMeaning | dicomfix/export.py:204-219 | field i takes dose and MU from referenced beam i, the final meterset weight and layer count from ion beam i and the MU per weight as their quotient; no ion beam i raises IndexError and a final weight of 0.0 raises ZeroDivisionError |
| DicomReader.ReadField | dicomfix/export.py:204-219 | no ion beam with the field's index raises IndexError and a zero final meterset weight ZeroDivisionError; a field read takes its MU and dose from the referenced beam and keeps the scaling |
| DicomReader.ReadFieldGood | dicomfix/export.py:204-245 | every layer of a field read is good, and the MU sum stays in step |
| DicomReader.FieldStepKeeps | dicomfix/export.py:204-245 | the body of the field loop keeps the layers good |
| DicomReader.DicomLayersGood | dicomfix/export.py:174-246 | every layer of a DICOM plan read has spots, an MU equal to the sum of its spots' MU, equal nominal and measured energy, and a particle column exactly in the corrected reader |
| DicomReader.FieldsMeaning | dicomfix/export.py:202-215 | the field loop yields one field per referenced beam, each read with the ion beam of its index |
| DicomReader.LoadDicomMeaning | dicomfix/export.py:174-246 | a plan read has one field per referenced beam with that beam's MU and MU per weight, the declared number of beams, the Varian factor 17247566.1 and the scaling |
| DicomReader.LoadDicom | dicomfix/export.py:174-246 | without pydicom the reader returns a default plan; a plan read has the declared number of beams, the Varian factor and the scaling asked for |
| DicomReader.ReadPoints | dicomfix/export.py:221-245 | the control-point loop gives the specified layers and carried values, or the exception |
| DicomReader.ReadDicom | dicomfix/export.py:174-246 | `load_DICOM_VARIAN` gives the specified plan or exception |
| SpotExport.OutsFrom | dicomfix/plan.py:163-225 | what each step of a loop writes on its own, in order |
| SpotExport.EmitFromLength | dicomfix/plan.py:176-200 | a loop that updates a list in place keeps its length |
| SpotExport.EmitFromAll | dicomfix/plan.py:176-225 | such a loop finishes without raising exactly when every step does, and then element k is step k's result and the output is what the steps write, in order |
| SpotExport.EmitFromErrors | dicomfix/plan.py:176-225 | the exception the loop raises is one that some step raises |
| SpotExport.EmitStart | dicomfix/plan.py:176-225 | before the loop nothing is processed and nothing written |
| SpotExport.EmitAdvance | dicomfix/plan.py:176-225 | a step that raises ends the loop with its partial update and the rest untouched; one that does not extends what is done and written |
| SpotExport.EmitEnd | dicomfix/plan.py:176-225 | a loop that processed every element raised nothing |
| SpotExport.FlipRow | dicomfix/plan.py:196-200 | the flips change only the position in the table, never the MU or particle columns |
| SpotExport.TwoDigits | dicomfix/plan.py:169 | the field number is written with at least two digits |
| SpotExport.Stem | dicomfix/plan.py:169 | the stem followed by the suffix is the file name |
| SpotExport.FlippedRows | dicomfix/plan.py:195-200 | every spot of the table flipped, in order |
| SpotExport.LayerLines | dicomfix/plan.py:176-223 | a layer marked empty writes no line, any other one line per spot |
| SpotExport.ConcatSingletons | dicomfix/plan.py:163-225 | one file per field concatenates to the list of those files |
| SpotExport.ConcatOne | dicomfix/plan.py:168-174 | when only field m writes, the files are field m's |
| SpotExport.ConcatEmpty | dicomfix/plan.py:168-174 | when no field writes, there are no files |
| SpotExport.ExportLayer | dicomfix/plan.py:176-223 | a layer written keeps its spot count and all but its spot table; the only exception is the IndexError of a table without particle column; a layer marked empty is skipped unchanged |
| SpotExport.ExportField | dicomfix/plan.py:176-224 | a field written keeps its layer count and all but its layers; it raises only a missing particle column or, without layers, IndexError in the log line |
| SpotExport.Export | dicomfix/plan.py:154-225 | `Plan.export` keeps the number of fields; it raises ValueError exactly for a column count other than 5, 6 and 7, and then writes nothing and changes nothing; any other exception is a missing particle column or a field without layers |
| SpotExport.ExportLayerMeaning | dicomfix/plan.py:176-223 | a layer is written without raising exactly when it is marked empty, has a particle column or has no spots; then its spots are flipped in place and it writes one line per spot, converted to GeV and cm with x and y exchanged for flip_xy; otherwise its first spot is flipped and IndexError is raised |
| SpotExport.ExportFieldMeaning | dicomfix/plan.py:176-224 | a field is written without raising exactly when it has a layer and every layer is writable; then each layer is written on its own and the lines are theirs in order; the exception is IndexError of a missing particle column or of `layers[0]` |
| SpotExport.ExportFieldStepMeaning | dicomfix/plan.py:163-225 | one field of the field loop is skipped unless selected, else written on its own under its file name |
| SpotExport.ExportFieldsSucceed | dicomfix/plan.py:163-225 | with 5, 6 or 7 columns the export raises exactly when a selected field cannot be written |
| SpotExport.ExportFieldsMeaning | dicomfix/plan.py:163-225 | without raising, each selected field is written on its own, the others are left as they are, and the files are the selected fields', in order |
| SpotExport.FilesOf | dicomfix/plan.py:163-225 | the files the fields write, one list per field |
| SpotExport.ExportColumns | dicomfix/plan.py:154-161 | the column-format ValueError is raised exactly for a count other than 5, 6 and 7, and then nothing is written and the plan is unchanged |
| SpotExport.ExportAllFields | dicomfix/plan.py:164-169 | with field number 0 a successful export writes one file per field, named `<stem>_<jj><suffix>` with the two-digit field number |
| SpotExport.AllFilesNumbered | dicomfix/plan.py:164-169 | with field number 0 every field has its file under its numbered name |
| SpotExport.ExportOneField | dicomfix/plan.py:170-174 | with the number of an existing field a successful export writes that field alone, under the name given |
| SpotExport.ExportNoField | dicomfix/plan.py:170-174 | with any other field number nothing is written and the plan is unchanged |
| SpotExport.FlipRowTwice | dicomfix/plan.py:196-200 | flipping a spot twice gives it back |
| SpotExport.ExportLayerTwice | dicomfix/plan.py:176-223 | writing a writable layer twice leaves its table as it was |
| SpotExport.ExportFieldTwice | dicomfix/plan.py:176-224 | writing a writable field twice leaves it as it was |
| SpotExport.ExportTwiceRestores | dicomfix/plan.py:139-225 | the flips are applied to the plan itself, so a second export with the same options gives back the plan as it was and raises no more than the first |
| SpotExport.ExportLayerLoop | dicomfix/plan.py:176-223 | the spot loop of a layer gives the specified written layer |
| SpotExport.ExportFieldLoop | dicomfix/plan.py:176-224 | the layer loop of a field gives the specified written field |
| SpotExport.ExportFieldAt | dicomfix/plan.py:163-225 | the body of the field loop gives the specified step |
| SpotExport.ExportLoop | dicomfix/plan.py:154-225 | `Plan.export` gives the specified fields, files and exception |
| Text.Split | dicomfix/export.py:93 | `split(sep)` yields at least one piece, none of which holds the separator |
| Text.Join | dicomfix/export.py:93 | reference for the split: joining keeps the first piece in front and is at least as long as the pieces with one separator between each two |
| Text.JoinSplit | dicomfix/export.py:93 | the pieces of a split, joined with the separator, give back the line |
| Text.SplitCount | dicomfix/export.py:93-112 | a split yields one piece more than the line has separators, which decides the token counts the readers test |
| Text.SplitJoin | dicomfix/config.py:54 | splitting a join of separator-free pieces gives back the pieces |
| Text.SpacesFrom | dicomfix/export.py:94 | the first non-whitespace position at or after i |
| Text.SpacesBefore | dicomfix/export.py:94 | the position after the last non-whitespace character before j |
| Text.Strip | dicomfix/export.py:94-102 | `strip()` is no longer than the text, neither starts nor ends with whitespace, is empty for all-whitespace text and keeps a text that neither starts nor ends with whitespace |
| Text.StripMeaning | dicomfix/export.py:94-102 | `strip()` keeps a contiguous part of the text that neither starts nor ends with whitespace and removes only whitespace around it |
| Text.StripIdempotent | dicomfix/export.py:94-102 | stripping twice strips nothing more |
| Text.LowerChar | dicomfix/export.py:31 | `lower()` on ASCII: an upper-case ASCII letter becomes its lower-case letter, and every other character is kept (non-ASCII case mapping is not modelled) |
| Text.Lower | dicomfix/export.py:31 | `lower()` restricted to ASCII case mapping: the result has the same length and each character is lowered as Text.LowerChar does |
| Text.ContainsAt | dicomfix/export.py:108 | `"Layer" in line` holds exactly when "Layer" occurs in the line at some position |
| Text.LastIndex | dicomfix/export.py:31 | the position of the last occurrence of a character, as `rfind`, or -1 when there is none |
| Text.Suffix | dicomfix/export.py:31 | `Path.suffix`: empty, or an end of the path of at least two characters that starts with a dot, holds no other dot and no '/', and does not follow a '/' (so the leading dot of a hidden file is no suffix) |
| Text.BaseName | dicomfix/export.py:31 | the last component of a path: an end of the path without '/', preceded by '/' when it is not the whole path |
| Text.LastMark | dicomfix/export.py:31 | the position of the last '.' or '/', or -1: no dot and no slash follows it |
| Text.NoSlashBaseName | dicomfix/export.py:31 | a path without '/' is its own last component |
| Text.SuffixOfBaseName | dicomfix/export.py:31 | the suffix of `dir/name` is the suffix of `name`, whatever the directories are called |
| Text.DirectoryDotNoSuffix | dicomfix/export.py:31 | a dot in a directory is no suffix: a last component without a dot has none |
| Text.HiddenFileNoSuffix | dicomfix/export.py:31 | the leading dot of a hidden file is no suffix: `dir/.pld` has none |
| Text.FileSuffix | dicomfix/export.py:31 | a last component `stem.ext` with a non-empty stem and extension has the suffix `.ext` |
| Text.LastMarkIs | dicomfix/export.py:31 | a position holding '.' or '/' (or -1) after which there is neither is the last mark |
| Text.BaseNameAfter | dicomfix/export.py:31 | the last component of `dir/name` is `name` when `name` holds no '/' |
| Text.SuffixAfter | dicomfix/export.py:31 | the suffix of `dir/name` is that of `name` when `name` holds no '/' |
| Text.LastDotOf | dicomfix/export.py:31 | in `stem.ext`, with no '/' and no dot in the extension, the last mark is the dot before `ext` |

## Left out

- PldReader.LoadPld: assumes the older layer record. With the `Layer` dataclass of `dicomfix/layer.py`, which has no `spotsize` field and whose `n_spots` is a read-only property, the keyword call at `dicomfix/export.py:135-142` raises TypeError on the first "Layer" line of a PLD file; the model builds the older record instead.
- PldReader.LoadPldSucceeds: states success for the older layer record; with `dicomfix/layer.py` as shipped, a PLD file with a "Layer" line raises TypeError at `dicomfix/export.py:135-142`.
- DicomReader.LoadDicom: assumes the older layer record, whose positional order is spots, spot size, nominal and measured energy, spread, MU, repaint count and spot count. With `dicomfix/layer.py` as shipped, the positional call at `dicomfix/export.py:243` binds the spot size to `energy_nominal`, the spread to `cum_mu`, the MU to `cum_particles` and the spot count to `mu_to_part_coef`.
- Particles.ApplyModel: assumes the older layer record. With `dicomfix/layer.py` as shipped, `layer.n_spots = …` at `dicomfix/plan.py:100` raises AttributeError for any field with a layer, because `n_spots` is a property without a setter.
- Particles.ApplyModelMeaning: states success for the older layer record only; with `dicomfix/layer.py` as shipped, `apply_beammodel` raises AttributeError at `dicomfix/plan.py:100` once a field has a layer.
- Plans.BeamPlan.ApplyBeamModel: as Particles.ApplyModel, it assumes the older layer record; with `dicomfix/layer.py` as shipped the source raises AttributeError at `dicomfix/plan.py:100`.
- Loader.Load: assumes the older layer record. With `dicomfix/layer.py` as shipped, `load` of a PLD file with a layer raises TypeError at `dicomfix/export.py:135-142`, and of any plan with a layer AttributeError at `dicomfix/plan.py:100`.
- Loader.LoadSucceeds: states success for the older layer record; the TypeError and AttributeError of the shipped `dicomfix/layer.py` (see Loader.Load) are outside it.
- Loader.PldLoads: states success for the older layer record; with `dicomfix/layer.py` as shipped, the TypeError at `dicomfix/export.py:135-142` is raised first.
- Loader.DicomLoads: the corrected four-column table, on the older layer record; with `dicomfix/layer.py` as shipped it would next meet the AttributeError at `dicomfix/plan.py:100`.
- Reading and writing files is left out as I/O. This covers `pydicom.dcmread` and `save_as`, `DicomUtil.save`, `load_dicom` and the weights-file `open` in `rescale_plan`. The layer factors, the file text and the DICOM data set are arguments instead.
- `Plan.export` writing files is left out as I/O. A written file is its name, its column count and its lines as numbers. The text formatting of the numbers and the header text are not modelled, and neither is the parent directory of the output path.
- Logging, the `print` diagnostics, `inspect`, `inspect_all` and `diagnose` are left out because they only print. Two logging lines can raise: the `min` of an empty list in `set_repainting`, which is modelled, and the position read of the discard warning in `apply_rescale_factor`, which is not (see the Rescale lines below).
- Rescale.Pass1Errors: the error set leaves out one exception: the model assumes that a control point holds at least two position entries per spot weight, as a well-formed plan does, and does not model the IndexError that the discard warning of `apply_rescale_factor` raises otherwise (`dicomfix/dicomutil.py:300-301` reads `ScanSpotPositionMap[2*k]` and `[2*k+1]` for each discarded spot k).
- Rescale.RescaleBeamsErrors: the same gap as Rescale.Pass1Errors: the model assumes that a control point holds at least two position entries per spot weight, as a well-formed plan does, and does not model the IndexError that the discard warning of `apply_rescale_factor` raises otherwise (`dicomfix/dicomutil.py:300-301` reads `ScanSpotPositionMap[2*k]` and `[2*k+1]` for each discarded spot k).
- Rescale.ApplyRescale: the exception list has the same gap as Rescale.Pass1Errors: the model assumes that a control point holds at least two position entries per spot weight, as a well-formed plan does, and does not model the IndexError that the discard warning of `apply_rescale_factor` raises otherwise (`dicomfix/dicomutil.py:300-301` reads `ScanSpotPositionMap[2*k]` and `[2*k+1]` for each discarded spot k).
- Rescale.Pass1NoFactors: "raises nothing" holds under the same assumption: the model assumes that a control point holds at least two position entries per spot weight, as a well-formed plan does, and does not model the IndexError that the discard warning of `apply_rescale_factor` raises otherwise (`dicomfix/dicomutil.py:300-301` reads `ScanSpotPositionMap[2*k]` and `[2*k+1]` for each discarded spot k).
- Rescale.RescaleBeamsNoFactors: "rescales without an exception" holds under the same assumption: the model assumes that a control point holds at least two position entries per spot weight, as a well-formed plan does, and does not model the IndexError that the discard warning of `apply_rescale_factor` raises otherwise (`dicomfix/dicomutil.py:300-301` reads `ScanSpotPositionMap[2*k]` and `[2*k+1]` for each discarded spot k).
- Rescale.ApplyRescaleNoFactors: the same gap as Rescale.RescaleBeamsNoFactors: the model assumes that a control point holds at least two position entries per spot weight, as a well-formed plan does, and does not model the IndexError that the discard warning of `apply_rescale_factor` raises otherwise (`dicomfix/dicomutil.py:300-301` reads `ScanSpotPositionMap[2*k]` and `[2*k+1]` for each discarded spot k).
- DicomUtilities.DicomUtil.ApplyRescaleFactor: inherits the gap of Rescale.ApplyRescale, and so do `RescalePlan`, `RescaleDose` and `Modify`, which run it. A plan with fewer than two position entries per spot weight can raise IndexError in the source where the model rescales.
- `print_dicom_spot_comparison`, `print_spot_values` and `DicomFix.print_spot_comparison` are left out because they sample at random and only print. `modify` calls the first of these before the range shifter and repainting edits; the model runs those edits in the same order with the print left out.
- `fix_raystation` is left out: it is tag presence and deletion plumbing with UID generation. `modify`'s first step starts from the plan after that fix.
- `export_racehorse`, `dicomfix/export_topas.py` and `dicomfix/dicomexport.py` are export writers and are not part of this model.
- The `dedx_air` formula, `get_fwhm` and the beam model's interpolants are function parameters, because they rely on logarithms, exponentials, square roots and scipy interpolation. Only the domain guard of `dedx_air` and the positivity of the fit inside it are modelled.
- `float()` and `int()` on text are parameters that return None where Python raises ValueError. Which strings parse, and what they parse to, is not modelled.
- Text.Lower: lowers ASCII letters only. Python's `str.lower` also lowers non-ASCII capitals and can change the length (U+0130 becomes two characters); neither is modelled. The suffix dispatch of `load` is unaffected, because no non-ASCII character lowers to a letter of `.pld`, `.dcm` or `.rst`.
- Text.LowerChar: maps upper-case ASCII letters only, for the reason given for Text.Lower.
- Text.IsSpace: covers the ASCII whitespace characters only, because `str.strip` on non-ASCII whitespace is outside what the files read.
- Floating-point rounding is not modelled; all arithmetic is exact over the reals.
- Repaint.RepaintPoint: for a negative n the model writes NumberOfScanSpotPositions 0 where the source writes the count times n, because the count is a nat here. Every even control point then raises the ValueError of `min` anyway, so `set_repainting` stops at the first control point of the first field that has one.
- Text.Suffix: no path normalisation is modelled. This covers trailing '/' characters, repeated separators and Windows backslash separators, so the suffix is taken from the text after the last '/'.
- DicomUtilities.DicomUtil.SetRangeShifter: installs the thickness as written (see Findings). The corrected thickness is modelled by FieldOps.SetRangeShifter with `corrected` set, which the class does not use.
- `set_current_date` reads the clock. The model takes the date and time strings as arguments.
- DICOM attributes are typed fields of the plan value. A missing tag, and the KeyError or AttributeError that `pydicom` raises for it, are not modelled, except where the source tests for presence: the optional control-point attributes of the DICOM loader and the range shifter sequence.
- A layer with a single spot, where `pydicom` gives a scalar weight (`NumberOfScanSpotPositions == 1`), is taken to hold a one-element list. The normalisation at `dicomfix/dicomutil.py:274-277` is therefore modelled as always done.
- `modify` reads the `range_shifter` and `repainting` options, but `Config` defines neither, so in the source those lines raise AttributeError. The model's `modify` takes an options record that holds them.
- Attaching `beam_model` to the plan in `load` is left out: the model passes the beam model to `apply_beammodel` as an argument.
- The window length of a PLD layer is `int(tokens[4])` of the unstripped token. It is modelled as the `int()` parameter applied to that text; how Python treats surrounding whitespace is part of that parameter.
- `DicomFix.copy` writes the reviewer name to the misspelled attribute `ReviwerName` (`dicomfix/dicom_handler.py:196-197`). That attribute is outside the plan value, so the model's copy leaves the reviewer name unchanged.
- `dicomfix/main.py`, the GUI and web front ends, `dicomfix/config_parser.py` and the package metadata are not part of this model.
- `dicomfix/field.py` and `dicomfix/spot.py` are records only; they appear as datatypes.

## Findings

| source | as written | input that shows it | evidently intended | confidence | as-written member | corrected member |
|---|---|---|---|---|---|---|
| dicomfix/dicomutil.py:488 | the water-equivalent thickness is 57.0 mm for RS_2CM and 22.8 mm for any other device | `set_range_shifter("RS_5CM")`: the 5 cm device gets 22.8 mm, and the 2 cm device gets 57.0 mm; both are 1.14 times the other device's nominal thickness | RS_2CM 22.8 mm and RS_5CM 57.0 mm, so the thicker device is the thicker in water | not executed | FieldOps.ShifterWetSwapped | FieldOps.ShifterWetMonotone |
| dicomfix/export.py:240 | the DICOM reader builds spot tables `np.c_[_pos, _mu]` with three columns, but `apply_beammodel` reads and writes column 3 (`dicomfix/plan.py:74,84`) | any `.dcm` plan with a control point that has a spot size and positive MU: `load` raises IndexError in `apply_beammodel` | a fourth column for the particle number, as the PLD reader builds (`dicomfix/export.py:162`) | not executed | Loader.DicomAsWrittenFails | Loader.DicomLoads |
