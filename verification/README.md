# Heat treatment, Jominy analysis and stamping cost model

This project is a Dafny model of the computational core of three desktop tools.

- **Cooling simulator** (`HTSv8.2.py`): quenches a bar of steel with a water jet. It chooses grid-point counts from a resolution tier, then selects a stable time step. It then runs an explicit finite-difference solver for one of three geometries:
  - a square bar on a 2-D grid
  - a cylindrical bar on an axisymmetric (r, z) grid
  - a bar with a conical tip on a 1-D line

  While the loop runs, it samples the centre temperature at least 0.5 s apart.
- **Jominy analyzer** (`JomAnGUIv6.py`, class `JominyAnalyzer`): analyses one cooling curve. It cleans the (time, temperature) columns of NaN and infinities and adjusts the smoothing window. It computes cooling rates dT/dt, turning division by zero into NaN. It finds the t8/5 time (800 °C to 500 °C), the rate statistics inside that window and the first near-zero rate. Finally it summarises the curve.
- **Stamping cost analyzer** (`Budomariv2.3.1.py`) covers:
  - $/MT ↔ $/cwt conversion
  - the blank weight
  - the colour-coded thickness-reduction label
  - input validation against the materials table
  - the scenario calculation, which in thickness mode rewrites the proposed material of the input record
  - the report's savings interpretation and saving per ton
  - the in-place update of the cost parameters

Layout:

- `numbers.dfy`: `Min`, `Max`, `Abs`, `Pow`.
- `resolution.dfy`: tier table, the `max(3, n)` clamp, spacing, centre index.
- `timestep.dfy`: material and cooling parameters, the time-step selectors, the solver clock.
- `sampling.dfy`: the 0.5 s history sampler.
- `squarebar.dfy`, `cylindricalbar.dfy`, `conicalbar.dfy`: the solvers.
  - Each time step allocates a fresh grid that starts as a copy of the current one. Region by region, it is then overwritten from the old grid (the source's `T_new = T.copy()` followed by slice or loop updates).
  - Each `Step` is proved to write every node according to a per-node rule that reads only the old grid.
  - Each `Run` loop is proved to run until `t >= sim_time`, except where the cylindrical solver stops early, and to keep the history well formed.
- `jominy.dfy`: the curve analysis. Doubles are modelled by `Num = Fin(v) | NaN | Inf(positive)`.
- `stamping.dfy`: the cost arithmetic.
  - `Analyzer` is a class holding `costParams`, the dictionary the source updates in place.
  - `InputRecord` is the mutable inputs dictionary that `perform_calculations` rewrites.

## Model

| member | source | states |
|---|---|---|
| Numbers.Min | HTSv8.2.py:637 | the result is one of the arguments and bounds both from below |
| Numbers.Max | HTSv8.2.py:718 | the result is one of the arguments and bounds both from above |
| Numbers.Abs | JomAnGUIv6.py:1151 | the result is non-negative and equals x or -x |
| Resolution.ResolutionParams | HTSv8.2.py:551-570 | the tier/geometry table: two counts for square and cylindrical, one for conical, each between 12 and 50 |
| Resolution.FinerTierHasMorePoints | HTSv8.2.py:553-569 | a finer tier gives strictly more points on every axis of every geometry |
| Resolution.AtLeastThree | HTSv8.2.py:630-631 | the clamp max(3, n): at least 3 and at least n, equal to n when n >= 3 |
| Resolution.TableIsNeverClamped | HTSv8.2.py:627-631 | every table count passes the clamp unchanged |
| Resolution.Spacing | HTSv8.2.py:633-634 | spacing d with d (n - 1) = length, non-zero exactly when the length is |
| Resolution.CentreIndex | HTSv8.2.py:675-676 | min(n // 2, n - 1) is a valid index and equals n // 2 |
| Timestep.Diffusivity | HTSv8.2.py:636 | alpha rho cp = k, and alpha is non-zero exactly when k is |
| Timestep.StableBound | HTSv8.2.py:717 | the estimate b satisfies b (4 alpha) = safety spacing^2 |
| Timestep.SquareDt | HTSv8.2.py:637 | dt is at least 0.001 and at least the 0.25 estimate, and equals one of them |
| Timestep.ConicalDt | HTSv8.2.py:836 | dt is at least 0.001 and at least the 0.3 estimate, and equals one of them |
| Timestep.CylindricalDt | HTSv8.2.py:716-718 | dt lies in [0.001, 0.1]; it is the 0.1 estimate when that lies in range, else the bound it crossed |
| Timestep.BudgetShrinks | HTSv8.2.py:648-671 | each `t += dt` lowers floor((sim_time - t) / dt) by exactly one, so every time loop terminates |
| Timestep.ClockIsProduct | HTSv8.2.py:642-671 | the clock after n steps of dt from t = 0 equals n dt |
| Timestep.StepsAreBounded | HTSv8.2.py:648-671 | a loop with dt >= 0.001 runs at most 1000 sim_time + 1 steps |
| Sampling.Record | HTSv8.2.py:673-677 | a sample is appended exactly when the history is empty or 0.5 s have passed; lengths stay equal and spacing is kept |
| Sampling.RecordAfterStep | HTSv8.2.py:670-677 | after one step of dt > 0 the offered sample keeps the history in step with the clock: non-empty, spaced, first sample at dt, last within 0.5 s of t + dt, and a sample stored at t + dt is the offered value |
| Sampling.SpacedIsIncreasing | HTSv8.2.py:673-674 | stored times grow by at least 0.5 s per sample |
| SquareBar.UnwrittenNodesKeepValue | HTSv8.2.py:649-667 | the only nodes no update writes are the two top corners, which keep their value |
| SquareBar.FivePoint | HTSv8.2.py:652-653 | the interior update leaves a node whose four neighbours share its temperature unchanged |
| SquareBar.Face | HTSv8.2.py:657-667 | the convective face update leaves a node at the coolant temperature, with its inner neighbour there too, at the coolant temperature |
| SquareBar.NodeRule | HTSv8.2.py:649-668 | the value one step gives each node: bottom face with the jet, side faces, interior five-point update, top face, and the two top corners kept |
| SquareBar.CoolantGridIsSteady | HTSv8.2.py:649-668 | a grid uniformly at the coolant temperature is a fixed point of every node rule |
| SquareBar.WriteInteriorRow | HTSv8.2.py:652-653 | one interior row gets the five-point update; every other node is unchanged |
| SquareBar.WriteInterior | HTSv8.2.py:651-653 | every interior node gets the five-point update; boundary nodes are unchanged |
| SquareBar.WriteRow | HTSv8.2.py:657-658 | a row segment gets the convective face update against its inner neighbour; nothing else changes |
| SquareBar.WriteColumn | HTSv8.2.py:661-663 | a column segment gets the convective side update; nothing else changes |
| SquareBar.Step | HTSv8.2.py:649-668 | the new grid is fresh, same shape, and every node equals its rule applied to the old grid |
| SquareBar.RunCoeffs | HTSv8.2.py:643-667 | rx dx^2 = rz dz^2 = alpha dt; the jet and natural Biot factors times k are h_waterjet dz, h_natural dx and h_natural dz; the coolant temperature is passed through |
| SquareBar.RunDt | HTSv8.2.py:633-637 | the selected step is at least 0.001 |
| SquareBar.Run | HTSv8.2.py:648-677 | runs until t >= sim_time, t equals the clock after the step count, and the last step started before sim_time; history lengths equal, spaced, first sample at dt, last within 0.5 s of t, and the last sample taken at t holds the centre node; top corners unchanged |
| SquareBar.Simulate | HTSv8.2.py:625-677 | grid shape is the clamped table counts, plus the loop facts of Run, with the centre at min(n // 2, n - 1) and the top corners still at the initial temperature |
| CylindricalBar.SafeRadius | HTSv8.2.py:726-728 | the radius used in 1/r is never zero and equals i dr off the axis |
| CylindricalBar.Interior | HTSv8.2.py:734-745 | the interior update leaves a node whose four neighbours share its temperature unchanged |
| CylindricalBar.Centre | HTSv8.2.py:748-752 | the centreline update leaves a node whose neighbours share its temperature unchanged |
| CylindricalBar.AxialFace | HTSv8.2.py:757-773 | the bottom or top face update leaves a node at the coolant temperature, with its inner neighbour there too, at the coolant temperature |
| CylindricalBar.Outer | HTSv8.2.py:776-784 | the outer surface update leaves a node at the coolant temperature, with its inner neighbour there too, at the coolant temperature |
| CylindricalBar.NodeRule | HTSv8.2.py:731-786 | the value one step gives each node: the bottom and top face updates take precedence, then the centreline, the outer surface and the interior |
| CylindricalBar.CoolantGridIsSteady | HTSv8.2.py:731-786 | a grid uniformly at the coolant temperature is a fixed point of every node rule |
| CylindricalBar.WriteInteriorRow | HTSv8.2.py:734-745 | one radial row of interior nodes gets the cylindrical update; nothing else changes |
| CylindricalBar.WriteInterior | HTSv8.2.py:734-745 | every interior node gets the cylindrical update; boundary nodes are unchanged |
| CylindricalBar.WriteCentre | HTSv8.2.py:748-752 | the axis nodes (r = 0, interior z) get the symmetric update; nothing else changes |
| CylindricalBar.WriteAxialFace | HTSv8.2.py:757-773 | a whole z face (bottom with the jet, top with natural convection) gets the face update; other columns unchanged |
| CylindricalBar.WriteOuter | HTSv8.2.py:776-784 | the outer surface nodes (interior z) get the convective update with the 1/radius term; nothing else changes |
| CylindricalBar.Step | HTSv8.2.py:731-786 | the new grid is fresh, same shape, and every node equals its rule applied to the old grid |
| CylindricalBar.RunCoeffs | HTSv8.2.py:714-728 | the coefficients are defined (k, dr, dz, radius non-zero) |
| CylindricalBar.RunDt | HTSv8.2.py:711-718 | the selected step lies in [0.001, 0.1] |
| CylindricalBar.Settled | HTSv8.2.py:797-799 | the early-termination test: t > 10, at least two samples, the last two within 0.1 and the last below coolant + 50 |
| CylindricalBar.Run | HTSv8.2.py:730-799 | stops when t >= sim_time or after the early-termination test (t > 10, last two samples within 0.1, last below coolant + 50); clock, history and last-sample facts as for the square bar |
| CylindricalBar.Simulate | HTSv8.2.py:700-799 | grid shape is the clamped table counts, plus the loop facts of Run, with the radius diameter / 2 |
| ConicalBar.WriteDiffusion | HTSv8.2.py:849-851 | interior nodes get the 1-D diffusion update; both ends unchanged |
| ConicalBar.SubtractLoss | HTSv8.2.py:858-859 | interior nodes lose the natural-convection term computed from the old grid; both ends unchanged |
| ConicalBar.Diffuse | HTSv8.2.py:849-851 | the diffusion update leaves a node whose two neighbours share its temperature unchanged |
| ConicalBar.Loss | HTSv8.2.py:854-859 | the natural-convection loss vanishes at the coolant temperature |
| ConicalBar.Tip | HTSv8.2.py:855 | the tip update keeps a tip at the coolant temperature there |
| ConicalBar.NodeRule | HTSv8.2.py:846-859 | the value one step gives each node: free end with its loss, tip recurrence, interior diffusion minus loss |
| ConicalBar.CoolantBarIsSteady | HTSv8.2.py:846-859 | a line uniformly at the coolant temperature is a fixed point of every node rule |
| ConicalBar.Step | HTSv8.2.py:846-859 | the new line is fresh, same length, and every node equals its rule (free end, tip, interior diffusion minus loss) applied to the old line |
| ConicalBar.TipClosedForm | HTSv8.2.py:855 | after n steps the tip excess over the coolant is q^n times the initial excess |
| ConicalBar.RunCoeffs | HTSv8.2.py:835-855 | the coefficients are defined (k and dx non-zero) |
| ConicalBar.RunDt | HTSv8.2.py:830-836 | the selected step is at least 0.001 |
| ConicalBar.Run | HTSv8.2.py:845-867 | runs until t >= sim_time with the clock, history and last-sample facts, and the tip equals the tip recurrence after the step count |
| ConicalBar.Simulate | HTSv8.2.py:826-867 | line length is the clamped table count, plus the loop facts of Run; tip excess is q^steps (T_init - T_coolant) |
| Jominy.SeqMax | JomAnGUIv6.py:1298 | the maximum is an element and bounds every element |
| Jominy.SeqMin | JomAnGUIv6.py:1299 | the minimum is an element and is bounded by every element |
| Jominy.Variance | JomAnGUIv6.py:1289 | the population variance is non-negative |
| Jominy.Mean | JomAnGUIv6.py:1286 | np.mean of a non-empty series lies between its smallest and its largest element |
| Jominy.CleanData | JomAnGUIv6.py:1091-1095 | both cleaned columns have equal length, no longer than the input |
| Jominy.CleanRowOrigin | JomAnGUIv6.py:1094-1095 | every cleaned row is a row of the input with both values finite |
| Jominy.CleanDataAppend | JomAnGUIv6.py:1094-1095 | cleaning distributes over concatenation, so the input order is kept |
| Jominy.CleanDataRow | JomAnGUIv6.py:1094 | a single row is kept exactly when both values are finite |
| Jominy.AdjustedWindow | JomAnGUIv6.py:1100-1108 | the window is odd; if it fits it grows by at most one; a window longer than the series becomes the largest odd number w0 <= n when polyorder <= w0, and polyorder + 2 made odd (polyorder + 2..polyorder + 3) when w0 < polyorder |
| Jominy.Divide | JomAnGUIv6.py:1121 | the quotient is finite exactly when the divisor is non-zero, multiplies back to the dividend, and is NaN exactly for 0/0 |
| Jominy.InfToNaN | JomAnGUIv6.py:1124 | infinities become NaN, everything else is unchanged |
| Jominy.Gradient | JomAnGUIv6.py:1119-1120 | np.gradient keeps the length: g[0] = f[1] - f[0], g[n-1] = f[n-1] - f[n-2], and g[i] = (f[i+1] - f[i-1]) / 2 inside |
| Jominy.GradientOfLine | JomAnGUIv6.py:1119-1120 | on samples of a straight line the gradient is the slope everywhere, ends included |
| Jominy.ConstantRateIsReported | JomAnGUIv6.py:1116-1128 | evenly spaced times with a linearly falling or rising temperature give the constant rate s / h at every point |
| Jominy.CoolingRate | JomAnGUIv6.py:1116-1128 | same length as the input and never infinite; all NaN for fewer than two points; otherwise NaN exactly where the time gradient is zero, and the rate times the time gradient equals the temperature gradient |
| Jominy.InfCount | JomAnGUIv6.py:1279 | at most the length, and zero exactly when no entry is infinite |
| Jominy.NaNCount | JomAnGUIv6.py:1280 | at most the length, and zero exactly when no entry is NaN |
| Jominy.FiniteValues | JomAnGUIv6.py:1283 | every kept value is a finite entry of the input |
| Jominy.FiniteValuesEmpty | JomAnGUIv6.py:1283-1291 | no finite values are kept exactly when no entry is finite |
| Jominy.FiniteValuesContains | JomAnGUIv6.py:1283 | every finite entry is among the kept values |
| Jominy.SpansT85 | JomAnGUIv6.py:1134 | the 800/500 range test: a non-empty curve whose maximum reaches 800 and whose minimum reaches 500 |
| Jominy.SpanningCurveHasTwoPoints | JomAnGUIv6.py:1134-1140 | a curve passing the 800/500 range test has at least two points |
| Jominy.FindT85 | JomAnGUIv6.py:1130-1154 | finite exactly when the curve spans 800 to 500 and both interpolated times are finite; then it is non-negative and equals +/-(t500 - t800); otherwise NaN |
| Jominy.WindowSamples | JomAnGUIv6.py:1195-1216 | the (time, rate) pairs of the positions inside [t_start, t_end] with a valid rate, in order; no more than the input |
| Jominy.SampleOrigin | JomAnGUIv6.py:1195-1217 | every window sample is (time, rate) of a position inside [t_start, t_end] with a valid rate |
| Jominy.SampleComplete | JomAnGUIv6.py:1195-1217 | every position in the window with a valid rate contributes a sample |
| Jominy.FirstArgMin | JomAnGUIv6.py:1220-1221 | the position holds the smallest rate and every earlier rate is strictly larger (np.argmin) |
| Jominy.CoolingStatsT85 | JomAnGUIv6.py:1156-1235 | all NaN or all finite; finite only when the curve spans 800 to 500 and both times are finite; then the window's valid rates are non-empty, the average is their mean and the minimum their smallest value, which bounds every valid in-window rate and is attained at the reported time; min <= average; a valid in-window rate guarantees finite statistics |
| Jominy.TimeAtMinIsFirst | JomAnGUIv6.py:1220-1222 | the reported time is that of the first window sample attaining the minimum |
| Jominy.FirstNearZero | JomAnGUIv6.py:1247-1251 | the first position whose valid rate has magnitude below the threshold, with none before it |
| Jominy.PhaseChange | JomAnGUIv6.py:1237-1255 | finite only at the time of a near-zero rate with none earlier; NaN exactly when no rate is near zero, in particular when no rate is valid |
| Jominy.RateSummary | JomAnGUIv6.py:1283-1291 | all NaN exactly when no rate is finite, and a finite mean as soon as one rate is finite; otherwise the mean and population variance of the finite rates, and a min and max that are finite rates of the series and bound every finite rate, with min <= mean <= max and variance >= 0 |
| Jominy.AnalyzeAllCurves | JomAnGUIv6.py:1257-1313 | data_points is the cleaned length; the max and min temperatures are NaN exactly when cleaning leaves nothing (np.max/np.min of an empty series), never infinite, and otherwise bound every smoothed temperature; infinite count 0 and NaN count at most data_points; with no data t8/5, average rate and phase change are NaN, the window statistics are all NaN and the NaN count is 0; a finite average lies between finite min and max rates with non-negative variance; finite max and min temperatures are smoothed temperatures; and the rate summary, NaN count, phase-change time, t8/5 and t8/5 statistics are exactly those of the cleaned, smoothed curve and its cooling rates (RateSummary, NaNCount, PhaseChange, FindT85, CoolingStatsT85) |
| Stamping.MtToCwt | Budomariv2.3.1.py:427 | the $/cwt price times 22.046 is the $/MT price |
| Stamping.CwtToMt | Budomariv2.3.1.py:443 | converting the result back to $/cwt gives the input |
| Stamping.MtCwtRoundTrip | Budomariv2.3.1.py:422-452 | $/MT to $/cwt and back is the identity |
| Stamping.CwtMtRoundTrip | Budomariv2.3.1.py:422-452 | $/cwt to $/MT and back is the identity |
| Stamping.PerKg | Budomariv2.3.1.py:780-781 | the $/kg price times 1000 is the $/MT price |
| Stamping.AreaCm2 | Budomariv2.3.1.py:784 | the area in cm^2 times 100 is length times width in mm^2 |
| Stamping.KgPerMm | Budomariv2.3.1.py:852-855 | kilograms per mm of thickness times 10^7 equal density times area |
| Stamping.Weight | Budomariv2.3.1.py:852-855 | the weight is thickness times the per-mm weight |
| Stamping.WeightIsLinearInThickness | Budomariv2.3.1.py:852-855 | zero thickness weighs nothing and weight is additive in thickness |
| Stamping.WeightIsLinearInDensity | Budomariv2.3.1.py:852-855 | weight is additive in density |
| Stamping.ReductionPercent | Budomariv2.3.1.py:459 | the percentage p satisfies p current = (current - optimized) 100 |
| Stamping.ThicknessLabel | Budomariv2.3.1.py:454-470 | zero current thickness shows 0.0 and keeps the colour; otherwise the percentage, green iff > 20, blue iff in (10, 20], orange iff <= 10 |
| Stamping.DensitiesArePositive | Budomariv2.3.1.py:149-210 | every material in the table has positive density |
| Stamping.ZeroWeightMeansNoBlank | Budomariv2.3.1.py:852-855 | with a positive density the weight is zero exactly when the blank has no area or no thickness |
| Stamping.CurrentWeight | Budomariv2.3.1.py:787-790 | the current material at the current thickness; zero exactly when the blank has no area or the current thickness is zero |
| Stamping.ProposedThickness | Budomariv2.3.1.py:793-810 | the thickness the scenario compares: the current thickness in material mode, the optimized one otherwise |
| Stamping.ValidateInputs | Budomariv2.3.1.py:737-772 | unknown current material, then unknown proposed material, then zero thickness fail in that order; otherwise succeeds, with the warning raised exactly when the reduction exceeds the material's maximum |
| Stamping.WarningMatchesLabel | Budomariv2.3.1.py:764-770 | the warning fires exactly when the label's percentage exceeds 100 times the material's maximum reduction |
| Stamping.ScenarioOf | Budomariv2.3.1.py:793-810 | "material" selects the material switch, "thickness" the thickness change, anything else both |
| Stamping.ProposedWeight | Budomariv2.3.1.py:787-810 | per scenario: the proposed material at current thickness, the current material at optimized thickness, or the proposed material at optimized thickness; zero exactly when the blank has no area or the compared thickness is zero |
| Stamping.PartsPerStrip | Budomariv2.3.1.py:825-826 | parts times part weight equal 0.85 of the coil weight |
| Stamping.CoilChanges | Budomariv2.3.1.py:829-830 | coil changes times the usable coil weight equal the annual steel weight |
| Stamping.CoilChangeSaving | Budomariv2.3.1.py:829-831 | the saving times 0.85 coil times 60 equals volume times weight saving times change minutes times the operator rate |
| Stamping.Compare | Budomariv2.3.1.py:813-831 | every result field: weights, saving, reduction percentage, costs, per-part and annual saving, parts per strip, coil-change saving |
| Stamping.Calculation | Budomariv2.3.1.py:774-850 | fails on an unknown material and, for known materials, on division by zero exactly when a weight or the coil weight is zero, that is exactly when the blank has no area, a compared thickness is zero or the coil weight is zero; otherwise returns the comparison of the scenario's weights |
| Stamping.ReductionIsScaleFree | Budomariv2.3.1.py:818 | scaling both weights by the same factor leaves the reduction percentage unchanged |
| Stamping.ThicknessModeWeights | Budomariv2.3.1.py:787-803 | in thickness mode both weights are the same per-mm weight times the two thicknesses |
| Stamping.ThicknessModeReduction | Budomariv2.3.1.py:799-818 | in thickness mode the weight reduction equals the thickness reduction |
| Stamping.MaterialModeWeights | Budomariv2.3.1.py:787-797 | in material mode both weights are the same volume times the two densities |
| Stamping.MaterialModeReduction | Budomariv2.3.1.py:793-818 | in material mode the weight reduction equals the density reduction |
| Stamping.Overridden | Budomariv2.3.1.py:804 | with both materials known and thickness mode, the record with the proposed material replaced by the current one; in every other case the record unchanged |
| Stamping.OverrideKeepsResults | Budomariv2.3.1.py:799-804 | the override changes neither the calculation nor the validation outcome |
| Stamping.TotalAnnualSaving | Budomariv2.3.1.py:863 | annual material saving plus coil-change saving |
| Stamping.SameBlankSavesNothing | Budomariv2.3.1.py:813-864 | comparing a blank with itself at the same price gives a zero total saving and the report reads EXTRA COST |
| Stamping.Interpretation | Budomariv2.3.1.py:864 | "SAVINGS" exactly when the total annual saving is positive, otherwise "EXTRA COST" |
| Stamping.AnnualTons | Budomariv2.3.1.py:867 | tons times 1000 equal part weight times annual volume |
| Stamping.SavingPerTon | Budomariv2.3.1.py:868 | zero when no material is used, otherwise the rate that multiplied by the tons gives the total saving |
| Stamping.PerTonAgreesWithInterpretation | Budomariv2.3.1.py:863-868 | with material used, the per-ton saving is positive exactly when the report says SAVINGS |
| Stamping.FirstUnparsed | Budomariv2.3.1.py:715-718 | the position of the first entry that fails to parse, with every earlier entry parsed |
| Stamping.FirstUnparsedIs | Budomariv2.3.1.py:715-718 | an unparsable entry preceded only by parsed ones is the first failure |
| Stamping.Names | Budomariv2.3.1.py:716 | the set of entry names, both directions |
| Stamping.Applied | Budomariv2.3.1.py:716-717 | writing the entries into the dictionary gives the old keys plus the entry names |
| Stamping.AppliedUntouched | Budomariv2.3.1.py:716-717 | a parameter no entry names keeps its value |
| Stamping.AppliedLastWrite | Budomariv2.3.1.py:716-717 | a named parameter holds the value of its last entry |
| Stamping.AppliedStep | Budomariv2.3.1.py:716-717 | one more entry is one more dictionary assignment |
| Stamping.InputRecord.constructor | Budomariv2.3.1.py:737-756 | the record holds the parsed inputs |
| Stamping.Analyzer.constructor | Budomariv2.3.1.py:212-227 | the cost parameters start as the eleven defaults, operator rate 35.0 included |
| Stamping.Analyzer.UpdateCostParameters | Budomariv2.3.1.py:713-720 | succeeds exactly when every entry parses; the dictionary then holds the entries written in order up to the first failure, on top of the old values; no key is lost |
| Stamping.Analyzer.PerformCalculations | Budomariv2.3.1.py:774-850 | returns the calculation of the original inputs with the current operator rate, and leaves the input record overridden (proposed material := current material in thickness mode) |

## Left out

- Plotting, Excel export, message boxes, Tk widgets and file I/O of all three tools are not modelled. The GUI parsing of entries with `float()`/`int()` is not modelled either: parse results reach `UpdateCostParameters` as `Option` values and the validation as already-parsed `InputValues`.
- Floating point: the model computes with exact reals. Rounding and the signed zero of IEEE division are not modelled, so `Divide` yields NaN for 0/0 and a finite value otherwise, and infinities arise only from non-zero / zero.
- Savitzky-Golay smoothing (`savgol_filter`) and its moving-average fallback are the `smooth` parameter of `AnalyzeAllCurves`, constrained only to preserve the length. Only the window adjustment in front of the filter is modelled (`AdjustedWindow`).
- `interp1d` is the `interpolate` parameter, constrained never to return an infinity. An exception inside the interpolation is modelled as it returning NaN, which is how the source's `except` reports it.
- `np.exp(-h_waterjet dx / k)` in the conical tip update is the parameter `q`.
- Jominy.RateSummary: `cooling_rate_std` is reported as the population variance, because a square root of a real is not available.
- The solvers require a non-zero conductivity, rho cp, spacings and radius. In the source, rho cp = 0 (HTSv8.2.py:636, 714, 835) and k = 0 (HTSv8.2.py:637, 717, 836) raise `ZeroDivisionError` before the loop, as does a zero square width or height (HTSv8.2.py:645-646). A zero cylinder diameter raises at HTSv8.2.py:782 and a zero total length (cylinder height + cone height, HTSv8.2.py:828, which gives dx = 0 at HTSv8.2.py:833) raises at HTSv8.2.py:854, both once the loop runs (`sim_time > 0`). A zero cylinder height raises nothing: the numpy divisions in the loop produce inf/NaN temperatures. None of these runs is modelled.
- The unknown-tier `KeyError` of `get_resolution_params` cannot happen in the model, because `Tier` is an enumeration.
- `cone_angle`, the cylinder diameter of the conical bar and the `np.linspace` positions are used only for plotting, and are not modelled.
- `shifts_per_day`, `operating_days` and `coil_width` are parsed but never used in the arithmetic. They are carried in `InputValues` only.
- Currency exchange rates and the material properties other than density and maximum thickness reduction feed only the GUI tables and reports, so they are not modelled.
- The conversions write the rounded value (`:.2f`, `:.0f`) back into the entry. That rounding is not modelled; the round trips are stated for the exact values.
- SquareBar.Run, CylindricalBar.Run, ConicalBar.Run and their `Simulate` callers tie a stored temperature to the centre node only for a sample taken at the final step. Earlier samples are stated to be spaced and bounded, but their values are not related to earlier grids.
- Stamping.MaterialModeReduction is stated on the weights, not on `Calculation`'s result. Together with `Calculation`'s ensures (which give `weightReductionPct == ReductionPercent(current, proposed)`), it yields the same conclusion.
- The thickness-reduction label and the validation warning act only on the GUI. The label is returned as a `Label` value and the warning as the boolean of `ValidateInputs`.
