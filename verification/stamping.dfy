/**
 * Cost arithmetic of the automotive stamping analyzer: price unit conversions,
 * blank weight, the thickness-reduction label, input validation against the
 * materials table, the scenario calculation (which rewrites the proposed material
 * of the input record in thickness mode), the report's interpretation lines and
 * the in-place update of the cost parameters.
 */
module Stamping {

  import opened Numbers

  // ---------------------------------------------------------------- unit conversions

  /** Hundredweights (cwt) in one metric ton. */
  const CwtPerTonne: real := 22.046

  /** $/MT to $/cwt. */
  function MtToCwt(perTonne: real): (perCwt: real)
    ensures perCwt * CwtPerTonne == perTonne
  {
    perTonne / CwtPerTonne
  }

  /** $/cwt to $/MT: the inverse of MtToCwt. */
  function CwtToMt(perCwt: real): (perTonne: real)
    ensures MtToCwt(perTonne) == perCwt
  {
    perCwt * CwtPerTonne
  }

  /** Converting $/MT to $/cwt and back gives the original price. */
  lemma MtCwtRoundTrip(perTonne: real)
    ensures CwtToMt(MtToCwt(perTonne)) == perTonne
  {
  }

  /** Converting $/cwt to $/MT and back gives the original price. */
  lemma CwtMtRoundTrip(perCwt: real)
    ensures MtToCwt(CwtToMt(perCwt)) == perCwt
  {
  }

  /** $/MT to $/kg. */
  function PerKg(perTonne: real): (perKg: real)
    ensures perKg * 1000.0 == perTonne
  {
    perTonne / 1000.0
  }

  /** Blank area in cm^2 from its length and width in mm. */
  function AreaCm2(lengthMm: real, widthMm: real): (area: real)
    ensures area * 100.0 == lengthMm * widthMm
  {
    lengthMm * widthMm / 100.0
  }

  /** Blank weight in kg: area (cm^2) times thickness (mm -> cm) gives cm^3, times density (g/cm^3), in kg. */
  function Weight(density: real, areaCm2: real, thicknessMm: real): (kg: real)
    ensures kg == KgPerMm(density, areaCm2) * thicknessMm
  {
    (areaCm2 * thicknessMm / 10.0) / 1000000.0 * density
  }

  /** Weight of one millimetre of thickness. */
  function KgPerMm(density: real, areaCm2: real): (k: real)
    ensures k * 10000000.0 == density * areaCm2
  {
    density * areaCm2 / 10000000.0
  }

  /** The weight is linear in the thickness: zero at zero, additive in thickness. */
  lemma WeightIsLinearInThickness(density: real, areaCm2: real, t1: real, t2: real)
    ensures Weight(density, areaCm2, 0.0) == 0.0
    ensures Weight(density, areaCm2, t1 + t2) == Weight(density, areaCm2, t1) + Weight(density, areaCm2, t2)
  {
    var k := KgPerMm(density, areaCm2);
    assert k * (t1 + t2) == k * t1 + k * t2;
  }

  /** The weight is linear in the density. */
  lemma WeightIsLinearInDensity(d1: real, d2: real, areaCm2: real, thicknessMm: real)
    ensures Weight(d1 + d2, areaCm2, thicknessMm) == Weight(d1, areaCm2, thicknessMm) + Weight(d2, areaCm2, thicknessMm)
  {
    assert (d1 + d2) * areaCm2 == d1 * areaCm2 + d2 * areaCm2;
    assert KgPerMm(d1 + d2, areaCm2) == KgPerMm(d1, areaCm2) + KgPerMm(d2, areaCm2);
    var k1, k2 := KgPerMm(d1, areaCm2), KgPerMm(d2, areaCm2);
    assert (k1 + k2) * thicknessMm == k1 * thicknessMm + k2 * thicknessMm;
  }

  // ---------------------------------------------------------------- thickness reduction label

  datatype Colour = Green | Blue | Orange

  /** The reduction label: a percentage and its colour. */
  datatype Label = Label(percent: real, colour: Colour)

  /** (current - optimized) / current, in percent. */
  function ReductionPercent(current: real, optimized: real): (p: real)
    requires current != 0.0
    ensures p * current == (current - optimized) * 100.0
  {
    (current - optimized) / current * 100.0
  }

  /**
   * The label shown for the two thicknesses. A zero current thickness shows 0.0%
   * and leaves the colour as it was.
   */
  function ThicknessLabel(current: real, optimized: real, previous: Colour): (l: Label)
    ensures current == 0.0 ==> l == Label(0.0, previous)
    ensures current != 0.0 ==> l.percent * current == (current - optimized) * 100.0
    ensures current != 0.0 ==> (l.colour == Green <==> l.percent > 20.0)
    ensures current != 0.0 ==> (l.colour == Blue <==> 10.0 < l.percent <= 20.0)
    ensures current != 0.0 ==> (l.colour == Orange <==> l.percent <= 10.0)
  {
    if current == 0.0 then Label(0.0, previous)
    else
      var p := ReductionPercent(current, optimized);
      Label(p, if p > 20.0 then Green else if p > 10.0 then Blue else Orange)
  }

  // ---------------------------------------------------------------- materials and validation

  /** The two properties of a material the cost arithmetic reads. */
  datatype Grade = Grade(density: real, maxThicknessReduction: real)

  /** Density (g/cm^3) and largest recommended thickness reduction of each known material. */
  const Materials: map<string, Grade> := map[
    "Mild Steel" := Grade(7.85, 0.15),
    "High Strength Steel" := Grade(7.85, 0.10),
    "Aluminum 6061" := Grade(2.7, 0.20),
    "Aluminum 5052" := Grade(2.68, 0.25),
    "Advanced High Strength Steel" := Grade(7.85, 0.08),
    "Magnesium AZ31" := Grade(1.74, 0.30)
  ]

  /** Every material in the table has a positive density, so only a zero area or thickness gives a zero weight. */
  lemma DensitiesArePositive(name: string)
    requires name in Materials
    ensures Materials[name].density > 0.0
  {
  }

  /** With a positive density the weight is zero exactly when the blank has no area or no thickness. */
  lemma ZeroWeightMeansNoBlank(density: real, lengthMm: real, widthMm: real, thicknessMm: real)
    requires density > 0.0
    ensures Weight(density, AreaCm2(lengthMm, widthMm), thicknessMm) == 0.0
            <==> lengthMm * widthMm == 0.0 || thicknessMm == 0.0
  {
    var area := AreaCm2(lengthMm, widthMm);
    var k := KgPerMm(density, area);
    assert k == 0.0 <==> area == 0.0;
  }

  /** The entries of the input form, as parsed. */
  datatype InputValues = InputValues(
    partLength: real, partWidth: real,
    currentThickness: real, optimizedThickness: real,
    currentCostPerTonne: real, proposedCostPerTonne: real,
    annualVolume: int, shiftsPerDay: int, operatingDays: int,
    coilWidth: real, coilWeight: real, coilChangeTime: real,
    currentMaterial: string, proposedMaterial: string, analysisType: string)

  datatype Failure = UnknownCurrentMaterial | UnknownProposedMaterial | UnknownMaterial | DivisionByZero

  datatype Result<T> = Ok(value: T) | Err(failure: Failure)

  /**
   * Validation of the parsed inputs: both materials must be in the table and the
   * current thickness non-zero. The result is whether the thickness-reduction
   * warning is raised; it never makes validation fail.
   */
  function ValidateInputs(v: InputValues): (r: Result<bool>)
    ensures v.currentMaterial !in Materials ==> r == Err(UnknownCurrentMaterial)
    ensures v.currentMaterial in Materials && v.proposedMaterial !in Materials ==> r == Err(UnknownProposedMaterial)
    ensures v.currentMaterial in Materials && v.proposedMaterial in Materials && v.currentThickness == 0.0 ==> r == Err(DivisionByZero)
    ensures r.Ok? <==> v.currentMaterial in Materials && v.proposedMaterial in Materials && v.currentThickness != 0.0
    ensures r.Ok? ==> (r.value <==> ReductionPercent(v.currentThickness, v.optimizedThickness)
                                     > Materials[v.currentMaterial].maxThicknessReduction * 100.0)
  {
    if v.currentMaterial !in Materials then Err(UnknownCurrentMaterial)
    else if v.proposedMaterial !in Materials then Err(UnknownProposedMaterial)
    else if v.currentThickness == 0.0 then Err(DivisionByZero)
    else
      var actual := (v.currentThickness - v.optimizedThickness) / v.currentThickness;
      var p := ReductionPercent(v.currentThickness, v.optimizedThickness);
      assert p == actual * 100.0 by {
        assert p * v.currentThickness == actual * 100.0 * v.currentThickness;
      }
      Ok(actual > Materials[v.currentMaterial].maxThicknessReduction)
  }

  /** The warning on the form agrees with the label: it is raised exactly when the label shows more than the maximum. */
  lemma WarningMatchesLabel(v: InputValues, previous: Colour)
    requires ValidateInputs(v).Ok?
    ensures ValidateInputs(v).value <==>
            ThicknessLabel(v.currentThickness, v.optimizedThickness, previous).percent
              > Materials[v.currentMaterial].maxThicknessReduction * 100.0
  {
  }

  // ---------------------------------------------------------------- perform_calculations

  /** Which comparison is made: "material", "thickness", anything else is both changes at once. */
  datatype Scenario = MaterialSwitch | ThicknessOnly | Both

  function ScenarioOf(analysisType: string): (s: Scenario)
    ensures s == MaterialSwitch <==> analysisType == "material"
    ensures s == ThicknessOnly <==> analysisType == "thickness"
    ensures s == Both <==> analysisType != "material" && analysisType != "thickness"
  {
    if analysisType == "material" then MaterialSwitch
    else if analysisType == "thickness" then ThicknessOnly
    else Both
  }

  datatype Results = Results(
    currentWeight: real, proposedWeight: real,
    weightSaving: real, weightReductionPct: real,
    currentMaterialCost: real, proposedMaterialCost: real,
    materialSavingPerPart: real, annualMaterialSaving: real,
    currentPartsPerStrip: real, proposedPartsPerStrip: real,
    coilChangeSaving: real, partArea: real, scenario: Scenario,
    currentCostPerKg: real, proposedCostPerKg: real)

  predicate Known(v: InputValues)
  {
    v.currentMaterial in Materials && v.proposedMaterial in Materials
  }

  /** The current material at the current thickness: zero only for a blank without area or thickness. */
  function CurrentWeight(v: InputValues): (w: real)
    requires Known(v)
    ensures w == 0.0 <==> v.partLength * v.partWidth == 0.0 || v.currentThickness == 0.0
  {
    DensitiesArePositive(v.currentMaterial);
    ZeroWeightMeansNoBlank(Materials[v.currentMaterial].density, v.partLength, v.partWidth, v.currentThickness);
    Weight(Materials[v.currentMaterial].density, AreaCm2(v.partLength, v.partWidth), v.currentThickness)
  }

  /** The thickness of the compared blank: the current one when only the material changes. */
  function ProposedThickness(v: InputValues): real
  {
    if ScenarioOf(v.analysisType) == MaterialSwitch then v.currentThickness else v.optimizedThickness
  }

  /** The compared blank: the proposed material, the optimized thickness, or both. */
  function ProposedWeight(v: InputValues): (w: real)
    requires Known(v)
    ensures ScenarioOf(v.analysisType) == MaterialSwitch ==>
      w == Weight(Materials[v.proposedMaterial].density, AreaCm2(v.partLength, v.partWidth), v.currentThickness)
    ensures ScenarioOf(v.analysisType) == ThicknessOnly ==>
      w == Weight(Materials[v.currentMaterial].density, AreaCm2(v.partLength, v.partWidth), v.optimizedThickness)
    ensures ScenarioOf(v.analysisType) == Both ==>
      w == Weight(Materials[v.proposedMaterial].density, AreaCm2(v.partLength, v.partWidth), v.optimizedThickness)
    ensures w == 0.0 <==> v.partLength * v.partWidth == 0.0 || ProposedThickness(v) == 0.0
  {
    var area := AreaCm2(v.partLength, v.partWidth);
    DensitiesArePositive(v.currentMaterial);
    DensitiesArePositive(v.proposedMaterial);
    ZeroWeightMeansNoBlank(Materials[v.currentMaterial].density, v.partLength, v.partWidth, v.optimizedThickness);
    ZeroWeightMeansNoBlank(Materials[v.proposedMaterial].density, v.partLength, v.partWidth, ProposedThickness(v));
    match ScenarioOf(v.analysisType)
    case MaterialSwitch => Weight(Materials[v.proposedMaterial].density, area, v.currentThickness)
    case ThicknessOnly => Weight(Materials[v.currentMaterial].density, area, v.optimizedThickness)
    case Both => Weight(Materials[v.proposedMaterial].density, area, v.optimizedThickness)
  }

  /** Parts cut from one coil: 85 % of the coil weight over the part weight. */
  function PartsPerStrip(coilWeight: real, partWeight: real): (n: real)
    requires partWeight != 0.0
    ensures n * partWeight == 0.85 * coilWeight
  {
    (coilWeight / partWeight) * 0.85
  }

  /**
   * The yearly cost of the coil changes saved: the change count difference times the
   * change time in hours times the operator rate. It is proportional to the weight
   * saving: lighter parts mean more parts per coil and fewer coil changes.
   */
  function CoilChangeSaving(volume: real, coilWeight: real, current: real, proposed: real,
                            changeMinutes: real, operatorRate: real): (s: real)
    requires coilWeight != 0.0 && current != 0.0 && proposed != 0.0
    ensures s * (0.85 * coilWeight) * 60.0 == volume * (current - proposed) * changeMinutes * operatorRate
  {
    var a, b := volume / PartsPerStrip(coilWeight, current), volume / PartsPerStrip(coilWeight, proposed);
    var c := 0.85 * coilWeight;
    CoilChanges(volume, coilWeight, current);
    CoilChanges(volume, coilWeight, proposed);
    assert (a - b) * c == volume * (current - proposed);
    var k := changeMinutes * operatorRate;
    var s := (a - b) * changeMinutes / 60.0 * operatorRate;
    assert s * 60.0 == (a - b) * k;
    assert s * c * 60.0 == ((a - b) * c) * k by {
      assert s * c * 60.0 == (s * 60.0) * c;
    }
    s
  }

  /**
   * The comparison of two blanks of the given weights: weight and cost savings, the
   * annual material saving, parts per coil and the coil-change saving.
   */
  function Compare(current: real, proposed: real, currentPerKg: real, proposedPerKg: real,
                   coilWeight: real, volume: real, changeMinutes: real, operatorRate: real,
                   area: real, scenario: Scenario): (res: Results)
    requires current != 0.0 && proposed != 0.0 && coilWeight != 0.0
    ensures res.currentWeight == current && res.proposedWeight == proposed
    ensures res.weightSaving == current - proposed
    ensures res.weightReductionPct == ReductionPercent(current, proposed)
    ensures res.currentMaterialCost == current * currentPerKg && res.proposedMaterialCost == proposed * proposedPerKg
    ensures res.materialSavingPerPart == res.currentMaterialCost - res.proposedMaterialCost
    ensures res.annualMaterialSaving == res.materialSavingPerPart * volume
    ensures res.currentPartsPerStrip * current == 0.85 * coilWeight
    ensures res.proposedPartsPerStrip * proposed == 0.85 * coilWeight
    ensures res.coilChangeSaving * (0.85 * coilWeight) * 60.0 == volume * (current - proposed) * changeMinutes * operatorRate
    ensures res.partArea == area && res.scenario == scenario
    ensures res.currentCostPerKg == currentPerKg && res.proposedCostPerKg == proposedPerKg
  {
    var currentCost, proposedCost := current * currentPerKg, proposed * proposedPerKg;
    var perPart := currentCost - proposedCost;
    Results(current, proposed, current - proposed, ReductionPercent(current, proposed),
            currentCost, proposedCost, perPart, perPart * volume,
            PartsPerStrip(coilWeight, current), PartsPerStrip(coilWeight, proposed),
            CoilChangeSaving(volume, coilWeight, current, proposed, changeMinutes, operatorRate),
            area, scenario, currentPerKg, proposedPerKg)
  }

  /**
   * The cost comparison for one set of inputs: the current blank against the blank
   * the scenario proposes, costed at the entered $/MT prices converted to $/kg. An
   * unknown material fails the table lookup; a zero current weight, proposed weight
   * or coil weight fails a division.
   */
  function Calculation(v: InputValues, operatorRate: real): (r: Result<Results>)
    ensures !Known(v) <==> r == Err(UnknownMaterial)
    ensures Known(v) ==>
      (r == Err(DivisionByZero) <==> CurrentWeight(v) == 0.0 || ProposedWeight(v) == 0.0 || v.coilWeight == 0.0)
    ensures Known(v) ==>
      (r == Err(DivisionByZero) <==> v.partLength * v.partWidth == 0.0 || v.currentThickness == 0.0
                                     || ProposedThickness(v) == 0.0 || v.coilWeight == 0.0)
    ensures r.Ok? ==>
      r.value == Compare(CurrentWeight(v), ProposedWeight(v), PerKg(v.currentCostPerTonne), PerKg(v.proposedCostPerTonne),
                         v.coilWeight, v.annualVolume as real, v.coilChangeTime, operatorRate,
                         AreaCm2(v.partLength, v.partWidth), ScenarioOf(v.analysisType))
  {
    if !Known(v) then Err(UnknownMaterial)
    else
      var current, proposed := CurrentWeight(v), ProposedWeight(v);
      if current == 0.0 || proposed == 0.0 || v.coilWeight == 0.0 then Err(DivisionByZero)
      else
        Ok(Compare(current, proposed, PerKg(v.currentCostPerTonne), PerKg(v.proposedCostPerTonne),
                   v.coilWeight, v.annualVolume as real, v.coilChangeTime, operatorRate,
                   AreaCm2(v.partLength, v.partWidth), ScenarioOf(v.analysisType)))
  }

  /** Coil changes per year: the volume over the parts per coil is volume times part weight over 85 % of the coil. */
  lemma CoilChanges(volume: real, coilWeight: real, partWeight: real)
    requires coilWeight != 0.0 && partWeight != 0.0
    ensures volume / PartsPerStrip(coilWeight, partWeight) * (0.85 * coilWeight) == volume * partWeight
  {
    var n := PartsPerStrip(coilWeight, partWeight);
    assert n != 0.0;
    assert volume / n * n == volume;
    calc {
      volume / n * (0.85 * coilWeight);
      volume / n * (n * partWeight);
      (volume / n * n) * partWeight;
      volume * partWeight;
    }
  }

  /** A relative reduction is unchanged when both quantities are scaled by the same non-zero factor. */
  lemma ReductionIsScaleFree(k: real, a: real, b: real, ka: real, kb: real)
    requires ka != 0.0 && ka == k * a && kb == k * b
    ensures a != 0.0
    ensures ReductionPercent(ka, kb) == ReductionPercent(a, b)
  {
    var p, q := ReductionPercent(ka, kb), ReductionPercent(a, b);
    assert p * (k * a) == (k * a - k * b) * 100.0;
    assert k * (p * a) == k * ((a - b) * 100.0);
    assert p * a == q * a;
  }

  /** In thickness mode both blanks are the current material: weight per mm times each thickness. */
  lemma ThicknessModeWeights(v: InputValues)
    requires Known(v) && ScenarioOf(v.analysisType) == ThicknessOnly
    ensures var k := KgPerMm(Materials[v.currentMaterial].density, AreaCm2(v.partLength, v.partWidth));
            CurrentWeight(v) == k * v.currentThickness && ProposedWeight(v) == k * v.optimizedThickness
  {
  }

  /** In thickness mode the weight reduction equals the thickness reduction: the density cancels. */
  lemma ThicknessModeReduction(v: InputValues, operatorRate: real)
    requires Calculation(v, operatorRate).Ok? && ScenarioOf(v.analysisType) == ThicknessOnly
    ensures v.currentThickness != 0.0
    ensures Calculation(v, operatorRate).value.weightReductionPct == ReductionPercent(v.currentThickness, v.optimizedThickness)
  {
    var r := Calculation(v, operatorRate);
    var current, proposed := CurrentWeight(v), ProposedWeight(v);
    assert current != 0.0 && r.value.weightReductionPct == ReductionPercent(current, proposed);
    ThicknessModeWeights(v);
    var k := KgPerMm(Materials[v.currentMaterial].density, AreaCm2(v.partLength, v.partWidth));
    ReductionIsScaleFree(k, v.currentThickness, v.optimizedThickness, current, proposed);
  }

  /** In material mode both blanks have the current thickness: each density times the same volume factor. */
  lemma MaterialModeWeights(v: InputValues)
    requires Known(v) && ScenarioOf(v.analysisType) == MaterialSwitch
    ensures var g := AreaCm2(v.partLength, v.partWidth) * v.currentThickness / 10000000.0;
            CurrentWeight(v) == g * Materials[v.currentMaterial].density
            && ProposedWeight(v) == g * Materials[v.proposedMaterial].density
  {
    var area, t := AreaCm2(v.partLength, v.partWidth), v.currentThickness;
    var dc, dp := Materials[v.currentMaterial].density, Materials[v.proposedMaterial].density;
    assert KgPerMm(dc, area) * t == dc * (area * t) / 10000000.0;
    assert KgPerMm(dp, area) * t == dp * (area * t) / 10000000.0;
  }

  /** In material mode the weight reduction is the relative density difference: the geometry cancels. */
  lemma MaterialModeReduction(v: InputValues)
    requires Known(v) && ScenarioOf(v.analysisType) == MaterialSwitch && CurrentWeight(v) != 0.0
    ensures ReductionPercent(CurrentWeight(v), ProposedWeight(v))
            == ReductionPercent(Materials[v.currentMaterial].density, Materials[v.proposedMaterial].density)
  {
    MaterialModeWeights(v);
    var g := AreaCm2(v.partLength, v.partWidth) * v.currentThickness / 10000000.0;
    ReductionIsScaleFree(g, Materials[v.currentMaterial].density, Materials[v.proposedMaterial].density,
                         CurrentWeight(v), ProposedWeight(v));
  }

  /** The input record as perform_calculations leaves it: thickness mode reports the current material as the proposed one. */
  function Overridden(v: InputValues): (w: InputValues)
    ensures Known(v) && ScenarioOf(v.analysisType) == ThicknessOnly ==> w == v.(proposedMaterial := v.currentMaterial)
    ensures !(Known(v) && ScenarioOf(v.analysisType) == ThicknessOnly) ==> w == v
    ensures w.currentMaterial == v.currentMaterial && Known(w) == Known(v)
  {
    if Known(v) && ScenarioOf(v.analysisType) == ThicknessOnly then v.(proposedMaterial := v.currentMaterial) else v
  }

  /** Recalculating from the rewritten record gives the same results: thickness mode never reads the proposed material. */
  lemma OverrideKeepsResults(v: InputValues, operatorRate: real)
    ensures Calculation(Overridden(v), operatorRate) == Calculation(v, operatorRate)
    ensures ValidateInputs(v).Ok? ==> ValidateInputs(Overridden(v)) == ValidateInputs(v)
  {
    if Known(v) && ScenarioOf(v.analysisType) == ThicknessOnly {
      var w := Overridden(v);
      assert Known(w);
      assert CurrentWeight(w) == CurrentWeight(v) && ProposedWeight(w) == ProposedWeight(v);
      assert w.analysisType == v.analysisType && w.coilWeight == v.coilWeight && w.annualVolume == v.annualVolume;
      assert w.partLength == v.partLength && w.partWidth == v.partWidth && w.coilChangeTime == v.coilChangeTime;
      assert w.currentCostPerTonne == v.currentCostPerTonne && w.proposedCostPerTonne == v.proposedCostPerTonne;
    }
  }

  // ---------------------------------------------------------------- display_results

  /** The yearly saving the report interprets: material saving plus coil-change saving. */
  function TotalAnnualSaving(res: Results): real
  {
    res.annualMaterialSaving + res.coilChangeSaving
  }

  /** Comparing a blank with itself at the same price saves nothing, so the report reads "EXTRA COST". */
  lemma SameBlankSavesNothing(weight: real, perKg: real, coilWeight: real, volume: real, changeMinutes: real,
                              operatorRate: real, area: real, scenario: Scenario)
    requires weight != 0.0 && coilWeight != 0.0
    ensures var res := Compare(weight, weight, perKg, perKg, coilWeight, volume, changeMinutes, operatorRate, area, scenario);
            TotalAnnualSaving(res) == 0.0 && Interpretation(TotalAnnualSaving(res)) == "EXTRA COST"
  {
    var res := Compare(weight, weight, perKg, perKg, coilWeight, volume, changeMinutes, operatorRate, area, scenario);
    var usable := 0.85 * coilWeight * 60.0;
    assert res.coilChangeSaving * usable == 0.0;
    assert res.coilChangeSaving == 0.0 by {
      if res.coilChangeSaving != 0.0 {
        NonZeroProduct(res.coilChangeSaving, usable, res.coilChangeSaving * usable);
      }
    }
  }

  /** "SAVINGS" when the total annual saving is positive, "EXTRA COST" otherwise. */
  function Interpretation(total: real): (s: string)
    ensures s == "SAVINGS" <==> total > 0.0
    ensures s == "EXTRA COST" <==> total <= 0.0
  {
    if total > 0.0 then "SAVINGS" else "EXTRA COST"
  }

  /** Annual material use in metric tons. */
  function AnnualTons(res: Results, annualVolume: int): (tons: real)
    ensures tons * 1000.0 == res.currentWeight * annualVolume as real
  {
    res.currentWeight * annualVolume as real / 1000.0
  }

  /** The total saving per metric ton used, 0 when the annual use is not positive. */
  function SavingPerTon(res: Results, annualVolume: int): (r: real)
    ensures AnnualTons(res, annualVolume) <= 0.0 ==> r == 0.0
    ensures AnnualTons(res, annualVolume) > 0.0 ==> r * AnnualTons(res, annualVolume) == TotalAnnualSaving(res)
  {
    var tons := AnnualTons(res, annualVolume);
    if tons > 0.0 then TotalAnnualSaving(res) / tons else 0.0
  }

  /** When material is used, the per-ton figure is positive exactly when the report reads "SAVINGS". */
  lemma PerTonAgreesWithInterpretation(res: Results, annualVolume: int)
    requires AnnualTons(res, annualVolume) > 0.0
    ensures SavingPerTon(res, annualVolume) > 0.0 <==> Interpretation(TotalAnnualSaving(res)) == "SAVINGS"
  {
    var tons := AnnualTons(res, annualVolume);
    var r := SavingPerTon(res, annualVolume);
    if r > 0.0 {
      assert r * tons > 0.0;
    }
  }

  // ---------------------------------------------------------------- state

  const OperatorRate := "operator_hourly_rate"

  /** The shop-floor cost parameters the analyzer starts with (USD). */
  const DefaultCostParams: map<string, real> := map[
    "energy_cost_per_kwh" := 0.12,
    OperatorRate := 35.0,
    "supervision_cost_per_operator" := 15.0,
    "maintenance_cost_per_hour" := 25.0,
    "equipment_depreciation_hourly" := 40.0,
    "facility_cost_per_hour" := 15.0,
    "tooling_cost_per_stroke" := 0.02,
    "quality_control_cost_per_part" := 0.50,
    "coil_handling_cost_per_ton" := 50.0,
    "scrap_processing_cost_per_kg" := 0.10,
    "shipping_cost_per_kg" := 0.25
  ]

  datatype Option<T> = Some(value: T) | None

  /** Index of the first entry whose text does not parse as a number, or |entries| when all parse. */
  function FirstUnparsed(entries: seq<(string, Option<real>)>): (k: nat)
    ensures k <= |entries|
    ensures k < |entries| ==> entries[k].1.None?
    ensures forall j | 0 <= j < k :: entries[j].1.Some?
  {
    if entries == [] then 0
    else if entries[0].1.None? then 0
    else 1 + FirstUnparsed(entries[1..])
  }

  /** The names the entries write. */
  function Names(entries: seq<(string, Option<real>)>): (names: set<string>)
    ensures forall j | 0 <= j < |entries| :: entries[j].0 in names
    ensures forall x | x in names :: exists j | 0 <= j < |entries| :: entries[j].0 == x
  {
    if entries == [] then {}
    else
      var init := entries[..|entries| - 1];
      assert forall j | 0 <= j < |init| :: init[j] == entries[j];
      Names(init) + {entries[|entries| - 1].0}
  }

  /** The parameters after writing the parsed entries in order, a later entry overwriting an earlier one. */
  function Applied(params: map<string, real>, entries: seq<(string, Option<real>)>): (m: map<string, real>)
    requires forall j | 0 <= j < |entries| :: entries[j].1.Some?
    ensures m.Keys == params.Keys + Names(entries)
  {
    if entries == [] then params
    else
      var last := entries[|entries| - 1];
      var m := Applied(params, entries[..|entries| - 1]);
      m[last.0 := last.1.value]
  }

  /** A parameter no entry names keeps its old value. */
  lemma {:induction false} AppliedUntouched(params: map<string, real>, entries: seq<(string, Option<real>)>, name: string)
    requires forall j | 0 <= j < |entries| :: entries[j].1.Some?
    requires name in params && forall j | 0 <= j < |entries| :: entries[j].0 != name
    ensures Applied(params, entries)[name] == params[name]
  {
    if entries != [] {
      var init := entries[..|entries| - 1];
      assert forall j | 0 <= j < |init| :: init[j] == entries[j];
      AppliedUntouched(params, init, name);
    }
  }

  /** A parameter ends with the value of the last entry that names it. */
  lemma {:induction false} AppliedLastWrite(params: map<string, real>, entries: seq<(string, Option<real>)>, name: string, j: nat)
    requires forall l | 0 <= l < |entries| :: entries[l].1.Some?
    requires j < |entries| && entries[j].0 == name
    requires forall l | j < l < |entries| :: entries[l].0 != name
    ensures Applied(params, entries)[name] == entries[j].1.value
  {
    if j < |entries| - 1 {
      var init := entries[..|entries| - 1];
      assert forall l | 0 <= l < |init| :: init[l] == entries[l];
      AppliedLastWrite(params, init, name, j);
    }
  }

  /** The parsed input record; perform_calculations rewrites it in place. */
  class InputRecord {
    var values: InputValues

    constructor (v: InputValues)
      ensures values == v
    {
      values := v;
    }
  }

  /** The analyzer's mutable state: the cost parameters edited on the costs tab. */
  class Analyzer {
    var costParams: map<string, real>

    /** The operator rate perform_calculations reads is always present. */
    predicate Valid()
      reads this
    {
      OperatorRate in costParams
    }

    constructor ()
      ensures costParams == DefaultCostParams
      ensures Valid()
    {
      costParams := DefaultCostParams;
    }

    /**
     * Writes each entry's parsed value under its name, in order, stopping at the
     * first entry that does not parse; the earlier writes stay. Returns whether
     * every entry parsed.
     */
    method UpdateCostParameters(entries: seq<(string, Option<real>)>) returns (ok: bool)
      requires Valid()
      modifies this
      ensures Valid()
      ensures ok <==> forall j | 0 <= j < |entries| :: entries[j].1.Some?
      ensures costParams == Applied(old(costParams), entries[..FirstUnparsed(entries)])
      ensures old(costParams).Keys <= costParams.Keys
    {
      var i := 0;
      while i < |entries|
        invariant 0 <= i <= |entries|
        invariant forall j | 0 <= j < i :: entries[j].1.Some?
        invariant costParams == Applied(old(costParams), entries[..i])
        invariant OperatorRate in costParams
      {
        match entries[i].1
        case None =>
          assert i == FirstUnparsed(entries) by { FirstUnparsedIs(entries, i); }
          return false;
        case Some(x) =>
          AppliedStep(old(costParams), entries, i);
          costParams := costParams[entries[i].0 := x];
          i := i + 1;
      }
      assert entries[..i] == entries;
      return true;
    }

    /**
     * perform_calculations: the results for the record, reading the operator rate;
     * with both materials known and thickness mode, the record's proposed material
     * becomes the current one before any division can fail.
     */
    method PerformCalculations(inputs: InputRecord) returns (r: Result<Results>)
      requires Valid()
      modifies inputs
      ensures r == Calculation(old(inputs.values), costParams[OperatorRate])
      ensures inputs.values == Overridden(old(inputs.values))
    {
      var v := inputs.values;
      if !Known(v) {
        return Err(UnknownMaterial);
      }
      if ScenarioOf(v.analysisType) == ThicknessOnly {
        inputs.values := v.(proposedMaterial := v.currentMaterial);
      }
      r := Calculation(v, costParams[OperatorRate]);
    }
  }

  /** Writing one more parsed entry updates that one name. */
  lemma AppliedStep(params: map<string, real>, entries: seq<(string, Option<real>)>, i: nat)
    requires i < |entries| && forall j | 0 <= j <= i :: entries[j].1.Some?
    ensures Applied(params, entries[..i + 1]) == Applied(params, entries[..i])[entries[i].0 := entries[i].1.value]
  {
    var e := entries[..i + 1];
    assert e[..|e| - 1] == entries[..i];
    assert e[|e| - 1] == entries[i];
  }

  /** The first unparsed index is the one before which everything parsed. */
  lemma FirstUnparsedIs(entries: seq<(string, Option<real>)>, i: nat)
    requires i < |entries| && entries[i].1.None?
    requires forall j | 0 <= j < i :: entries[j].1.Some?
    ensures FirstUnparsed(entries) == i
  {
  }
}
