/**
 The land units of packages/domain/src/uaagro_domain/units.py in plain figures: what each is in acres,
 what a dose per unit comes to, and to how many decimals.
 */
module LandUnits {
  import opened Wrappers
  import opened Units

  /** `n` is the nearest whole number, halves away from zero. */
  predicate Rounds(x: real, n: int) {
    if x >= 0.0 then n as real - 0.5 <= x < n as real + 0.5 else n as real - 0.5 < x <= n as real + 0.5
  }

  function TenThousandths(n: int): real {
    n as real / 10000.0
  }

  function Hundredths(n: int): real {
    n as real / 100.0
  }

  /** `r` is `x` rounded to four decimals. */
  ghost predicate ToFour(x: real, r: real) {
    exists n: int :: r == TenThousandths(n) && Rounds(x * 10000.0, n)
  }

  /** And to two. */
  ghost predicate ToTwo(x: real, r: real) {
    exists n: int :: r == Hundredths(n) && Rounds(x * 100.0, n)
  }

  lemma AreaIsToFour(x: real)
    ensures ToFour(x, Quantize(x, AREA_SCALE))
  {
    NearestIsCharacterised(x * 10000.0, Nearest(x * 10000.0));
    assert Quantize(x, AREA_SCALE) == TenThousandths(Nearest(x * 10000.0));
  }

  lemma DoseIsToTwo(x: real)
    ensures ToTwo(x, Quantize(x, DOSE_SCALE))
  {
    NearestIsCharacterised(x * 100.0, Nearest(x * 100.0));
    assert Quantize(x, DOSE_SCALE) == Hundredths(Nearest(x * 100.0));
  }

  // ----- areas

  lemma InAcres(v: real, unit: LandUnit, bighaAcres: real, exact: real)
    requires Times(v, Factor(unit, bighaAcres)) == exact
    ensures ToFour(exact, ToAcres(v, unit, bighaAcres))
  {
    AreaIsToFour(exact);
  }

  /** An area in acres has four decimals; one stated in acres is only rounded. */
  lemma AcreIs(v: real, bighaAcres: real)
    ensures ToFour(v, ToAcres(v, Acre, bighaAcres))
  {
    assert Times(v, 1.0) == v;
    InAcres(v, Acre, bighaAcres, v);
  }

  /** A hectare has 2.471054 acres. */
  lemma HectareIs(v: real, bighaAcres: real)
    ensures ToFour(v * 2.471054, ToAcres(v, Hectare, bighaAcres))
  {
    InAcres(v, Hectare, bighaAcres, v * 2.471054);
  }

  /** A bigha is as large as it is said to be. */
  lemma BighaIs(v: real, bighaAcres: real)
    ensures ToFour(v * bighaAcres, ToAcres(v, Bigha, bighaAcres))
  {
    InAcres(v, Bigha, bighaAcres, v * bighaAcres);
  }

  /** And a katha is a twentieth of it. */
  lemma KathaIs(v: real, bighaAcres: real)
    ensures ToFour(v * (bighaAcres / 20.0), ToAcres(v, Katha, bighaAcres))
  {
    InAcres(v, Katha, bighaAcres, v * (bighaAcres / 20.0));
  }

  lemma InUnit(acres: real, unit: LandUnit, bighaAcres: real, acresInUnit: real)
    requires Factor(unit, bighaAcres) == acresInUnit != 0.0
    ensures var back := FromAcres(acres, unit, bighaAcres);
      back.Ok? && ToFour(acres / acresInUnit, back.value)
  {
    AreaIsToFour(acres / acresInUnit);
  }

  /** A stated area must be more than nothing, and is then kept as stated. */
  lemma AreaIsPositive(v: real, unit: LandUnit, bighaAcres: real)
    ensures v > 0.0 ==> MakeArea(v, unit, bighaAcres) == Ok(LandArea(v, unit, bighaAcres))
    ensures v <= 0.0 ==> MakeArea(v, unit, bighaAcres) == Err(NotPositive)
  {
  }

  /** And back from acres; a bigha of no size, and its katha, are refused. */
  lemma FromAcresIs(acres: real, bighaAcres: real)
    ensures var back := FromAcres(acres, Acre, bighaAcres);
      back.Ok? && ToFour(acres, back.value)
    ensures var back := FromAcres(acres, Hectare, bighaAcres);
      back.Ok? && ToFour(acres / 2.471054, back.value)
    ensures var back := FromAcres(acres, Bigha, bighaAcres);
      && (bighaAcres == 0.0 ==> back == Err(DivisionByZero))
      && (bighaAcres != 0.0 ==> back.Ok? && ToFour(acres / bighaAcres, back.value))
    ensures var back := FromAcres(acres, Katha, bighaAcres);
      && (bighaAcres == 0.0 ==> back == Err(DivisionByZero))
      && (bighaAcres != 0.0 ==> bighaAcres / 20.0 != 0.0 && back.Ok? && ToFour(acres / (bighaAcres / 20.0), back.value))
  {
    InUnit(acres, Acre, bighaAcres, 1.0);
    InUnit(acres, Hectare, bighaAcres, 2.471054);
    if bighaAcres != 0.0 {
      InUnit(acres, Bigha, bighaAcres, bighaAcres);
      InUnit(acres, Katha, bighaAcres, bighaAcres / 20.0);
    }
  }

  /** An area stated in acres to four decimals is kept. */
  lemma AcresAreKept(n: int, bighaAcres: real)
    ensures ToAcres(n as real / 10000.0, Acre, bighaAcres) == n as real / 10000.0
  {
    QuantizeOnLattice(n, 1.0);
    assert Times(LatticePoint(n), 1.0) == LatticePoint(n);
    NearestOfClose(n as real, n);
  }

  lemma TwentyTwentieths(v: real, bighaAcres: real)
    ensures Times(20.0 * v, bighaAcres / 20.0) == Times(v, bighaAcres)
  {
  }

  /** Twenty katha are one bigha, in acres and for every dose. */
  lemma TwentyKathaAreABigha(v: real, bighaAcres: real, dose: real, basis: DoseBasis)
    ensures ToAcres(20.0 * v, Katha, bighaAcres) == ToAcres(v, Bigha, bighaAcres)
    ensures ScaleDose(dose, basis, LandArea(20.0 * v, Katha, bighaAcres))
         == ScaleDose(dose, basis, LandArea(v, Bigha, bighaAcres))
  {
    TwentyTwentieths(v, bighaAcres);
  }

  // ----- doses

  /** Which unit a dose is stated for. */
  lemma DoseIsPerItsUnit(dose: real, area: LandArea)
    ensures ScaleDose(dose, PerLitreWater, area) == Err(NotAreaScaled) == ScaleDose(dose, PerPlant, area)
    ensures forall plot :: area.AsUnit(Acre) == Ok(plot) ==>
      ScaleDose(dose, PerAcre, area).Ok? && ToTwo(Times(dose, plot), ScaleDose(dose, PerAcre, area).value)
    ensures forall plot :: area.AsUnit(Hectare) == Ok(plot) ==>
      ScaleDose(dose, PerHectare, area).Ok? && ToTwo(Times(dose, plot), ScaleDose(dose, PerHectare, area).value)
    ensures forall plot :: area.AsUnit(Bigha) == Ok(plot) ==>
      ScaleDose(dose, PerBigha, area).Ok? && ToTwo(Times(dose, plot), ScaleDose(dose, PerBigha, area).value)
    ensures forall plot :: area.AsUnit(Katha) == Ok(plot) ==>
      ScaleDose(dose, PerKatha, area).Ok? && ToTwo(Times(dose, plot), ScaleDose(dose, PerKatha, area).value)
  {
    forall plot
      ensures ToTwo(Times(dose, plot), Quantize(Times(dose, plot), DOSE_SCALE))
    {
      DoseIsToTwo(Times(dose, plot));
    }
  }

  /** Within half a hundredth and the dose times the area's two roundings, the second divided by the unit. */
  predicate About(scaled: Result<real, UnitError>, dose: real, acresInUnit: real)
    requires acresInUnit > 0.0
  {
    scaled.Ok? &&
    var size := if dose >= 0.0 then dose else -dose;
    var slack := size * (0.00005 / acresInUnit + 0.00005) + 0.005;
    dose - slack <= scaled.value <= dose + slack
  }

  lemma OneUnit(dose: real, basis: DoseBasis, unit: LandUnit, bighaAcres: real, acresInUnit: real)
    requires BasisUnit(basis) == Some(unit) && Factor(unit, bighaAcres) == acresInUnit > 0.0
    ensures About(ScaleDose(dose, basis, LandArea(1.0, unit, bighaAcres)), dose, acresInUnit)
  {
    DoseError(dose, basis, LandArea(1.0, unit, bighaAcres));
    OneIsOne(dose, acresInUnit);
    SlackIs(dose, acresInUnit);
  }

  lemma OneIsOne(dose: real, acresInUnit: real)
    requires acresInUnit > 0.0
    ensures Times(dose, Over(Times(1.0, acresInUnit), acresInUnit)) == dose
  {
    Cancel(1.0, acresInUnit);
    assert Over(Times(1.0, acresInUnit), acresInUnit) == 1.0;
  }

  lemma SlackIs(dose: real, acresInUnit: real)
    requires acresInUnit > 0.0
    ensures var size := if dose >= 0.0 then dose else -dose;
      Times(Magnitude(dose), Over(HALF_AREA_QUANTUM, acresInUnit) + HALF_AREA_QUANTUM)
      == size * (0.00005 / acresInUnit + 0.00005)
  {
  }

  /** A dose per unit on one such unit is the dose, up to the roundings. */
  lemma DoseOnOneUnit(dose: real, bighaAcres: real)
    requires bighaAcres > 0.0
    ensures About(ScaleDose(dose, PerAcre, LandArea(1.0, Acre, bighaAcres)), dose, 1.0)
    ensures About(ScaleDose(dose, PerHectare, LandArea(1.0, Hectare, bighaAcres)), dose, 2.471054)
    ensures About(ScaleDose(dose, PerBigha, LandArea(1.0, Bigha, bighaAcres)), dose, bighaAcres)
    ensures bighaAcres / 20.0 > 0.0
    ensures About(ScaleDose(dose, PerKatha, LandArea(1.0, Katha, bighaAcres)), dose, bighaAcres / 20.0)
  {
    OneUnit(dose, PerAcre, Acre, bighaAcres, 1.0);
    OneUnit(dose, PerHectare, Hectare, bighaAcres, 2.471054);
    OneUnit(dose, PerBigha, Bigha, bighaAcres, bighaAcres);
    OneUnit(dose, PerKatha, Katha, bighaAcres, bighaAcres / 20.0);
  }
}
