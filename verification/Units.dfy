/**
 Land conversion and dose scaling of packages/domain/src/uaagro_domain/units.py, on exact numbers
 rounded half up where the source quantizes.
 */
module Units {
  import opened Wrappers

  datatype LandUnit = Acre | Hectare | Bigha | Katha

  datatype DoseBasis = PerAcre | PerBigha | PerKatha | PerHectare | PerLitreWater | PerPlant

  datatype UnitError = NotPositive | NotAreaScaled | DivisionByZero

  const ACRES_PER_HECTARE := 2.471054
  const KATHAS_PER_BIGHA := 20.0

  /** Quanta per unit: four decimals for areas, two for doses. */
  const AREA_SCALE := 10000.0
  const DOSE_SCALE := 100.0
  const HALF_AREA_QUANTUM := 0.00005
  const HALF_DOSE_QUANTUM := 0.005

  /** The nearest whole number; halves go away from zero. */
  function Nearest(x: real): int {
    if x >= 0.0 then (x + 0.5).Floor else -((-x + 0.5).Floor)
  }

  /** Exact product and quotient, named so that equal operands are seen to give equal results. */
  function Times(x: real, y: real): real {
    x * y
  }

  function Over(x: real, y: real): real
    requires y != 0.0
  {
    x / y
  }

  function Quantize(x: real, scale: real): real
    requires scale > 0.0
  {
    Over(Nearest(Times(x, scale)) as real, scale)
  }

  /** Acres in one unit. */
  function Factor(unit: LandUnit, bighaAcres: real): real {
    match unit
    case Acre => 1.0
    case Hectare => ACRES_PER_HECTARE
    case Bigha => bighaAcres
    case Katha => bighaAcres / KATHAS_PER_BIGHA
  }

  function ToAcres(v: real, unit: LandUnit, bighaAcres: real): real {
    Quantize(Times(v, Factor(unit, bighaAcres)), AREA_SCALE)
  }

  function FromAcres(acres: real, unit: LandUnit, bighaAcres: real): Result<real, UnitError> {
    var f := Factor(unit, bighaAcres);
    if f == 0.0 then Err(DivisionByZero) else Ok(Quantize(Over(acres, f), AREA_SCALE))
  }

  datatype LandArea = LandArea(value: real, unit: LandUnit, bighaAcres: real) {
    function Acres(): real {
      ToAcres(value, unit, bighaAcres)
    }

    function AsUnit(other: LandUnit): Result<real, UnitError> {
      FromAcres(Acres(), other, bighaAcres)
    }
  }

  /** A stated area must be positive. */
  function MakeArea(value: real, unit: LandUnit, bighaAcres: real): Result<LandArea, UnitError> {
    if value <= 0.0 then Err(NotPositive) else Ok(LandArea(value, unit, bighaAcres))
  }

  function BasisUnit(basis: DoseBasis): Option<LandUnit> {
    match basis
    case PerAcre => Some(Acre)
    case PerBigha => Some(Bigha)
    case PerKatha => Some(Katha)
    case PerHectare => Some(Hectare)
    case _ => None
  }

  function ScaleDose(dose: real, basis: DoseBasis, area: LandArea): Result<real, UnitError> {
    match BasisUnit(basis)
    case None => Err(NotAreaScaled)
    case Some(unit) =>
      match area.AsUnit(unit)
      case Err(e) => Err(e)
      case Ok(plot) => Ok(Quantize(Times(dose, plot), DOSE_SCALE))
  }

  // ----- rounding

  lemma NearestIsNear(x: real)
    ensures x - 0.5 <= Nearest(x) as real <= x + 0.5
  {
  }

  lemma NearestIsMonotone(x: real, y: real)
    requires x <= y
    ensures Nearest(x) <= Nearest(y)
  {
  }

  lemma NearestOfClose(x: real, n: int)
    requires n as real - 0.5 < x < n as real + 0.5
    ensures Nearest(x) == n
  {
  }

  /** Rounding is the nearest whole number, with a half going away from zero, and nothing else is. */
  lemma NearestIsCharacterised(x: real, n: int)
    ensures Nearest(x) == n <==>
      if x >= 0.0 then n as real - 0.5 <= x < n as real + 0.5 else n as real - 0.5 < x <= n as real + 0.5
  {
  }

  lemma MulLess(a: real, b: real, c: real)
    requires a < b && c > 0.0
    ensures a * c < b * c
  {
  }

  lemma QuantizeIsNear(x: real, scale: real)
    requires scale > 0.0
    ensures x - 0.5 / scale <= Quantize(x, scale) <= x + 0.5 / scale
  {
  }

  lemma MulMonotone(a: real, b: real, c: real)
    requires a <= b && c >= 0.0
    ensures a * c <= b * c
  {
  }

  lemma DivMonotone(a: real, b: real, c: real)
    requires a <= b && c > 0.0
    ensures a / c <= b / c
  {
  }

  lemma QuantizeIsMonotone(x: real, y: real, scale: real)
    requires x <= y && scale > 0.0
    ensures Quantize(x, scale) <= Quantize(y, scale)
  {
    MulMonotone(x, y, scale);
    NearestIsMonotone(Times(x, scale), Times(y, scale));
    DivMonotone(Nearest(Times(x, scale)) as real, Nearest(Times(y, scale)) as real, scale);
  }

  // ----- there and back

  /** Dividing by a positive factor divides the distance. */
  lemma DivideDistance(a: real, b: real, f: real, h: real)
    requires f > 0.0 && b - h <= a <= b + h
    ensures b / f - h / f <= a / f <= b / f + h / f
  {
  }

  lemma Cancel(x: real, f: real)
    requires f != 0.0
    ensures x / f * f == x && x * f / f == x
  {
  }

  /** Two roundings with a division between them. */
  lemma TwoStepError(x: real, acres: real, back: real, g: real, h: real)
    requires g > 0.0 && x - h <= acres <= x + h && Over(acres, g) - h <= back <= Over(acres, g) + h
    ensures Over(x, g) - (Over(h, g) + h) <= back <= Over(x, g) + (Over(h, g) + h)
  {
    DivideDistance(acres, x, g, h);
  }

  lemma QuantizeAreaIsNear(x: real)
    ensures x - HALF_AREA_QUANTUM <= Quantize(x, AREA_SCALE) <= x + HALF_AREA_QUANTUM
  {
  }

  /** Converting an area to acres and to another unit loses at most half a quantum twice, the first over the factor. */
  lemma ConversionError(v: real, unit: LandUnit, other: LandUnit, bighaAcres: real)
    requires Factor(other, bighaAcres) > 0.0
    ensures var (x, g) := (Times(v, Factor(unit, bighaAcres)), Factor(other, bighaAcres));
      var back := FromAcres(ToAcres(v, unit, bighaAcres), other, bighaAcres);
      && back.Ok?
      && Over(x, g) - (Over(HALF_AREA_QUANTUM, g) + HALF_AREA_QUANTUM) <= back.value
      && back.value <= Over(x, g) + (Over(HALF_AREA_QUANTUM, g) + HALF_AREA_QUANTUM)
  {
    var x, g := Times(v, Factor(unit, bighaAcres)), Factor(other, bighaAcres);
    var acres := Quantize(x, AREA_SCALE);
    QuantizeAreaIsNear(x);
    QuantizeAreaIsNear(Over(acres, g));
    TwoStepError(x, acres, Quantize(Over(acres, g), AREA_SCALE), g, HALF_AREA_QUANTUM);
  }

  /** The four-decimal number of `n` quanta. */
  function LatticePoint(n: int): real {
    Over(n as real, AREA_SCALE)
  }

  ghost predicate OnLattice(v: real) {
    exists n: int :: LatticePoint(n) == v
  }

  /** The trip on the lattice: a whole number of quanta there and back. */
  function Trip(n: int, f: real): int
    requires f > 0.0
  {
    Nearest(Over(Nearest(Times(n as real, f)) as real, f))
  }

  lemma Swap(a: real, b: real, c: real)
    ensures Times(Times(a, b), c) == Times(Times(a, c), b)
  {
  }

  lemma SwapDivision(a: real, f: real, c: real)
    requires f != 0.0
    ensures Times(Over(a, f), c) == Over(Times(a, c), f)
  {
  }

  lemma QuantizeOnLattice(n: int, f: real)
    requires f > 0.0
    ensures Quantize(Times(LatticePoint(n), f), AREA_SCALE) == LatticePoint(Nearest(Times(n as real, f)))
    ensures Quantize(Over(LatticePoint(n), f), AREA_SCALE) == LatticePoint(Nearest(Over(n as real, f)))
  {
    Swap(LatticePoint(n), f, AREA_SCALE);
    SwapDivision(LatticePoint(n), f, AREA_SCALE);
    assert Times(LatticePoint(n), AREA_SCALE) == n as real;
  }

  lemma TripIsRoundTrip(n: int, unit: LandUnit, bighaAcres: real)
    requires Factor(unit, bighaAcres) > 0.0
    ensures FromAcres(ToAcres(LatticePoint(n), unit, bighaAcres), unit, bighaAcres)
         == Ok(LatticePoint(Trip(n, Factor(unit, bighaAcres))))
  {
    var f := Factor(unit, bighaAcres);
    QuantizeOnLattice(n, f);
    QuantizeOnLattice(Nearest(Times(n as real, f)), f);
  }

  /** With at least an acre to the unit, the trip is exact: the half quantum shrinks on the way back. */
  lemma WideTripIsExact(n: int, f: real)
    requires f >= 1.0
    ensures Trip(n, f) == n
  {
    var m := Nearest(Times(n as real, f));
    if f == 1.0 {
      NearestOfClose(n as real, n);
    } else {
      NearestIsNear(Times(n as real, f));
      DivideDistance(m as real, Times(n as real, f), f, 0.5);
      Cancel(n as real, f);
      HalfShrinks(f);
      NearestOfClose(Over(m as real, f), n);
    }
  }

  lemma HalfShrinks(f: real)
    requires f > 1.0
    ensures Over(0.5, f) < 0.5
  {
  }

  ghost predicate AllTripsExact(f: real)
    requires f > 0.0
  {
    forall k: int :: Trip(k, f) == k
  }

  lemma OneStepDown(n: int, f: real)
    ensures Times((n - 1) as real, f) == Times(n as real, f) - f
  {
  }

  /** While every trip is exact, rounding to acres must rise by one at every step. */
  lemma {:induction false} ExactTripsRise(n: nat, f: real)
    requires f > 0.0 && AllTripsExact(f)
    ensures Nearest(Times(n as real, f)) >= n
  {
    if n > 0 {
      ExactTripsRise(n - 1, f);
      OneStepDown(n, f);
      NearestIsMonotone(Times((n - 1) as real, f), Times(n as real, f));
      assert Trip(n - 1, f) == n - 1 && Trip(n, f) == n;
    }
  }

  /** Far enough out, a factor below one has lost more than half a quantum. */
  lemma EnoughSteps(f: real) returns (n: nat)
    requires 0.0 < f < 1.0
    ensures Times(n as real, f) + 0.5 < n as real
  {
    var gap := 1.0 - f;
    var steps := 1.0 / gap;
    assert steps * gap == 1.0;
    if steps < 0.0 { MulLess(steps, 0.0, gap); }
    n := steps.Floor + 1;
    MulLess(steps, n as real, gap);
    GapProduct(n as real, f);
  }

  lemma GapProduct(x: real, f: real)
    ensures x * (1.0 - f) == x - Times(x, f)
  {
  }

  /** Below one acre to the unit, some four-decimal area does not come back. */
  lemma NarrowTripsFail(f: real)
    requires 0.0 < f < 1.0
    ensures !AllTripsExact(f)
  {
    var n := EnoughSteps(f);
    NearestIsNear(Times(n as real, f));
    if AllTripsExact(f) {
      ExactTripsRise(n, f);
    }
  }

  /**
   Every four-decimal area survives the trip to acres and back exactly when the unit is at least an
   acre. The usual bigha and katha are smaller, so some areas in them change.
   */
  lemma RoundTripExactIffWide(unit: LandUnit, bighaAcres: real)
    requires Factor(unit, bighaAcres) > 0.0
    ensures (forall v :: OnLattice(v) ==> FromAcres(ToAcres(v, unit, bighaAcres), unit, bighaAcres) == Ok(v))
         <==> Factor(unit, bighaAcres) >= 1.0
  {
    var f := Factor(unit, bighaAcres);
    if f >= 1.0 {
      forall v | OnLattice(v)
        ensures FromAcres(ToAcres(v, unit, bighaAcres), unit, bighaAcres) == Ok(v)
      {
        var n: int :| LatticePoint(n) == v;
        TripIsRoundTrip(n, unit, bighaAcres);
        WideTripIsExact(n, f);
      }
    } else {
      NarrowTripsFail(f);
      var k: int :| Trip(k, f) != k;
      TripIsRoundTrip(k, unit, bighaAcres);
      assert OnLattice(LatticePoint(k));
      assert LatticePoint(Trip(k, f)) != LatticePoint(k);
    }
  }

  // ----- doses

  function Magnitude(x: real): real {
    if x >= 0.0 then x else -x
  }

  lemma ProductError(dose: real, plot: real, mid: real, e: real)
    requires mid - e <= plot <= mid + e
    ensures Times(dose, mid) - Times(Magnitude(dose), e) <= Times(dose, plot)
                                                         <= Times(dose, mid) + Times(Magnitude(dose), e)
  {
    var d := Magnitude(dose);
    MulMonotone(mid - e, plot, d);
    MulMonotone(plot, mid + e, d);
  }

  lemma ScaledError(dose: real, plot: real, mid: real, e: real, scaled: real)
    requires mid - e <= plot <= mid + e
    requires Times(dose, plot) - HALF_DOSE_QUANTUM <= scaled <= Times(dose, plot) + HALF_DOSE_QUANTUM
    ensures Times(dose, mid) - (Times(Magnitude(dose), e) + HALF_DOSE_QUANTUM) <= scaled
    ensures scaled <= Times(dose, mid) + (Times(Magnitude(dose), e) + HALF_DOSE_QUANTUM)
  {
    ProductError(dose, plot, mid, e);
  }

  /** A scaled dose, of either sign, is within the stated distance of the exact product. */
  lemma DoseError(dose: real, basis: DoseBasis, area: LandArea)
    requires BasisUnit(basis).Some? && Factor(BasisUnit(basis).value, area.bighaAcres) > 0.0
    ensures var g := Factor(BasisUnit(basis).value, area.bighaAcres);
      var exact := Times(dose, Over(Times(area.value, Factor(area.unit, area.bighaAcres)), g));
      var slack := Times(Magnitude(dose), Over(HALF_AREA_QUANTUM, g) + HALF_AREA_QUANTUM) + HALF_DOSE_QUANTUM;
      var scaled := ScaleDose(dose, basis, area);
      scaled.Ok? && exact - slack <= scaled.value <= exact + slack
  {
    var unit := BasisUnit(basis).value;
    var g := Factor(unit, area.bighaAcres);
    var x := Times(area.value, Factor(area.unit, area.bighaAcres));
    ConversionError(area.value, area.unit, unit, area.bighaAcres);
    var plot := FromAcres(ToAcres(area.value, area.unit, area.bighaAcres), unit, area.bighaAcres).value;
    var scaled := Quantize(Times(dose, plot), DOSE_SCALE);
    QuantizeIsNear(Times(dose, plot), DOSE_SCALE);
    ScaledError(dose, plot, Over(x, g), Over(HALF_AREA_QUANTUM, g) + HALF_AREA_QUANTUM, scaled);
    assert ScaleDose(dose, basis, area) == Ok(scaled);
  }

  lemma ConversionIsMonotone(x: real, y: real, f: real, g: real)
    requires x <= y && f > 0.0 && g > 0.0
    ensures Quantize(Over(Quantize(Times(x, f), AREA_SCALE), g), AREA_SCALE)
         <= Quantize(Over(Quantize(Times(y, f), AREA_SCALE), g), AREA_SCALE)
  {
    MulMonotone(x, y, f);
    QuantizeIsMonotone(Times(x, f), Times(y, f), AREA_SCALE);
    DivMonotone(Quantize(Times(x, f), AREA_SCALE), Quantize(Times(y, f), AREA_SCALE), g);
    QuantizeIsMonotone(
      Over(Quantize(Times(x, f), AREA_SCALE), g), Over(Quantize(Times(y, f), AREA_SCALE), g), AREA_SCALE);
  }

  lemma ScaleDoseIs(dose: real, basis: DoseBasis, area: LandArea)
    requires BasisUnit(basis).Some? && Factor(BasisUnit(basis).value, area.bighaAcres) > 0.0
    ensures var (f, g) := (Factor(area.unit, area.bighaAcres), Factor(BasisUnit(basis).value, area.bighaAcres));
      ScaleDose(dose, basis, area)
      == Ok(Quantize(
              Times(dose, Quantize(Over(Quantize(Times(area.value, f), AREA_SCALE), g), AREA_SCALE)), DOSE_SCALE))
  {
  }

  lemma ScaledIsMonotone(dose: real, small: real, large: real)
    requires small <= large
    ensures dose >= 0.0 ==> Quantize(Times(dose, small), DOSE_SCALE) <= Quantize(Times(dose, large), DOSE_SCALE)
    ensures dose <= 0.0 ==> Quantize(Times(dose, large), DOSE_SCALE) <= Quantize(Times(dose, small), DOSE_SCALE)
  {
    MulMonotone(small, large, Magnitude(dose));
    if dose >= 0.0 {
      QuantizeIsMonotone(Times(dose, small), Times(dose, large), DOSE_SCALE);
    }
    if dose <= 0.0 {
      QuantizeIsMonotone(Times(dose, large), Times(dose, small), DOSE_SCALE);
    }
  }

  /** A larger plot never gets a smaller dose, or a larger one when the stated dose is negative. */
  lemma DoseIsMonotoneInArea(dose: real, basis: DoseBasis, unit: LandUnit, bighaAcres: real, small: real, large: real)
    requires small <= large && BasisUnit(basis).Some?
    requires Factor(BasisUnit(basis).value, bighaAcres) > 0.0 && Factor(unit, bighaAcres) > 0.0
    ensures var (s, l) := (ScaleDose(dose, basis, LandArea(small, unit, bighaAcres)),
                           ScaleDose(dose, basis, LandArea(large, unit, bighaAcres)));
      s.Ok? && l.Ok? && (dose >= 0.0 ==> s.value <= l.value) && (dose <= 0.0 ==> l.value <= s.value)
  {
    var f, g := Factor(unit, bighaAcres), Factor(BasisUnit(basis).value, bighaAcres);
    ScaleDoseIs(dose, basis, LandArea(small, unit, bighaAcres));
    ScaleDoseIs(dose, basis, LandArea(large, unit, bighaAcres));
    ConversionIsMonotone(small, large, f, g);
    ScaledIsMonotone(dose, Quantize(Over(Quantize(Times(small, f), AREA_SCALE), g), AREA_SCALE),
                     Quantize(Over(Quantize(Times(large, f), AREA_SCALE), g), AREA_SCALE));
  }

  /** For an area that is accepted a dose is refused exactly when its basis is no area, and is never negative. */
  lemma AcceptedPlotIsScaled(dose: real, basis: DoseBasis, value: real, unit: LandUnit, bighaAcres: real)
    requires dose >= 0.0 && bighaAcres > 0.0 && MakeArea(value, unit, bighaAcres).Ok?
    ensures var scaled := ScaleDose(dose, basis, MakeArea(value, unit, bighaAcres).value);
      && (scaled == Err(NotAreaScaled) <==> basis == PerLitreWater || basis == PerPlant)
      && (scaled.Ok? <==> basis != PerLitreWater && basis != PerPlant)
      && (scaled.Ok? ==> scaled.value >= 0.0)
  {
    if BasisUnit(basis).Some? {
      DoseIsMonotoneInArea(dose, basis, unit, bighaAcres, 0.0, value);
      NoLandNoDose(dose, basis, unit, bighaAcres);
    }
  }

  lemma NoLandNoDose(dose: real, basis: DoseBasis, unit: LandUnit, bighaAcres: real)
    requires bighaAcres > 0.0 && BasisUnit(basis).Some?
    ensures ScaleDose(dose, basis, LandArea(0.0, unit, bighaAcres)) == Ok(0.0)
  {
    var f, g := Factor(unit, bighaAcres), Factor(BasisUnit(basis).value, bighaAcres);
    assert Times(0.0, f) == 0.0;
    assert ToAcres(0.0, unit, bighaAcres) == 0.0;
    assert Over(0.0, g) == 0.0 && Times(dose, 0.0) == 0.0;
  }
}
