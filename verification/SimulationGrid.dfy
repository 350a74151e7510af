/**
 Which samples an analysis generates, decided on exact decimals: membership of the
 AC and transient grids, the size of a transient grid, and the aggregate budget.
*/
module SimulationGrid {
  import opened Wrappers
  import opened DecimalDigits
  import opened Quantities

  const MAX_SIMULATION_SAMPLES: int := 10_000
  const MAX_SIMULATION_TOTAL_SAMPLES: int := 10_000

  type U32 = i: int | 0 <= i <= U32_MAX

  datatype AnalysisKind =
    | DcOperatingPoint
    | AcLinearSweep(points: U32, startFrequency: Quantity, stopFrequency: Quantity)
    | Transient(step: Quantity, stop: Quantity, start: Quantity)

  datatype Sample = Scalar | Frequency(quantity: Quantity) | Time(quantity: Quantity)

  datatype GridLocation = Step(index: U32) | StopEndpoint

  /** A quantity counted in units of 10^base. */
  function Units(q: Quantity, base: int): int
    requires base <= q.exponent
  {
    At(q.coefficient, q.exponent, base)
  }

  /** Both operands of a digit computation must be non-negative and at most 127 decades apart. */
  predicate Scalable(q: Quantity, base: int) {
    q.coefficient >= 0 && 0 <= q.exponent - base <= 127
  }

  /** Quantities that passed the exponent check are never too far apart. */
  lemma ValidExponentsAreScalable(q: Quantity, other: Quantity)
    requires ExponentIsValid(q) && ExponentIsValid(other) && q.coefficient >= 0
    ensures Scalable(q, Min(q.exponent, other.exponent))
  {
  }

  method ScaledNonnegativeDigits(q: Quantity, commonExponent: I8, multiplier: U32) returns (r: Option<Digits>)
    ensures r.Some? <==> Scalable(q, commonExponent)
    ensures r.Some? ==> Value(r.value) == Shift(q.coefficient * multiplier, q.exponent - commonExponent)
  {
    if q.coefficient < 0 {
      return None;
    }
    var shift := q.exponent - commonExponent;
    if !(-128 <= shift <= 127) || shift < 0 {
      return None;
    }
    var digits := Multiply(Print(q.coefficient), multiplier);
    ValueShift(digits, shift);
    r := Some(digits + seq(shift, _ => 0));
  }

  method Scaled(q: Quantity, commonExponent: I8) returns (r: Option<Digits>)
    ensures r.Some? <==> Scalable(q, commonExponent)
    ensures r.Some? ==> Value(r.value) == Units(q, commonExponent)
  {
    r := ScaledNonnegativeDigits(q, commonExponent, 1);
  }

  method QuantityDifference(greater: Quantity, lesser: Quantity, commonExponent: I8) returns (r: Option<Digits>)
    ensures r.Some? <==> Scalable(greater, commonExponent) && Scalable(lesser, commonExponent)
                         && Units(lesser, commonExponent) <= Units(greater, commonExponent)
    ensures r.Some? ==> Value(r.value) == Units(greater, commonExponent) - Units(lesser, commonExponent)
  {
    var high := Scaled(greater, commonExponent);
    if high.None? {
      return None;
    }
    var low := Scaled(lesser, commonExponent);
    if low.None? {
      return None;
    }
    r := Subtract(high.value, low.value);
  }

  // --- AC grid ----------------------------------------------------------------

  function CommonExponent(sample: Quantity, start: Quantity, stop: Quantity): (e: I8) {
    Min(Min(sample.exponent, start.exponent), stop.exponent)
  }

  /** sample = start + k * (stop - start) / (points - 1), for a k below points. */
  ghost predicate IsAcSample(sample: Quantity, start: Quantity, stop: Quantity, points: U32, k: int) {
    && 0 <= k < points && points >= 2
    && var e := CommonExponent(sample, start, stop);
       && Units(start, e) < Units(stop, e)
       && Units(start, e) <= Units(sample, e)
       && (Units(sample, e) - Units(start, e)) * (points - 1) == k * (Units(stop, e) - Units(start, e))
  }

  ghost predicate AcOperandsAreScalable(sample: Quantity, start: Quantity, stop: Quantity) {
    && sample.unit == start.unit == stop.unit
    && var e := CommonExponent(sample, start, stop);
       Scalable(sample, e) && Scalable(start, e) && Scalable(stop, e)
  }

  method AcGridIndex(sample: Quantity, start: Quantity, stop: Quantity, points: U32) returns (r: Option<U32>)
    ensures forall k: U32 :: r == Some(k) <==>
              AcOperandsAreScalable(sample, start, stop) && IsAcSample(sample, start, stop, points, k)
  {
    if sample.unit != start.unit || start.unit != stop.unit {
      return None;
    }
    if points < 2 {
      return None;
    }
    var intervals := points - 1;
    var e := CommonExponent(sample, start, stop);
    var offset := QuantityDifference(sample, start, e);
    if offset.None? {
      return None;
    }
    var span := QuantityDifference(stop, start, e);
    if span.None? {
      return None;
    }
    var numerator := Multiply(offset.value, intervals);
    var index := ExactQuotientU32(numerator, span.value);
    forall k: U32 {
      ExactQuotientMeans(Value(numerator), Value(span.value), k);
    }
    if index.None? {
      return None;
    }
    r := if index.value < points then Some(index.value) else None;
  }

  // --- Transient grid ---------------------------------------------------------

  ghost predicate IsStep(sample: Quantity, step: Quantity, k: int) {
    var e := Min(sample.exponent, step.exponent);
    Units(step, e) > 0 && Units(sample, e) == k * Units(step, e)
  }

  /** The place of a sample on the zero-anchored grid with a forced stop endpoint. */
  ghost predicate IsTransientLocation(sample: Quantity, step: Quantity, stop: Quantity, location: GridLocation) {
    && sample.unit == step.unit == stop.unit
    && var order := TrueOrder(sample.coefficient, sample.exponent, stop.coefficient, stop.exponent);
       match location
       case StopEndpoint => order == Equal
       case Step(k) =>
         && order == Less
         && Scalable(sample, Min(sample.exponent, step.exponent))
         && Scalable(step, Min(sample.exponent, step.exponent))
         && IsStep(sample, step, k)
  }

  method TransientGridLocation(sample: Quantity, step: Quantity, stop: Quantity) returns (r: Option<GridLocation>)
    ensures r == Some(StopEndpoint) <==> IsTransientLocation(sample, step, stop, StopEndpoint)
    ensures forall k: U32 :: r == Some(Step(k)) <==> IsTransientLocation(sample, step, stop, Step(k))
  {
    if sample.unit != step.unit || step.unit != stop.unit {
      return None;
    }
    var order := ExactCompare(sample, stop);
    if order == Some(Equal) {
      return Some(StopEndpoint);
    }
    if order != Some(Less) {
      return None;
    }
    var e := Min(sample.exponent, step.exponent);
    var sampleDigits := Scaled(sample, e);
    if sampleDigits.None? {
      return None;
    }
    var stepDigits := Scaled(step, e);
    if stepDigits.None? {
      return None;
    }
    var index := ExactQuotientU32(sampleDigits.value, stepDigits.value);
    forall k: U32 {
      ExactQuotientMeans(Value(sampleDigits.value), Value(stepDigits.value), k);
    }
    r := if index.None? then None else Some(Step(index.value));
  }

  // --- Transient sample count -------------------------------------------------

  /** The least n with n * step >= stop. */
  ghost predicate IsCeiling(n: int, stop: int, step: int) {
    n >= 0 && stop <= n * step && (n > 0 ==> (n - 1) * step < stop)
  }

  function CeilingDivide(stop: nat, step: int): (n: nat)
    requires step > 0
    ensures IsCeiling(n, stop, step)
    decreases stop
  {
    if stop == 0 then 0
    else if stop <= step then 1
    else
      var n := CeilingDivide(stop - step, step) + 1;
      Distribute(n - 1, 1, step);
      Distribute(n - 2, 1, step);
      n
  }

  lemma CeilingSeparates(n: int, stop: nat, step: int, k: int)
    requires step > 0 && IsCeiling(n, stop, step) && k >= 0
    ensures k * step < stop <==> k < n
  {
    if k < n {
      MultiplyMonotone(k, n - 1, step);
    } else {
      MultiplyMonotone(n, k, step);
    }
  }

  /** Transient declarations whose grid can be counted at all. */
  predicate Countable(step: Quantity, stop: Quantity) {
    && step.coefficient > 0 && stop.coefficient >= 0
    && Scalable(step, Min(step.exponent, stop.exponent)) && Scalable(stop, Min(step.exponent, stop.exponent))
  }

  /** ceil(stop / step) + 1. */
  ghost function NominalSamples(step: Quantity, stop: Quantity): (n: nat)
    requires Countable(step, stop)
  {
    var e := Min(step.exponent, stop.exponent);
    SignIsKept(step.coefficient, step.exponent - e);
    SignIsKept(stop.coefficient, stop.exponent - e);
    CeilingDivide(Units(stop, e), Units(step, e)) + 1
  }

  /** The binary search for the grid size, on digit strings of any length. */
  method TransientNominalSamplesSaturating(step: Quantity, stop: Quantity, saturation: U32) returns (r: U32)
    ensures saturation <= 1 || !Countable(step, stop) ==> r == saturation
    ensures saturation > 1 && Countable(step, stop) ==> r == Min(NominalSamples(step, stop), saturation)
  {
    if saturation <= 1 || step.coefficient <= 0 || stop.coefficient < 0 {
      return saturation;
    }
    var e := Min(step.exponent, stop.exponent);
    var stepDigits := Scaled(step, e);
    if stepDigits.None? {
      return saturation;
    }
    var stopDigits := Scaled(stop, e);
    if stopDigits.None? {
      return saturation;
    }
    ghost var s, t := Units(step, e), Units(stop, e);
    ghost var ceiling := NominalSamples(step, stop) - 1;
    SignIsKept(step.coefficient, step.exponent - e);
    var maxIntervals := saturation - 1;
    var maxTime := Multiply(stepDigits.value, maxIntervals);
    CeilingSeparates(ceiling, t, s, maxIntervals);
    Commute(s, maxIntervals);
    if Compare(maxTime, stopDigits.value) == Less {
      return saturation;
    }
    var lower, upper := 0, maxIntervals;
    while lower < upper
      invariant 0 <= lower <= ceiling <= upper <= maxIntervals
    {
      var midpoint := lower + (upper - lower) / 2;
      var time := Multiply(stepDigits.value, midpoint);
      CeilingSeparates(ceiling, t, s, midpoint);
      Commute(s, midpoint);
      if Compare(time, stopDigits.value) == Less {
        lower := midpoint + 1;
      } else {
        upper := midpoint;
      }
    }
    r := Min(lower + 1, saturation);
  }

  lemma Commute(a: int, b: int)
    ensures a * b == b * a
  {
  }

  // --- Aggregate budget -------------------------------------------------------

  /** Samples an analysis declares; an uncountable transient grid counts as over the cap on its own. */
  ghost function DeclaredSamples(analysis: AnalysisKind): nat {
    match analysis
    case DcOperatingPoint => 1
    case AcLinearSweep(points, _, _) => points
    case Transient(step, stop, _) =>
      if Countable(step, stop) then NominalSamples(step, stop) else 10_001
  }

  ghost function TotalDeclared(analyses: seq<AnalysisKind>): nat {
    if analyses == [] then 0
    else TotalDeclared(analyses[..|analyses| - 1]) + DeclaredSamples(analyses[|analyses| - 1])
  }

  lemma {:induction false} TotalGrows(analyses: seq<AnalysisKind>, n: nat)
    requires n <= |analyses|
    ensures TotalDeclared(analyses[..n]) <= TotalDeclared(analyses)
    decreases |analyses| - n
  {
    if n == |analyses| {
      assert analyses[..n] == analyses;
    } else {
      TotalGrows(analyses, n + 1);
      assert analyses[..n + 1][..n] == analyses[..n];
    }
  }

  /** The saturating fold reports an excess exactly when the true total exceeds the cap. */
  method AggregateExceedsCap(analyses: seq<AnalysisKind>) returns (exceeds: bool)
    ensures exceeds <==> TotalDeclared(analyses) > 10_000
  {
    var saturation := MAX_SIMULATION_TOTAL_SAMPLES + 1;
    var total := 0;
    for index := 0 to |analyses|
      invariant 0 <= total <= saturation
      invariant total == Min(TotalDeclared(analyses[..index]), saturation)
    {
      var samples;
      match analyses[index] {
        case DcOperatingPoint => samples := 1;
        case AcLinearSweep(points, _, _) => samples := Min(points, saturation);
        case Transient(step, stop, _) => samples := TransientNominalSamplesSaturating(step, stop, saturation);
      }
      assert analyses[..index + 1][..index] == analyses[..index];
      total := Min(if total + samples <= U32_MAX then total + samples else saturation, saturation);
    }
    assert analyses[..|analyses|] == analyses;
    exceeds := total > MAX_SIMULATION_TOTAL_SAMPLES;
  }

  // --- Assertion samples ------------------------------------------------------

  datatype Code = SampleKindMismatch | SampleQuantity | SampleOffGrid

  /** The declaration checks an analysis passes before its grid means anything. */
  ghost predicate WellDeclared(analysis: AnalysisKind) {
    match analysis
    case DcOperatingPoint => true
    case AcLinearSweep(points, start, stop) =>
      && 2 <= points <= 10_000
      && ExactQuantityIs(start, Hertz) && ExactQuantityIs(stop, Hertz)
      && start.coefficient > 0
      && TrueOrder(start.coefficient, start.exponent, stop.coefficient, stop.exponent) == Less
    case Transient(step, stop, start) =>
      && ExactQuantityIs(step, Second) && ExactQuantityIs(stop, Second) && ExactQuantityIs(start, Second)
      && step.coefficient > 0 && start.coefficient >= 0
      && TrueOrder(start.coefficient, start.exponent, stop.coefficient, stop.exponent) != Greater
  }

  ghost predicate OnAcGrid(q: Quantity, start: Quantity, stop: Quantity, points: U32) {
    exists k: U32 :: IsAcSample(q, start, stop, points, k)
  }

  ghost predicate OnTransientGrid(q: Quantity, step: Quantity, stop: Quantity) {
    || IsTransientLocation(q, step, stop, StopEndpoint)
    || exists k: U32 :: IsTransientLocation(q, step, stop, Step(k))
  }

  /** The samples that a well-declared analysis produces. */
  ghost predicate Generates(analysis: AnalysisKind, sample: Sample) {
    match (analysis, sample)
    case (DcOperatingPoint, Scalar) => true
    case (AcLinearSweep(points, start, stop), Frequency(q)) =>
      ExactQuantityIs(q, Hertz) && OnAcGrid(q, start, stop, points)
    case (Transient(step, stop, start), Time(q)) =>
      && ExactQuantityIs(q, Second)
      && TrueOrder(q.coefficient, q.exponent, start.coefficient, start.exponent) != Less
      && OnTransientGrid(q, step, stop)
    case _ => false
  }

  /** Neither below the one nor above the other; quantities of different units do not compare. */
  ghost predicate InRange(q: Quantity, low: Quantity, high: Quantity) {
    && (q.unit == low.unit ==> TrueOrder(q.coefficient, q.exponent, low.coefficient, low.exponent) != Less)
    && (q.unit == high.unit ==> TrueOrder(q.coefficient, q.exponent, high.coefficient, high.exponent) != Greater)
  }

  method IsInRange(q: Quantity, low: Quantity, high: Quantity) returns (inside: bool)
    ensures inside <==> InRange(q, low, high)
  {
    var below := ExactCompare(q, low);
    var above := ExactCompare(q, high);
    inside := below != Some(Less) && above != Some(Greater);
  }

  /**
   What the check of a sample promises for any analysis: a quantity of the right unit
   in the declared range and, if the declaration itself is sound, on its grid.
  */
  ghost predicate Accepts(analysis: AnalysisKind, sample: Sample) {
    match (analysis, sample)
    case (DcOperatingPoint, Scalar) => true
    case (AcLinearSweep(points, start, stop), Frequency(q)) =>
      && ExactQuantityIs(q, Hertz) && InRange(q, start, stop)
      && (WellDeclared(analysis) ==> OnAcGrid(q, start, stop, points))
    case (Transient(step, stop, start), Time(q)) =>
      && ExactQuantityIs(q, Second) && InRange(q, start, stop)
      && (WellDeclared(analysis) ==> OnTransientGrid(q, step, stop))
    case _ => false
  }

  /** For a sound declaration, what is accepted is what the analysis produces. */
  lemma AcceptedIsGenerated(analysis: AnalysisKind, sample: Sample)
    requires WellDeclared(analysis)
    ensures Accepts(analysis, sample) <==> Generates(analysis, sample)
  {
    match (analysis, sample) {
      case (AcLinearSweep(points, start, stop), Frequency(q)) =>
        if ExactQuantityIs(q, Hertz) {
          AcSampleIsInRange(q, start, stop, points);
        }
      case _ =>
    }
  }

  method ValidateAcSample(q: Quantity, start: Quantity, stop: Quantity, points: U32) returns (diagnostics: seq<Code>)
    ensures diagnostics == [] <==> Accepts(AcLinearSweep(points, start, stop), Frequency(q))
    ensures !ExactQuantityIs(q, Hertz) ==> diagnostics == [SampleQuantity]
    ensures ExactQuantityIs(q, Hertz) ==> diagnostics == [] || diagnostics == [SampleOffGrid]
  {
    if !ExactQuantityIs(q, Hertz) {
      return [SampleQuantity];
    }
    var inside := IsInRange(q, start, stop);
    if !inside {
      return [SampleOffGrid];
    }
    diagnostics := [];
    var order := ExactCompare(start, stop);
    if 2 <= points <= MAX_SIMULATION_SAMPLES && ExactQuantityIs(start, Hertz) && ExactQuantityIs(stop, Hertz)
       && start.coefficient > 0 && order == Some(Less) {
      AcSampleIsInRange(q, start, stop, points);
      var index := AcGridIndex(q, start, stop, points);
      if index.None? {
        diagnostics := [SampleOffGrid];
      }
    }
  }

  method ValidateTransientSample(q: Quantity, step: Quantity, stop: Quantity, start: Quantity)
    returns (diagnostics: seq<Code>)
    ensures diagnostics == [] <==> Accepts(Transient(step, stop, start), Time(q))
    ensures !ExactQuantityIs(q, Second) ==> diagnostics == [SampleQuantity]
    ensures ExactQuantityIs(q, Second) ==> diagnostics == [] || diagnostics == [SampleOffGrid]
  {
    if !ExactQuantityIs(q, Second) {
      return [SampleQuantity];
    }
    var inside := IsInRange(q, start, stop);
    if !inside {
      return [SampleOffGrid];
    }
    diagnostics := [];
    var order := ExactCompare(start, stop);
    if ExactQuantityIs(step, Second) && ExactQuantityIs(start, Second) && ExactQuantityIs(stop, Second)
       && step.coefficient > 0 && start.coefficient >= 0 && order != Some(Greater) {
      var location := TransientGridLocation(q, step, stop);
      match location {
        case None =>
          assert forall k: U32 :: !IsTransientLocation(q, step, stop, Step(k));
          diagnostics := [SampleOffGrid];
        case Some(place) =>
          assert IsTransientLocation(q, step, stop, place);
      }
    }
  }

  /** The sample is of the kind that the analysis produces. */
  ghost predicate IsOfKind(analysis: AnalysisKind, sample: Sample) {
    match sample
    case Scalar => analysis.DcOperatingPoint?
    case Frequency(_) => analysis.AcLinearSweep?
    case Time(_) => analysis.Transient?
  }

  /** It carries a canonical quantity of the unit that goes with its kind, if any. */
  ghost predicate IsExact(sample: Sample) {
    match sample
    case Scalar => true
    case Frequency(q) => ExactQuantityIs(q, Hertz)
    case Time(q) => ExactQuantityIs(q, Second)
  }

  /** An assertion on a soundly declared analysis is accepted exactly when its sample is generated. */
  method ValidateAssertionSample(analysis: AnalysisKind, sample: Sample) returns (diagnostics: seq<Code>)
    ensures diagnostics == [] <==> Accepts(analysis, sample)
    ensures WellDeclared(analysis) ==> (diagnostics == [] <==> Generates(analysis, sample))
    ensures !IsOfKind(analysis, sample) ==> diagnostics == [SampleKindMismatch]
    ensures IsOfKind(analysis, sample) && !IsExact(sample) ==> diagnostics == [SampleQuantity]
    ensures IsOfKind(analysis, sample) && IsExact(sample) ==> diagnostics == [] || diagnostics == [SampleOffGrid]
  {
    if WellDeclared(analysis) {
      AcceptedIsGenerated(analysis, sample);
    }
    match (analysis, sample) {
      case (DcOperatingPoint, Scalar) => diagnostics := [];
      case (AcLinearSweep(points, start, stop), Frequency(q)) =>
        diagnostics := ValidateAcSample(q, start, stop, points);
      case (Transient(step, stop, start), Time(q)) =>
        diagnostics := ValidateTransientSample(q, step, stop, start);
      case _ => diagnostics := [SampleKindMismatch];
    }
  }

  lemma AcSampleIsInRange(q: Quantity, start: Quantity, stop: Quantity, points: U32)
    requires WellDeclared(AcLinearSweep(points, start, stop)) && ExactQuantityIs(q, Hertz)
    ensures OnAcGrid(q, start, stop, points) ==>
              && TrueOrder(q.coefficient, q.exponent, start.coefficient, start.exponent) != Less
              && TrueOrder(q.coefficient, q.exponent, stop.coefficient, stop.exponent) != Greater
    ensures TrueOrder(q.coefficient, q.exponent, start.coefficient, start.exponent) != Less ==>
              AcOperandsAreScalable(q, start, stop)
  {
    var e := CommonExponent(q, start, stop);
    OrderAtAnyBase(q.coefficient, q.exponent, start.coefficient, start.exponent, e);
    OrderAtAnyBase(q.coefficient, q.exponent, stop.coefficient, stop.exponent, e);
    OrderAtAnyBase(start.coefficient, start.exponent, stop.coefficient, stop.exponent, e);
    SignIsKept(start.coefficient, start.exponent - e);
    SignIsKept(stop.coefficient, stop.exponent - e);
    SignIsKept(q.coefficient, q.exponent - e);
    forall k: U32 | IsAcSample(q, start, stop, points, k) ensures Units(q, e) <= Units(stop, e) {
      PastTheEnd(Units(q, e) - Units(start, e), Units(stop, e) - Units(start, e), points - 1, k);
    }
  }

  lemma PastTheEnd(offset: int, span: int, intervals: int, k: int)
    requires span > 0 && intervals >= 1 && 0 <= k <= intervals && offset * intervals == k * span
    ensures offset <= span
  {
    MultiplyMonotone(k, intervals, span);
    if offset > span {
      MultiplyMonotone(span + 1, offset, intervals);
      Distribute(span, 1, intervals);
    }
  }
}
