/** Downsampling of meter readings. The loop computes each position as an exact real and interpolates
    there; its specification uses whole numbers only, as a quotient and the remainder it leaves. */
module MeterDownsampling {

  datatype Meter = Meter(
    id: int, value: int, powerRate: int, powerRateWh: real, powerActive: int,
    voltage: real, currentImport: real, currentOffered: real,
    batteryLevel: int, consumedEnergy: int, price: int, time: int, timestamp: int, minute: int,
    unit: string, measurand: string, connectorId: int, connectorStatus: string)

  const EMPTY: Meter := Meter(0, 0, 0, 0.0, 0, 0.0, 0.0, 0.0, 0, 0, 0, 0, 0, 0, "", "", 0, "")

  // ---- Rounding ----

  function Ceil(x: real): int {
    -(-x).Floor
  }

  /** The conversion of a float to an integer drops the fraction. */
  function Truncate(x: real): int {
    if x >= 0.0 then x.Floor else Ceil(x)
  }

  function Interpolate(x: real, x0: real, x1: real, y0: real, y1: real): real
    requires x0 != x1
  {
    y0 + (y1 - y0) * (x - x0) / (x1 - x0)
  }

  // ---- What downsampling means ----

  /** The sample before position i * length / n. */
  function Lower(length: nat, n: nat, i: nat): nat
    requires n > 0
  {
    i * length / n
  }

  /** How far, in n-th parts, the position lies beyond that sample. */
  function Part(length: nat, n: nat, i: nat): nat
    requires n > 0
  {
    i * length % n
  }

  /** The first sample at or after the position. */
  function Upper(length: nat, n: nat, i: nat): nat
    requires n > 0
  {
    Lower(length, n, i) + (if Part(length, n, i) == 0 then 0 else 1)
  }

  /** The whole number next to the weighted mean of two, on the side of zero. */
  function WeightedWhole(y0: int, y1: int, part: nat, n: nat): int
    requires n > 0 && part < n
  {
    var sum := y0 * (n - part) + y1 * part;
    if sum >= 0 then sum / n else -(-sum / n)
  }

  function Weighted(y0: real, y1: real, part: nat, n: nat): real
    requires n > 0 && part < n
  {
    (y0 * (n - part) as real + y1 * part as real) / n as real
  }

  /** Seven fields lie on the line between the neighbours; the others are the lower neighbour's. */
  function Between(a: Meter, b: Meter, part: nat, n: nat): Meter
    requires n > 0 && part < n
  {
    var power := WeightedWhole(a.powerRate, b.powerRate, part, n);
    a.(consumedEnergy := WeightedWhole(a.consumedEnergy, b.consumedEnergy, part, n),
       powerRate := power,
       powerRateWh := power as real / 1000.0,
       powerActive := WeightedWhole(a.powerActive, b.powerActive, part, n),
       voltage := Weighted(a.voltage, b.voltage, part, n),
       currentImport := Weighted(a.currentImport, b.currentImport, part, n),
       currentOffered := Weighted(a.currentOffered, b.currentOffered, part, n))
  }

  function SampleAt(values: seq<Meter>, n: nat, i: nat): Meter
    requires 0 < n < |values| && i < n
  {
    PositionInRange(|values|, n, i);
    var part := Part(|values|, n, i);
    if part == 0 then values[Lower(|values|, n, i)]
    else Between(values[Lower(|values|, n, i)], values[Upper(|values|, n, i)], part, n)
  }

  function Downsampled(values: seq<Meter>, n: nat): seq<Meter> {
    if n == 0 || |values| <= n then values
    else seq(n, i requires 0 <= i < n => SampleAt(values, n, i))
  }

  // ---- Positions ----

  lemma Scaled(a: int, b: int, n: nat)
    requires n > 0
    ensures a <= b <==> a * n <= b * n
    ensures a < b <==> a * n < b * n
    ensures a < b <==> a * n + n <= b * n
  {
    Multiple(b - a, n);
    Multiple(a - b, n);
    Spread(b, a, n);
    Spread(a, b, n);
  }

  lemma Spread(b: int, a: int, n: int)
    ensures (b - a) * n == b * n - a * n
  {
  }

  lemma {:induction false} Multiple(d: int, n: nat)
    requires n > 0
    ensures d > 0 ==> d * n >= n
    ensures d == 0 ==> d * n == 0
    decreases if d > 0 then d else 0
  {
    if d > 1 {
      Multiple(d - 1, n);
      Spread(d, 1, n);
    }
  }

  lemma Division(length: nat, n: nat, i: nat)
    requires n > 0
    ensures i * length == Lower(length, n, i) * n + Part(length, n, i)
    ensures Part(length, n, i) < n
  {
  }

  /** A position and its neighbours lie inside the readings, so the clamp of the upper index never
      acts. */
  lemma PositionInRange(length: nat, n: nat, i: nat)
    requires 0 < n < length && i < n
    ensures Lower(length, n, i) <= Upper(length, n, i) < length
  {
    Division(length, n, i);
    hide Lower, Part;
    Scaled(i, n - 1, length);
    assert (n - 1) * length == n * length - length;
    assert (length - 1) * n == n * length - n;
    Scaled(Lower(length, n, i), length - 1, n);
  }

  /** Positions are more than one sample apart: each one's neighbours are at or before the next. */
  lemma PositionsIncrease(length: nat, n: nat, i: nat, j: nat)
    requires 0 < n < length && i < j
    ensures Lower(length, n, i) < Lower(length, n, j)
    ensures Upper(length, n, i) <= Lower(length, n, j)
  {
    Division(length, n, i);
    Division(length, n, j);
    hide Lower, Part;
    Scaled(i, j, length);
    Scaled(Lower(length, n, i), Lower(length, n, j), n);
  }

  // ---- Values between neighbours ----

  lemma WeightedWholeBetween(y0: int, y1: int, part: nat, n: nat)
    requires n > 0 && part < n
    ensures y0 <= y1 ==> y0 <= WeightedWhole(y0, y1, part, n) <= y1
    ensures y1 <= y0 ==> y1 <= WeightedWhole(y0, y1, part, n) <= y0
  {
    var low := if y0 <= y1 then y0 else y1;
    var high := if y0 <= y1 then y1 else y0;
    var sum := y0 * (n - part) + y1 * part;
    Mixed(y0, y1, part, n);
    if sum >= 0 {
      QuotientBetween(sum, n, low, high);
    } else {
      assert -high * n == -(high * n) && -low * n == -(low * n);
      QuotientBetween(-sum, n, -high, -low);
    }
  }

  lemma Mixed(y0: int, y1: int, part: nat, n: nat)
    requires n > 0 && part < n
    ensures y0 <= y1 ==> y0 * n <= y0 * (n - part) + y1 * part <= y1 * n
    ensures y1 <= y0 ==> y1 * n <= y0 * (n - part) + y1 * part <= y0 * n
  {
    var k := n - part;
    assert y0 * n == y0 * k + y0 * part;
    assert y1 * n == y1 * k + y1 * part;
    Scaled(y0, y1, k);
    if part > 0 {
      Scaled(y0, y1, part);
    }
  }

  lemma QuotientBetween(sum: int, n: nat, low: int, high: int)
    requires n > 0 && low * n <= sum <= high * n
    ensures low <= sum / n <= high
  {
    var q := sum / n;
    assert q * n <= sum < q * n + n;
    Scaled(q, high, n);
    Scaled(q + 1, low, n);
  }

  lemma WeightedBetween(y0: real, y1: real, part: nat, n: nat)
    requires n > 0 && part < n
    ensures y0 <= y1 ==> y0 <= Weighted(y0, y1, part, n) <= y1
    ensures y1 <= y0 ==> y1 <= Weighted(y0, y1, part, n) <= y0
  {
    var t := part as real / n as real;
    ProperFraction(part, n);
    OnTheLine(y0, y1, part, n);
    hide Weighted;
    ScaledDown(y1 - y0, t);
  }

  lemma ProperFraction(part: nat, n: nat)
    requires n > 0 && part < n
    ensures 0.0 <= part as real / n as real < 1.0
  {
  }

  lemma ScaledDown(d: real, t: real)
    requires 0.0 <= t < 1.0
    ensures d >= 0.0 ==> 0.0 <= d * t <= d
    ensures d <= 0.0 ==> d <= d * t <= 0.0
  {
  }

  /** The weighted mean is the interpolated value. */
  lemma OnTheLine(y0: real, y1: real, part: nat, n: nat)
    requires n > 0 && part < n
    ensures Weighted(y0, y1, part, n) == y0 + (y1 - y0) * (part as real / n as real)
  {
    var (p, m) := (part as real, n as real);
    assert y0 * (m - p) + y1 * p == y0 * m + (y1 - y0) * p;
    assert (y0 * m + (y1 - y0) * p) / m == y0 + (y1 - y0) * p / m;
    assert (y1 - y0) * p / m == (y1 - y0) * (p / m);
  }

  // ---- The loop over positions ----

  lemma FloorOfQuotient(p: int, n: nat)
    requires n > 0
    ensures (p as real / n as real).Floor == p / n
  {
    var q, r := p / n, p % n;
    QuotientAsReal(p, n, q, r);
    ProperFraction(r, n);
    FloorAndCeil(p as real / n as real, q, r as real / n as real);
  }

  lemma QuotientAsReal(p: int, n: nat, q: int, r: nat)
    requires n > 0 && p == q * n + r
    ensures p as real / n as real == q as real + r as real / n as real
  {
    ProductAsReal(q, n);
    SumOverOne(q as real, r as real, n as real);
  }

  lemma SumOverOne(q: real, r: real, n: real)
    requires n > 0.0
    ensures (q * n + r) / n == q + r / n
  {
  }

  lemma RealPosition(length: nat, n: nat, i: nat, x: real)
    requires 0 < n < length && i < n
    requires x == i as real * (length as real / n as real)
    ensures x.Floor == Lower(length, n, i)
    ensures Ceil(x) == Upper(length, n, i)
    ensures x == Lower(length, n, i) as real + Part(length, n, i) as real / n as real
  {
    var (lower, part) := (Lower(length, n, i), Part(length, n, i));
    Division(length, n, i);
    ProductAsReal(i, length);
    MovedFactor(i as real, length as real, n as real);
    QuotientAsReal(i * length, n, lower, part);
    ProperFraction(part, n);
    PositivePart(part, n);
    hide Lower, Part;
    FloorAndCeil(x, lower, part as real / n as real);
  }

  lemma FloorAndCeil(x: real, whole: int, fraction: real)
    requires x == whole as real + fraction && 0.0 <= fraction < 1.0
    ensures x.Floor == whole
    ensures Ceil(x) == if fraction == 0.0 then whole else whole + 1
  {
    var f := (-x).Floor;
    assert f as real <= -x < f as real + 1.0;
  }

  lemma MovedFactor(a: real, b: real, n: real)
    requires n > 0.0
    ensures a * (b / n) == a * b / n
  {
  }

  lemma PositivePart(part: nat, n: nat)
    requires part < n
    ensures part as real / n as real == 0.0 <==> part == 0
  {
  }

  /** Between two neighbours one apart, the interpolated value is the weighted mean, and dropping its
      fraction gives the whole number. */
  lemma InterpolatedValue(x: real, lower: nat, part: nat, n: nat, y0: real, y1: real)
    requires 0 < part < n && x == lower as real + part as real / n as real
    ensures Interpolate(x, lower as real, (lower + 1) as real, y0, y1) == Weighted(y0, y1, part, n)
  {
    OnTheLine(y0, y1, part, n);
  }

  lemma InterpolatedWhole(x: real, lower: nat, part: nat, n: nat, y0: int, y1: int)
    requires 0 < part < n && x == lower as real + part as real / n as real
    ensures Truncate(Interpolate(x, lower as real, (lower + 1) as real, y0 as real, y1 as real))
         == WeightedWhole(y0, y1, part, n)
  {
    InterpolatedValue(x, lower, part, n, y0 as real, y1 as real);
    hide Interpolate, Weighted, WeightedWhole, Truncate;
    WholeOfWeighted(y0, y1, part, n);
  }

  lemma WholeOfWeighted(y0: int, y1: int, part: nat, n: nat)
    requires part < n
    ensures Truncate(Weighted(y0 as real, y1 as real, part, n)) == WeightedWhole(y0, y1, part, n)
  {
    var sum := y0 * (n - part) + y1 * part;
    ProductAsReal(y0, n - part);
    ProductAsReal(y1, part);
    assert Weighted(y0 as real, y1 as real, part, n) == sum as real / n as real;
    hide Weighted;
    TruncatedQuotient(sum, n);
  }

  lemma ProductAsReal(a: int, b: int)
    ensures (a * b) as real == a as real * b as real
  {
  }

  lemma TruncatedQuotient(sum: int, n: nat)
    requires n > 0
    ensures Truncate(sum as real / n as real) == if sum >= 0 then sum / n else -(-sum / n)
  {
    SignOfQuotient(sum, n);
    FloorOfQuotient(sum, n);
    FloorOfQuotient(-sum, n);
  }

  lemma SignOfQuotient(sum: int, n: nat)
    requires n > 0
    ensures sum as real / n as real >= 0.0 <==> sum >= 0
    ensures -(sum as real / n as real) == (-sum) as real / n as real
  {
  }

  method NormalizeMeterValues(meterValues: seq<Meter>, newLength: nat) returns (r: seq<Meter>)
    ensures r == Downsampled(meterValues, newLength)
  {
    if newLength == 0 || |meterValues| <= newLength {
      return meterValues;
    }
    hide Interpolate, Lower, Part, Truncate, Weighted, WeightedWhole, Ceil;
    var originalLength := |meterValues|;
    var scaleFactor := originalLength as real / newLength as real;
    var normalized := new Meter[newLength](_ => EMPTY);
    for i := 0 to newLength
      invariant forall k | 0 <= k < i :: normalized[k] == SampleAt(meterValues, newLength, k)
    {
      var originalIndex := i as real * scaleFactor;
      var lowerIndex := originalIndex.Floor;
      var upperIndex := Ceil(originalIndex);
      RealPosition(originalLength, newLength, i, originalIndex);
      PositionInRange(originalLength, newLength, i);
      if upperIndex >= originalLength {
        upperIndex := originalLength - 1;
      }
      normalized[i] := meterValues[lowerIndex];
      if lowerIndex != upperIndex {
        var (a, b) := (meterValues[lowerIndex], meterValues[upperIndex]);
        var (x0, x1) := (lowerIndex as real, upperIndex as real);
        ghost var part := Part(originalLength, newLength, i);
        InterpolatedWhole(originalIndex, lowerIndex, part, newLength, a.consumedEnergy, b.consumedEnergy);
        normalized[i] := normalized[i].(
          consumedEnergy := Truncate(
            Interpolate(originalIndex, x0, x1, a.consumedEnergy as real, b.consumedEnergy as real)));
        InterpolatedWhole(originalIndex, lowerIndex, part, newLength, a.powerRate, b.powerRate);
        normalized[i] := normalized[i].(
          powerRate := Truncate(Interpolate(originalIndex, x0, x1, a.powerRate as real, b.powerRate as real)));
        normalized[i] := normalized[i].(powerRateWh := normalized[i].powerRate as real / 1000.0);
        InterpolatedWhole(originalIndex, lowerIndex, part, newLength, a.powerActive, b.powerActive);
        normalized[i] := normalized[i].(
          powerActive := Truncate(Interpolate(originalIndex, x0, x1, a.powerActive as real, b.powerActive as real)));
        InterpolatedValue(originalIndex, lowerIndex, part, newLength, a.voltage, b.voltage);
        normalized[i] := normalized[i].(voltage := Interpolate(originalIndex, x0, x1, a.voltage, b.voltage));
        InterpolatedValue(originalIndex, lowerIndex, part, newLength, a.currentImport, b.currentImport);
        normalized[i] := normalized[i].(
          currentImport := Interpolate(originalIndex, x0, x1, a.currentImport, b.currentImport));
        InterpolatedValue(originalIndex, lowerIndex, part, newLength, a.currentOffered, b.currentOffered);
        normalized[i] := normalized[i].(
          currentOffered := Interpolate(originalIndex, x0, x1, a.currentOffered, b.currentOffered));
      }
    }
    return normalized[..];
  }

  // ---- What downsampling keeps ----

  predicate WithinInts(y: int, a: int, b: int) {
    a <= y <= b || b <= y <= a
  }

  predicate WithinReals(y: real, a: real, b: real) {
    a <= y <= b || b <= y <= a
  }

  /** Every interpolated field of a sample lies between those of its two neighbours. */
  lemma SamplesLieBetween(values: seq<Meter>, n: nat, i: nat)
    requires 0 < n < |values| && i < n
    ensures Lower(|values|, n, i) <= Upper(|values|, n, i) < |values|
    ensures var (y, a, b) := (Downsampled(values, n)[i], values[Lower(|values|, n, i)], values[Upper(|values|, n, i)]);
            && WithinInts(y.consumedEnergy, a.consumedEnergy, b.consumedEnergy)
            && WithinInts(y.powerRate, a.powerRate, b.powerRate)
            && WithinInts(y.powerActive, a.powerActive, b.powerActive)
            && WithinReals(y.voltage, a.voltage, b.voltage)
            && WithinReals(y.currentImport, a.currentImport, b.currentImport)
            && WithinReals(y.currentOffered, a.currentOffered, b.currentOffered)
  {
    PositionInRange(|values|, n, i);
    hide Lower, Part, WeightedWhole, Weighted;
    var part := Part(|values|, n, i);
    Division(|values|, n, i);
    var (a, b) := (values[Lower(|values|, n, i)], values[Upper(|values|, n, i)]);
    WeightedWholeBetween(a.consumedEnergy, b.consumedEnergy, part, n);
    WeightedWholeBetween(a.powerRate, b.powerRate, part, n);
    WeightedWholeBetween(a.powerActive, b.powerActive, part, n);
    WeightedBetween(a.voltage, b.voltage, part, n);
    WeightedBetween(a.currentImport, b.currentImport, part, n);
    WeightedBetween(a.currentOffered, b.currentOffered, part, n);
  }

  predicate EnergyNeverFalls(values: seq<Meter>) {
    forall i, j | 0 <= i < j < |values| :: values[i].consumedEnergy <= values[j].consumedEnergy
  }

  /** A curve of consumed energy that never falls still never falls. */
  lemma EnergyStillNeverFalls(values: seq<Meter>, n: nat)
    requires EnergyNeverFalls(values)
    ensures EnergyNeverFalls(Downsampled(values, n))
  {
    if 0 < n < |values| {
      var r := Downsampled(values, n);
      hide Downsampled;
      forall i, j | 0 <= i < j < n
        ensures r[i].consumedEnergy <= r[j].consumedEnergy
      {
        EnergyInOrder(values, n, i, j);
      }
    }
  }

  lemma EnergyInOrder(values: seq<Meter>, n: nat, i: nat, j: nat)
    requires EnergyNeverFalls(values) && i < j < n < |values| && |Downsampled(values, n)| == n
    ensures Downsampled(values, n)[i].consumedEnergy <= Downsampled(values, n)[j].consumedEnergy
  {
    hide Downsampled, Lower, Part, Upper;
    SamplesLieBetween(values, n, i);
    SamplesLieBetween(values, n, j);
    PositionsIncrease(|values|, n, i, j);
  }

  predicate PowerInStep(m: Meter) {
    m.powerRate as real == m.powerRateWh * 1000.0
  }

  /** Both readings of the power stay in step. */
  lemma PowerStaysInStep(values: seq<Meter>, n: nat)
    requires forall m | m in values :: PowerInStep(m)
    ensures forall m | m in Downsampled(values, n) :: PowerInStep(m)
  {
    if 0 < n < |values| {
      forall i | 0 <= i < n
        ensures PowerInStep(Downsampled(values, n)[i])
      {
        PositionInRange(|values|, n, i);
      }
    }
  }

  /** The result has the wanted length, begins with the first reading, and a second pass changes
      nothing. */
  lemma SecondPassChangesNothing(values: seq<Meter>, n: nat)
    requires n > 0
    ensures var r := Downsampled(values, n);
            && |r| == (if |values| <= n then |values| else n)
            && (values != [] ==> r[0] == values[0])
            && Downsampled(r, n) == r
  {
    if n < |values| {
      Division(|values|, n, 0);
      assert Lower(|values|, n, 0) == 0 && Part(|values|, n, 0) == 0;
    }
  }

  // ---- Which readings make a sample ----

  /** The quotient by n without its fraction, towards zero. */
  predicate IsQuotient(y: int, sum: int, n: nat) {
    if sum >= 0 then n * y <= sum < n * y + n else n * y - n < sum <= n * y
  }

  /** The numbers that one and the remainder are: the position is the reading and as many n-th parts. */
  lemma PositionIs(length: nat, n: nat, i: nat, q: nat, r: nat)
    requires n > 0 && i * length == q * n + r && r < n
    ensures q == Lower(length, n, i) && r == Part(length, n, i)
  {
    Division(length, n, i);
    hide Lower, Part;
    Scaled(q, Lower(length, n, i), n);
    Scaled(Lower(length, n, i), q, n);
  }

  /** A reading r n-th parts of the way from one to the next: power, energy, voltage and currents lie as far
      on the way, whole numbers without their fraction; everything else is from the reading before. */
  ghost predicate IsOnTheWay(y: Meter, a: Meter, b: Meter, r: nat, n: nat)
    requires r < n
  {
    var s := n - r;
    && y == a.(consumedEnergy := y.consumedEnergy, powerRate := y.powerRate, powerRateWh := y.powerRateWh,
               powerActive := y.powerActive, voltage := y.voltage, currentImport := y.currentImport,
               currentOffered := y.currentOffered)
    && IsQuotient(y.consumedEnergy, a.consumedEnergy * s + b.consumedEnergy * r, n)
    && IsQuotient(y.powerRate, a.powerRate * s + b.powerRate * r, n)
    && IsQuotient(y.powerActive, a.powerActive * s + b.powerActive * r, n)
    && y.powerRateWh * 1000.0 == y.powerRate as real
    && y.voltage * n as real == a.voltage * s as real + b.voltage * r as real
    && y.currentImport * n as real == a.currentImport * s as real + b.currentImport * r as real
    && y.currentOffered * n as real == a.currentOffered * s as real + b.currentOffered * r as real
  }

  lemma BetweenIsOnTheWay(a: Meter, b: Meter, r: nat, n: nat)
    requires r < n
    ensures IsOnTheWay(Between(a, b, r, n), a, b, r, n)
  {
    hide WeightedWhole, Weighted, IsQuotient;
    WholeIsQuotient(a.consumedEnergy, b.consumedEnergy, r, n);
    WholeIsQuotient(a.powerRate, b.powerRate, r, n);
    WholeIsQuotient(a.powerActive, b.powerActive, r, n);
    WeightedTimes(a.voltage, b.voltage, r, n);
    WeightedTimes(a.currentImport, b.currentImport, r, n);
    WeightedTimes(a.currentOffered, b.currentOffered, r, n);
  }

  /** A sample whose position is a reading is that reading; one whose position is r n-th parts beyond a
      reading is as far on the way to the next. */
  lemma SampleIsOnTheLine(values: seq<Meter>, n: nat, i: nat, q: nat, r: nat)
    requires 0 < n < |values| && i < n && i * |values| == q * n + r && r < n
    ensures i < |Downsampled(values, n)| && q < |values| && (r > 0 ==> q + 1 < |values|)
    ensures r == 0 ==> Downsampled(values, n)[i] == values[q]
    ensures r > 0 ==> IsOnTheWay(Downsampled(values, n)[i], values[q], values[q + 1], r, n)
  {
    PositionIs(|values|, n, i, q, r);
    PositionInRange(|values|, n, i);
    hide Lower, Part, Between, IsOnTheWay;
    if r > 0 {
      BetweenIsOnTheWay(values[q], values[q + 1], r, n);
    }
  }

  lemma WholeIsQuotient(y0: int, y1: int, part: nat, n: nat)
    requires part < n
    ensures IsQuotient(WeightedWhole(y0, y1, part, n), y0 * (n - part) + y1 * part, n)
  {
    var sum := y0 * (n - part) + y1 * part;
    if sum < 0 {
      var q := -sum / n;
      assert q * n <= -sum < q * n + n;
      assert n * -q == -(q * n);
    }
  }

  lemma WeightedTimes(y0: real, y1: real, part: nat, n: nat)
    requires part < n
    ensures Weighted(y0, y1, part, n) * n as real == y0 * (n - part) as real + y1 * part as real
  {
  }

  /** Nothing to do: no length is wanted, or there are no more readings. */
  lemma FewReadingsStay(values: seq<Meter>, n: nat)
    requires n == 0 || |values| <= n
    ensures Downsampled(values, n) == values
  {
  }
}
