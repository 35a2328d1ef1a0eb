/// The analog sample-rate quantizer `Analog.calculate_sample_rate_to_ticks`:
/// the FPGA samples on a divider of its 40 MHz clock, so a requested rate is
/// clamped and turned into a whole number of clock ticks per sample.
module SampleRate {
  import opened Common
  import opened Rationals

  const FpgaClockRate: int := 40000000

  /// Default bounds of the analog-input call sites.
  const DefaultMinimum: int := 1000
  const DefaultMaximum: int := 30000

  /// Bounds the analog-output path passes explicitly.
  const OutputMinimum: int := 1000
  const OutputMaximum: int := 1600000

  datatype Ticks = Ticks(count: int, actualRate: Rat)

  /// The rate after the two clamping statements (minimum first, then maximum).
  function ClampRate(rate: int, minimum: int, maximum: int): int
  {
    var r := if rate < minimum then minimum else rate;
    if r > maximum then maximum else r
  }

  /// `count = round(40 MHz / rate)` and `actual = 40 MHz / count`, with the
  /// two divisions by zero Python would raise.
  function RateToTicks(rate: int, minimum: int, maximum: int): (r: Result<Ticks>)
    ensures var c := ClampRate(rate, minimum, maximum);
      r.Ok? <==> c != 0 && RoundQuotient(FpgaClockRate, c) != 0
    ensures var c := ClampRate(rate, minimum, maximum);
      r.Ok? && c > 0 ==>
        2 * Abs(FpgaClockRate - r.value.count * c) <= c
        && r.value.actualRate.num * r.value.count == FpgaClockRate * r.value.actualRate.den
    ensures var c := ClampRate(rate, minimum, maximum);
      r.Ok? && c > 0 && 2 * Abs(FpgaClockRate - r.value.count * c) == c ==> r.value.count % 2 == 0
    ensures r.Err? ==> r.error == DivisionByZero
  {
    var clamped := ClampRate(rate, minimum, maximum);
    if clamped == 0 then Err(DivisionByZero)
    else
      var count := RoundQuotient(FpgaClockRate, clamped);
      if count == 0 then Err(DivisionByZero)
      else Ok(Ticks(count, Quotient(FpgaClockRate, count)))
  }

  /// With the default bounds the quantizer never fails, and the count lies
  /// between round(40 MHz / 30000) = 1333 and 40 MHz / 1000 = 40000.
  lemma {:induction false} DefaultCountBounds(rate: int)
    ensures RateToTicks(rate, DefaultMinimum, DefaultMaximum).Ok?
    ensures 1333 <= RateToTicks(rate, DefaultMinimum, DefaultMaximum).value.count <= 40000
  {
    var c := ClampRate(rate, DefaultMinimum, DefaultMaximum);
    assert 1000 <= c <= 30000;
    var count := RoundQuotient(FpgaClockRate, c);
    CountBetween(c, count, 1000, 30000, 1333, 40000);
  }

  /// With the analog-output bounds the count lies in [25, 40000].
  lemma {:induction false} OutputCountBounds(rate: int)
    ensures RateToTicks(rate, OutputMinimum, OutputMaximum).Ok?
    ensures 25 <= RateToTicks(rate, OutputMinimum, OutputMaximum).value.count <= 40000
  {
    var c := ClampRate(rate, OutputMinimum, OutputMaximum);
    assert 1000 <= c <= 1600000;
    var count := RoundQuotient(FpgaClockRate, c);
    CountBetween(c, count, 1000, 1600000, 25, 40000);
  }

  /// A count within half a rate of 40 MHz / c, for c in [lo, hi], lies in
  /// [low, high] whenever those bounds leave more than half a rate of room.
  lemma CountBetween(c: int, count: int, lo: int, hi: int, low: int, high: int)
    requires 0 < lo <= c <= hi
    requires 2 * Abs(FpgaClockRate - count * c) <= c
    requires low >= 2 && 2 * (FpgaClockRate - (low - 1) * hi) > hi
    requires high > 0 && FpgaClockRate <= high * lo
    ensures low <= count <= high
  {
    var p := count * c;
    assert -c <= 2 * (FpgaClockRate - p) <= c;
    // (low - 1) * c <= (low - 1) * hi < 40 MHz - hi / 2 <= count * c
    var m := (low - 1) * c;
    MulLe(c, hi, low - 1);
    assert m <= (low - 1) * hi;
    assert 2 * (FpgaClockRate - m) > c;
    assert m < p;
    CancelLt(low - 1, count, c);
    // count * c <= 40 MHz + c / 2 < high * lo + c <= (high + 1) * c
    var n := high * c;
    MulLe(lo, c, high);
    assert high * lo == lo * high && high * c == c * high;
    assert FpgaClockRate <= n;
    assert (high + 1) * c == n + c;
    assert 2 * p <= 2 * n + c;
    assert p < (high + 1) * c;
    CancelLt(count, high + 1, c);
  }

  /// The values tests/AI.py pins for the default bounds.
  lemma PinnedTicks()
    ensures RateToTicks(1, DefaultMinimum, DefaultMaximum).value.count == 40000
    ensures RateToTicks(1000, DefaultMinimum, DefaultMaximum).value.count == 40000
    ensures RateToTicks(5000, DefaultMinimum, DefaultMaximum).value.count == 8000
    ensures RateToTicks(10000, DefaultMinimum, DefaultMaximum).value.count == 4000
    ensures RateToTicks(50000, DefaultMinimum, DefaultMaximum).value.count == 1333
    ensures RateToTicks(1000000, DefaultMinimum, DefaultMaximum).value.count == 1333
    // 40 MHz / 1024 = 39062.5: the tie goes to the even count.
    ensures RateToTicks(1024, DefaultMinimum, DefaultMaximum).value.count == 39062
  {
  }
}
