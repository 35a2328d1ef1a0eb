/// `calculate_clock_settings` of the older copy of the driver
/// (`source/nielvisiii/academicIO.py`).  That file is Python 2 code, so a
/// quotient of two ints is floored, a quotient with a float operand is a
/// true quotient, and `round` rounds half away from zero and returns a float.
/// Its loop also stores the clamped counter top back into
/// `requested_frequency` after every divisor, so the exactness test, the
/// closeness test and, in phase-correct mode, the next divisor's top are all
/// computed against a counter value instead of the requested frequency.
module LegacyClock {
  import opened Common
  import opened Rationals
  import opened Clock
  import opened PwmSpi

  /// Python 2 `n / d` on two ints: the floor of the quotient.
  function FloorDiv(n: int, d: int): (q: int)
    requires d != 0
    ensures d > 0 ==> d * q <= n < d * q + d
    ensures d < 0 ==> d * q >= n > d * q + d
  {
    if d > 0 then n / d else (-n) / (-d)
  }

  /// Python 2 `round(n / d)` on a float quotient: the nearest integer, ties
  /// away from zero.
  function RoundHalfAway(n: int, d: int): (r: int)
    requires d != 0
    ensures 2 * Abs(n - r * d) <= Abs(d)
    ensures 2 * Abs(n - r * d) == Abs(d) ==> Abs(r) * Abs(d) > Abs(n)
  {
    if d > 0 then RoundPositive(n, d)
    else
      var r := RoundPositive(-n, -d);
      assert n - r * d == -(-n - r * (-d));
      r
  }

  /// `round(n / e)` for a positive denominator.
  function RoundPositive(n: int, e: int): (r: int)
    requires e > 0
    ensures 2 * Abs(n - r * e) <= e
    ensures 2 * Abs(n - r * e) == e ==> Abs(r) * e > Abs(n)
  {
    if n >= 0 then
      var r := (2 * n + e) / (2 * e);
      RoundUpBounds(n, e, r);
      r
    else
      var r := (-2 * n + e) / (2 * e);
      RoundUpBounds(-n, e, r);
      assert n - (-r) * e == -(-n - r * e);
      -r
  }

  /// For m >= 0 and e > 0, floor((2m + e) / 2e) is m / e rounded half up.
  lemma RoundUpBounds(m: int, e: int, r: int)
    requires m >= 0 && e > 0 && r == (2 * m + e) / (2 * e)
    ensures -e <= 2 * (m - r * e) < e && r >= 0
    ensures -e == 2 * (m - r * e) ==> r * e > m
  {
    var q := 2 * e;
    assert q * r <= 2 * m + e < q * r + q;
  }

  /// `requested_frequency`: its value and whether Python holds it as a float
  /// (the floor quotient and `round` differ between the two).
  datatype Request = Request(value: int, isFloat: bool)

  /// `max(min_counter, min(top, max_counter))`, with `top` a float and the
  /// counters ints.  Python's `min` and `max` return the first of equal
  /// arguments, so the float survives only strictly above `min_counter`.
  function Overwrite(top: int, minCounter: int, maxCounter: int): (r: Request)
    ensures r.value == Max(minCounter, Min(top, maxCounter))
    ensures r.isFloat <==> minCounter < top <= maxCounter
  {
    var m := if maxCounter < top then Request(maxCounter, false) else Request(top, true);
    if m.value > minCounter then m else Request(minCounter, false)
  }

  /// One search after the range guard: `pwmRequest` is the request as it
  /// stood before the loop, which the non-phase-correct mode keeps using.
  datatype LegacySearch = LegacySearch(
    divisors: seq<int>,
    pwmRequest: int,
    phaseCorrect: bool,
    limits: ClockLimits)

  /// The top and frequency divisor `d` gives against the current request.
  /// The top is a float in both modes, so the frequency is a true quotient.
  function LegacyTrial(s: LegacySearch, d: int, request: Request): (r: Result<Trial>)
    ensures r.Err? ==> r.error == DivisionByZero
  {
    var base := s.limits.baseClock;
    if s.phaseCorrect then
      if 2 * d * request.value == 0 then Err(DivisionByZero)
      else
        var top := if request.isFloat then RoundHalfAway(base, 2 * d * request.value)
                   else FloorDiv(base, 2 * d * request.value);
        if 2 * d * top == 0 then Err(DivisionByZero)
        else Ok(Trial(top, Quotient(base, 2 * d * top)))
    else
      if d * s.pwmRequest == 0 then Err(DivisionByZero)
      else
        var top := FloorDiv(base, d * s.pwmRequest) - 1;
        if (top + 1) * d == 0 then Err(DivisionByZero)
        else Ok(Trial(top, Quotient(base, (top + 1) * d)))
  }

  /// The best-so-far update, with both distances taken from the overwritten
  /// request.
  function LegacyPick(request: int, best: Settings, t: Trial, d: int, coerced: bool): Settings
  {
    if coerced && Le(DistanceFromInt(request, best.frequency), DistanceFromInt(request, t.frequency))
       && !IsZero(best.frequency)
    then best
    else Settings(t.frequency, t.top, d)
  }

  /// The loop from divisor `i` on, with the current request, `min_counter`
  /// and best-so-far.
  function LegacySearchFrom(s: LegacySearch, i: nat, request: Request, minCounter: int, best: Settings)
    : Result<Settings>
    requires i <= |s.divisors|
    decreases |s.divisors| - i
  {
    if i == |s.divisors| then Ok(best)
    else
      var d := s.divisors[i];
      var t :- LegacyTrial(s, d, request);
      var floor := if s.phaseCorrect then minCounter else minCounter - 1;
      var next := Overwrite(t.top, floor, s.limits.maxCounter);
      var coerced := !Eq(t.frequency, FromInt(next.value));
      var picked := LegacyPick(next.value, best, t, d, coerced);
      if t.top < floor || !coerced then Ok(picked)
      else LegacySearchFrom(s, i + 1, next, floor, picked)
  }

  /// The older `calculate_clock_settings`, as a function of its arguments.
  function LegacyClockSettings(f: int, divisors: seq<int>, phaseCorrect: bool, lim: ClockLimits): Result<Settings>
  {
    var request :- Requested(f, lim);
    LegacySearchFrom(LegacySearch(divisors, request, phaseCorrect, lim), 0, Request(request, false),
                     lim.minCounter, Unset)
  }

  /// The loop as the older driver writes it.
  method CalculateLegacyClockSettings(f: int, divisors: seq<int>, phaseCorrect: bool, lim: ClockLimits)
    returns (r: Result<Settings>)
    ensures r == LegacyClockSettings(f, divisors, phaseCorrect, lim)
  {
    var requested := f;
    if lim.coerceRange {
      if !(lim.minFrequency < requested < lim.maxFrequency) {
        return Err(OutOfRange);
      }
      requested := Max(lim.minFrequency, Min(requested, lim.maxFrequency));
    }
    if requested < 0 {
      requested := 0;
    }
    ghost var s := LegacySearch(divisors, requested, phaseCorrect, lim);
    var base := lim.baseClock;
    var best := Unset;
    var minCounter := lim.minCounter;
    var pwmRequested := requested;
    var request := Request(requested, false);
    var i := 0;
    while i < |divisors|
      invariant 0 <= i <= |divisors|
      invariant LegacySearchFrom(s, i, request, minCounter, best) == LegacyClockSettings(f, divisors, phaseCorrect, lim)
      decreases |divisors| - i
    {
      var divisor := divisors[i];
      var top: int;
      var frequency: Rat;
      if phaseCorrect {
        if 2 * divisor * request.value == 0 {
          return Err(DivisionByZero);
        }
        if request.isFloat {
          top := RoundHalfAway(base, 2 * divisor * request.value);
        } else {
          top := FloorDiv(base, 2 * divisor * request.value);
        }
        if 2 * divisor * top == 0 {
          return Err(DivisionByZero);
        }
        frequency := Quotient(base, 2 * divisor * top);
      } else {
        if divisor * pwmRequested == 0 {
          return Err(DivisionByZero);
        }
        top := FloorDiv(base, divisor * pwmRequested) - 1;
        if (top + 1) * divisor == 0 {
          return Err(DivisionByZero);
        }
        frequency := Quotient(base, (top + 1) * divisor);
        minCounter := minCounter - 1;
      }
      assert LegacyTrial(s, divisor, request) == Ok(Trial(top, frequency));
      request := Overwrite(top, minCounter, lim.maxCounter);
      var coerced := !Eq(frequency, FromInt(request.value));
      if coerced {
        var comparison := Le(DistanceFromInt(request.value, best.frequency), DistanceFromInt(request.value, frequency));
        if !(comparison && !IsZero(best.frequency)) {
          best := Settings(frequency, top, divisor);
        }
      } else {
        best := Settings(frequency, top, divisor);
      }
      if top < minCounter || !coerced {
        return Ok(best);
      }
      i := i + 1;
    }
    return Ok(best);
  }

  // ---------------------------------------------------------------------
  // What the older search promises.

  /// The search itself raises nothing but ZeroDivisionError.
  lemma {:induction false} LegacySearchErrors(s: LegacySearch, i: nat, request: Request, minCounter: int, best: Settings)
    requires i <= |s.divisors|
    ensures LegacySearchFrom(s, i, request, minCounter, best).Err?
        ==> LegacySearchFrom(s, i, request, minCounter, best).error == DivisionByZero
    decreases |s.divisors| - i
  {
    if i < |s.divisors| && LegacyTrial(s, s.divisors[i], request).Ok? {
      var t := LegacyTrial(s, s.divisors[i], request).value;
      var floor := if s.phaseCorrect then minCounter else minCounter - 1;
      var next := Overwrite(t.top, floor, s.limits.maxCounter);
      var coerced := !Eq(t.frequency, FromInt(next.value));
      if !(t.top < floor || !coerced) {
        LegacySearchErrors(s, i + 1, next, floor, LegacyPick(next.value, best, t, s.divisors[i], coerced));
      }
    }
  }

  /// The same range guard as the newer driver: ValueError exactly when
  /// coercion is on and the frequency is not strictly inside the limits.
  lemma LegacyRangeGuard(f: int, divisors: seq<int>, phaseCorrect: bool, lim: ClockLimits)
    ensures LegacyClockSettings(f, divisors, phaseCorrect, lim) == Err(OutOfRange)
        <==> lim.coerceRange && !(lim.minFrequency < f < lim.maxFrequency)
  {
    var req := Requested(f, lim);
    if req.Ok? {
      LegacySearchErrors(LegacySearch(divisors, req.value, phaseCorrect, lim), 0, Request(req.value, false),
                         lim.minCounter, Unset);
    }
  }

  /// The returned divisor is one of the list's: the first divisor is always
  /// adopted, because the best-so-far starts at frequency 0.
  lemma {:induction false} LegacySearchPicksListed(s: LegacySearch, i: nat, request: Request, minCounter: int, best: Settings)
    requires i <= |s.divisors|
    requires best.divisor in s.divisors || (IsZero(best.frequency) && i < |s.divisors|)
    ensures LegacySearchFrom(s, i, request, minCounter, best).Ok?
        ==> LegacySearchFrom(s, i, request, minCounter, best).value.divisor in s.divisors
    decreases |s.divisors| - i
  {
    if i < |s.divisors| && LegacyTrial(s, s.divisors[i], request).Ok? {
      var t := LegacyTrial(s, s.divisors[i], request).value;
      var floor := if s.phaseCorrect then minCounter else minCounter - 1;
      var next := Overwrite(t.top, floor, s.limits.maxCounter);
      var coerced := !Eq(t.frequency, FromInt(next.value));
      var picked := LegacyPick(next.value, best, t, s.divisors[i], coerced);
      assert picked.divisor in s.divisors;
      if !(t.top < floor || !coerced) {
        LegacySearchPicksListed(s, i + 1, next, floor, picked);
      }
    }
  }

  lemma LegacyDivisorIsListed(f: int, divisors: seq<int>, phaseCorrect: bool, lim: ClockLimits)
    requires |divisors| > 0
    ensures LegacyClockSettings(f, divisors, phaseCorrect, lim).Ok?
        ==> LegacyClockSettings(f, divisors, phaseCorrect, lim).value.divisor in divisors
  {
    var req := Requested(f, lim);
    if req.Ok? {
      LegacySearchPicksListed(LegacySearch(divisors, req.value, phaseCorrect, lim), 0, Request(req.value, false),
                              lim.minCounter, Unset);
    }
  }

  // ---------------------------------------------------------------------
  // SPI at 1 MHz: the older SPI.configure asks for phase-correct settings
  // with the SPI limits.

  /// As written: the first divisor already gives exactly 1 MHz (top 10), but
  /// the exactness test compares it with the overwritten request 10, so the
  /// loop goes on; the second divisor computes its top from a request of
  /// 10 Hz, and the search ends on divisor 8, top 32895, about 38 Hz.
  lemma LegacySpiOneMegahertz()
    ensures LegacyTrial(LegacySearch(SpiDivisors, 1000000, true, SpiLimits), 1, Request(1000000, false))
         == Ok(Trial(10, Quotient(20000000, 20)))
    ensures Eq(Quotient(20000000, 20), FromInt(1000000))
    ensures LegacyClockSettings(1000000, SpiDivisors, true, SpiLimits)
         == Ok(Settings(Quotient(20000000, 526320), 32895, 8))
    ensures Lt(Quotient(20000000, 526320), FromInt(39))
  {
    assert Requested(1000000, SpiLimits) == Ok(1000000);
    OneMegahertzDivisorOne();
    OneMegahertzDivisorTwo();
    OneMegahertzDivisorFour();
    OneMegahertzDivisorEight();
  }

  const OneMegahertzSearch := LegacySearch(SpiDivisors, 1000000, true, SpiLimits)

  lemma OneMegahertzDivisorOne()
    ensures LegacyTrial(OneMegahertzSearch, 1, Request(1000000, false)) == Ok(Trial(10, Quotient(20000000, 20)))
    ensures LegacySearchFrom(OneMegahertzSearch, 0, Request(1000000, false), 1, Unset)
         == LegacySearchFrom(OneMegahertzSearch, 1, Request(10, true), 1, Settings(Quotient(20000000, 20), 10, 1))
  {
    assert FloorDiv(20000000, 2000000) == 10;
    assert LegacyTrial(OneMegahertzSearch, 1, Request(1000000, false)) == Ok(Trial(10, Quotient(20000000, 20)));
  }

  lemma OneMegahertzDivisorTwo()
    ensures LegacySearchFrom(OneMegahertzSearch, 1, Request(10, true), 1, Settings(Quotient(20000000, 20), 10, 1))
         == LegacySearchFrom(OneMegahertzSearch, 2, Request(65535, false), 1, Settings(Quotient(20000000, 2000000), 500000, 2))
  {
    assert RoundHalfAway(20000000, 40) == 500000;
    assert LegacyTrial(OneMegahertzSearch, 2, Request(10, true)) == Ok(Trial(500000, Quotient(20000000, 2000000)));
  }

  lemma OneMegahertzDivisorFour()
    ensures LegacySearchFrom(OneMegahertzSearch, 2, Request(65535, false), 1, Settings(Quotient(20000000, 2000000), 500000, 2))
         == LegacySearchFrom(OneMegahertzSearch, 3, Request(38, true), 1, Settings(Quotient(20000000, 2000000), 500000, 2))
  {
    assert FloorDiv(20000000, 524280) == 38;
    assert LegacyTrial(OneMegahertzSearch, 4, Request(65535, false)) == Ok(Trial(38, Quotient(20000000, 304)));
  }

  lemma OneMegahertzDivisorEight()
    ensures LegacySearchFrom(OneMegahertzSearch, 3, Request(38, true), 1, Settings(Quotient(20000000, 2000000), 500000, 2))
         == LegacySearchFrom(OneMegahertzSearch, 4, Request(32895, true), 1, Settings(Quotient(20000000, 526320), 32895, 8))
  {
    assert RoundHalfAway(20000000, 608) == 32895;
    assert LegacyTrial(OneMegahertzSearch, 8, Request(38, true)) == Ok(Trial(32895, Quotient(20000000, 526320)));
  }

  /// Corrected: the quantizer with the request held fixed, in the same
  /// phase-correct mode and limits, stops at the first divisor with top 10
  /// and exactly 1 MHz.
  lemma CorrectedSpiOneMegahertz()
    ensures ClockSettings(1000000, SpiDivisors, true, SpiLimits, false)
         == Ok(Settings(Quotient(20000000, 20), 10, 1))
    ensures Eq(Quotient(20000000, 20), FromInt(1000000))
  {
    var s := Search(SpiDivisors, 1000000, true, SpiLimits, false);
    assert Requested(1000000, SpiLimits) == Ok(1000000);
    assert RoundQuotient(20000000, 2000000) == 10;
    assert TrialFor(s, 1) == Ok(Trial(10, Quotient(20000000, 20)));
  }
}
