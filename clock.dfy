/// `calculate_clock_settings`: choose a clock divisor and a counter top so
/// that the FPGA's counter produces a requested frequency, or the closest one
/// the divisors allow.  Quotients are exact rationals and `round` rounds half
/// to even, as Python's does.
module Clock {
  import opened Common
  import opened Rationals

  /// The keyword arguments of `calculate_clock_settings`.
  datatype ClockLimits = ClockLimits(
    maxFrequency: int,
    minFrequency: int,
    baseClock: int,
    maxCounter: int,
    minCounter: int,
    coerceRange: bool)

  /// The defaults, which `PWM.generate` uses.
  const DefaultLimits := ClockLimits(40000, 40, 40000000, 65535, 100, true)

  /// The arguments `SPI.configure` passes.
  const SpiLimits := ClockLimits(4000000, 40, 20000000, 65535, 1, true)

  /// The returned triple: frequency, counter top and clock divisor.
  datatype Settings = Settings(frequency: Rat, top: int, divisor: int)

  /// No divisor examined yet: the source starts from `0, 0, 0`.
  const Unset := Settings(FromInt(0), 0, 0)

  /// One search, after the range guard: the divisor list, the request, the
  /// counter mode and limits.  `capped` selects the corrected quantizer that
  /// never lets the counter top exceed `maxCounter`; the driver as written
  /// does not cap it.
  datatype Search = Search(
    divisors: seq<int>,
    request: int,
    phaseCorrect: bool,
    limits: ClockLimits,
    capped: bool)

  /// The counter top and frequency one divisor gives.
  datatype Trial = Trial(top: int, frequency: Rat)

  /// The range guard and the clamp that follows it.  Once the guard has
  /// passed, the clamp changes nothing; a negative request becomes 0.
  function Requested(f: int, lim: ClockLimits): (r: Result<int>)
    ensures r.Err? <==> lim.coerceRange && !(lim.minFrequency < f < lim.maxFrequency)
    ensures r.Err? ==> r.error == OutOfRange
    ensures r.Ok? ==> r.value == Max(f, 0)
  {
    if lim.coerceRange && !(lim.minFrequency < f < lim.maxFrequency) then
      Err(OutOfRange)
    else
      var g := if lim.coerceRange then Max(lim.minFrequency, Min(f, lim.maxFrequency)) else f;
      Ok(if g < 0 then 0 else g)
  }

  function Cap(s: Search, top: int): int
  {
    if s.capped then Min(top, s.limits.maxCounter) else top
  }

  /// The trial for divisor `d`.  Phase-correct mode counts up and down, so
  /// the period is `2 * top * d` base ticks; otherwise it is `(top + 1) * d`.
  /// A zero denominator is Python's ZeroDivisionError.
  function TrialFor(s: Search, d: int): (r: Result<Trial>)
    ensures r.Err? ==> r.error == DivisionByZero
  {
    var base := s.limits.baseClock;
    if s.phaseCorrect then
      if 2 * d * s.request == 0 then Err(DivisionByZero)
      else
        var top := Cap(s, RoundQuotient(base, 2 * d * s.request));
        if 2 * top * d == 0 then Err(DivisionByZero)
        else Ok(Trial(top, Quotient(base, 2 * top * d)))
    else
      if d * s.request == 0 then Err(DivisionByZero)
      else
        var top := Cap(s, RoundQuotient(base, d * s.request) - 1);
        if d * (1 + top) == 0 then Err(DivisionByZero)
        else Ok(Trial(top, Quotient(base, d * (1 + top))))
  }

  /// |request - x|.
  function Distance(s: Search, x: Rat): Rat
  {
    DistanceFromInt(s.request, x)
  }

  /// The frequency is not exactly the request.
  predicate Coerced(s: Search, t: Trial)
  {
    !Eq(t.frequency, FromInt(s.request))
  }

  /// The best-so-far update: a coerced trial replaces the best unless the
  /// best is at least as close and non-zero; an exact trial always does.
  function Pick(s: Search, best: Settings, t: Trial, d: int): Settings
  {
    if Coerced(s, t) && Le(Distance(s, best.frequency), Distance(s, t.frequency)) && !IsZero(best.frequency)
    then best
    else Settings(t.frequency, t.top, d)
  }

  /// `min_counter` as the stop test after divisor `i` sees it: it drops by
  /// one per divisor in the non-phase-correct mode.
  function CounterFloor(s: Search, i: nat): int
  {
    if s.phaseCorrect then s.limits.minCounter else s.limits.minCounter - (i + 1)
  }

  /// The search goes on after divisor `i`: its trial is defined, not exact,
  /// and its top has not fallen below the counter floor.
  predicate Continues(s: Search, i: nat)
    requires i < |s.divisors|
  {
    var t := TrialFor(s, s.divisors[i]);
    t.Ok? && Coerced(s, t.value) && t.value.top >= CounterFloor(s, i)
  }

  /// Divisor `i` is reached: the search went on after every earlier one.
  predicate Reached(s: Search, i: nat)
    requires i <= |s.divisors|
  {
    forall j :: 0 <= j < i ==> Continues(s, j)
  }

  /// The loop of `calculate_clock_settings` from divisor `i` on, with the
  /// current `min_counter` and best-so-far.
  function SearchFrom(s: Search, i: nat, minCounter: int, best: Settings): Result<Settings>
    requires i <= |s.divisors|
    decreases |s.divisors| - i
  {
    if i == |s.divisors| then Ok(best)
    else
      var t :- TrialFor(s, s.divisors[i]);
      var floor := if s.phaseCorrect then minCounter else minCounter - 1;
      var next := Pick(s, best, t, s.divisors[i]);
      if t.top < floor || !Coerced(s, t) then Ok(next)
      else SearchFrom(s, i + 1, floor, next)
  }

  /// `calculate_clock_settings`, as a function of its arguments.
  function ClockSettings(f: int, divisors: seq<int>, phaseCorrect: bool, lim: ClockLimits, capped: bool): Result<Settings>
  {
    var request :- Requested(f, lim);
    SearchFrom(Search(divisors, request, phaseCorrect, lim, capped), 0, lim.minCounter, Unset)
  }

  /// `calculate_clock_settings` as the driver writes it: a loop over the
  /// divisors that keeps the best-so-far and stops at the first exact
  /// frequency or once the top falls below `min_counter`.
  method CalculateClockSettings(f: int, divisors: seq<int>, phaseCorrect: bool, lim: ClockLimits)
    returns (r: Result<Settings>)
    ensures r == ClockSettings(f, divisors, phaseCorrect, lim, false)
  {
    var request := f;
    if lim.coerceRange {
      if !(lim.minFrequency < request < lim.maxFrequency) {
        return Err(OutOfRange);
      }
      request := Max(lim.minFrequency, Min(request, lim.maxFrequency));
    }
    if request < 0 {
      request := 0;
    }
    ghost var s := Search(divisors, request, phaseCorrect, lim, false);
    var base := lim.baseClock;
    var best := Unset;
    var minCounter := lim.minCounter;
    var i := 0;
    while i < |divisors|
      invariant 0 <= i <= |divisors|
      invariant SearchFrom(s, i, minCounter, best) == ClockSettings(f, divisors, phaseCorrect, lim, false)
      decreases |divisors| - i
    {
      var divisor := divisors[i];
      var top: int;
      var frequency: Rat;
      if phaseCorrect {
        if 2 * divisor * request == 0 {
          return Err(DivisionByZero);
        }
        top := RoundQuotient(base, 2 * divisor * request);
        if 2 * top * divisor == 0 {
          return Err(DivisionByZero);
        }
        frequency := Quotient(base, 2 * top * divisor);
      } else {
        if divisor * request == 0 {
          return Err(DivisionByZero);
        }
        top := RoundQuotient(base, divisor * request) - 1;
        if divisor * (1 + top) == 0 {
          return Err(DivisionByZero);
        }
        frequency := Quotient(base, divisor * (1 + top));
        minCounter := minCounter - 1;
      }
      assert TrialFor(s, divisor) == Ok(Trial(top, frequency));
      var coerced := !Eq(frequency, FromInt(request));
      if coerced {
        var comparison := Le(DistanceFromInt(request, best.frequency), DistanceFromInt(request, frequency));
        if !(comparison && !IsZero(best.frequency)) {
          best := Settings(frequency, top, divisor);
        }
      } else {
        best := Settings(frequency, top, divisor);
      }
      if top < minCounter || !coerced {
        return Ok(best);
      }
      i := i + 1;
    }
    return Ok(best);
  }

  // ---------------------------------------------------------------------
  // What the search promises.

  /// The search itself raises nothing but ZeroDivisionError.
  lemma {:induction false} SearchErrors(s: Search, i: nat, minCounter: int, best: Settings)
    requires i <= |s.divisors|
    ensures SearchFrom(s, i, minCounter, best).Err? ==> SearchFrom(s, i, minCounter, best).error == DivisionByZero
    decreases |s.divisors| - i
  {
    if i < |s.divisors| && TrialFor(s, s.divisors[i]).Ok? {
      var t := TrialFor(s, s.divisors[i]).value;
      var floor := if s.phaseCorrect then minCounter else minCounter - 1;
      if !(t.top < floor || !Coerced(s, t)) {
        SearchErrors(s, i + 1, floor, Pick(s, best, t, s.divisors[i]));
      }
    }
  }

  /// ValueError is raised exactly when range coercion is on and the
  /// frequency is not strictly between the two limits.
  lemma RangeGuard(f: int, divisors: seq<int>, phaseCorrect: bool, lim: ClockLimits, capped: bool)
    ensures ClockSettings(f, divisors, phaseCorrect, lim, capped) == Err(OutOfRange)
        <==> lim.coerceRange && !(lim.minFrequency < f < lim.maxFrequency)
  {
    var req := Requested(f, lim);
    if req.Ok? {
      SearchErrors(Search(divisors, req.value, phaseCorrect, lim, capped), 0, lim.minCounter, Unset);
    }
  }

  /// The returned divisor is one of the list's: the first divisor is always
  /// adopted, because the best-so-far starts at frequency 0.
  lemma {:induction false} SearchPicksListed(s: Search, i: nat, minCounter: int, best: Settings)
    requires i <= |s.divisors|
    requires best.divisor in s.divisors || (IsZero(best.frequency) && i < |s.divisors|)
    ensures SearchFrom(s, i, minCounter, best).Ok? ==> SearchFrom(s, i, minCounter, best).value.divisor in s.divisors
    decreases |s.divisors| - i
  {
    if i < |s.divisors| && TrialFor(s, s.divisors[i]).Ok? {
      var t := TrialFor(s, s.divisors[i]).value;
      var floor := if s.phaseCorrect then minCounter else minCounter - 1;
      var next := Pick(s, best, t, s.divisors[i]);
      assert next.divisor in s.divisors;
      if !(t.top < floor || !Coerced(s, t)) {
        SearchPicksListed(s, i + 1, floor, next);
      }
    }
  }

  lemma DivisorIsListed(f: int, divisors: seq<int>, phaseCorrect: bool, lim: ClockLimits, capped: bool)
    requires |divisors| > 0
    ensures ClockSettings(f, divisors, phaseCorrect, lim, capped).Ok?
        ==> ClockSettings(f, divisors, phaseCorrect, lim, capped).value.divisor in divisors
  {
    var req := Requested(f, lim);
    if req.Ok? {
      SearchPicksListed(Search(divisors, req.value, phaseCorrect, lim, capped), 0, lim.minCounter, Unset);
    }
  }

  /// Python's round gives at least 1 for a quotient above one half.
  lemma RoundAtLeastOne(n: int, d: Positive)
    requires 2 * n > d
    ensures RoundHalfEven(n, d) >= 1
  {
    var r := RoundHalfEven(n, d);
    assert 2 * (n - r * d) <= d;
    assert r * d > 0;
  }

  /// The divisors of a search all keep the counter period non-zero: the
  /// rounded quotient is at least one.
  predicate Fits(s: Search, d: int)
  {
    d > 0 && s.request > 0 && s.limits.baseClock > 0 &&
    (if s.phaseCorrect then s.limits.baseClock > d * s.request else 2 * s.limits.baseClock > d * s.request) &&
    (s.capped ==> s.limits.maxCounter >= 1)
  }

  lemma TrialDefined(s: Search, d: int)
    requires Fits(s, d)
    ensures TrialFor(s, d).Ok?
    ensures TrialFor(s, d).value.top >= (if s.phaseCorrect then 1 else 0)
  {
    var base := s.limits.baseClock;
    if s.phaseCorrect {
      RoundAtLeastOne(base, 2 * d * s.request);
      var top := Cap(s, RoundQuotient(base, 2 * d * s.request));
      PositiveProduct(2 * top, d);
    } else {
      RoundAtLeastOne(base, d * s.request);
      var top := Cap(s, RoundQuotient(base, d * s.request) - 1);
      PositiveProduct(d, 1 + top);
    }
  }

  lemma PositiveProduct(a: int, b: int)
    requires a > 0 && b > 0
    ensures a * b > 0
  {
  }

  /// When every divisor fits, the search never divides by zero, and the
  /// top it returns is a trial's, so never negative.
  lemma {:induction false} SearchDefined(s: Search, i: nat, minCounter: int, best: Settings)
    requires i <= |s.divisors| && best.top >= 0
    requires forall j :: 0 <= j < |s.divisors| ==> Fits(s, s.divisors[j])
    ensures SearchFrom(s, i, minCounter, best).Ok?
    ensures SearchFrom(s, i, minCounter, best).value.top >= 0
    decreases |s.divisors| - i
  {
    if i < |s.divisors| {
      TrialDefined(s, s.divisors[i]);
      var t := TrialFor(s, s.divisors[i]).value;
      var floor := if s.phaseCorrect then minCounter else minCounter - 1;
      if !(t.top < floor || !Coerced(s, t)) {
        SearchDefined(s, i + 1, floor, Pick(s, best, t, s.divisors[i]));
      }
    }
  }

  // ---------------------------------------------------------------------
  // The choice is the closest frequency among the divisors examined, and
  // the earliest of equally close ones.

  /// The best-so-far is the trial of divisor `k`, strictly closer than the
  /// trial of every earlier divisor.
  predicate Adopted(s: Search, best: Settings, k: nat)
  {
    k < |s.divisors| &&
    TrialFor(s, s.divisors[k]).Ok? &&
    best == Settings(TrialFor(s, s.divisors[k]).value.frequency, TrialFor(s, s.divisors[k]).value.top, s.divisors[k]) &&
    forall j :: 0 <= j < k ==>
      TrialFor(s, s.divisors[j]).Ok? &&
      Lt(Distance(s, best.frequency), Distance(s, TrialFor(s, s.divisors[j]).value.frequency))
  }

  /// No trial among divisors `0 .. n-1` is closer than the best-so-far.
  predicate NoneCloser(s: Search, best: Settings, n: nat)
    requires n <= |s.divisors|
  {
    forall j :: 0 <= j < n ==>
      TrialFor(s, s.divisors[j]).Ok? &&
      Le(Distance(s, best.frequency), Distance(s, TrialFor(s, s.divisors[j]).value.frequency))
  }

  /// The final choice: the trial of a reached divisor, strictly closer than
  /// every earlier one and at least as close as every divisor reached.
  predicate ClosestExamined(s: Search, best: Settings)
  {
    exists k :: 0 <= k < |s.divisors| && Reached(s, k) && Adopted(s, best, k) &&
      forall j :: 0 <= j < |s.divisors| && Reached(s, j) ==>
        TrialFor(s, s.divisors[j]).Ok? &&
        Le(Distance(s, best.frequency), Distance(s, TrialFor(s, s.divisors[j]).value.frequency))
  }

  lemma DistanceReflexive(x: Rat)
    ensures Le(x, x)
  {
  }

  /// Trial frequencies are never zero while the base clock is positive.
  lemma TrialNonZero(s: Search, d: int)
    requires s.limits.baseClock > 0 && TrialFor(s, d).Ok?
    ensures !IsZero(TrialFor(s, d).value.frequency)
  {
  }

  /// Nothing is closer than an exact match, and every coerced trial is
  /// strictly farther.
  lemma ExactIsClosest(s: Search, exact: Trial, t: Trial)
    requires !Coerced(s, exact)
    ensures Le(Distance(s, exact.frequency), Distance(s, t.frequency))
    ensures Coerced(s, t) ==> Lt(Distance(s, exact.frequency), Distance(s, t.frequency))
  {
  }

  /// One step of the search keeps the best-so-far the closest so far.
  lemma PickStep(s: Search, i: nat, best: Settings, k: nat) returns (k': nat)
    requires i < |s.divisors| && s.limits.baseClock > 0
    requires Reached(s, i) && TrialFor(s, s.divisors[i]).Ok?
    requires if i == 0 then IsZero(best.frequency) else k < i && Adopted(s, best, k) && NoneCloser(s, best, i)
    ensures k' <= i
    ensures Adopted(s, Pick(s, best, TrialFor(s, s.divisors[i]).value, s.divisors[i]), k')
    ensures NoneCloser(s, Pick(s, best, TrialFor(s, s.divisors[i]).value, s.divisors[i]), i + 1)
  {
    var t := TrialFor(s, s.divisors[i]).value;
    var dt := Distance(s, t.frequency);
    DistanceReflexive(dt);
    if Coerced(s, t) && Le(Distance(s, best.frequency), dt) && !IsZero(best.frequency) {
      k' := k;
    } else {
      k' := i;
      if !Coerced(s, t) {
        forall j | 0 <= j < i
          ensures Lt(dt, Distance(s, TrialFor(s, s.divisors[j]).value.frequency))
        {
          assert Continues(s, j);
          ExactIsClosest(s, t, TrialFor(s, s.divisors[j]).value);
        }
      } else if i > 0 {
        TrialNonZero(s, s.divisors[k]);
        assert Lt(dt, Distance(s, best.frequency));
        forall j | 0 <= j < i
          ensures Lt(dt, Distance(s, TrialFor(s, s.divisors[j]).value.frequency))
        {
          LtLeTrans(dt, Distance(s, best.frequency), Distance(s, TrialFor(s, s.divisors[j]).value.frequency));
        }
      }
    }
  }

  lemma {:induction false} SearchClosest(s: Search, i: nat, minCounter: int, best: Settings, k: nat)
    requires i <= |s.divisors| && s.limits.baseClock > 0
    requires Reached(s, i)
    requires minCounter == (if s.phaseCorrect || i == 0 then s.limits.minCounter else CounterFloor(s, i - 1))
    requires if i == 0 then IsZero(best.frequency) && |s.divisors| > 0 else k < i && Adopted(s, best, k) && NoneCloser(s, best, i)
    ensures SearchFrom(s, i, minCounter, best).Ok? ==> ClosestExamined(s, SearchFrom(s, i, minCounter, best).value)
    decreases |s.divisors| - i
  {
    if i == |s.divisors| {
      assert Reached(s, k);
    } else if TrialFor(s, s.divisors[i]).Ok? {
      var t := TrialFor(s, s.divisors[i]).value;
      var floor := if s.phaseCorrect then minCounter else minCounter - 1;
      var next := Pick(s, best, t, s.divisors[i]);
      var k' := PickStep(s, i, best, k);
      if t.top < floor || !Coerced(s, t) {
        assert !Continues(s, i);
        assert Reached(s, k');
      } else {
        assert Continues(s, i);
        SearchClosest(s, i + 1, floor, next, k');
      }
    }
  }

  /// The divisor returned is reached by the search, its frequency is
  /// strictly closer than that of every earlier divisor and at least as
  /// close as that of every divisor the search reached.
  lemma ChoosesClosest(f: int, divisors: seq<int>, phaseCorrect: bool, lim: ClockLimits, capped: bool)
    requires |divisors| > 0 && lim.baseClock > 0
    ensures var r := ClockSettings(f, divisors, phaseCorrect, lim, capped);
      r.Ok? ==> ClosestExamined(Search(divisors, Requested(f, lim).value, phaseCorrect, lim, capped), r.value)
  {
    var req := Requested(f, lim);
    if req.Ok? {
      SearchClosest(Search(divisors, req.value, phaseCorrect, lim, capped), 0, lim.minCounter, Unset, 0);
    }
  }
}
