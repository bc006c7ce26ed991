/** What a session costs: half-up rounding of exact rates, and how far rounding can drift. */
module Charges {

  const MS_PER_HOUR: int := 3_600_000
  const MICRO_PER_CENT: int := 10_000
  const DUCKLING_MICRO_PER_HOUR: nat := 550_000

  /** Retail rate of a compute size; an unknown size bills as the smallest. */
  function MicroPerHour(size: string): nat {
    if size == "mallard" then 1_250_000
    else if size == "goose" then 2_500_000
    else if size == "swan" then 4_950_000
    else DUCKLING_MICRO_PER_HOUR
  }

  datatype Plan = Free | Pro | MaxPlan | Scale

  function IncludedHours(plan: Plan): nat {
    match plan
    case Free => 5
    case Pro => 25
    case MaxPlan => 75
    case Scale => 200
  }

  /** The monthly allotment of a plan, in micro-dollars. */
  function TierMonthlyMicro(plan: Plan): nat {
    IncludedHours(plan) * DUCKLING_MICRO_PER_HOUR
  }

  /** Nearest integer to num/den, halves upward. */
  function RoundHalfUp(num: nat, den: int): (r: nat)
    requires den > 0
    ensures -den <= 2 * num - 2 * den * r < den
  {
    var r := (2 * num + den) / (2 * den);
    DivBounds(2 * num + den, 2 * den);
    r
  }

  lemma DivBounds(n: nat, d: int)
    requires d > 0
    ensures n / d >= 0 && d * (n / d) <= n < d * (n / d) + d
  {
  }

  /** Milliseconds billed: up to the end or the expiry, whichever comes first. */
  function Duration(started: int, ended: int, expires: int): nat {
    var end := if ended < expires then ended else expires;
    if end < started then 0 else end - started
  }

  predicate Unexpired(t: int, expires: int) { t < expires }

  /** The milliseconds of a session: from its start on, before its end and before its expiry. */
  ghost function Billed(started: int, ended: int, expires: int): set<int> {
    set t: int | started <= t < ended && Unexpired(t, expires)
  }

  /** The duration counts those milliseconds. */
  lemma {:induction false} DurationCounts(started: int, ended: int, expires: int)
    ensures Duration(started, ended, expires) == |Billed(started, ended, expires)|
    decreases ended - started
  {
    var ms := Billed(started, ended, expires);
    if ended <= started {
      assert ms == {};
    } else {
      DurationCounts(started, ended - 1, expires);
      assert ms == Billed(started, ended - 1, expires) + (if ended - 1 < expires then {ended - 1} else {});
    }
  }

  /** Only how far the three times are apart matters. */
  lemma DurationShifts(started: int, ended: int, expires: int, d: int)
    ensures Duration(started + d, ended + d, expires + d) == Duration(started, ended, expires)
    ensures |Billed(started + d, ended + d, expires + d)| == |Billed(started, ended, expires)|
  {
    DurationCounts(started, ended, expires);
    DurationCounts(started + d, ended + d, expires + d);
  }

  /** `micro` is the whole number nearest to `ms` milliseconds at the size's hourly rate, halves upward. */
  predicate NearestCharge(micro: nat, ms: nat, size: string) {
    -MS_PER_HOUR <= 2 * ms * MicroPerHour(size) - 2 * MS_PER_HOUR * micro < MS_PER_HOUR
  }

  /** A closed session costs its milliseconds at the rate of its size, rounded to the nearest. */
  lemma ChargeIsNearest(started: int, ended: int, expires: int, size: string)
    ensures NearestCharge(ChargeOf(Duration(started, ended, expires), size), |Billed(started, ended, expires)|, size)
    ensures forall micro: nat :: NearestCharge(micro, |Billed(started, ended, expires)|, size) ==>
              micro == ChargeOf(Duration(started, ended, expires), size)
  {
    DurationCounts(started, ended, expires);
    var ms := Duration(started, ended, expires);
    hide MicroPerHour, Duration;
    NearestOfProduct(ms, MicroPerHour(size), size);
    forall micro: nat | NearestCharge(micro, ms, size) ensures micro == ChargeOf(ms, size) {
      NearestIsOne(ms * MicroPerHour(size), micro, ChargeOf(ms, size));
    }
  }

  lemma NearestOfProduct(ms: nat, rate: nat, size: string)
    requires rate == MicroPerHour(size)
    ensures 2 * ms * rate == 2 * (ms * rate) && NearestCharge(ChargeOf(ms, size), ms, size)
  {
    hide MicroPerHour;
  }

  lemma NearestIsOne(num: nat, a: nat, b: nat)
    requires -MS_PER_HOUR <= 2 * num - 2 * MS_PER_HOUR * a < MS_PER_HOUR
    requires -MS_PER_HOUR <= 2 * num - 2 * MS_PER_HOUR * b < MS_PER_HOUR
    ensures a == b
  {
  }

  /** What an hour costs on each size; anything else costs what a Duckling does. */
  lemma HourPrices(size: string)
    ensures NearestCharge(550_000, MS_PER_HOUR, "duckling") && NearestCharge(1_250_000, MS_PER_HOUR, "mallard")
    ensures NearestCharge(2_500_000, MS_PER_HOUR, "goose") && NearestCharge(4_950_000, MS_PER_HOUR, "swan")
    ensures size !in {"mallard", "goose", "swan"} ==>
              forall ms: nat, micro: nat :: NearestCharge(micro, ms, size) <==> NearestCharge(micro, ms, "duckling")
  {
  }

  /** The charge of `ms` milliseconds at a size, in micro-dollars. */
  function ChargeOf(ms: nat, size: string): nat {
    RoundHalfUp(ms * MicroPerHour(size), MS_PER_HOUR)
  }

  lemma RoundMonotone(a: nat, b: nat, den: int)
    requires den > 0 && a <= b
    ensures RoundHalfUp(a, den) <= RoundHalfUp(b, den)
  {
    var r, q := RoundHalfUp(a, den), RoundHalfUp(b, den);
    Distribute(2 * den, q, 1);
    if q < r {
      MulMonotone(2 * den, q + 1, r);
    }
  }

  lemma Distribute(k: int, a: int, b: int)
    ensures k * (a + b) == k * a + k * b
  {
  }

  lemma MulMonotone(k: nat, a: nat, b: nat)
    requires a <= b
    ensures k * a <= k * b
  {
  }

  /** A longer session never costs less. */
  lemma ChargeMonotone(a: nat, b: nat, size: string)
    requires a <= b
    ensures ChargeOf(a, size) <= ChargeOf(b, size)
  {
    MulMonotone(MicroPerHour(size), a, b);
    RoundMonotone(a * MicroPerHour(size), b * MicroPerHour(size), MS_PER_HOUR);
  }

  /** Whenever a session is closed, it costs at most its whole time to live. */
  lemma ChargeWithinTtl(started: int, ended: int, expires: int, size: string)
    ensures ChargeOf(Duration(started, ended, expires), size) <= ChargeOf(Duration(started, expires, expires), size)
  {
  }

  // ---- rounding over many charges ----------------------------------------------------------

  function Total(amounts: seq<nat>): nat {
    if amounts == [] then 0 else amounts[0] + Total(amounts[1..])
  }

  /** The sum of the separately rounded quotients. */
  function TotalRounded(nums: seq<nat>, den: int): nat
    requires den > 0
  {
    if nums == [] then 0 else RoundHalfUp(nums[0], den) + TotalRounded(nums[1..], den)
  }

  /** Each rounding is off by at most a half, so n of them are off by at most n halves. */
  lemma {:induction false} RoundingDrift(nums: seq<nat>, den: int)
    requires den > 0
    ensures -(den * |nums|) <= 2 * den * TotalRounded(nums, den) - 2 * Total(nums) <= den * |nums|
  {
    hide RoundHalfUp;
    if nums != [] {
      RoundingDrift(nums[1..], den);
      Distribute(2 * den, RoundHalfUp(nums[0], den), TotalRounded(nums[1..], den));
      Distribute(den, 1, |nums| - 1);
    }
  }

  function ChargesOf(durations: seq<nat>, size: string): nat {
    if durations == [] then 0 else ChargeOf(durations[0], size) + ChargesOf(durations[1..], size)
  }

  function AtRate(durations: seq<nat>, rate: nat): (nums: seq<nat>)
    ensures |nums| == |durations|
  {
    if durations == [] then [] else [durations[0] * rate] + AtRate(durations[1..], rate)
  }

  lemma {:induction false} ChargesAreRounded(durations: seq<nat>, size: string)
    ensures ChargesOf(durations, size) == TotalRounded(AtRate(durations, MicroPerHour(size)), MS_PER_HOUR)
    ensures Total(AtRate(durations, MicroPerHour(size))) == MicroPerHour(size) * Total(durations)
  {
    hide RoundHalfUp, MicroPerHour;
    if durations != [] {
      ChargesAreRounded(durations[1..], size);
      var rate := MicroPerHour(size);
      assert rate * Total(durations) == rate * durations[0] + rate * Total(durations[1..]);
    }
  }

  /** Main result: over k sessions of one size, the charges total the exact rate times the total
      duration to within k/2 micro-dollars. */
  lemma ChargesWithinHalf(durations: seq<nat>, size: string)
    ensures var exact := MicroPerHour(size) * Total(durations);
            -MS_PER_HOUR * |durations| <= 2 * MS_PER_HOUR * ChargesOf(durations, size) - 2 * exact
            <= MS_PER_HOUR * |durations|
  {
    hide RoundHalfUp, MicroPerHour;
    ChargesAreRounded(durations, size);
    RoundingDrift(AtRate(durations, MicroPerHour(size)), MS_PER_HOUR);
  }

  /** Duckling sessions that add up to a plan's included hours use up its allotment to within k/2. */
  lemma EnvelopeIsIncludedHours(durations: seq<nat>, plan: Plan)
    requires Total(durations) == IncludedHours(plan) * MS_PER_HOUR
    ensures -|durations| <= 2 * ChargesOf(durations, "duckling") - 2 * TierMonthlyMicro(plan) <= |durations|
  {
    hide *;
    ChargesWithinHalf(durations, "duckling");
    EnvelopeAtRate(plan);
    Unscaled(ChargesOf(durations, "duckling"), TierMonthlyMicro(plan), |durations|);
  }

  lemma EnvelopeAtRate(plan: Plan)
    ensures MicroPerHour("duckling") * (IncludedHours(plan) * MS_PER_HOUR) == MS_PER_HOUR * TierMonthlyMicro(plan)
  {
    match plan
    case Free =>
    case Pro =>
    case MaxPlan =>
    case Scale =>
  }

  /** The allotments in micro-dollars: $2.75, $13.75, $41.25 and $110. */
  lemma Allotments()
    ensures TierMonthlyMicro(Free) == 2_750_000 && TierMonthlyMicro(Pro) == 13_750_000
    ensures TierMonthlyMicro(MaxPlan) == 41_250_000 && TierMonthlyMicro(Scale) == 110_000_000
  {
  }

  lemma Unscaled(charged: nat, exact: nat, k: int)
    requires -MS_PER_HOUR * k <= 2 * MS_PER_HOUR * charged - 2 * (MS_PER_HOUR * exact) <= MS_PER_HOUR * k
    ensures -k <= 2 * charged - 2 * exact <= k
  {
  }

  /** Overage reports are metered in whole cents; a non-positive amount sends nothing. */
  function Cents(overage: nat): nat {
    RoundHalfUp(overage, MICRO_PER_CENT)
  }

  /** The nearest whole cent, halves upward. */
  lemma CentsAreNearest(overage: nat)
    ensures -10_000 <= 2 * overage - 20_000 * Cents(overage) < 10_000
  {
  }

  function CentsMetered(overages: seq<nat>): nat {
    if overages == [] then 0 else Cents(overages[0]) + CentsMetered(overages[1..])
  }

  /** n reports lose or gain at most 5,000 micro-dollars each. */
  lemma {:induction false} CentsWithinHalf(overages: seq<nat>)
    ensures -5_000 * |overages| <= MICRO_PER_CENT * CentsMetered(overages) - Total(overages) <= 5_000 * |overages|
  {
    hide RoundHalfUp;
    if overages != [] {
      CentsWithinHalf(overages[1..]);
    }
  }
}
