/**
The retry backoff (internal/forward/backoff.go) and the retry loop of deliver (internal/forward/forward.go).

Durations are nanoseconds in 64 bits. Sums and products of durations that the code leaves unchecked wrap around here as
they do there. The float64 factors are exact reals. A product that leaves 64 bits is converted back to whatever the
platform makes of it.
*/
module Backoff {
  import opened GoStrings
  import opened Ints
  import Int64

  const MAX_DURATION: int := Int64.MAX
  const SECOND: int := 1_000_000_000

  predicate IsDuration(d: int) {
    Int64.MIN <= d <= MAX_DURATION
  }

  // ----- float64 to time.Duration -----

  /** What a conversion of a number out of range gives. The language leaves that to the platform. */
  type Platform = int -> int

  ghost predicate Defined(platform: Platform) {
    forall x :: IsDuration(platform(x))
  }

  /** On amd64 it is the smallest integer. */
  function Amd64(): Platform {
    (x: int) => Int64.MIN
  }

  function ToDuration(x: int, platform: Platform): int {
    if IsDuration(x) then x else platform(x)
  }

  /** Cut towards zero. */
  function Truncated(x: real): int {
    if x >= 0.0 then x.Floor else -(-x).Floor
  }

  // ----- one answer of next -----

  /** The factor of jittered, with `r` the random value in [0, 1). */
  function Factor(r: real): real {
    1.0 + 0.5 * (2.0 * r - 1.0)
  }

  function Product(d: int, r: real): real {
    d as real * Factor(r)
  }

  function Spread(d: int, r: real): int {
    Truncated(Product(d, r))
  }

  function Jittered(d: int, r: real, platform: Platform): int {
    ToDuration(Spread(d, r), platform)
  }

  /** One and a half times the interval, cut towards zero. */
  function OneAndAHalf(interval: int): int {
    if interval >= 0 then interval * 3 / 2 else -(-interval * 3 / 2)
  }

  function Grown(interval: int, max: int, platform: Platform): int {
    Min(ToDuration(OneAndAHalf(interval), platform), max)
  }

  datatype Answer = GiveUp | Wait(duration: int)

  /** The wait next asks for before it looks at the budget. */
  function RawWait(interval: int, r: real, hint: int, platform: Platform): int {
    Max(Jittered(interval, r, platform), hint)
  }

  function Next(interval: int, maxElapsed: int, elapsed: int, r: real, hint: int, platform: Platform): Answer {
    if elapsed >= maxElapsed then GiveUp
    else
      var wait := RawWait(interval, r, hint, platform);
      Wait(if Int64.Wrap(elapsed + wait) > maxElapsed then maxElapsed - elapsed else wait)
  }

  /** Positive durations, as withDefaults makes them. */
  predicate Durations(initial: int, max: int, maxElapsed: int) {
    0 < initial <= MAX_DURATION && 0 < max <= MAX_DURATION && 0 < maxElapsed <= MAX_DURATION
  }

  /** time.Time.Sub: the difference, cut to what a duration holds. */
  function Since(now: int, start: int): int {
    Max(Min(now - start, MAX_DURATION), Int64.MIN)
  }

  class Backoff {
    var interval: int
    const max: int
    const maxElapsed: int
    const start: int
    const platform: Platform

    ghost predicate Valid()
      reads this
    {
      && Defined(platform) && IsDuration(interval) && interval <= max
      && 0 < max <= MAX_DURATION && 0 < maxElapsed <= MAX_DURATION
    }

    /** newBackoff. */
    constructor (initial: int, max: int, maxElapsed: int, now: int, platform: Platform)
      requires Durations(initial, max, maxElapsed) && Defined(platform)
      ensures Valid()
      ensures interval == Min(initial, max) && this.max == max && this.maxElapsed == maxElapsed && start == now
      ensures this.platform == platform
    {
      var first := initial;
      if first > max {
        first := max;
      }
      this.interval, this.max, this.maxElapsed, this.start, this.platform := first, max, maxElapsed, now, platform;
    }

    /** next. */
    method NextWait(now: int, r: real, hint: int) returns (wait: int, ok: bool)
      requires Valid()
      modifies this
      ensures Valid()
      ensures var answer := Next(old(interval), maxElapsed, Since(now, start), r, hint, platform);
              ok == answer.Wait? && (ok ==> wait == answer.duration)
      ensures interval == if ok then Grown(old(interval), max, platform) else old(interval)
      ensures 0 < old(interval) && old(interval) * 3 / 2 <= MAX_DURATION ==> old(interval) <= interval
    {
      var elapsed := Since(now, start);
      if elapsed >= maxElapsed {
        return 0, false;
      }
      wait := Jittered(interval, r, platform);
      if hint > wait {
        wait := hint;
      }
      if Int64.Wrap(elapsed + wait) > maxElapsed {
        wait := maxElapsed - elapsed;
      }
      if 0 < interval && interval * 3 / 2 <= MAX_DURATION {
        GrownKeeps(interval, max, platform);
      }
      interval := ToDuration(OneAndAHalf(interval), platform);
      if interval > max {
        interval := max;
      }
      return wait, true;
    }
  }

  /** The interval never shrinks and never passes its maximum, as long as it can grow by half and still be a duration. */
  lemma {:induction false} GrownKeeps(interval: int, max: int, platform: Platform)
    requires 0 < interval <= max <= MAX_DURATION && interval * 3 / 2 <= MAX_DURATION
    ensures interval <= Grown(interval, max, platform) <= max
    ensures Grown(interval, max, platform) <= interval + interval / 2
    ensures interval > 1 && interval < max ==> interval < Grown(interval, max, platform)
  {
  }

  /** It grows by half, up to one nanosecond, unless it has come to its maximum. */
  lemma {:induction false} GrownByHalf(interval: int, max: int, platform: Platform)
    requires 0 < interval <= max <= MAX_DURATION && interval * 3 / 2 <= MAX_DURATION
    ensures var g := Grown(interval, max, platform); g == max || 3 * interval - 1 <= 2 * g <= 3 * interval
    ensures Grown(interval, max, platform) == max <==> 3 * interval >= 2 * max
  {
  }

  /** On amd64 that is also needed. A longer interval becomes the smallest integer. */
  lemma {:induction false} GrownKeepsIff(interval: int, max: int)
    requires 0 < interval <= max <= MAX_DURATION
    ensures interval <= Grown(interval, max, Amd64()) <==> interval * 3 / 2 <= MAX_DURATION
    ensures interval * 3 / 2 > MAX_DURATION ==> Grown(interval, max, Amd64()) == Int64.MIN
  {
    if interval * 3 / 2 <= MAX_DURATION {
      GrownKeeps(interval, max, Amd64());
    }
  }

  /** The jitter stays within half the interval of it. */
  lemma {:induction false} SpreadRange(d: int, r: real)
    requires 0 < d && 0.0 <= r < 1.0
    ensures d / 2 <= Spread(d, r)
    ensures 2 * Spread(d, r) < 3 * d
  {
    var y := SpreadBracket(d, r);
    hide Spread;
    HalfDown(Spread(d, r), d, y);
    HalfUp(Spread(d, r), d);
  }

  lemma {:induction false} JitterRange(d: int, r: real, platform: Platform)
    requires 0 < d && d * 3 / 2 <= MAX_DURATION && 0.0 <= r < 1.0
    ensures d / 2 <= Jittered(d, r, platform)
    ensures 2 * Jittered(d, r, platform) < 3 * d
  {
    hide Spread;
    SpreadRange(d, r);
  }

  /** On amd64 a jittered interval is in that range exactly when the product is a duration. */
  lemma {:induction false} JitterRangeIff(d: int, r: real)
    requires 0 < d && 0.0 <= r < 1.0
    ensures d / 2 <= Jittered(d, r, Amd64()) <==> Spread(d, r) <= MAX_DURATION
  {
    hide Spread;
    SpreadRange(d, r);
  }

  lemma {:induction false} SpreadBracket(d: int, r: real) returns (y: real)
    requires 0 < d && 0.0 <= r < 1.0
    ensures d as real * 0.5 <= y < d as real * 1.5
    ensures Spread(d, r) as real <= y < Spread(d, r) as real + 1.0
  {
    hide Truncated, Product;
    y := Product(d, r);
    ProductRange(d, r);
    TruncatedBelow(y);
  }

  lemma {:induction false} ProductRange(d: int, r: real)
    requires 0 < d && 0.0 <= r < 1.0
    ensures d as real * 0.5 <= Product(d, r) < d as real * 1.5
  {
    hide Factor;
    FactorRange(r);
    Scale(d as real, Factor(r));
  }

  lemma {:induction false} FactorRange(r: real)
    requires 0.0 <= r < 1.0
    ensures 0.5 <= Factor(r) < 1.5
  {
  }

  lemma {:induction false} TruncatedBelow(y: real)
    requires 0.0 <= y
    ensures Truncated(y) as real <= y < Truncated(y) as real + 1.0
  {
  }

  lemma {:induction false} HalfDown(j: int, d: int, y: real)
    requires d as real * 0.5 <= y < j as real + 1.0
    ensures d / 2 <= j
  {
    assert (d / 2) as real <= d as real * 0.5;
  }

  lemma {:induction false} HalfUp(j: int, d: int)
    requires j as real < d as real * 1.5
    ensures 2 * j < 3 * d
  {
    var i: int := 3 * d - 2 * j;
    assert i as real == d as real * 3.0 - j as real * 2.0;
  }

  lemma {:induction false} Scale(x: real, factor: real)
    requires 0.0 < x && 0.5 <= factor < 1.5
    ensures x * 0.5 <= x * factor < x * 1.5
  {
    assert 0.0 <= x * (factor - 0.5);
    assert 0.0 < x * (1.5 - factor);
  }

  // ----- the budget -----

  /**
  The last wait is meant to end on the budget. A wait stays within it exactly when the jittered interval and the hint
  both fit in 64 bits when added to the elapsed time. Otherwise the sum wraps to a negative number, which passes the
  comparison, and the wait is taken in full.
  */
  lemma {:induction false} BudgetKeptIff(
      interval: int, maxElapsed: int, elapsed: int, r: real, hint: int, platform: Platform)
    requires 0 <= elapsed < maxElapsed <= MAX_DURATION && IsDuration(hint) && Defined(platform)
    ensures var answer := Next(interval, maxElapsed, elapsed, r, hint, platform);
            var jittered, room := Jittered(interval, r, platform), MAX_DURATION - elapsed;
            && answer.Wait?
            && (elapsed + answer.duration <= maxElapsed <==> jittered <= room && hint <= room)
            && answer.duration == if jittered <= room && hint <= room
                                  then Min(Max(jittered, hint), maxElapsed - elapsed)
                                  else Max(jittered, hint)
  {
    hide Spread;
    var wait := RawWait(interval, r, hint, platform);
    if elapsed + wait > MAX_DURATION {
      assert Int64.Wrap(elapsed + wait) == elapsed + wait - 0x1_0000_0000_0000_0000;
    }
  }

  /** A configuration whose own waits cannot overflow, as the defaults of 30 and 300 seconds cannot. */
  predicate Sane(max: int, maxElapsed: int) {
    0 < max && 0 < maxElapsed && maxElapsed + max * 3 / 2 <= MAX_DURATION
  }

  /** Under a sane configuration it is up to the hint alone. */
  lemma {:induction false} SaneWaitsFit(
      interval: int, max: int, maxElapsed: int, elapsed: int, r: real, platform: Platform)
    requires 0 < interval <= max && Sane(max, maxElapsed) && elapsed < maxElapsed && 0.0 <= r < 1.0
    ensures Jittered(interval, r, platform) <= MAX_DURATION - elapsed
  {
    hide Jittered;
    JitterRange(interval, r, platform);
  }

  // ----- Retry-After -----

  /** strconv.Atoi: an optional sign and digits, within 64 bits. */
  function Atoi(v: Bytes): Option<int> {
    if v == "" then None
    else
      var digits := if v[0] == '+' || v[0] == '-' then v[1..] else v;
      if digits == "" || DigitRun(digits) < |digits| then None
      else
        var value: int := DigitsValue(digits);
        var n := if v[0] == '-' then -value else value;
        if -MAX_DURATION - 1 <= n <= MAX_DURATION then Some(n) else None
  }

  /** parseRetryAfter. `date` is the time until `v` read as an HTTP date, or None when it is not one. */
  function ParseRetryAfter(v: Bytes, date: Option<int>): int {
    if v == "" then 0
    else
      match Atoi(v)
      case Some(secs) => if secs <= 0 then 0 else Int64.Wrap(secs * SECOND)
      case None => if date.Some? && date.value > 0 then date.value else 0
  }

  lemma {:induction false} AtoiDecimal(n: nat)
    ensures Atoi(Decimal(n)) == if n <= MAX_DURATION then Some(n) else None
  {
    var v := Decimal(n);
    assert IsDigit(v[0]);
    DecimalRoundTrip(n);
    assert v + [] == v;
    DecimalDelimited(n, []);
  }

  /**
  A Retry-After of delay-seconds (section 10.2.3 of RFC 9110) becomes that many seconds exactly when they fit in a
  duration, which is up to 9223372036. A larger value that Atoi still reads wraps around. One that it does not read is no
  HTTP date either and counts as no header.
  */
  lemma {:induction false} RetryAfterExactIff(n: nat, date: Option<int>)
    requires n > MAX_DURATION ==> date.None?
    ensures ParseRetryAfter(Decimal(n), date) == n * SECOND <==> n <= 9223372036
  {
    AtoiDecimal(n);
  }

  /** A sign is read: a negative number is past already, and a plus changes nothing. */
  lemma {:induction false} RetryAfterSigned(n: nat, date: Option<int>)
    requires n <= MAX_DURATION
    ensures ParseRetryAfter("-" + Decimal(n), date) == 0
    ensures ParseRetryAfter("+" + Decimal(n), date) == ParseRetryAfter(Decimal(n), date)
  {
    hide Decimal;
    AtoiDecimal(n);
    DecimalRoundTrip(n);
    assert Decimal(n) + [] == Decimal(n);
    DecimalDelimited(n, []);
    assert ("-" + Decimal(n))[1..] == Decimal(n) && ("+" + Decimal(n))[1..] == Decimal(n);
  }

  /** Anything else is a date: the time until it if it is still ahead, and otherwise nothing. */
  lemma {:induction false} RetryAfterDate(v: Bytes, d: int)
    requires exists i :: 0 < i < |v| && !IsDigit(v[i])
    ensures ParseRetryAfter(v, Some(d)) == Max(d, 0) && ParseRetryAfter(v, None) == 0 && ParseRetryAfter([], Some(d)) == 0
  {
    var i :| 0 < i < |v| && !IsDigit(v[i]);
    var digits := if v[0] == '+' || v[0] == '-' then v[1..] else v;
    assert !IsDigit(digits[if v[0] == '+' || v[0] == '-' then i - 1 else i]);
  }

  /** One second into a budget of 300 seconds, a Retry-After of 9223372036 is waited for in full: 292 years. */
  lemma {:induction false} BudgetOverrun(platform: Platform)
    requires Defined(platform)
    ensures Next(5 * SECOND, 300 * SECOND, SECOND, 0.0, ParseRetryAfter(Decimal(9223372036), None), platform) ==
            Wait(9223372036 * SECOND)
  {
    hide Decimal, Next, ParseRetryAfter, Jittered;
    RetryAfterExactIff(9223372036, None);
    SaneWaitsFit(5 * SECOND, 30 * SECOND, 300 * SECOND, SECOND, 0.0, platform);
    BudgetKeptIff(5 * SECOND, 300 * SECOND, SECOND, 0.0, 9223372036 * SECOND, platform);
  }

  // ----- the retry loop -----

  datatype Reply = Delivered | Refused | Retryable(hint: int)

  /** What the world does in one turn of the loop: the reply, how long the attempt took, the jitter, and by how much
      the timer overslept. */
  datatype Turn = Turn(reply: Reply, took: nat, r: real, overslept: nat)

  ghost predicate Plausible(world: nat -> Turn) {
    forall n ::
      0.0 <= world(n).r < 1.0 && (world(n).reply.Retryable? ==> IsDuration(world(n).reply.hint))
  }

  /** The settings of one loop. `first` is the initial interval, capped. */
  datatype Policy = Policy(first: int, max: int, maxElapsed: int, platform: Platform) {
    ghost predicate Valid() {
      Durations(first, max, maxElapsed) && first <= max && Defined(platform)
    }

    /** The first interval is at least two nanoseconds, and no interval that the loop can come to leaves the range. */
    predicate Ends() {
      first >= 2 && !CanOverflow(first, max, 0, maxElapsed)
    }
  }

  /**
  Within the budget the loop can come to an interval that cannot grow by half, if every wait is as short as the jitter
  makes it: half the interval.
  */
  predicate CanOverflow(interval: int, max: int, elapsed: int, maxElapsed: int)
    decreases maxElapsed - elapsed
  {
    && interval >= 2 && elapsed < maxElapsed
    && (interval * 3 / 2 > MAX_DURATION ||
        CanOverflow(Min(interval * 3 / 2, max), max, elapsed + interval / 2, maxElapsed))
  }

  lemma {:induction false} LaterOverflowsLess(interval: int, max: int, elapsed: int, later: int, maxElapsed: int)
    requires elapsed <= later && CanOverflow(interval, max, later, maxElapsed)
    ensures CanOverflow(interval, max, elapsed, maxElapsed)
    decreases maxElapsed - later
  {
    if interval * 3 / 2 <= MAX_DURATION {
      LaterOverflowsLess(Min(interval * 3 / 2, max), max, elapsed + interval / 2, later + interval / 2, maxElapsed);
    }
  }

  /** A wait of at least half the interval, or up to the budget, leads to no overflow if none was ahead. */
  lemma {:induction false} NoOverflowAhead(
      interval: int, max: int, elapsed: int, replied: int, later: int, maxElapsed: int, platform: Platform)
    requires 0 < interval <= max <= MAX_DURATION && elapsed <= replied < maxElapsed
    requires !CanOverflow(interval, max, elapsed, maxElapsed)
    requires replied + interval / 2 <= later || maxElapsed <= later
    ensures interval * 3 / 2 <= MAX_DURATION
    ensures !CanOverflow(Grown(interval, max, platform), max, later, maxElapsed)
  {
    var next := Min(interval * 3 / 2, max);
    if CanOverflow(interval, max, replied, maxElapsed) {
      LaterOverflowsLess(interval, max, elapsed, replied, maxElapsed);
    }
    if interval >= 2 && CanOverflow(next, max, later, maxElapsed) {
      LaterOverflowsLess(next, max, replied + interval / 2, later, maxElapsed);
    }
  }

  /**
  An interval grows by no more than the wait before it takes, so within the budget it comes to no more than the first one
  and the budget together. Nothing overflows if that, or the maximum, may grow by half.
  */
  lemma {:induction false} RoomyNeverOverflows(first: int, interval: int, max: int, elapsed: int, maxElapsed: int)
    requires interval <= max && interval <= first + elapsed && Min(max, first + maxElapsed) * 3 / 2 <= MAX_DURATION
    ensures !CanOverflow(interval, max, elapsed, maxElapsed)
    decreases maxElapsed - elapsed
  {
    if interval >= 2 && elapsed < maxElapsed {
      RoomyNeverOverflows(first, Min(interval * 3 / 2, max), max, elapsed + interval / 2, maxElapsed);
    }
  }

  datatype Point = Point(interval: int, elapsed: int)

  /** The answer to the reply that came after `elapsed`. */
  function AnswerAt(p: Policy, interval: int, elapsed: int, turn: Turn): Answer
    requires turn.reply.Retryable?
  {
    Next(interval, p.maxElapsed, elapsed, turn.r, turn.reply.hint, p.platform)
  }

  /** Where the loop stands after n waits, or None when it does not get that far. A wait that is not positive is over at
      once. */
  function Timeline(p: Policy, world: nat -> Turn, n: nat): Option<Point> {
    if n == 0 then Some(Point(p.first, 0))
    else
      match Timeline(p, world, n - 1)
      case None => None
      case Some(at) =>
        var turn := world(n - 1);
        var elapsed := at.elapsed + turn.took;
        if !turn.reply.Retryable? then None
        else
          match AnswerAt(p, at.interval, elapsed, turn)
          case GiveUp => None
          case Wait(w) => Some(Point(Grown(at.interval, p.max, p.platform), elapsed + Max(w, 0) + turn.overslept))
  }

  /** The elapsed time when attempt n, counted from 0, is replied to. */
  function RepliedAt(p: Policy, world: nat -> Turn, n: nat): int
    requires Timeline(p, world, n).Some?
  {
    Timeline(p, world, n).value.elapsed + world(n).took
  }

  /** The loop goes on exactly when the failure is retryable and the budget is not spent. */
  lemma {:induction false} GoesOnIff(p: Policy, world: nat -> Turn, n: nat)
    requires Timeline(p, world, n).Some?
    ensures Timeline(p, world, n + 1).Some? <==> world(n).reply.Retryable? && RepliedAt(p, world, n) < p.maxElapsed
  {
    hide RawWait, Grown;
  }

  /** What lies behind a loop that has come to its n-th wait and past it. */
  lemma {:induction false} WentOn(p: Policy, world: nat -> Turn, n: nat)
    requires Timeline(p, world, n).Some?
    ensures forall m | 0 <= m <= n :: Timeline(p, world, m).Some?
    ensures forall m | 0 <= m < n :: world(m).reply.Retryable? && RepliedAt(p, world, m) < p.maxElapsed
  {
    hide RepliedAt, AnswerAt;
    if n > 0 {
      WentOn(p, world, n - 1);
      GoesOnIff(p, world, n - 1);
    }
  }

  lemma {:induction false} TimelineNext(p: Policy, world: nat -> Turn, n: nat, wait: int)
    requires Timeline(p, world, n).Some? && world(n).reply.Retryable?
    requires AnswerAt(p, Timeline(p, world, n).value.interval, RepliedAt(p, world, n), world(n)) == Wait(wait)
    ensures Timeline(p, world, n + 1) ==
            Some(Point(Grown(Timeline(p, world, n).value.interval, p.max, p.platform),
                       RepliedAt(p, world, n) + Max(wait, 0) + world(n).overslept))
  {
    hide AnswerAt, Grown;
  }

  lemma {:induction false} TimelineForward(p: Policy, world: nat -> Turn, n: nat)
    requires p.Valid() && Plausible(world) && Timeline(p, world, n).Some?
    ensures Timeline(p, world, n).value.elapsed >= 0
  {
    hide Next, Grown;
    if n > 0 {
      TimelineForward(p, world, n - 1);
    }
  }

  /** The end of the n-th wait, if the timer is on time. */
  function WaitEnd(p: Policy, world: nat -> Turn, n: nat): int
    requires n > 0 && Timeline(p, world, n).Some?
  {
    Timeline(p, world, n).value.elapsed - world(n - 1).overslept
  }

  /** Turn n adds a jittered interval and a hint to the elapsed time that both still fit in 64 bits. */
  ghost predicate TurnFits(p: Policy, world: nat -> Turn, n: nat)
    requires Timeline(p, world, n).Some? && world(n).reply.Retryable?
  {
    var room := MAX_DURATION - RepliedAt(p, world, n);
    Jittered(Timeline(p, world, n).value.interval, world(n).r, p.platform) <= room && world(n).reply.hint <= room
  }

  /** In every run, a wait ends within the budget exactly when its turn fits. */
  lemma {:induction false} RunKeepsBudgetIff(p: Policy, world: nat -> Turn, n: nat)
    requires p.Valid() && Plausible(world) && n > 0 && Timeline(p, world, n).Some?
    ensures Timeline(p, world, n - 1).Some? && world(n - 1).reply.Retryable?
    ensures WaitEnd(p, world, n) <= p.maxElapsed <==> TurnFits(p, world, n - 1)
  {
    hide Next, Grown, Jittered;
    var at, turn := Timeline(p, world, n - 1).value, world(n - 1);
    TimelineForward(p, world, n - 1);
    GoesOnIff(p, world, n - 1);
    BudgetKeptIff(at.interval, p.maxElapsed, at.elapsed + turn.took, turn.r, turn.reply.hint, p.platform);
  }

  /** So with a sane configuration, and hints that leave room for the budget, no wait of any run passes it. */
  lemma {:induction false} SaneRunKeepsBudget(p: Policy, world: nat -> Turn, n: nat)
    requires p.Valid() && Sane(p.max, p.maxElapsed) && Plausible(world) && n > 0 && Timeline(p, world, n).Some?
    requires world(n - 1).reply.Retryable? ==> world(n - 1).reply.hint <= MAX_DURATION - p.maxElapsed
    ensures WaitEnd(p, world, n) <= p.maxElapsed
  {
    hide Next, Grown, Jittered;
    RunKeepsBudgetIff(p, world, n);
    GoesOnIff(p, world, n - 1);
    RoomyNeverOverflows(p.first, p.first, p.max, 0, p.maxElapsed);
    TimelineAdvances(p, world, n - 1);
    var at, turn := Timeline(p, world, n - 1).value, world(n - 1);
    SaneWaitsFit(at.interval, p.max, p.maxElapsed, at.elapsed + turn.took, turn.r, p.platform);
  }

  function CeilDiv(a: int, b: int): int
    requires b > 0
  {
    (a + b - 1) / b
  }

  /** A wait takes at least half the interval, unless it uses the budget up. */
  lemma {:induction false} WaitAtLeast(
      interval: int, maxElapsed: int, elapsed: int, r: real, hint: int, platform: Platform)
    requires 0 < interval && interval * 3 / 2 <= MAX_DURATION && 0.0 <= r < 1.0
    ensures var answer := Next(interval, maxElapsed, elapsed, r, hint, platform);
            answer.Wait? ==>
              && 0 <= answer.duration
              && (interval / 2 <= answer.duration || elapsed + answer.duration == maxElapsed)
  {
    hide Jittered;
    JitterRange(interval, r, platform);
  }

  lemma {:induction false} TimelineAdvances(p: Policy, world: nat -> Turn, n: nat)
    requires p.Valid() && !CanOverflow(p.first, p.max, 0, p.maxElapsed)
    requires Plausible(world) && Timeline(p, world, n).Some?
    ensures var at := Timeline(p, world, n).value;
            && p.first <= at.interval <= p.max
            && (n * (p.first / 2) <= at.elapsed || p.maxElapsed <= at.elapsed)
            && !CanOverflow(at.interval, p.max, at.elapsed, p.maxElapsed)
  {
    hide Next, Grown, CanOverflow;
    if n > 0 {
      TimelineAdvances(p, world, n - 1);
      GoesOnIff(p, world, n - 1);
      var at := Timeline(p, world, n - 1).value;
      var turn := world(n - 1);
      var later := Timeline(p, world, n).value.elapsed;
      NoOverflowAhead(at.interval, p.max, at.elapsed, at.elapsed + turn.took, p.maxElapsed, p.maxElapsed, p.platform);
      GrownKeeps(at.interval, p.max, p.platform);
      WaitAtLeast(at.interval, p.maxElapsed, at.elapsed + turn.took, turn.r, turn.reply.hint, p.platform);
      NoOverflowAhead(at.interval, p.max, at.elapsed, at.elapsed + turn.took, later, p.maxElapsed, p.platform);
      OneMore(n, p.first / 2);
      assert p.first / 2 <= at.interval / 2;
    }
  }

  /** In every run the interval at least doubles in two waits, until it comes to its maximum. */
  lemma {:induction false} DoublesInTwoWaits(p: Policy, world: nat -> Turn, n: nat)
    requires p.Valid() && p.Ends() && Plausible(world) && Timeline(p, world, n + 2).Some?
    ensures Timeline(p, world, n).Some?
    ensures Timeline(p, world, n + 2).value.interval >= Min(p.max, 2 * Timeline(p, world, n).value.interval)
  {
    hide Next, Grown, CanOverflow;
    WentOn(p, world, n + 2);
    var a, b := Timeline(p, world, n).value, Timeline(p, world, n + 1).value;
    TimelineAdvances(p, world, n);
    TimelineAdvances(p, world, n + 1);
    InRange(p, a, n, world);
    InRange(p, b, n + 1, world);
    GrownByHalf(a.interval, p.max, p.platform);
    GrownByHalf(b.interval, p.max, p.platform);
  }

  lemma {:induction false} InRange(p: Policy, at: Point, n: nat, world: nat -> Turn)
    requires p.Valid() && p.Ends() && Plausible(world)
    requires Timeline(p, world, n) == Some(at) && Timeline(p, world, n + 1).Some?
    ensures at.interval * 3 / 2 <= MAX_DURATION && p.first <= at.interval <= p.max
  {
    hide Next, Grown, CanOverflow;
    TimelineAdvances(p, world, n);
    GoesOnIff(p, world, n);
    NoOverflowAhead(at.interval, p.max, at.elapsed, at.elapsed + world(n).took, p.maxElapsed, p.maxElapsed, p.platform);
  }

  lemma {:induction false} OneMore(n: nat, h: int)
    requires n > 0
    ensures n * h == (n - 1) * h + h
  {
  }

  /** The most waits a loop can make: the budget over half the first interval, rounded up. */
  function MostWaits(p: Policy): int
    requires p.first >= 2
  {
    CeilDiv(p.maxElapsed, p.first / 2)
  }

  /** On every platform, the loop starts its n-th wait only while (n - 1) such waits fit into the budget. */
  lemma {:induction false} WaitsBounded(p: Policy, world: nat -> Turn, n: nat)
    requires p.Valid() && p.Ends() && Plausible(world)
    requires Timeline(p, world, n).Some?
    ensures n <= MostWaits(p)
  {
    hide Next, Grown, CeilDiv, CanOverflow;
    if n > 0 {
      TimelineAdvances(p, world, n - 1);
      GoesOnIff(p, world, n - 1);
      CeilDivAbove(n, p.maxElapsed, p.first / 2);
    } else {
      CeilDivAbove(0, p.maxElapsed, p.first / 2);
    }
  }

  lemma {:induction false} CeilDivCovers(a: int, b: int)
    requires b > 0
    ensures a <= CeilDiv(a, b) * b
  {
    var x := a + b - 1;
    assert x == (x / b) * b + x % b;
  }

  lemma {:induction false} MulOrder(x: int, y: int, b: int)
    requires b > 0 && x * b < y * b
    ensures x < y
  {
    assert x >= y ==> (x - y) * b >= 0;
    assert (x - y) * b == x * b - y * b;
  }

  lemma {:induction false} CeilDivAbove(n: int, a: int, b: int)
    requires b > 0 && (n - 1) * b < a
    ensures n <= CeilDiv(a, b)
  {
    var q := CeilDiv(a, b);
    CeilDivCovers(a, b);
    MulOrder(n - 1, q, b);
  }

  /** A clock so far on that the difference does not fit in a duration is past every budget anyway. */
  lemma {:induction false} SinceAgrees(
      interval: int, maxElapsed: int, clock: int, start: int, r: real, hint: int, platform: Platform)
    requires start <= clock && maxElapsed <= MAX_DURATION
    ensures Next(interval, maxElapsed, Since(clock, start), r, hint, platform) ==
            Next(interval, maxElapsed, clock - start, r, hint, platform)
    ensures Next(interval, maxElapsed, clock - start, r, hint, platform).GiveUp? <==> clock - start >= maxElapsed
  {
    hide RawWait;
  }

  lemma {:induction false} StartOf(p: Policy, world: nat -> Turn)
    ensures Timeline(p, world, 0) == Some(Point(p.first, 0))
  {
  }

  datatype Settlement = Success | Permanent | RetryExhausted

  /**
  deliver's loop without Shutdown. It ends after at most ceil(budget / floor(first interval / 2)) + 1 attempts, in every
  world, also one whose hints overrun the budget. It settles by the last reply, and gives up on a retryable failure
  exactly when the budget is spent.
  */
  method Deliver(initial: int, max: int, maxElapsed: int, now: int, platform: Platform, world: nat -> Turn)
    returns (settlement: Settlement, attempts: nat, retries: nat)
    requires Durations(initial, max, maxElapsed) && Defined(platform) && Plausible(world)
    requires Policy(Min(initial, max), max, maxElapsed, platform).Ends()
    ensures var p := Policy(Min(initial, max), max, maxElapsed, platform);
            && 1 <= attempts <= MostWaits(p) + 1
            && retries == attempts - 1
            && (forall n | 0 <= n < attempts :: Timeline(p, world, n).Some?)
            && (forall n | 0 <= n < attempts - 1 :: world(n).reply.Retryable? && RepliedAt(p, world, n) < maxElapsed)
            && match world(attempts - 1).reply
               case Delivered => settlement == Success
               case Refused => settlement == Permanent
               case Retryable(_) => settlement == RetryExhausted && RepliedAt(p, world, attempts - 1) >= maxElapsed
  {
    hide Timeline, Next, Since, Grown, MostWaits, CanOverflow;
    var b := new Backoff(initial, max, maxElapsed, now, platform);
    ghost var p := Policy(Min(initial, max), max, maxElapsed, platform);
    var clock := now;
    attempts, retries := 0, 0;
    StartOf(p, world);
    while true
      invariant fresh(b) && b.Valid() && b.max == max && b.maxElapsed == maxElapsed && b.start == now
      invariant b.platform == platform
      invariant retries == attempts
      invariant clock >= now
      invariant Timeline(p, world, attempts) == Some(Point(b.interval, clock - now))
      decreases MostWaits(p) - attempts
    {
      WaitsBounded(p, world, attempts);
      WentOn(p, world, attempts);
      var turn := world(attempts);
      clock := clock + turn.took;
      attempts := attempts + 1;
      match turn.reply {
        case Delivered => return Success, attempts, retries;
        case Refused => return Permanent, attempts, retries;
        case Retryable(hint) =>
          SinceAgrees(b.interval, maxElapsed, clock, now, turn.r, hint, platform);
          var wait, ok := b.NextWait(clock, turn.r, hint);
          if !ok {
            return RetryExhausted, attempts, retries;
          }
          TimelineNext(p, world, retries, wait);
          clock := clock + Max(wait, 0) + turn.overslept;
          WaitsBounded(p, world, attempts);
          retries := retries + 1;
      }
    }
  }

  /**
  The bound needs a first interval of at least two nanoseconds. With one nanosecond the interval stays at one and the
  jitter may round every wait to nothing, so no number of attempts is too many.
  */
  lemma {:induction false} OneNanosecondNeverEnds(max: int, maxElapsed: int, platform: Platform, n: nat)
    requires Durations(1, max, maxElapsed)
    ensures Timeline(Policy(1, max, maxElapsed, platform), (i: nat) => Turn(Retryable(0), 0, 0.0, 0), n) ==
            Some(Point(1, 0))
  {
    hide Timeline, Next, Grown, Spread;
    var p, world := Policy(1, max, maxElapsed, platform), (i: nat) => Turn(Retryable(0), 0, 0.0, 0);
    if n == 0 {
      StartOf(p, world);
    } else {
      OneNanosecondNeverEnds(max, maxElapsed, platform, n - 1);
      OneStaysOne(max, platform);
      NoWait(1, 0, maxElapsed, 0.0, platform);
      TimelineNext(p, world, n - 1, 0);
    }
  }

  lemma {:induction false} OneStaysOne(max: int, platform: Platform)
    requires 0 < max <= MAX_DURATION
    ensures Jittered(1, 0.0, platform) == 0 && Grown(1, max, platform) == 1
  {
    assert Product(1, 0.0) == 0.5;
  }

  lemma {:induction false} NoWait(interval: int, elapsed: int, maxElapsed: int, r: real, platform: Platform)
    requires 0 <= elapsed < maxElapsed <= MAX_DURATION && Jittered(interval, r, platform) <= 0
    ensures Next(interval, maxElapsed, elapsed, r, 0, platform) == Wait(0)
  {
    hide Jittered;
  }

  /** The shortest wait, where it ends before the budget. */
  lemma {:induction false} ShortestWait(interval: int, elapsed: int, maxElapsed: int, platform: Platform)
    requires 0 < interval <= MAX_DURATION && 0 <= elapsed && elapsed + interval / 2 < maxElapsed <= MAX_DURATION
    ensures Next(interval, maxElapsed, elapsed, 0.0, 0, platform) == Wait(interval / 2)
  {
    hide Spread;
    ShortestSpread(interval);
  }

  lemma {:induction false} ShortestSpread(interval: int)
    requires 0 < interval
    ensures Spread(interval, 0.0) == interval / 2
  {
    assert Product(interval, 0.0) == interval as real * 0.5;
    assert (interval / 2) as real <= interval as real * 0.5 < (interval / 2) as real + 1.0;
  }

  // ----- a loop that can overflow, on amd64 -----

  /** The number of waits before the interval that cannot grow, and that interval. */
  ghost function OverflowTurn(interval: int, max: int, elapsed: int, maxElapsed: int): nat
    requires CanOverflow(interval, max, elapsed, maxElapsed)
    decreases maxElapsed - elapsed
  {
    if interval * 3 / 2 > MAX_DURATION then 0
    else 1 + OverflowTurn(Min(interval * 3 / 2, max), max, elapsed + interval / 2, maxElapsed)
  }

  ghost function OverflowInterval(interval: int, max: int, elapsed: int, maxElapsed: int): (i: int)
    requires CanOverflow(interval, max, elapsed, maxElapsed)
    ensures i * 3 / 2 > MAX_DURATION
    ensures interval <= max ==> i <= max
    decreases maxElapsed - elapsed
  {
    if interval * 3 / 2 > MAX_DURATION then interval
    else OverflowInterval(Min(interval * 3 / 2, max), max, elapsed + interval / 2, maxElapsed)
  }

  /** The shortest waits, but for the turn that has to overflow, which gets the jitter that takes it just out of range. */
  ghost function Overflowing(p: Policy): nat -> Turn
    requires p.Valid() && CanOverflow(p.first, p.max, 0, p.maxElapsed)
  {
    var k := OverflowTurn(p.first, p.max, 0, p.maxElapsed);
    var r := OverflowAt(OverflowInterval(p.first, p.max, 0, p.maxElapsed));
    (i: nat) => Turn(Retryable(0), 0, if i == k then r else 0.0, 0)
  }

  /** Where that world has the loop after n waits: on its way to the overflow, or past it with no wait ahead. */
  ghost predicate OnTheWay(p: Policy, at: Point, n: nat)
    requires p.Valid() && CanOverflow(p.first, p.max, 0, p.maxElapsed)
  {
    var k := OverflowTurn(p.first, p.max, 0, p.maxElapsed);
    && 0 <= at.elapsed < p.maxElapsed
    && if n <= k then
         && at.interval <= p.max
         && CanOverflow(at.interval, p.max, at.elapsed, p.maxElapsed)
         && OverflowTurn(at.interval, p.max, at.elapsed, p.maxElapsed) == k - n
         && OverflowInterval(at.interval, p.max, at.elapsed, p.maxElapsed) ==
            OverflowInterval(p.first, p.max, 0, p.maxElapsed)
       else at.interval == Int64.MIN
  }

  /** One turn of that world, and the wait it takes. */
  lemma {:induction false} OverflowingTurn(p: Policy, at: Point, n: nat) returns (wait: nat)
    requires p.Valid() && p.platform == Amd64() && CanOverflow(p.first, p.max, 0, p.maxElapsed)
    requires OnTheWay(p, at, n)
    ensures Next(at.interval, p.maxElapsed, at.elapsed, Overflowing(p)(n).r, 0, p.platform) == Wait(wait)
    ensures OnTheWay(p, Point(Grown(at.interval, p.max, p.platform), at.elapsed + wait), n + 1)
  {
    hide Next, Spread, OverflowAt;
    var k := OverflowTurn(p.first, p.max, 0, p.maxElapsed);
    if n < k {
      wait := at.interval / 2;
      assert CanOverflow(Min(at.interval * 3 / 2, p.max), p.max, at.elapsed + wait, p.maxElapsed);
      ShortestWait(at.interval, at.elapsed, p.maxElapsed, p.platform);
    } else {
      wait := 0;
      OverflowingRange(if n == k then at.interval else OverflowInterval(p.first, p.max, 0, p.maxElapsed));
      NoWait(at.interval, at.elapsed, p.maxElapsed, Overflowing(p)(n).r, p.platform);
    }
  }

  /** A loop that can overflow need not end: in that world no number of waits is too many. */
  lemma {:induction false} OverflowNeverEnds(p: Policy, n: nat)
    requires p.Valid() && p.platform == Amd64() && CanOverflow(p.first, p.max, 0, p.maxElapsed)
    ensures Plausible(Overflowing(p))
    ensures Timeline(p, Overflowing(p), n).Some? && OnTheWay(p, Timeline(p, Overflowing(p), n).value, n)
  {
    hide Timeline, Next, Grown, CanOverflow, OnTheWay, OverflowAt, OverflowTurn, OverflowInterval;
    var world := Overflowing(p);
    OverflowingRange(OverflowInterval(p.first, p.max, 0, p.maxElapsed));
    if n == 0 {
      StartOf(p, world);
      StartsOnTheWay(p);
    } else {
      OverflowNeverEnds(p, n - 1);
      var wait := OverflowingTurn(p, Timeline(p, world, n - 1).value, n - 1);
      TimelineNext(p, world, n - 1, wait);
    }
  }

  lemma {:induction false} StartsOnTheWay(p: Policy)
    requires p.Valid() && CanOverflow(p.first, p.max, 0, p.maxElapsed)
    ensures OnTheWay(p, Point(p.first, 0), 0)
  {
  }

  /** No world lets the loop make more than `bound` waits. */
  ghost predicate Bounded(p: Policy, bound: int) {
    forall world: nat -> Turn, n: nat | Plausible(world) && Timeline(p, world, n).Some? :: n <= bound
  }

  /**
  Exactly when the loop ends: on amd64 its waits are bounded over all worlds if and only if the first interval is at
  least two nanoseconds and no interval it can come to overflows. Then they are at most MostWaits.
  */
  lemma {:induction false} EndsIff(p: Policy)
    requires p.Valid() && p.platform == Amd64()
    ensures p.Ends() <==> exists bound :: Bounded(p, bound)
    ensures p.Ends() ==> Bounded(p, MostWaits(p))
  {
    hide Timeline, CanOverflow, MostWaits, Plausible, Overflowing, OnTheWay;
    if p.Ends() {
      forall world: nat -> Turn, n: nat | Plausible(world) && Timeline(p, world, n).Some? ensures n <= MostWaits(p) {
        WaitsBounded(p, world, n);
      }
      assert Bounded(p, MostWaits(p));
    } else if bound :| Bounded(p, bound) {
      var world := Endless(p, if bound < 0 then 0 else bound + 1);
      assert false;
    }
  }

  lemma {:induction false} Endless(p: Policy, n: nat) returns (world: nat -> Turn)
    requires p.Valid() && p.platform == Amd64() && !p.Ends()
    ensures Plausible(world) && Timeline(p, world, n).Some?
  {
    hide Timeline, CanOverflow, Overflowing, OnTheWay;
    if p.first == 1 {
      world := (i: nat) => Turn(Retryable(0), 0, 0.0, 0);
      OneNanosecondNeverEnds(p.max, p.maxElapsed, p.platform, n);
      assert p == Policy(1, p.max, p.maxElapsed, p.platform);
    } else {
      world := Overflowing(p);
      OverflowNeverEnds(p, n);
    }
  }

  ghost function OverflowAt(max: int): real
    requires max > 0
  {
    0x8000_0000_0000_0000 as real / max as real - 0.5
  }

  lemma {:induction false} OverflowingRange(max: int)
    requires 0 < max <= MAX_DURATION < max * 3 / 2
    ensures 0.0 <= OverflowAt(max) < 1.0
    ensures Spread(max, OverflowAt(max)) == MAX_DURATION + 1
    ensures Spread(Int64.MIN, 0.0) <= 0
  {
    assert Product(Int64.MIN, 0.0) == Int64.MIN as real * 0.5;
    var q := 0x8000_0000_0000_0000 as real / max as real;
    assert q * max as real == 0x8000_0000_0000_0000 as real;
    assert 1.0 <= q < 1.5 by { QuotientRange(max as real, 0x8000_0000_0000_0000 as real, q); }
    assert Factor(OverflowAt(max)) == q;
  }

  lemma {:induction false} QuotientRange(x: real, y: real, q: real)
    requires 0.0 < x <= y < 1.5 * x && q * x == y
    ensures 1.0 <= q < 1.5
  {
    assert q < 1.0 ==> (1.0 - q) * x > 0.0;
    assert q >= 1.5 ==> (q - 1.5) * x >= 0.0;
  }
}
