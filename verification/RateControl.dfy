/** Closed-loop video bitrate control: one decision per window, from what the link carried, the
    share of the window spent inside the transport write, and the worst audio backlog. */
module RateControl {
  import opened Integers

  type u64 = x: int | 0 <= x <= U64_MAX

  const STEP: u64 := 250_000
  const FLOOR: u64 := 400_000
  const CONGESTED_TRANSPORT_PERCENT := 10
  const UNCONGESTED_TRANSPORT_PERCENT := 2
  const CONGESTED_AUDIO_BACKLOG_US := 250_000
  const DELIVERED_TARGET_PERCENT: u64 := 90

  /** Durations are counted in nanoseconds; the longest has 2^64 - 1 whole seconds. */
  type Duration = d: int | 0 <= d <= MAX_DURATION
  const MAX_DURATION := U64_MAX * 1_000_000_000 + 999_999_999
  const RATE_WINDOW: Duration := 1_000_000_000

  function SaturatingAdd(a: u64, b: u64): u64 { Min(a + b, U64_MAX) }
  function SaturatingMul(a: u64, b: u64): u64 { Min(a * b, U64_MAX) }

  function Micros(d: Duration): nat { Max(d / 1000, 1) }

  function AchievedBitsPerSecond(bytes: u64, elapsed: Duration): u64 {
    Min(bytes * 8_000_000 / Micros(elapsed), U64_MAX)
  }

  function BlockedPercent(blocked: Duration, elapsed: Duration): u64 {
    Min((blocked / 1000) * 100 / Micros(elapsed), 100)
  }

  function QuantizeTarget(candidate: u64, configured: u64): u64 {
    var clamped := Min(Max(candidate, FLOOR), configured);
    if clamped >= configured then configured else Max(clamped / STEP * STEP, FLOOR)
  }

  /** What one window observed. */
  datatype Window = Window(achieved: u64, transportPercent: u64, audioBacklog: u64) {
    predicate Delivering(current: u64) {
      SaturatingMul(achieved, 100) >= SaturatingMul(current, DELIVERED_TARGET_PERCENT)
    }

    predicate Congested(current: u64) {
      || (transportPercent >= CONGESTED_TRANSPORT_PERCENT && !Delivering(current))
      || audioBacklog >= CONGESTED_AUDIO_BACKLOG_US
    }

    predicate Uncongested() {
      transportPercent <= UNCONGESTED_TRANSPORT_PERCENT && audioBacklog < CONGESTED_AUDIO_BACKLOG_US
    }
  }

  function NextTarget(current: u64, configured: u64, window: Window): u64 {
    var candidate: u64 :=
      if window.Congested(current) then
        var reference := if window.achieved > 0 then Min(current, window.achieved) else current;
        SaturatingMul(reference, 7) / 8
      else if window.Uncongested() then
        SaturatingAdd(current, configured / 8)
      else
        current;
    QuantizeTarget(candidate, configured)
  }

  /** Any number of windows, the latest last. */
  datatype History = Empty | Then(before: History, window: Window) {
    function Length(): nat { if Empty? then 0 else before.Length() + 1 }

    predicate AllUncongested() { Then? ==> before.AllUncongested() && window.Uncongested() }
  }

  /** The target after a history that began at `start`. */
  function Target(start: u64, configured: u64, history: History): u64 {
    match history
    case Empty => start
    case Then(before, window) => NextTarget(Target(start, configured, before), configured, window)
  }

  ghost predicate IsTarget(target: u64, configured: u64) {
    && 400_000 <= target <= configured
    && (target == configured || target == 400_000 || target % 250_000 == 0)
  }

  lemma QuantizedIsTarget(candidate: u64, configured: u64)
    requires FLOOR <= configured
    ensures IsTarget(QuantizeTarget(candidate, configured), configured)
  {
    var clamped := Min(Max(candidate, FLOOR), configured);
    assert clamped / STEP * STEP <= clamped;
    assert (clamped / STEP * STEP) % STEP == 0;
  }

  lemma NextIsTarget(current: u64, configured: u64, w: Window)
    requires FLOOR <= configured
    ensures IsTarget(NextTarget(current, configured, w), configured)
  {
    QuantizedIsTarget(
      if w.Congested(current) then
        SaturatingMul(if w.achieved > 0 then Min(current, w.achieved) else current, 7) / 8
      else if w.Uncongested() then SaturatingAdd(current, configured / 8) else current, configured);
  }

  /** Every target the control ever reports lies between the floor and the configured rate and is
      one of them or a whole number of steps. */
  lemma {:induction false} ReachableTargetsAreValid(configured: u64, history: History)
    requires FLOOR <= configured
    ensures IsTarget(Target(configured, configured, history), configured)
  {
    if history.Then? {
      NextIsTarget(Target(configured, configured, history.before), configured, history.window);
    }
  }

  // ------------------------------------------------------------------------------------------
  // The fixed point
  // ------------------------------------------------------------------------------------------

  lemma ValidTargetIsKept(target: u64, configured: u64)
    requires IsTarget(target, configured)
    ensures QuantizeTarget(target, configured) == target
  {}

  lemma QuantizeIsMonotone(a: u64, b: u64, configured: u64)
    requires a <= b && FLOOR <= configured
    ensures QuantizeTarget(a, configured) <= QuantizeTarget(b, configured)
  {
    var x, y := Min(Max(a, FLOOR), configured), Min(Max(b, FLOOR), configured);
    assert x / STEP <= y / STEP;
    QuantizedIsTarget(a, configured);
  }

  /** Every window carried 90% of the target then in force, with audio flowing. */
  ghost predicate AllDelivered(start: u64, configured: u64, history: History) {
    history.Then? ==>
      && AllDelivered(start, configured, history.before)
      && history.window.achieved * 100 >= Target(start, configured, history.before) * 90
      && history.window.audioBacklog < CONGESTED_AUDIO_BACKLOG_US
  }

  lemma DeliveringKeeps(target: u64, configured: u64, w: Window)
    requires IsTarget(target, configured)
    requires w.achieved * 100 >= target * 90 && w.audioBacklog < CONGESTED_AUDIO_BACKLOG_US
    ensures IsTarget(NextTarget(target, configured, w), configured)
    ensures NextTarget(target, configured, w) >= target
  {
    assert w.Delivering(target);
    var candidate := if w.Uncongested() then SaturatingAdd(target, configured / 8) else target;
    QuantizeIsMonotone(target, candidate, configured);
    ValidTargetIsKept(target, configured);
    NextIsTarget(target, configured, w);
  }

  /** No run of delivering windows lowers the target, whatever the transport share. */
  lemma {:induction false} DeliveringNeverDecays(start: u64, configured: u64, history: History)
    requires IsTarget(start, configured) && AllDelivered(start, configured, history)
    ensures IsTarget(Target(start, configured, history), configured)
    ensures Target(start, configured, history) >= start
  {
    if history.Then? {
      DeliveringNeverDecays(start, configured, history.before);
      DeliveringKeeps(Target(start, configured, history.before), configured, history.window);
    }
  }

  // ------------------------------------------------------------------------------------------
  // Climbing
  // ------------------------------------------------------------------------------------------

  lemma ClimbStep(target: u64, configured: u64, w: Window)
    requires IsTarget(target, configured) && w.Uncongested()
    ensures var next := NextTarget(target, configured, w);
      && IsTarget(next, configured)
      && (target == configured ==> next == configured)
      && (next == configured || next / STEP >= target / STEP + configured / 8 / STEP)
  {
    var gain := configured / 8;
    QuantizedIsTarget(SaturatingAdd(target, gain), configured);
    assert (target + gain) / STEP >= target / STEP + gain / STEP;
  }

  lemma {:induction false} ClimbGains(start: u64, configured: u64, history: History)
    requires IsTarget(start, configured) && history.AllUncongested()
    ensures IsTarget(Target(start, configured, history), configured)
    ensures var t := Target(start, configured, history);
      t == configured || t / STEP >= start / STEP + history.Length() * (configured / 8 / STEP)
  {
    if history.Then? {
      ClimbGains(start, configured, history.before);
      var t := Target(start, configured, history.before);
      ClimbStep(t, configured, history.window);
      Distributes(history.before.Length(), 1, configured / 8 / STEP);
    }
  }

  /** When the climb always succeeds: the increment is at least one whole step, or it covers the
      whole distance from the floor. */
  predicate ClimbsFromAnywhere(configured: u64) {
    configured / 8 >= STEP || FLOOR + configured / 8 >= configured
  }

  lemma SixteenWindowsSuffice(start: u64, configured: u64, history: History)
    requires IsTarget(start, configured) && history.AllUncongested() && history.Length() >= 16
    requires ClimbsFromAnywhere(configured)
    ensures Target(start, configured, history) == configured
  {
    ClimbGains(start, configured, history);
    if configured / 8 >= STEP {
      LongClimb(Target(start, configured, history), configured, history.Length());
    } else {
      ClimbGains(start, configured, history.before);
    }
  }

  lemma LongClimb(target: u64, configured: u64, n: nat)
    requires n >= 16 && configured / 8 >= STEP && target <= configured
    requires target == configured || target / STEP >= 1 + n * (configured / 8 / STEP)
    ensures target == configured
  {
    var gain := configured / 8 / STEP;
    assert n * gain >= 16 * gain;
    assert configured < 8 * (gain + 1) * STEP;
  }

  /** A target no uncongested window can move. */
  function Stall(configured: u64): u64
    requires configured >= FLOOR
  {
    if configured / 8 < 100_000 then FLOOR else 2 * STEP
  }

  lemma {:induction false} StallsForever(configured: u64, history: History)
    requires FLOOR <= configured && !ClimbsFromAnywhere(configured) && history.AllUncongested()
    ensures Target(Stall(configured), configured, history) == Stall(configured) < configured
  {
    if history.Then? {
      StallsForever(configured, history.before);
      assert QuantizeTarget(Stall(configured) + configured / 8, configured) == Stall(configured);
    }
  }

  lemma StallIsReachable(configured: u64)
    requires FLOOR <= configured && !ClimbsFromAnywhere(configured)
    ensures exists past :: Target(configured, configured, past) == Stall(configured)
  {
    var w := Window(if Stall(configured) == FLOOR then 1 else 600_000, 100, 0);
    assert Target(configured, configured, Then(Empty, w)) == Stall(configured);
  }

  /** From every target a run can reach, any sixteen or more uncongested windows lead to the
      configured rate, if and only if `ClimbsFromAnywhere` holds; otherwise some run reaches a
      target below the configured rate that uncongested windows never leave. */
  lemma ClimbIsExact(configured: u64)
    requires FLOOR <= configured
    ensures ClimbsFromAnywhere(configured) <==>
      forall past: History, climb: History :: Climbs(configured, past, climb)
  {
    if ClimbsFromAnywhere(configured) {
      forall past: History, climb: History
        ensures Climbs(configured, past, climb)
      {
        if climb.AllUncongested() && climb.Length() >= 16 {
          ReachableTargetsAreValid(configured, past);
          SixteenWindowsSuffice(Target(configured, configured, past), configured, climb);
        }
      }
    } else {
      StallIsReachable(configured);
      var past :| Target(configured, configured, past) == Stall(configured);
      var climb := Idle(16);
      StallsForever(configured, climb);
      assert !Climbs(configured, past, climb);
    }
  }

  ghost predicate Climbs(configured: u64, past: History, climb: History) {
    climb.AllUncongested() && climb.Length() >= 16 ==>
      Target(Target(configured, configured, past), configured, climb) == configured
  }

  function Idle(n: nat): (history: History)
    ensures history.AllUncongested() && history.Length() == n
  {
    if n == 0 then Empty else Then(Idle(n - 1), Window(0, 0, 0))
  }

  // ------------------------------------------------------------------------------------------
  // Backing off
  // ------------------------------------------------------------------------------------------

  ghost predicate AllCongested(start: u64, configured: u64, history: History) {
    history.Then? ==>
      AllCongested(start, configured, history.before)
      && history.window.Congested(Target(start, configured, history.before))
  }

  /** A congested window strictly lowers any target above the floor, and lands at or below
      seven eighths of what the link carried. */
  lemma CongestionLowers(target: u64, configured: u64, w: Window)
    requires IsTarget(target, configured) && w.Congested(target)
    ensures var next := NextTarget(target, configured, w);
      && IsTarget(next, configured)
      && (target > FLOOR ==> next < target)
      && (8 * next <= Max(8 * FLOOR, 7 * target))
      && (w.achieved > 0 ==> 8 * next <= Max(8 * FLOOR, 7 * Min(target, w.achieved)))
  {
    var reference := if w.achieved > 0 then Min(target, w.achieved) else target;
    var candidate := SaturatingMul(reference, 7) / 8;
    QuantizedIsTarget(candidate, configured);
    assert 8 * candidate <= 7 * reference;
    assert QuantizeTarget(candidate, configured) <= Max(candidate, FLOOR);
  }

  ghost function Pow(base: nat, n: nat): nat { if n == 0 then 1 else base * Pow(base, n - 1) }

  /** After n congested windows the target is at most (7/8)^n of where it started, or the floor. */
  lemma {:induction false} BackOffIsGeometric(start: u64, configured: u64, history: History)
    requires IsTarget(start, configured) && AllCongested(start, configured, history)
    ensures IsTarget(Target(start, configured, history), configured)
    ensures var t, n := Target(start, configured, history), history.Length();
      t == FLOOR || t * Pow(8, n) <= start * Pow(7, n)
  {
    if history.Then? {
      BackOffIsGeometric(start, configured, history.before);
      var t, n := Target(start, configured, history.before), history.before.Length();
      CongestionLowers(t, configured, history.window);
      var next := Target(start, configured, history);
      if next != FLOOR {
        GeometricStep(start, t, next, Pow(8, n), Pow(7, n));
      }
    }
  }

  lemma GeometricStep(start: nat, t: nat, next: nat, p: nat, q: nat)
    requires 8 * next <= 7 * t && t * p <= start * q
    ensures next * (8 * p) <= start * (7 * q)
  {
    ScaleStep(next, t, p, start * q);
    SwapFactors(start, q);
  }

  lemma SwapFactors(a: nat, p: nat)
    ensures 7 * (a * p) == a * (7 * p)
  {}

  lemma ScaleStep(next: nat, t: nat, p: nat, bound: nat)
    requires 8 * next <= 7 * t && t * p <= bound
    ensures next * (8 * p) <= 7 * bound
  {
    assert (8 * next) * p <= (7 * t) * p;
    assert next * (8 * p) == (8 * next) * p;
    assert (7 * t) * p == 7 * (t * p);
  }

  /** So enough congested windows reach the floor. */
  lemma BackOffReachesFloor(start: u64, configured: u64, history: History)
    requires IsTarget(start, configured) && AllCongested(start, configured, history)
    requires start * Pow(7, history.Length()) <= FLOOR * Pow(8, history.Length())
    ensures Target(start, configured, history) == FLOOR
  {
    BackOffIsGeometric(start, configured, history);
    PowPositive(8, history.Length());
    CancelFactor(Target(start, configured, history), FLOOR, Pow(8, history.Length()));
  }

  lemma CancelFactor(a: nat, b: nat, p: nat)
    requires p > 0
    ensures a * p <= b * p ==> a <= b
  {
    if a > b {
      assert a * p == b * p + (a - b) * p;
      assert (a - b) * p > 0;
    }
  }

  lemma {:induction false} PowPositive(base: nat, n: nat)
    requires base > 0
    ensures Pow(base, n) > 0
  {
    if n > 0 {
      PowPositive(base, n - 1);
      assert base * Pow(base, n - 1) > 0;
    }
  }

  lemma TimesPower(base: nat, a: nat, b: nat, power: nat)
    requires power == a * b
    ensures base * power == (base * a) * b
  {}

  lemma {:induction false} PowAdds(base: nat, m: nat, n: nat)
    ensures Pow(base, m + n) == Pow(base, m) * Pow(base, n)
  {
    if m > 0 {
      PowAdds(base, m - 1, n);
      TimesPower(base, Pow(base, m - 1), Pow(base, n), Pow(base, m + n - 1));
    }
  }

  lemma SixWindowsHalve(x: nat, y: nat, z: nat)
    requires x * y <= z
    ensures (Pow(7, 6) * x) * (2 * y) <= Pow(8, 6) * z
  {
    SixthPowers();
    assert (117_649 * x) * (2 * y) == 235_298 * (x * y);
  }

  lemma SixthPowers()
    ensures Pow(7, 6) == 117_649 && Pow(8, 6) == 262_144
  {
    assert Pow(7, 3) == 343 && Pow(8, 3) == 512;
    PowAdds(7, 3, 3);
    PowAdds(8, 3, 3);
  }

  lemma OneMoreWindow(x: nat, y: nat, z: nat)
    requires x * y <= z
    ensures (7 * x) * y <= 8 * z
  {
    assert (7 * x) * y == 7 * (x * y);
  }

  /** Six congested windows more than halve the target. */
  lemma {:induction false} WindowsHalve(n: nat, k: nat)
    requires n >= 6 * k
    ensures Pow(7, n) * Pow(2, k) <= Pow(8, n)
    decreases n
  {
    if n > 6 * k {
      WindowsHalve(n - 1, k);
      OneMoreWindow(Pow(7, n - 1), Pow(2, k), Pow(8, n - 1));
    } else if k > 0 {
      WindowsHalve(n - 6, k - 1);
      PowAdds(7, 6, n - 6);
      PowAdds(8, 6, n - 6);
      SixWindowsHalve(Pow(7, n - 6), Pow(2, k - 1), Pow(8, n - 6));
    }
  }

  /** The number of congested windows that reaches the floor grows with the logarithm of the start:
      six for each doubling of the floor that the start is above it. */
  lemma BackOffIsLogarithmic(start: u64, configured: u64, history: History, doublings: nat)
    requires IsTarget(start, configured) && AllCongested(start, configured, history)
    requires start <= FLOOR * Pow(2, doublings) && history.Length() >= 6 * doublings
    ensures Target(start, configured, history) == FLOOR
  {
    var n := history.Length();
    WindowsHalve(n, doublings);
    ChainBound(start, Pow(7, n), FLOOR, Pow(2, doublings), Pow(8, n));
    BackOffReachesFloor(start, configured, history);
  }

  lemma ChainBound(a: nat, p: nat, f: nat, d: nat, q: nat)
    requires a <= f * d && p * d <= q
    ensures a * p <= f * q
  {
    assert a * p <= (f * d) * p;
    assert (f * d) * p == f * (p * d);
    assert f * (p * d) <= f * q;
  }

  /** From any 64-bit rate 276 congested windows reach the floor. */
  lemma AnyRateReachesFloor(start: u64, configured: u64, history: History)
    requires IsTarget(start, configured) && AllCongested(start, configured, history) && history.Length() >= 276
    ensures Target(start, configured, history) == FLOOR
  {
    FortySixDoublings();
    BackOffIsLogarithmic(start, configured, history, 46);
  }

  lemma FortySixDoublings()
    ensures Pow(2, 46) == 0x4000_0000_0000
  {
    assert Pow(2, 3) == 8;
    PowAdds(2, 3, 3);
    PowAdds(2, 6, 6);
    PowAdds(2, 12, 12);
    assert Pow(2, 24) == 2 * Pow(2, 23);
    PowAdds(2, 23, 23);
  }

  // ------------------------------------------------------------------------------------------
  // The control
  // ------------------------------------------------------------------------------------------

  datatype Pressure = Pressure(rateLimited: Duration, flowLimited: Duration, transport: Duration, records: u64)

  function AddDurations(a: Duration, b: Duration): Duration { Min(a + b, MAX_DURATION) }

  function Accumulate(total: Pressure, more: Pressure): Pressure {
    Pressure(AddDurations(total.rateLimited, more.rateLimited), AddDurations(total.flowLimited, more.flowLimited),
             AddDurations(total.transport, more.transport), SaturatingAdd(total.records, more.records))
  }

  const NO_PRESSURE := Pressure(0, 0, 0, 0)

  /** One send as the window sees it. */
  datatype Send = Send(bytes: u64, pressure: Pressure)

  ghost function Sum(part: Send -> nat, sends: seq<Send>): nat {
    if sends == [] then 0 else Sum(part, sends[..|sends| - 1]) + part(sends[|sends| - 1])
  }

  function BytesOf(s: Send): nat { s.bytes }

  function RateLimitedOf(s: Send): nat { s.pressure.rateLimited }

  function FlowLimitedOf(s: Send): nat { s.pressure.flowLimited }

  function TransportOf(s: Send): nat { s.pressure.transport }

  function RecordsOf(s: Send): nat { s.pressure.records }

  ghost function TotalBytes(sends: seq<Send>): u64 { Min(Sum(BytesOf, sends), U64_MAX) }

  ghost function TotalPressure(sends: seq<Send>): Pressure {
    Pressure(Min(Sum(RateLimitedOf, sends), MAX_DURATION), Min(Sum(FlowLimitedOf, sends), MAX_DURATION),
             Min(Sum(TransportOf, sends), MAX_DURATION), Min(Sum(RecordsOf, sends), U64_MAX))
  }

  lemma SumAppends(part: Send -> nat, sends: seq<Send>, s: Send)
    ensures Sum(part, sends + [s]) == Sum(part, sends) + part(s)
  {
    assert (sends + [s])[..|sends|] == sends;
  }

  /** Saturating step by step is saturating the total. */
  lemma TotalsAccumulate(sends: seq<Send>, s: Send)
    ensures TotalBytes(sends + [s]) == SaturatingAdd(TotalBytes(sends), s.bytes)
    ensures TotalPressure(sends + [s]) == Accumulate(TotalPressure(sends), s.pressure)
  {
    SumAppends(BytesOf, sends, s);
    SumAppends(RateLimitedOf, sends, s);
    SumAppends(FlowLimitedOf, sends, s);
    SumAppends(TransportOf, sends, s);
    SumAppends(RecordsOf, sends, s);
  }

  /** What a window with these sends observes. */
  ghost function WindowOf(sends: seq<Send>, audioBacklog: u64, elapsed: Duration): Window {
    Window(AchievedBitsPerSecond(TotalBytes(sends), elapsed), BlockedPercent(TotalPressure(sends).transport, elapsed),
           audioBacklog)
  }

  lemma QuotientReaches(a: nat, m: nat, q: nat)
    requires m > 0
    ensures a / m >= q <==> a >= q * m
  {
    if a / m >= q {
      assert (a / m) * m >= q * m;
    } else {
      assert (a / m + 1) * m <= q * m;
    }
  }

  /** Whether a window delivers is decided by the total of its sends: 90% of the target, rounded up
      to whole bits, over the time elapsed. */
  lemma DeliveryIsDecidedByTheTotal(sends: seq<Send>, audioBacklog: u64, elapsed: Duration, target: u64)
    ensures var needed := (target * 90 + 99) / 100;
            var enough := TotalBytes(sends) * 8_000_000 >= needed * Micros(elapsed);
            && (enough ==> WindowOf(sends, audioBacklog, elapsed).Delivering(target))
            && (target * 90 <= U64_MAX && WindowOf(sends, audioBacklog, elapsed).Delivering(target) ==> enough)
  {
    QuotientReaches(TotalBytes(sends) * 8_000_000, Micros(elapsed), (target * 90 + 99) / 100);
  }

  /** So sends that carry 90% of the target between two decisions never see it lowered while audio
      flows, however long they were blocked. */
  lemma DeliveringSendsKeepTheTarget(sends: seq<Send>, audioBacklog: u64, elapsed: Duration,
                                     target: u64, configured: u64)
    requires IsTarget(target, configured) && audioBacklog < CONGESTED_AUDIO_BACKLOG_US
    requires TotalBytes(sends) * 8_000_000 >= (target * 90 + 99) / 100 * Micros(elapsed)
    ensures NextTarget(target, configured, WindowOf(sends, audioBacklog, elapsed)) >= target
  {
    var w := WindowOf(sends, audioBacklog, elapsed);
    QuotientReaches(TotalBytes(sends) * 8_000_000, Micros(elapsed), (target * 90 + 99) / 100);
    DeliveringKeeps(target, configured, w);
  }

  /** Whether a window is over the congestion share, or under the uncongested one, is decided by the
      total time its sends spent in the transport: a tenth, or three hundredths, of the time elapsed,
      both in whole microseconds. */
  lemma ShareIsDecidedByTheTotal(sends: seq<Send>, audioBacklog: u64, elapsed: Duration)
    ensures var share := WindowOf(sends, audioBacklog, elapsed).transportPercent;
            var blocked, micros := Min(Sum(TransportOf, sends), MAX_DURATION) / 1000, Max(elapsed / 1000, 1);
            && (share >= 10 <==> blocked * 10 >= micros)
            && (share <= 2 <==> blocked * 100 < 3 * micros)
            && share <= 100
  {
    var blocked, micros := Min(Sum(TransportOf, sends), MAX_DURATION) / 1000, Max(elapsed / 1000, 1);
    QuotientReaches(blocked * 100, micros, 10);
    QuotientReaches(blocked * 100, micros, 3);
  }

  /** The target is the largest that does not exceed the limit, or the floor. */
  ghost predicate LargestTarget(target: u64, limit: u64, configured: u64) {
    && IsTarget(target, configured) && target <= Max(limit, FLOOR)
    && forall other: u64 :: IsTarget(other, configured) && other <= Max(limit, FLOOR) ==> other <= target
  }

  lemma QuantizedIsLargest(candidate: u64, configured: u64)
    requires FLOOR <= configured
    ensures LargestTarget(QuantizeTarget(candidate, configured), candidate, configured)
  {
    QuantizedIsTarget(candidate, configured);
    forall other: u64 | IsTarget(other, configured) && other <= Max(candidate, FLOOR)
      ensures other <= QuantizeTarget(candidate, configured)
    {
      QuantizeIsMonotone(other, Max(candidate, FLOOR), configured);
      ValidTargetIsKept(other, configured);
      assert QuantizeTarget(Max(candidate, FLOOR), configured) == QuantizeTarget(candidate, configured);
    }
  }

  /** The next target, from the sends of a window and the time it took. Under a quarter of a second of
      audio backlog the window is congested if a tenth of it was spent in the transport and it did not
      deliver 90% of the target: then the next target is the largest within seven eighths of what the
      link carried. With less than three hundredths spent there it is the largest within an eighth of
      the configured rate above the current one. Otherwise the target is kept. */
  ghost predicate Decides(sends: seq<Send>, audioBacklog: u64, elapsed: Duration, target: u64, configured: u64,
                          next: u64)
  {
    var micros := Max(elapsed / 1000, 1);
    var blocked := Min(Sum(TransportOf, sends), 18_446_744_073_709_551_615_999_999_999) / 1000;
    var carried := Min(Min(Sum(BytesOf, sends), U64_MAX) * 8_000_000 / micros, U64_MAX);
    var delivers := Min(carried * 100, U64_MAX) >= Min(target * 90, U64_MAX);
    if audioBacklog >= 250_000 || (blocked * 10 >= micros && !delivers) then
      LargestTarget(next, Min((if carried > 0 then Min(target, carried) else target) * 7, U64_MAX) / 8, configured)
    else if blocked * 100 < 3 * micros then
      LargestTarget(next, Min(target + configured / 8, U64_MAX), configured)
    else next == target
  }

  /** The control law meets that. */
  lemma DecisionIsExact(sends: seq<Send>, audioBacklog: u64, elapsed: Duration, target: u64, configured: u64)
    requires IsTarget(target, configured)
    ensures Decides(sends, audioBacklog, elapsed, target, configured,
                    NextTarget(target, configured, WindowOf(sends, audioBacklog, elapsed)))
  {
    var window := WindowOf(sends, audioBacklog, elapsed);
    ShareIsDecidedByTheTotal(sends, audioBacklog, elapsed);
    if window.Congested(target) {
      var reference := if window.achieved > 0 then Min(target, window.achieved) else target;
      QuantizedIsLargest(SaturatingMul(reference, 7) / 8, configured);
    } else if window.Uncongested() {
      QuantizedIsLargest(SaturatingAdd(target, configured / 8), configured);
    } else {
      ValidTargetIsKept(target, configured);
    }
  }

  lemma LawIsMet(sends: seq<Send>, audioBacklog: u64, elapsed: Duration, target: u64, configured: u64, next: u64)
    requires IsTarget(target, configured)
    requires next == NextTarget(target, configured, WindowOf(sends, audioBacklog, elapsed))
    ensures Decides(sends, audioBacklog, elapsed, target, configured, next) && IsTarget(next, configured)
    ensures next == Target(target, configured, Then(Empty, WindowOf(sends, audioBacklog, elapsed)))
  {
    DecisionIsExact(sends, audioBacklog, elapsed, target, configured);
    NextIsTarget(target, configured, WindowOf(sends, audioBacklog, elapsed));
  }

  lemma OneSend(send: Send)
    ensures Sum(BytesOf, [send]) == send.bytes && Sum(TransportOf, [send]) == send.pressure.transport
  {
    assert [send][..0] == [];
    assert Sum(BytesOf, []) == 0 && Sum(TransportOf, []) == 0;
  }

  /** Half the window inside transport writes, a fifth of the target delivered: the target goes down to
      the largest within seven eighths of what got through. */
  lemma HalfBlockedLowers()
    ensures NextTarget(4_000_000, 4_000_000, WindowOf([HALF_BLOCKED], 0, 1_000_000_000)) == 500_000
  {
    OneSend(HALF_BLOCKED);
    assert WindowOf([HALF_BLOCKED], 0, 1_000_000_000) == Window(800_000, 50, 0);
  }

  const HALF_BLOCKED := Send(100_000, Pressure(0, 0, 500_000_000, 1))

  class VideoRateControl {
    const configured: u64
    var target: u64
    var bytes: u64
    var pressure: Pressure
    var audioBacklog: u64
    var adjustments: u64
    /** The sends of the open window. */
    ghost var sends: seq<Send>

    ghost predicate Valid()
      reads this
    {
      && FLOOR <= configured && IsTarget(target, configured)
      && bytes == TotalBytes(sends) && pressure == TotalPressure(sends)
    }

    constructor (configuredBitsPerSecond: u64)
      ensures Valid() && configured == Max(configuredBitsPerSecond, FLOOR) && target == configured
      ensures sends == [] && audioBacklog == 0 && adjustments == 0
    {
      configured := Max(configuredBitsPerSecond, FLOOR);
      target := Max(configuredBitsPerSecond, FLOOR);
      bytes, pressure, audioBacklog, adjustments := 0, NO_PRESSURE, 0, 0;
      sends := [];
    }

    /** The send joins the open window, whose totals stay exact up to saturation. */
    method ObserveSend(sent: u64, more: Pressure)
      requires Valid()
      modifies this`bytes, this`pressure, this`sends
      ensures Valid() && sends == old(sends) + [Send(sent, more)]
    {
      TotalsAccumulate(sends, Send(sent, more));
      bytes := SaturatingAdd(bytes, sent);
      pressure := Accumulate(pressure, more);
      sends := sends + [Send(sent, more)];
    }

    method ObserveAudioBacklog(queued: u64)
      modifies this`audioBacklog
      ensures audioBacklog == Max(old(audioBacklog), queued)
    {
      audioBacklog := Max(audioBacklog, queued);
    }

    /** Close the window once it is due: the target moves by the control law on what the sends of
        the window add up to, and the caller hears about it exactly when it changed. */
    method Poll(elapsed: Duration) returns (changed: bool, next: u64)
      requires Valid()
      modifies this
      ensures Valid()
      ensures elapsed < 1_000_000_000 ==> !changed && unchanged(this)
      ensures elapsed >= 1_000_000_000 ==>
                && (var window := WindowOf(old(sends), old(audioBacklog), elapsed);
                    target == Target(old(target), configured, Then(Empty, window)))
                && Decides(old(sends), old(audioBacklog), elapsed, old(target), configured, target)
                && sends == [] && audioBacklog == 0
      ensures next == target && (changed <==> target != old(target))
      ensures adjustments == if changed then SaturatingAdd(old(adjustments), 1) else old(adjustments)
    {
      if elapsed < RATE_WINDOW {
        return false, target;
      }
      var current := target;
      var achieved, blocked := AchievedBitsPerSecond(bytes, elapsed), BlockedPercent(pressure.transport, elapsed);
      next := NextTarget(current, configured, Window(achieved, blocked, audioBacklog));
      LawIsMet(sends, audioBacklog, elapsed, current, configured, next);
      bytes, pressure, audioBacklog := 0, NO_PRESSURE, 0;
      sends := [];
      changed := next != current;
      if changed {
        adjustments := SaturatingAdd(adjustments, 1);
        target := next;
      }
    }
  }
}
