/**
  How a robot's score grows. A growth picks a target above the robot's score and, when the tier
  asks for it, hands the difference out in equal slices, one per interval.
 */
module Robots {
  import opened Arithmetic

  datatype Tier = Tier(
    tierID: int,
    num: int,                    // robots per group
    defaultTokenMin: int,
    defaultTokenMax: int,
    growTokenCdMs: int,
    growTokenMinBps: int,
    growTokenMaxBps: int,
    maxToken: int,
    maxDifferenceToken: int,
    lockTokenTimeMs: int,
    overtakeTimeMs: int,
    overtakeIntervalMs: int)
  {
    predicate Staged() {
      overtakeTimeMs > 0 && overtakeIntervalMs > 0
    }

    /** The number of slices a growth is cut into. */
    function Slices(): int
      requires Staged()
    {
      CeilDiv(overtakeTimeMs, overtakeIntervalMs)
    }
  }

  function CeilDiv(a: int, b: int): int
    requires b > 0
  {
    (a + b - 1) / b
  }

  datatype Robot = Robot(
    memberID: int,
    tierID: int,
    infoID: int,
    score: int,
    lastGrowAt: int,
    pendingScore: int,
    pendingStartAt: int,
    pendingPerSlice: int)
  {
    /** What the robot has and what it is still owed. */
    function Total(): int {
      score + pendingScore
    }
  }

  /** What one tick sees; `bps` is the random pick, used only when a target is drawn. */
  datatype TickInput = TickInput(firstScore: int, realFirstScore: int, now: int, gameEndTime: int, bps: int)

  /** The source's integer division truncates towards zero. */
  function TruncatedDiv(a: int, b: int): int
    requires b > 0
  {
    if a >= 0 then a / b else -(-a / b)
  }

  predicate PossiblePick(minBps: int, maxBps: int, bps: int) {
    minBps < maxBps ==> minBps <= bps <= maxBps
  }

  function GrowTarget(firstScore: int, minBps: int, maxBps: int, bps: int): int {
    TruncatedDiv(firstScore * (if firstScore <= 0 || minBps >= maxBps then minBps else bps), 10_000)
  }

  predicate Locked(tier: Tier, input: TickInput) {
    input.gameEndTime > 0 && input.gameEndTime - input.now <= tier.lockTokenTimeMs
  }

  /** The amount released at a moment and the number of slices it counts for. */
  function PendingRelease(robot: Robot, tier: Tier, now: int): (int, int) {
    if robot.pendingScore <= 0 || robot.pendingPerSlice <= 0 || tier.overtakeIntervalMs <= 0 then (0, 0)
    else if now - robot.pendingStartAt < tier.overtakeIntervalMs then (0, 0)
    else (if robot.pendingPerSlice > robot.pendingScore then robot.pendingScore else robot.pendingPerSlice, 1)
  }

  function NonNegative(x: int): int {
    if x < 0 then 0 else x
  }

  /** The target after both caps: the real leader plus the allowed lead, and the absolute one. */
  function CappedTarget(tier: Tier, input: TickInput): int {
    var target := GrowTarget(input.firstScore, tier.growTokenMinBps, tier.growTokenMaxBps, input.bps);
    var capped := if input.realFirstScore > 0 && target > input.realFirstScore + tier.maxDifferenceToken
                  then input.realFirstScore + tier.maxDifferenceToken else target;
    if capped > tier.maxToken then tier.maxToken else capped
  }

  /** One growth of `delta`, at once or sliced with the first slice released immediately. */
  function Grow(robot: Robot, tier: Tier, delta: int, now: int): Robot {
    if tier.Staged() then
      var n := if tier.Slices() <= 0 then 1 else tier.Slices();
      var perSlice := CeilDiv(delta, n);
      robot.(lastGrowAt := now,
             score := robot.score + perSlice,
             pendingScore := NonNegative(delta - perSlice),
             pendingStartAt := now,
             pendingPerSlice := perSlice)
    else
      robot.(lastGrowAt := now, score := robot.score + delta)
  }

  function TickRobot(robot: Robot, tier: Tier, input: TickInput): Robot {
    if Locked(tier, input) then
      robot
    else if tier.Staged() && robot.pendingScore > 0 then
      var (release, slices) := PendingRelease(robot, tier, input.now);
      if release > 0 then
        robot.(score := robot.score + release,
               pendingScore := NonNegative(robot.pendingScore - release),
               pendingStartAt := robot.pendingStartAt + slices * tier.overtakeIntervalMs)
      else robot
    else if input.now - robot.lastGrowAt < tier.growTokenCdMs then
      robot
    else if CappedTarget(tier, input) <= robot.score then
      robot.(lastGrowAt := input.now)
    else
      Grow(robot, tier, CappedTarget(tier, input) - robot.score, input.now)
  }

  function Run(robot: Robot, tier: Tier, inputs: seq<TickInput>): Robot
    decreases |inputs|
  {
    if inputs == [] then robot else Run(TickRobot(robot, tier, inputs[0]), tier, inputs[1..])
  }

  /** The state the server keeps per robot and updates in place. */
  class RobotState {
    const memberID: int
    const tierID: int
    const infoID: int
    var score: int
    var lastGrowAt: int
    var pendingScore: int
    var pendingStartAt: int
    var pendingPerSlice: int

    constructor (memberID: int, tierID: int, infoID: int, score: int, now: int)
      ensures Value() == Robot(memberID, tierID, infoID, score, now, 0, 0, 0)
    {
      this.memberID, this.tierID, this.infoID := memberID, tierID, infoID;
      this.score, lastGrowAt := score, now;
      pendingScore, pendingStartAt, pendingPerSlice := 0, 0, 0;
    }

    function Value(): Robot
      reads this
    {
      Robot(memberID, tierID, infoID, score, lastGrowAt, pendingScore, pendingStartAt, pendingPerSlice)
    }

    method TickRobotScore(tier: Tier, firstScore: int, realFirstScore: int, now: int, gameEndTime: int)
      returns (newScore: int, ghost bps: int)
      modifies this
      ensures PossiblePick(tier.growTokenMinBps, tier.growTokenMaxBps, bps)
      ensures Value() == TickRobot(old(Value()), tier, TickInput(firstScore, realFirstScore, now, gameEndTime, bps))
      ensures newScore == score
    {
      newScore := score;
      bps := tier.growTokenMinBps;
      if gameEndTime > 0 && gameEndTime - now <= tier.lockTokenTimeMs {
        return;
      }
      if tier.overtakeTimeMs > 0 && tier.overtakeIntervalMs > 0 && pendingScore > 0 {
        var (release, slices) := PendingRelease(Value(), tier, now);
        if release > 0 {
          score := score + release;
          pendingScore := NonNegative(pendingScore - release);
          pendingStartAt := pendingStartAt + slices * tier.overtakeIntervalMs;
        }
        newScore := score;
        return;
      }
      if now - lastGrowAt < tier.growTokenCdMs {
        return;
      }
      var target;
      target, bps := CalcGrowTarget(firstScore, tier.growTokenMinBps, tier.growTokenMaxBps);
      if target <= score {
        CapsOnlyLower(tier, TickInput(firstScore, realFirstScore, now, gameEndTime, bps));
        lastGrowAt := now;
        return;
      }
      if realFirstScore > 0 && target > realFirstScore + tier.maxDifferenceToken {
        target := realFirstScore + tier.maxDifferenceToken;
      }
      if target > tier.maxToken {
        target := tier.maxToken;
      }
      lastGrowAt := now;
      if target <= score {
        return;
      }
      GrowBy(tier, target - score, now);
      newScore := score;
    }

    method GrowBy(tier: Tier, delta: int, now: int)
      modifies this`lastGrowAt, this`score, this`pendingScore, this`pendingStartAt, this`pendingPerSlice
      ensures Value() == Grow(old(Value()), tier, delta, now)
    {
      lastGrowAt := now;
      if tier.overtakeTimeMs > 0 && tier.overtakeIntervalMs > 0 {
        var n := CeilDiv(tier.overtakeTimeMs, tier.overtakeIntervalMs);
        if n <= 0 {
          n := 1;
        }
        pendingPerSlice := CeilDiv(delta, n);
        pendingScore := NonNegative(delta - pendingPerSlice);
        pendingStartAt := now;
        score := score + pendingPerSlice;
      } else {
        score := score + delta;
      }
    }

    static method CalcGrowTarget(firstScore: int, minBps: int, maxBps: int) returns (target: int, ghost bps: int)
      ensures PossiblePick(minBps, maxBps, bps)
      ensures target == GrowTarget(firstScore, minBps, maxBps, bps)
    {
      if firstScore <= 0 || minBps >= maxBps {
        bps := minBps;
        return TruncatedDiv(firstScore * minBps, 10_000), bps;
      }
      var r :| minBps <= r <= maxBps;
      return TruncatedDiv(firstScore * r, 10_000), r;
    }
  }

  lemma CapsOnlyLower(tier: Tier, input: TickInput)
    ensures CappedTarget(tier, input)
         <= GrowTarget(input.firstScore, tier.growTokenMinBps, tier.growTokenMaxBps, input.bps)
  {
  }

  // ---------------------------------------------------------------- conservation and caps

  /** Nothing negative is owed, and what is owed has a positive slice to be paid in. */
  predicate Healthy(robot: Robot, tier: Tier) {
    && robot.pendingScore >= 0
    && (robot.pendingScore > 0 ==> tier.Staged() && robot.pendingPerSlice > 0)
  }

  lemma SlicesArePositive(tier: Tier)
    requires tier.Staged()
    ensures tier.Slices() >= 1
    ensures (tier.Slices() - 1) * tier.overtakeIntervalMs < tier.overtakeTimeMs
         <= tier.Slices() * tier.overtakeIntervalMs
  {
    var i, x := tier.overtakeIntervalMs, tier.overtakeTimeMs + tier.overtakeIntervalMs - 1;
    var n := tier.Slices();
    AtMostQuotient(x, i, 1);
    AtMostQuotient(x, i, n);
    AtMostQuotient(x, i, n + 1);
    assert (n - 1) * i == n * i - i && (n + 1) * i == n * i + i;
  }

  /** A slice is positive and at most the whole, and n slices make up the whole. */
  lemma SliceCoversDelta(delta: int, n: int)
    requires delta > 0 && n >= 1
    ensures
      var p := CeilDiv(delta, n);
      1 <= p <= delta && p * n >= delta
  {
    var x, p := delta + n - 1, CeilDiv(delta, n);
    AtMostQuotient(x, n, 1);
    AtMostQuotient(x, n, delta + 1);
    AtMostQuotient(x, n, p + 1);
    MulMonotone(1, n, delta);
    assert (delta + 1) * n == delta * n + n && (p + 1) * n == p * n + n;
  }

  /**
    One tick. The score does not fall and nothing is lost: the total stays as it is, except for
    a growth, which raises it to a target within both caps.
   */
  lemma TickConserves(robot: Robot, tier: Tier, input: TickInput)
    requires Healthy(robot, tier)
    ensures
      var r := TickRobot(robot, tier, input);
      && Healthy(r, tier)
      && r.score >= robot.score
      && (robot.pendingScore > 0 ==> r.Total() == robot.Total())
      && (r.Total() == robot.Total()
          || (&& r.Total() == CappedTarget(tier, input)
              && robot.Total() < r.Total() <= tier.maxToken
              && (input.realFirstScore > 0 ==> r.Total() <= input.realFirstScore + tier.maxDifferenceToken)))
  {
    if !Locked(tier, input) && robot.pendingScore == 0 && tier.Staged() && robot.score < CappedTarget(tier, input) {
      SlicesArePositive(tier);
      SliceCoversDelta(CappedTarget(tier, input) - robot.score, tier.Slices());
    }
  }

  /**
    Over any run of ticks with one tier: the score never falls, what is owed is never negative,
    and what a robot has and is owed never exceeds MaxToken if it did not at its spawn.
   */
  lemma {:induction false} RunsConserveAndCap(robot: Robot, tier: Tier, inputs: seq<TickInput>)
    requires Healthy(robot, tier)
    ensures
      var r := Run(robot, tier, inputs);
      && Healthy(r, tier)
      && r.score >= robot.score
      && r.Total() >= robot.Total()
      && (robot.Total() <= tier.maxToken ==> r.Total() <= tier.maxToken)
    decreases |inputs|
  {
    if inputs != [] {
      TickConserves(robot, tier, inputs[0]);
      RunsConserveAndCap(TickRobot(robot, tier, inputs[0]), tier, inputs[1..]);
    }
  }

  /**
    While there is a real leader whose score never falls, no robot leads it by more than the
    tier allows, unless it already did at the start.
   */
  lemma {:induction false} RobotsStayNearTheLeader(robot: Robot, tier: Tier, inputs: seq<TickInput>)
    requires Healthy(robot, tier) && inputs != []
    requires forall input <- inputs :: input.realFirstScore > 0
    requires forall i, j | 0 <= i < j < |inputs| :: inputs[i].realFirstScore <= inputs[j].realFirstScore
    ensures
      var bound := inputs[|inputs| - 1].realFirstScore + tier.maxDifferenceToken;
      var total := Run(robot, tier, inputs).Total();
      total <= robot.Total() || total <= bound
    decreases |inputs|
  {
    var next, rest := TickRobot(robot, tier, inputs[0]), inputs[1..];
    TickConserves(robot, tier, inputs[0]);
    if rest == [] {
      assert Run(next, tier, rest) == next;
    } else {
      RobotsStayNearTheLeader(next, tier, rest);
    }
  }

  // ---------------------------------------------------------------- the staged release

  /** A growth of `delta` from score `base` at time `start`. */
  datatype Growth = Growth(base: int, delta: int, start: int)

  function PerSlice(tier: Tier, g: Growth): int
    requires tier.Staged() && tier.Slices() >= 1
  {
    CeilDiv(g.delta, tier.Slices())
  }

  /** The score the growth should have reached at time t: one slice at once, one per interval. */
  function Formula(tier: Tier, g: Growth, t: int): int
    requires tier.Staged() && tier.Slices() >= 1
  {
    g.base + Min(PerSlice(tier, g) * DueSlices(tier, g, t), g.delta)
  }

  /** The robot has released k slices of the growth. */
  ghost predicate Releasing(robot: Robot, tier: Tier, g: Growth, k: int) {
    && tier.Staged() && tier.Slices() >= 1
    && g.delta > 0 && k >= 1
    && robot.pendingPerSlice == PerSlice(tier, g)
    && robot.score == g.base + Min(PerSlice(tier, g) * k, g.delta)
    && robot.pendingScore == g.delta - Min(PerSlice(tier, g) * k, g.delta)
    && robot.pendingStartAt == g.start + (k - 1) * tier.overtakeIntervalMs
  }

  /** A tick that raises the score of a robot that is owed nothing starts such a growth. */
  lemma GrowthReleasesTheFirstSlice(robot: Robot, tier: Tier, input: TickInput)
    requires tier.Staged() && Healthy(robot, tier) && robot.pendingScore == 0
    requires TickRobot(robot, tier, input).score > robot.score
    ensures
      var r := TickRobot(robot, tier, input);
      && tier.Slices() >= 1
      && Releasing(r, tier, Growth(robot.score, r.Total() - robot.score, input.now), 1)
  {
    SlicesArePositive(tier);
    SliceCoversDelta(CappedTarget(tier, input) - robot.score, tier.Slices());
  }

  /** While something is owed, a tick outside the lock window releases one due slice, or nothing. */
  lemma PendingTickReleasesDueSlice(robot: Robot, tier: Tier, g: Growth, k: int, input: TickInput)
    requires Releasing(robot, tier, g, k) && robot.pendingScore > 0
    ensures
      var due := !Locked(tier, input) && input.now >= g.start + k * tier.overtakeIntervalMs;
      Releasing(TickRobot(robot, tier, input), tier, g, if due then k + 1 else k)
  {
    var p := PerSlice(tier, g);
    SliceCoversDelta(g.delta, tier.Slices());
    assert p * (k + 1) == p * k + p;
    assert g.start + (k - 1) * tier.overtakeIntervalMs + tier.overtakeIntervalMs
        == g.start + k * tier.overtakeIntervalMs;
  }

  /** No further growth: a tick that finds nothing owed leaves the score as it is. */
  predicate UntilNextGrowth(robot: Robot, tier: Tier, inputs: seq<TickInput>)
    decreases |inputs|
  {
    inputs != [] ==>
      var next := TickRobot(robot, tier, inputs[0]);
      (robot.pendingScore == 0 ==> next.score == robot.score) && UntilNextGrowth(next, tier, inputs[1..])
  }

  /** The ticks follow `start` and one another in time. */
  predicate InTimeOrder(start: int, inputs: seq<TickInput>)
    decreases |inputs|
  {
    inputs != [] ==> start <= inputs[0].now && InTimeOrder(inputs[0].now, inputs[1..])
  }

  /** While something is owed, the tick is not locked, nor more than one interval after the last. */
  predicate TimelyAt(robot: Robot, tier: Tier, last: int, input: TickInput) {
    robot.pendingScore > 0 ==> !Locked(tier, input) && input.now <= last + tier.overtakeIntervalMs
  }

  predicate Timely(robot: Robot, tier: Tier, last: int, inputs: seq<TickInput>)
    decreases |inputs|
  {
    inputs != [] ==>
      && last <= inputs[0].now && TimelyAt(robot, tier, last, inputs[0])
      && Timely(TickRobot(robot, tier, inputs[0]), tier, inputs[0].now, inputs[1..])
  }

  function LastTime(start: int, inputs: seq<TickInput>): int {
    if inputs == [] then start else inputs[|inputs| - 1].now
  }

  /** Intervals elapsed at `now`, given k - 1 at the tick before it, at most one interval ago. */
  lemma NextInterval(start: int, last: int, now: int, gap: int)
    requires gap > 0 && start <= last <= now <= last + gap
    ensures
      var k := 1 + (last - start) / gap;
      1 + (now - start) / gap == if now >= start + k * gap then k + 1 else k
  {
    var a, b := last - start, now - start;
    var k := 1 + a / gap;
    AtMostQuotient(a, gap, k - 1);
    AtMostQuotient(a, gap, k);
    AtMostQuotient(b, gap, k - 1);
    AtMostQuotient(b, gap, k);
    AtMostQuotient(b, gap, k + 1);
    assert (k + 1) * gap == k * gap + gap;
  }

  /** One slice at once and one per interval: how many the formula expects at time t. */
  function DueSlices(tier: Tier, g: Growth, t: int): int
    requires tier.Staged()
  {
    1 + (t - g.start) / tier.overtakeIntervalMs
  }

  /** One more timely tick keeps the number of released slices equal to the number due. */
  lemma TimelyTick(robot: Robot, tier: Tier, g: Growth, last: int, input: TickInput)
    requires tier.Staged() && Releasing(robot, tier, g, DueSlices(tier, g, last)) && robot.pendingScore > 0
    requires !Locked(tier, input)
    requires g.start <= last <= input.now <= last + tier.overtakeIntervalMs
    ensures Releasing(TickRobot(robot, tier, input), tier, g, DueSlices(tier, g, input.now))
  {
    NextInterval(g.start, last, input.now, tier.overtakeIntervalMs);
    PendingTickReleasesDueSlice(robot, tier, g, DueSlices(tier, g, last), input);
  }

  /** A tick that finds nothing owed and starts no growth leaves the release as it is. */
  lemma IdleTick(robot: Robot, tier: Tier, g: Growth, k: int, input: TickInput)
    requires Releasing(robot, tier, g, k) && robot.pendingScore == 0
    requires TickRobot(robot, tier, input).score == robot.score
    ensures Releasing(TickRobot(robot, tier, input), tier, g, k)
  {
    if CappedTarget(tier, input) > robot.score {
      SliceCoversDelta(CappedTarget(tier, input) - robot.score, tier.Slices());
    }
  }

  /** Every slice due is released, or nothing is owed. */
  predicate InStep(robot: Robot, tier: Tier, g: Growth, k: int, t: int)
    requires tier.Staged()
  {
    k == DueSlices(tier, g, t) || robot.pendingScore == 0
  }

  /**
    Any tick before the next growth, locked or not, releases no slice before it is due; and a
    timely one stays in step with the clock.
   */
  lemma AnyTick(robot: Robot, tier: Tier, g: Growth, k: int, last: int, input: TickInput) returns (k': int)
    requires tier.Staged() && Releasing(robot, tier, g, k)
    requires robot.pendingScore == 0 ==> TickRobot(robot, tier, input).score == robot.score
    requires g.start <= last <= input.now && k <= DueSlices(tier, g, last)
    ensures Releasing(TickRobot(robot, tier, input), tier, g, k') && k' <= DueSlices(tier, g, input.now)
    ensures InStep(robot, tier, g, k, last) && TimelyAt(robot, tier, last, input) ==>
              InStep(TickRobot(robot, tier, input), tier, g, k', input.now)
  {
    var gap := tier.overtakeIntervalMs;
    AtMostQuotient(last - g.start, gap, k - 1);
    AtMostQuotient(input.now - g.start, gap, k - 1);
    AtMostQuotient(input.now - g.start, gap, k);
    if robot.pendingScore == 0 {
      IdleTick(robot, tier, g, k, input);
      k' := k;
    } else {
      PendingTickReleasesDueSlice(robot, tier, g, k, input);
      k' := if !Locked(tier, input) && input.now >= g.start + k * gap then k + 1 else k;
      if k == DueSlices(tier, g, last) && TimelyAt(robot, tier, last, input) {
        NextInterval(g.start, last, input.now, gap);
      }
    }
  }

  lemma {:induction false} SlicesFollowTheClock(robot: Robot, tier: Tier, g: Growth, k: int, last: int,
                                                inputs: seq<TickInput>)
    returns (k': int)
    requires tier.Staged() && Releasing(robot, tier, g, k)
    requires g.start <= last && k <= DueSlices(tier, g, last)
    requires UntilNextGrowth(robot, tier, inputs) && InTimeOrder(last, inputs)
    ensures Releasing(Run(robot, tier, inputs), tier, g, k') && k' <= DueSlices(tier, g, LastTime(last, inputs))
    ensures InStep(robot, tier, g, k, last) && Timely(robot, tier, last, inputs) ==>
              InStep(Run(robot, tier, inputs), tier, g, k', LastTime(last, inputs))
    decreases |inputs|
  {
    k' := k;
    if inputs != [] {
      var next, rest := TickRobot(robot, tier, inputs[0]), inputs[1..];
      k' := AnyTick(robot, tier, g, k, last, inputs[0]);
      k' := SlicesFollowTheClock(next, tier, g, k', inputs[0].now, rest);
      assert LastTime(last, inputs) == LastTime(inputs[0].now, rest);
    }
  }

  /**
    The staged release refines a formula. After a growth and until the next one, with ticks that
    are outside the lock window and at most one interval apart while something is owed, the score
    at each tick is that of the formula.
   */
  lemma ReleaseFollowsTheFormula(robot: Robot, tier: Tier, g: Growth, inputs: seq<TickInput>)
    requires tier.Staged() && Releasing(robot, tier, g, 1)
    requires UntilNextGrowth(robot, tier, inputs) && InTimeOrder(g.start, inputs)
    requires Timely(robot, tier, g.start, inputs)
    ensures
      var r := Run(robot, tier, inputs);
      && r.score == Formula(tier, g, LastTime(g.start, inputs))
      && r.Total() == g.base + g.delta
  {
    var k := SlicesFollowTheClock(robot, tier, g, 1, g.start, inputs);
    SliceCoversDelta(g.delta, tier.Slices());
    MulMonotone(k, DueSlices(tier, g, LastTime(g.start, inputs)), PerSlice(tier, g));
  }

  /** However the ticks are spaced, and locked or not, the release never runs ahead of the formula. */
  lemma ReleaseNeverExceedsTheFormula(robot: Robot, tier: Tier, g: Growth, inputs: seq<TickInput>)
    requires tier.Staged() && Releasing(robot, tier, g, 1)
    requires UntilNextGrowth(robot, tier, inputs) && InTimeOrder(g.start, inputs)
    ensures Run(robot, tier, inputs).score <= Formula(tier, g, LastTime(g.start, inputs))
    ensures Run(robot, tier, inputs).Total() == g.base + g.delta
  {
    var k := SlicesFollowTheClock(robot, tier, g, 1, g.start, inputs);
    SliceCoversDelta(g.delta, tier.Slices());
    MulMonotone(k, DueSlices(tier, g, LastTime(g.start, inputs)), PerSlice(tier, g));
  }

  lemma AllSlicesByTheLastInterval(tier: Tier, g: Growth, t: int)
    requires tier.Staged() && tier.Slices() >= 1 && g.delta > 0
    requires t >= LastSliceAt(tier, g)
    ensures PerSlice(tier, g) * DueSlices(tier, g, t) >= g.delta
  {
    SliceCoversDelta(g.delta, tier.Slices());
    AtMostQuotient(t - g.start, tier.overtakeIntervalMs, tier.Slices() - 1);
    MulMonotone(tier.Slices(), DueSlices(tier, g, t), PerSlice(tier, g));
  }

  /** When the last of the growth's slices is due. */
  function LastSliceAt(tier: Tier, g: Growth): int
    requires tier.Staged()
  {
    g.start + (tier.Slices() - 1) * tier.overtakeIntervalMs
  }

  lemma OneSliceIsDueAtOnce(tier: Tier, g: Growth)
    requires tier.Staged()
    ensures DueSlices(tier, g, g.start) == 1
  {
    QuotientIsUnique(0, tier.overtakeIntervalMs, 0);
  }

  lemma LastSliceIsInTime(tier: Tier, g: Growth)
    requires tier.Staged()
    ensures LastSliceAt(tier, g) < g.start + tier.overtakeTimeMs
  {
    SlicesArePositive(tier);
  }

  /** After the first k ticks everything is released, and tick k is the first that the last slice may need. */
  ghost predicate ReleasedBy(robot: Robot, tier: Tier, g: Growth, last: int, inputs: seq<TickInput>, k: nat)
    requires tier.Staged() && k <= |inputs|
  {
    && Run(robot, tier, inputs[..k]).pendingScore == 0
    && Run(robot, tier, inputs[..k]).score == g.base + g.delta
    && (k > 0 ==> LastTime(last, inputs[..k - 1]) < LastSliceAt(tier, g))
  }

  lemma {:induction false} EverythingIsReleased(robot: Robot, tier: Tier, g: Growth, last: int, inputs: seq<TickInput>)
    returns (k: nat)
    requires tier.Staged() && Releasing(robot, tier, g, DueSlices(tier, g, last))
    requires g.start <= last && Timely(robot, tier, last, inputs)
    requires LastTime(last, inputs) >= LastSliceAt(tier, g)
    ensures k <= |inputs| && ReleasedBy(robot, tier, g, last, inputs, k)
    decreases |inputs|
  {
    k := 0;
    assert inputs[..0] == [];
    if last >= LastSliceAt(tier, g) {
      AllSlicesByTheLastInterval(tier, g, last);
    } else if robot.pendingScore > 0 {
      var next, rest := TickRobot(robot, tier, inputs[0]), inputs[1..];
      TimelyTick(robot, tier, g, last, inputs[0]);
      var j := EverythingIsReleased(next, tier, g, inputs[0].now, rest);
      k := j + 1;
      assert inputs[..k][1..] == rest[..j];
      if j > 0 {
        assert inputs[..k - 1][1..] == rest[..j - 1];
        assert LastTime(last, inputs[..k - 1]) == LastTime(inputs[0].now, rest[..j - 1]);
      }
    }
  }

  /**
    With such ticks everything is released by the first tick at which n - 1 intervals have passed,
    growths that need fewer slices and whatever follows the release included; and that moment is
    before the tier's time for the release is over.
   */
  lemma ReleaseEndsInTime(robot: Robot, tier: Tier, g: Growth, inputs: seq<TickInput>)
    requires tier.Staged() && Releasing(robot, tier, g, 1)
    requires Timely(robot, tier, g.start, inputs)
    requires LastTime(g.start, inputs) >= LastSliceAt(tier, g)
    ensures exists k | 0 <= k <= |inputs| :: ReleasedBy(robot, tier, g, g.start, inputs, k)
    ensures LastSliceAt(tier, g) < g.start + tier.overtakeTimeMs
  {
    OneSliceIsDueAtOnce(tier, g);
    var k := EverythingIsReleased(robot, tier, g, g.start, inputs);
    LastSliceIsInTime(tier, g);
  }

  /**
    The results for a growth as the code makes it: the tick that raises the score of a robot that
    was owed nothing, and any ticks after it until the next such tick.
   */
  lemma GrowthIsReleasedByTheFormula(robot: Robot, tier: Tier, growth: TickInput, inputs: seq<TickInput>)
    requires tier.Staged() && Healthy(robot, tier) && robot.pendingScore == 0
    requires TickRobot(robot, tier, growth).score > robot.score
    requires UntilNextGrowth(TickRobot(robot, tier, growth), tier, inputs) && InTimeOrder(growth.now, inputs)
    ensures tier.Slices() >= 1
    ensures
      var grown := TickRobot(robot, tier, growth);
      var r := Run(grown, tier, inputs);
      var g := Growth(robot.score, CappedTarget(tier, growth) - robot.score, growth.now);
      var t := LastTime(growth.now, inputs);
      && r.Total() == CappedTarget(tier, growth)
      && r.score <= Formula(tier, g, t)
      && (Timely(grown, tier, growth.now, inputs) ==>
            && r.score == Formula(tier, g, t)
            && (t >= LastSliceAt(tier, g) ==> r.score == CappedTarget(tier, growth)))
  {
    GrowthReleasesTheFirstSlice(robot, tier, growth);
    TickConserves(robot, tier, growth);
    var grown := TickRobot(robot, tier, growth);
    var g := Growth(robot.score, CappedTarget(tier, growth) - robot.score, growth.now);
    ReleaseNeverExceedsTheFormula(grown, tier, g, inputs);
    if Timely(grown, tier, growth.now, inputs) {
      ReleaseFollowsTheFormula(grown, tier, g, inputs);
      if LastTime(growth.now, inputs) >= LastSliceAt(tier, g) {
        AllSlicesByTheLastInterval(tier, g, LastTime(growth.now, inputs));
      }
    }
  }

  const EXAMPLE_TIER := Tier(1, 1, 0, 0, 0, 10_000, 10_000, 100, 0, 0, 4_000, 1_000)

  function ExampleTick(now: int): TickInput {
    TickInput(3, 0, now, 0, 10_000)
  }

  /** The example robot at a score, owed the rest of 3, with its next slice due a second after `since`. */
  function ExampleRobot(score: int, since: int): Robot {
    Robot(-1, 1, 1, score, 0, 3 - score, since, 1)
  }

  lemma ExampleTicks()
    ensures TickRobot(Robot(-1, 1, 1, 0, 0, 0, 0, 0), EXAMPLE_TIER, ExampleTick(0)) == ExampleRobot(1, 0)
    ensures TickRobot(ExampleRobot(1, 0), EXAMPLE_TIER, ExampleTick(1_000)) == ExampleRobot(2, 1_000)
    ensures TickRobot(ExampleRobot(2, 1_000), EXAMPLE_TIER, ExampleTick(2_000)) == ExampleRobot(3, 2_000)
    ensures TickRobot(ExampleRobot(3, 2_000), EXAMPLE_TIER, ExampleTick(3_000))
         == ExampleRobot(3, 2_000).(lastGrowAt := 3_000)
  {
    QuotientIsUnique(4_999, 1_000, 4);
  }

  /**
    A growth by 3 over four intervals of a second needs only three slices. The conditions of the
    results above hold; the ticks take the score to 2, 3 and 3, and the last finds nothing owed.
   */
  lemma StagedReleaseExample()
    ensures
      var ticks := [ExampleTick(1_000), ExampleTick(2_000), ExampleTick(3_000)];
      var grown := TickRobot(Robot(-1, 1, 1, 0, 0, 0, 0, 0), EXAMPLE_TIER, ExampleTick(0));
      && grown.score == 1
      && UntilNextGrowth(grown, EXAMPLE_TIER, ticks) && InTimeOrder(0, ticks) && Timely(grown, EXAMPLE_TIER, 0, ticks)
      && Run(grown, EXAMPLE_TIER, ticks[..1]).score == 2
      && Run(grown, EXAMPLE_TIER, ticks[..2]).score == 3
      && Run(grown, EXAMPLE_TIER, ticks).score == 3
  {
    ExampleTicks();
    var t1, t2, t3 := ExampleTick(1_000), ExampleTick(2_000), ExampleTick(3_000);
    var r1, r2, r3 := ExampleRobot(1, 0), ExampleRobot(2, 1_000), ExampleRobot(3, 2_000);
    var ticks := [t1, t2, t3];
    assert ticks[1..] == [t2, t3] && [t2, t3][1..] == [t3] && [t3][1..] == [];
    assert Run(r3, EXAMPLE_TIER, [t3]).score == 3 && Run(r2, EXAMPLE_TIER, [t2, t3]).score == 3;
    assert [t2][1..] == [] && Run(r2, EXAMPLE_TIER, [t2]) == r3;
    assert ticks[..1] == [t1] && ticks[..2] == [t1, t2];
    assert UntilNextGrowth(r3, EXAMPLE_TIER, [t3]) && UntilNextGrowth(r2, EXAMPLE_TIER, [t2, t3]);
    assert Timely(r3, EXAMPLE_TIER, 2_000, [t3]) && Timely(r2, EXAMPLE_TIER, 1_000, [t2, t3]);
    assert InTimeOrder(2_000, [t3]) && InTimeOrder(1_000, [t2, t3]);
  }
}
