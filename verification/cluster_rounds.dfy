/**
  The round in Redis and the round in Mongo over whole runs of a cluster: what the calls of
  several nodes write there, in which order, and when it ever falls.
 */
module ClusterRounds {
  import opened Options
  import opened Rounds
  import opened Cluster

  /** What a call does to others: it sets the key, it queues a save; and the save arrives. */
  datatype Event = WritesKey | QueuesSave | SaveArrives

  /** The moment that was given to the call behind the event, if the action is one. */
  function MomentOf(c: Cluster, a: Action, e: Event): Option<int> {
    match e
    case WritesKey =>
      if a.Proceed? && a.id in c.calls && c.calls[a.id].pc.SetKey? then Some(c.calls[a.id].now) else None
    case QueuesSave =>
      if a.Proceed? && a.id in c.calls && c.calls[a.id].pc.Save? then Some(c.calls[a.id].now) else None
    case SaveArrives =>
      if a.Deliver? && a.index < |c.queue| then Some(c.queue[a.index].now) else None
  }

  /** These moments over a run, in the order of the events. */
  function Moments(act: Activity, c: Cluster, actions: seq<Action>, e: Event): seq<int>
    decreases |actions|
  {
    if actions == [] then []
    else
      var later := Moments(act, Apply(act, c, actions[0]), actions[1..], e);
      match MomentOf(c, actions[0], e)
      case None => later
      case Some(t) => [t] + later
  }

  /** The round that the event writes: in Redis for the key, else in Mongo. */
  function RoundIn(c: Cluster, e: Event): Option<int> {
    if e.WritesKey? then c.roundKey
    else if c.document.Some? then Some(c.document.value.round) else None
  }

  /** That round at every moment of a run. */
  function History(act: Activity, c: Cluster, actions: seq<Action>, e: Event): (h: seq<Option<int>>)
    ensures h != [] && h[0] == RoundIn(c, e)
    decreases |actions|
  {
    if actions == [] then [RoundIn(c, e)]
    else [RoundIn(c, e)] + History(act, Apply(act, c, actions[0]), actions[1..], e)
  }

  predicate AtLeast(x: Option<int>, y: Option<int>) {
    x.Some? ==> y.Some? && x.value <= y.value
  }

  /** Between no two moments does the round fall, or disappear. */
  predicate NeverDrops(h: seq<Option<int>>) {
    forall i, j | 0 <= i <= j < |h| :: AtLeast(h[i], h[j])
  }

  predicate Nondecreasing(rounds: seq<int>) {
    forall i, j | 0 <= i < j < |rounds| :: rounds[i] <= rounds[j]
  }

  function RoundsOf(act: Activity, moments: seq<int>): seq<int> {
    seq(|moments|, i requires 0 <= i < |moments| => act.RoundAt(moments[i]))
  }

  /** The rounds of these moments come in order. */
  predicate RoundsInOrder(act: Activity, moments: seq<int>) {
    Nondecreasing(RoundsOf(act, moments))
  }

  lemma NeverDropsStep(x: Option<int>, h: seq<Option<int>>)
    requires h != []
    ensures NeverDrops([x] + h) <==> AtLeast(x, h[0]) && NeverDrops(h)
  {
    var all := [x] + h;
    if NeverDrops(all) {
      assert all[0] == x && all[1] == h[0];
      forall i, j | 0 <= i <= j < |h| ensures AtLeast(h[i], h[j]) {
        assert AtLeast(all[i + 1], all[j + 1]);
      }
    }
    if AtLeast(x, h[0]) && NeverDrops(h) {
      forall i, j | 0 <= i <= j < |all| ensures AtLeast(all[i], all[j]) {
        assert j > 0 ==> AtLeast(h[0], h[j - 1]);
      }
    }
  }

  lemma NondecreasingStep(r: int, rounds: seq<int>)
    ensures Nondecreasing([r] + rounds) <==> (rounds == [] || r <= rounds[0]) && Nondecreasing(rounds)
  {
    var all := [r] + rounds;
    assert forall i | 0 <= i < |rounds| :: all[i + 1] == rounds[i];
    if Nondecreasing(all) {
      assert rounds != [] ==> all[0] <= all[1];
      forall i, j | 0 <= i < j < |rounds| ensures rounds[i] <= rounds[j] {
        assert all[i + 1] <= all[j + 1];
      }
    }
    if (rounds == [] || r <= rounds[0]) && Nondecreasing(rounds) {
      forall i, j | 0 <= i < j < |all| ensures all[i] <= all[j] {
        assert i == 0 && j > 1 ==> rounds[0] <= rounds[j - 1];
        assert i > 0 ==> rounds[i - 1] <= rounds[j - 1];
      }
    }
  }

  lemma RoundsInOrderStep(act: Activity, t: int, moments: seq<int>)
    ensures RoundsInOrder(act, [t] + moments)
       <==> (moments == [] || act.RoundAt(t) <= act.RoundAt(moments[0])) && RoundsInOrder(act, moments)
  {
    assert RoundsOf(act, [t] + moments) == [act.RoundAt(t)] + RoundsOf(act, moments);
    NondecreasingStep(act.RoundAt(t), RoundsOf(act, moments));
  }

  /** Only such an event changes the round, and it writes the round of its call's moment. */
  lemma EventWritesItsRound(act: Activity, c: Cluster, a: Action, e: Event)
    requires Agreement(act, c) && !e.QueuesSave?
    ensures RoundIn(Apply(act, c, a), e)
         == match MomentOf(c, a, e) case None => RoundIn(c, e) case Some(t) => Some(act.RoundAt(t))
  {
    if a.Deliver? && a.index < |c.queue| {
      assert SavesItsRound(act, c.clock, c.queue[a.index]);
    }
  }

  /** From a state with some round or none: the round so far and those written later rise. */
  lemma {:induction false} DropsIffOutOfOrder(act: Activity, c: Cluster, actions: seq<Action>, e: Event)
    requires Agreement(act, c) && !e.QueuesSave?
    ensures
      var moments := Moments(act, c, actions, e);
      NeverDrops(History(act, c, actions, e)) <==>
        && RoundsInOrder(act, moments)
        && (RoundIn(c, e).Some? && moments != [] ==> RoundIn(c, e).value <= act.RoundAt(moments[0]))
    decreases |actions|
  {
    if actions != [] {
      var c', rest := Apply(act, c, actions[0]), actions[1..];
      ActionKeepsAgreement(act, c, actions[0]);
      EventWritesItsRound(act, c, actions[0], e);
      DropsIffOutOfOrder(act, c', rest, e);
      NeverDropsStep(RoundIn(c, e), History(act, c', rest, e));
      if MomentOf(c, actions[0], e).Some? {
        RoundsInOrderStep(act, MomentOf(c, actions[0], e).value, Moments(act, c', rest, e));
      }
    }
  }

  /**
    Exactly when the round in Redis, and the one in Mongo, never decreases over a run: if and only
    if the key is set, or the saves arrive, in the order of the rounds of the moments that the
    calls behind them were given.
   */
  lemma RoundNeverDropsIff(act: Activity, clock: int, actions: seq<Action>, e: Event)
    requires act.Valid() && !e.QueuesSave?
    ensures NeverDrops(History(act, Start(clock), actions, e))
       <==> RoundsInOrder(act, Moments(act, Start(clock), actions, e))
  {
    DropsIffOutOfOrder(act, Start(clock), actions, e);
  }

  predicate InOrder(actions: seq<Action>) {
    forall a <- actions :: a.Deliver? ==> a.index == 0
  }

  function MomentsOf(queue: seq<Saved>): seq<int> {
    seq(|queue|, i requires 0 <= i < |queue| => queue[i].now)
  }

  /** Saves that arrive in order arrive as they were queued. */
  lemma {:induction false} ArrivalsFollowTheQueue(act: Activity, c: Cluster, actions: seq<Action>)
    requires InOrder(actions)
    ensures Moments(act, c, actions, SaveArrives) + MomentsOf(Run(act, c, actions).queue)
         == MomentsOf(c.queue) + Moments(act, c, actions, QueuesSave)
    decreases |actions|
  {
    if actions != [] {
      var c', rest := Apply(act, c, actions[0]), actions[1..];
      ArrivalsFollowTheQueue(act, c', rest);
      ArrivalStep(act, c, actions[0]);
      Regroup(MomentOf(c, actions[0], SaveArrives), MomentOf(c, actions[0], QueuesSave),
              MomentsOf(c.queue), MomentsOf(c'.queue), Moments(act, c', rest, SaveArrives),
              Moments(act, c', rest, QueuesSave), MomentsOf(Run(act, c', rest).queue));
    }
  }

  function Before(t: Option<int>, moments: seq<int>): seq<int> {
    match t case None => moments case Some(v) => [v] + moments
  }

  lemma Regroup(arrives: Option<int>, queues: Option<int>, before: seq<int>, after: seq<int>,
                arrived: seq<int>, queued: seq<int>, left: seq<int>)
    requires arrived + left == after + queued
    requires Before(arrives, after) == if queues.Some? then before + [queues.value] else before
    ensures Before(arrives, arrived) + left == before + Before(queues, queued)
  {
    match arrives
    case Some(t) =>
      assert [t] + (arrived + left) == ([t] + arrived) + left;
      assert [t] + (after + queued) == ([t] + after) + queued;
      Append(before, queues, queued);
    case None =>
      Append(before, queues, queued);
  }

  lemma Append(before: seq<int>, queues: Option<int>, queued: seq<int>)
    ensures before + Before(queues, queued) == (if queues.Some? then before + [queues.value] else before) + queued
  {
    if queues.Some? {
      assert before + ([queues.value] + queued) == (before + [queues.value]) + queued;
    }
  }

  lemma ArrivalStep(act: Activity, c: Cluster, a: Action)
    requires a.Deliver? ==> a.index == 0
    ensures Before(MomentOf(c, a, SaveArrives), MomentsOf(Apply(act, c, a).queue))
         == MomentsOf(c.queue) + match MomentOf(c, a, QueuesSave) case None => [] case Some(t) => [t]
  {
    var q := c.queue;
    if a.Deliver? && a.index < |q| {
      assert Apply(act, c, a).queue == q[1..];
      assert MomentsOf(q) == [q[0].now] + MomentsOf(q[1..]);
    } else if a.Proceed? && a.id in c.calls && c.calls[a.id].pc.Save? {
      var call := c.calls[a.id];
      assert MomentsOf(q + [Saved(call.to, call.now)]) == MomentsOf(q) + [call.now];
    } else {
      assert Apply(act, c, a).queue == q;
    }
  }

  /**
    If saves arrive in the order in which they were queued, and all do, Mongo's round never
    decreases if and only if the calls queue them in the order of their rounds.
   */
  lemma MongoInOrderNeverDropsIff(act: Activity, clock: int, actions: seq<Action>)
    requires act.Valid() && InOrder(actions) && Run(act, Start(clock), actions).queue == []
    ensures NeverDrops(History(act, Start(clock), actions, SaveArrives))
       <==> RoundsInOrder(act, Moments(act, Start(clock), actions, QueuesSave))
  {
    ArrivalsFollowTheQueue(act, Start(clock), actions);
    var arrived := Moments(act, Start(clock), actions, SaveArrives);
    var queued := Moments(act, Start(clock), actions, QueuesSave);
    assert arrived + [] == arrived && [] + queued == queued;
    RoundNeverDropsIff(act, clock, actions, SaveArrives);
  }

  // ---------------------------------------------------------------- calls that do not overlap

  /** A call begins only when no other is under way, and with the present moment. */
  predicate OneAtATime(act: Activity, c: Cluster, actions: seq<Action>)
    decreases |actions|
  {
    actions != [] ==>
      && (actions[0].BeginRegister? || actions[0].BeginTick? ==> c.calls == map[])
      && (actions[0].BeginTick? ==> actions[0].lag == 0)
      && OneAtATime(act, Apply(act, c, actions[0]), actions[1..])
  }

  ghost predicate AloneSince(c: Cluster, floor: int) {
    && floor <= c.clock
    && (forall i <- c.calls, j <- c.calls :: i == j)
    && (forall i <- c.calls :: floor <= c.calls[i].now <= c.clock)
  }

  /** The moments rise from a floor. */
  predicate RiseFrom(floor: int, moments: seq<int>)
    decreases |moments|
  {
    moments != [] ==> floor <= moments[0] && RiseFrom(moments[0], moments[1..])
  }

  lemma StaysAlone(act: Activity, c: Cluster, a: Action, e: Event, floor: int)
    requires AloneSince(c, floor) && !e.SaveArrives?
    requires a.BeginRegister? || a.BeginTick? ==> c.calls == map[]
    requires a.BeginTick? ==> a.lag == 0
    ensures
      var moment := MomentOf(c, a, e);
      AloneSince(Apply(act, c, a), if moment.Some? then moment.value else floor)
    ensures MomentOf(c, a, e).Some? ==> floor <= MomentOf(c, a, e).value
  {
  }

  lemma {:induction false} MomentsRise(act: Activity, c: Cluster, actions: seq<Action>, e: Event, floor: int)
    requires AloneSince(c, floor) && OneAtATime(act, c, actions) && !e.SaveArrives?
    ensures RiseFrom(floor, Moments(act, c, actions, e))
    decreases |actions|
  {
    if actions != [] {
      var moment := MomentOf(c, actions[0], e);
      var c' := Apply(act, c, actions[0]);
      StaysAlone(act, c, actions[0], e, floor);
      MomentsRise(act, c', actions[1..], e, if moment.Some? then moment.value else floor);
      if moment.Some? {
        var later := Moments(act, c', actions[1..], e);
        assert ([moment.value] + later)[1..] == later;
      }
    }
  }

  lemma {:induction false} RisingMomentsAreInOrder(act: Activity, floor: int, moments: seq<int>)
    requires act.Valid() && RiseFrom(floor, moments)
    ensures RoundsInOrder(act, moments)
    decreases |moments|
  {
    if moments != [] {
      RisingMomentsAreInOrder(act, moments[0], moments[1..]);
      assert moments == [moments[0]] + moments[1..];
      RoundsInOrderStep(act, moments[0], moments[1..]);
      if |moments| > 1 {
        RoundAtIsMonotone(act.Blank(), moments[0], moments[1]);
      }
    }
  }

  /** As long as calls do not overlap, neither round decreases, however many nodes write it. */
  lemma SeparateCallsNeverLowerARound(act: Activity, clock: int, actions: seq<Action>)
    requires act.Valid() && OneAtATime(act, Start(clock), actions)
    ensures NeverDrops(History(act, Start(clock), actions, WritesKey))
    ensures InOrder(actions) && Run(act, Start(clock), actions).queue == [] ==>
              NeverDrops(History(act, Start(clock), actions, SaveArrives))
  {
    MomentsRise(act, Start(clock), actions, WritesKey, clock);
    RisingMomentsAreInOrder(act, clock, Moments(act, Start(clock), actions, WritesKey));
    RoundNeverDropsIff(act, clock, actions, WritesKey);
    MomentsRise(act, Start(clock), actions, QueuesSave, clock);
    RisingMomentsAreInOrder(act, clock, Moments(act, Start(clock), actions, QueuesSave));
    if InOrder(actions) && Run(act, Start(clock), actions).queue == [] {
      MongoInOrderNeverDropsIff(act, clock, actions);
    }
  }
}
