/**
  Several nodes that run one activity with a fixed cycle. They share a Redis round key and a
  Mongo document; saves to Mongo travel through asynchronous queues and may arrive late and in
  any order. A tick and a registration decide first and write later, one write at a time, with
  remote calls in between: the calls of several nodes overlap, whatever became of their locks.
 */
module Cluster {
  import opened Arithmetic
  import opened Options
  import opened Rounds

  datatype Activity = Activity(cycleMinutes: int, totalOpen: int, totalClose: int) {
    predicate Valid() {
      0 <= totalOpen < totalClose && cycleMinutes > 0
    }

    /** The closed form: the round of a moment and the window of a round. */
    function Blank(): RoundState {
      RoundState(cycleMinutes, cycleMinutes, totalOpen, totalClose, 0, 0, 0)
    }

    function RoundAt(t: int): int {
      ComputeRoundAt(Blank(), t)
    }

    function WindowOf(round: int): Window {
      Grid(Blank(), round)
    }
  }

  /** The write a call performs next: its node's state, the round key in Redis, the save for Mongo. */
  datatype Pc = Serve | SetKey | Save

  /** A tick (from a state) or a registration (from nothing) that has decided on a state. */
  datatype Call = Call(node: int, from: Option<RoundState>, to: RoundState, now: int, pc: Pc)

  datatype Saved = Saved(state: RoundState, now: int)

  datatype Cluster = Cluster(
    nodes: map<int, RoundState>,
    calls: map<int, Call>,
    roundKey: Option<int>,           // Redis
    document: Option<RoundState>,    // Mongo
    queue: seq<Saved>,               // saves under way, oldest first
    clock: int)

  function Start(clock: int): Cluster {
    Cluster(map[], map[], None, None, [], clock)
  }

  datatype Action =
    | BeginRegister(id: int, node: int)
    | BeginTick(id: int, node: int, lag: nat)   // the tick's time was taken `lag` ago
    | Proceed(id: int)                          // the call performs its next write
    | Skip(id: int)                             // that write fails
    | Adopt(node: int)
    | Crash(node: int)
    | Deliver(index: nat)
    | Pass(ms: nat)

  /** The state is replaced only if the call's is still the one the node holds. */
  function ServeCall(c: Cluster, id: int): Cluster
    requires id in c.calls
  {
    var call := c.calls[id];
    var n := call.node;
    if call.from.None? && n in c.nodes then
      c.(calls := c.calls - {id})   // registered meanwhile
    else
      var current := if n in c.nodes then Some(c.nodes[n]) else None;
      c.(nodes := if current == call.from then c.nodes[n := call.to] else c.nodes,
         calls := c.calls[id := call.(pc := SetKey)])
  }

  function ProceedCall(c: Cluster, id: int): Cluster
    requires id in c.calls
  {
    var call := c.calls[id];
    match call.pc
    case Serve => ServeCall(c, id)
    case SetKey => c.(roundKey := Some(call.to.round), calls := c.calls[id := call.(pc := Save)])
    case Save => c.(queue := c.queue + [Saved(call.to, call.now)], calls := c.calls - {id})
  }

  /** A call that cannot open its round ends; errors of the later writes are ignored. */
  function SkipWrite(c: Cluster, id: int): Cluster
    requires id in c.calls
  {
    if c.calls[id].pc.SetKey? then c.(calls := c.calls[id := c.calls[id].(pc := Save)])
    else c.(calls := c.calls - {id})
  }

  const UNOBSTRUCTED := TickEnv(true, true, None, true)

  function Apply(act: Activity, c: Cluster, a: Action): Cluster {
    match a
    case BeginRegister(id, n) =>
      if id in c.calls || n in c.nodes then c
      else
        var s := NewState(act.cycleMinutes, act.totalOpen, act.totalClose, c.clock);
        c.(calls := c.calls[id := Call(n, None, s, c.clock, Serve)])
    case BeginTick(id, n, lag) =>
      if id in c.calls || n !in c.nodes then c
      else
        var r := Tick(c.nodes[n], c.clock - lag, UNOBSTRUCTED);
        if r.served.None? then c
        else c.(calls := c.calls[id := Call(n, Some(c.nodes[n]), r.state, c.clock - lag, Serve)])
    case Proceed(id) =>
      if id in c.calls then ProceedCall(c, id) else c
    case Skip(id) =>
      if id in c.calls then SkipWrite(c, id) else c
    case Adopt(n) =>
      if c.document.Some? && (n !in c.nodes || c.nodes[n].round < c.document.value.round) then
        c.(nodes := c.nodes[n := FromSaved(c.document.value)])
      else c
    case Crash(n) =>
      c.(nodes := c.nodes - {n}, calls := map id | id in c.calls && c.calls[id].node != n :: c.calls[id])
    case Deliver(i) =>
      if i < |c.queue| then
        c.(document := Some(c.queue[i].state), queue := c.queue[..i] + c.queue[i + 1..])
      else c
    case Pass(ms) =>
      c.(clock := c.clock + ms)
  }

  function Run(act: Activity, c: Cluster, actions: seq<Action>): Cluster
    decreases |actions|
  {
    if actions == [] then c else Run(act, Apply(act, c, actions[0]), actions[1..])
  }

  // ---------------------------------------------------------------- agreement

  /** A copy of the state, wherever it is, that says what the closed form says about its round. */
  predicate Copy(act: Activity, clock: int, s: RoundState) {
    && s.totalOpen == act.totalOpen && s.totalClose == act.totalClose
    && s.cycleMinutes == s.baseCycleMinutes == act.cycleMinutes
    && 1 <= s.round <= act.RoundAt(clock)
    && Window(s.roundOpen, s.roundClose) == act.WindowOf(s.round)
  }

  /** A call carries the round of the moment it was given, a later one than its node had. */
  predicate CarriesItsRound(act: Activity, clock: int, call: Call) {
    && Copy(act, clock, call.to)
    && call.now <= clock
    && call.to.round == act.RoundAt(call.now)
    && (call.from.Some? ==> call.from.value.round < call.to.round)
  }

  predicate SavesItsRound(act: Activity, clock: int, save: Saved) {
    Copy(act, clock, save.state) && save.state.round == act.RoundAt(save.now)
  }

  ghost predicate Agreement(act: Activity, c: Cluster) {
    && act.Valid()
    && (forall n <- c.nodes :: Copy(act, c.clock, c.nodes[n]))
    && (forall id <- c.calls :: CarriesItsRound(act, c.clock, c.calls[id]))
    && (c.document.Some? ==> Copy(act, c.clock, c.document.value))
    && (forall i | 0 <= i < |c.queue| :: SavesItsRound(act, c.clock, c.queue[i]))
    && (c.roundKey.Some? ==> 1 <= c.roundKey.value <= act.RoundAt(c.clock))
  }

  lemma CopiesAreOnGrid(act: Activity, clock: int, s: RoundState)
    requires act.Valid() && Copy(act, clock, s)
    ensures OnGrid(s)
  {
    RoundAtOutsideTheActivity(act.Blank(), clock);
  }

  /** A tick with a fixed cycle, at any moment, changes nothing or opens exactly that moment's round. */
  lemma TickOpensTheRoundOf(act: Activity, clock: int, s: RoundState, now: int, env: TickEnv)
    requires act.Valid() && Copy(act, clock, s) && now <= clock
    requires !ChangesCycle(s, env)
    ensures
      var r := Tick(s, now, env);
      || r == TickResult(s, None, None, [])
      || (&& Copy(act, clock, r.state) && r.state.round == act.RoundAt(now) > s.round
          && r.curRound == Some(r.state.round) && r.saves == [r.state] && r.served.Some?)
  {
    CopiesAreOnGrid(act, clock, s);
    if s.roundClose <= now < s.totalClose {
      OneAdvanceCatchesUp(s, now);
      RoundAtIsMonotone(act.Blank(), now, clock);
    }
  }

  lemma NewStateCarriesItsRound(act: Activity, clock: int, n: int)
    requires act.Valid()
    ensures
      var s := NewState(act.cycleMinutes, act.totalOpen, act.totalClose, clock);
      CarriesItsRound(act, clock, Call(n, None, s, clock, Serve))
  {
    NewStateIsOnGrid(act.cycleMinutes, act.totalOpen, act.totalClose, clock);
    RoundAtOutsideTheActivity(act.Blank(), clock);
  }

  lemma BeginKeepsAgreement(act: Activity, c: Cluster, a: Action)
    requires Agreement(act, c) && (a.BeginRegister? || a.BeginTick?)
    ensures Agreement(act, Apply(act, c, a))
  {
    var c' := Apply(act, c, a);
    if c' != c {
      var call := c'.calls[a.id];
      assert CarriesItsRound(act, c.clock, call) by {
        if a.BeginRegister? {
          NewStateCarriesItsRound(act, c.clock, a.node);
        } else {
          TickOpensTheRoundOf(act, c.clock, c.nodes[a.node], c.clock - a.lag, UNOBSTRUCTED);
        }
      }
      NewCallKeepsAgreement(act, c, a.id, call);
      assert c' == c.(calls := c.calls[a.id := call]);
    }
  }

  lemma NewCallKeepsAgreement(act: Activity, c: Cluster, id: int, call: Call)
    requires Agreement(act, c) && CarriesItsRound(act, c.clock, call)
    ensures Agreement(act, c.(calls := c.calls[id := call]))
  {
  }

  lemma ActionKeepsAgreement(act: Activity, c: Cluster, a: Action)
    requires Agreement(act, c)
    ensures Agreement(act, Apply(act, c, a))
  {
    match a
    case BeginRegister(_, _) =>
      BeginKeepsAgreement(act, c, a);
    case BeginTick(_, _, _) =>
      BeginKeepsAgreement(act, c, a);
    case Proceed(id) =>
      if id in c.calls {
        ProceedKeepsAgreement(act, c, id);
      }
    case Skip(id) =>
    case Adopt(n) =>
    case Crash(n) =>
    case Deliver(i) =>
      DeliveryKeepsAgreement(act, c, i);
    case Pass(ms) =>
      RoundAtIsMonotone(act.Blank(), c.clock, c.clock + ms);
  }

  lemma ProceedKeepsAgreement(act: Activity, c: Cluster, id: int)
    requires Agreement(act, c) && id in c.calls
    ensures Agreement(act, ProceedCall(c, id))
  {
    var c' := ProceedCall(c, id);
    assert CarriesItsRound(act, c.clock, c.calls[id]);
    forall j <- c'.calls ensures CarriesItsRound(act, c'.clock, c'.calls[j]) {
      assert CarriesItsRound(act, c.clock, c.calls[j]);
    }
  }

  lemma DeliveryKeepsAgreement(act: Activity, c: Cluster, i: nat)
    requires Agreement(act, c)
    ensures Agreement(act, Apply(act, c, Deliver(i)))
  {
    var c' := Apply(act, c, Deliver(i));
    forall j | 0 <= j < |c'.queue| ensures SavesItsRound(act, c'.clock, c'.queue[j]) {
      assert c'.queue[j] == c.queue[if i >= |c.queue| || j < i then j else j + 1];
    }
  }

  /**
    Agreement of all nodes. Start with no node, an empty Redis and an empty Mongo, and let any
    actions happen: calls overlap and fail half way, nodes restart, saves arrive late and out of
    order. Every copy of the state then has exactly the window the closed form gives its round,
    and no copy is ahead of the clock.
   */
  lemma {:induction false} NodesAgreeOnEveryRound(act: Activity, clock: int, actions: seq<Action>)
    requires act.Valid()
    ensures Agreement(act, Run(act, Start(clock), actions))
  {
    RunKeepsAgreement(act, Start(clock), actions);
  }

  lemma {:induction false} RunKeepsAgreement(act: Activity, c: Cluster, actions: seq<Action>)
    requires Agreement(act, c)
    ensures Agreement(act, Run(act, c, actions))
    decreases |actions|
  {
    if actions != [] {
      ActionKeepsAgreement(act, c, actions[0]);
      RunKeepsAgreement(act, Apply(act, c, actions[0]), actions[1..]);
    }
  }

  /** Two nodes on one round serve one window; on different rounds, disjoint windows in order. */
  lemma NodesServeCompatibleWindows(act: Activity, c: Cluster, m: int, n: int)
    requires Agreement(act, c) && m in c.nodes && n in c.nodes
    ensures
      var s, t := c.nodes[m], c.nodes[n];
      && (s.round == t.round ==> (s.roundOpen, s.roundClose) == (t.roundOpen, t.roundClose))
      && (s.round < t.round ==> s.roundClose <= t.roundOpen)
  {
    RoundAtOutsideTheActivity(act.Blank(), c.clock);
    if c.nodes[m].round < c.nodes[n].round {
      EarlierRoundsCloseFirst(act.Blank(), c.nodes[m].round, c.nodes[n].round);
    }
  }

  // ---------------------------------------------------------------- the round of a node

  lemma ActionMovesNodesForward(act: Activity, c: Cluster, a: Action)
    requires Agreement(act, c)
    ensures
      forall n <- c.nodes | a != Crash(n) ::
        n in Apply(act, c, a).nodes && c.nodes[n].round <= Apply(act, c, a).nodes[n].round
  {
    if a.Proceed? && a.id in c.calls {
      assert CarriesItsRound(act, c.clock, c.calls[a.id]);
    }
  }

  /** The round of a node that does not restart never decreases, whichever calls overlap. */
  lemma {:induction false} NodeRoundNeverDecreases(act: Activity, c: Cluster, actions: seq<Action>, n: int)
    requires Agreement(act, c) && (forall i | 0 <= i < |actions| :: actions[i] != Crash(n))
    requires n in c.nodes
    ensures
      var c' := Run(act, c, actions);
      n in c'.nodes && c.nodes[n].round <= c'.nodes[n].round
    decreases |actions|
  {
    if actions != [] {
      ActionKeepsAgreement(act, c, actions[0]);
      ActionMovesNodesForward(act, c, actions[0]);
      NodeRoundNeverDecreases(act, Apply(act, c, actions[0]), actions[1..], n);
    }
  }

  // ---------------------------------------------------------------- calls that nothing interrupts

  lemma {:induction false} RunInTurn(act: Activity, c: Cluster, a: seq<Action>, b: seq<Action>)
    ensures Run(act, c, a + b) == Run(act, Run(act, c, a), b)
    decreases |a|
  {
    if a == [] {
      assert a + b == b;
    } else {
      assert (a + b)[1..] == a[1..] + b;
      RunInTurn(act, Apply(act, c, a[0]), a[1..], b);
    }
  }

  lemma OneAction(act: Activity, c: Cluster, a: Action)
    ensures Run(act, c, [a]) == Apply(act, c, a)
  {
    assert [a][1..] == [];
  }

  lemma TwoActions(act: Activity, c: Cluster, a: Action, b: Action)
    ensures Run(act, c, [a, b]) == Apply(act, Apply(act, c, a), b)
  {
    assert [a, b][1..] == [b];
    OneAction(act, Apply(act, c, a), b);
  }

  /** A call that nothing interrupts, from its decision on. */
  function Finish(id: int): seq<Action> {
    [Proceed(id), Proceed(id), Proceed(id)]
  }

  /** It writes what it decided on: the node's state, the key and the save. */
  lemma FinishWritesEverything(act: Activity, c: Cluster, id: int)
    requires id in c.calls && c.calls[id].pc.Serve? && !(c.calls[id].from.None? && c.calls[id].node in c.nodes)
    ensures
      var call := c.calls[id];
      var n := call.node;
      var current := if n in c.nodes then Some(c.nodes[n]) else None;
      Run(act, c, Finish(id))
      == c.(nodes := if current == call.from then c.nodes[n := call.to] else c.nodes,
            calls := c.calls - {id},
            roundKey := Some(call.to.round),
            queue := c.queue + [Saved(call.to, call.now)])
  {
    var rest := [Proceed(id), Proceed(id)];
    assert Finish(id)[1..] == rest && rest[1..] == [Proceed(id)] && [Proceed(id)][1..] == [];
    var c1 := ProceedCall(c, id);
    var c2 := ProceedCall(c1, id);
    assert ProceedCall(c2, id).calls == c.calls - {id};
    assert Run(act, c2, [Proceed(id)]) == ProceedCall(c2, id);
    assert Run(act, c1, rest) == Run(act, c2, [Proceed(id)]);
  }

  /** An uninterrupted tick is the tick of the handler: state, key and save at once. */
  lemma UninterruptedTick(act: Activity, c: Cluster, id: int, n: int)
    requires Agreement(act, c) && id !in c.calls && n in c.nodes
    ensures
      var r := Tick(c.nodes[n], c.clock, UNOBSTRUCTED);
      var saved := if r.served.Some? then [Saved(r.state, c.clock)] else [];
      Run(act, c, [BeginTick(id, n, 0)] + Finish(id))
      == c.(nodes := c.nodes[n := r.state],
            roundKey := if r.curRound.Some? then r.curRound else c.roundKey,
            queue := c.queue + saved)
  {
    var r := Tick(c.nodes[n], c.clock, UNOBSTRUCTED);
    TickOpensTheRoundOf(act, c.clock, c.nodes[n], c.clock, UNOBSTRUCTED);
    RunInTurn(act, c, [BeginTick(id, n, 0)], Finish(id));
    OneAction(act, c, BeginTick(id, n, 0));
    if r.served.Some? {
      FinishTick(act, c, id, n, r.state, c.clock);
    } else {
      NobodyFinishes(act, c, id);
      assert c.nodes[n := c.nodes[n]] == c.nodes;
    }
  }

  lemma FinishTick(act: Activity, c: Cluster, id: int, n: int, to: RoundState, now: int)
    requires id !in c.calls && n in c.nodes
    ensures
      Run(act, c.(calls := c.calls[id := Call(n, Some(c.nodes[n]), to, now, Serve)]), Finish(id))
      == c.(nodes := c.nodes[n := to], roundKey := Some(to.round), queue := c.queue + [Saved(to, now)])
  {
    FinishWritesEverything(act, c.(calls := c.calls[id := Call(n, Some(c.nodes[n]), to, now, Serve)]), id);
    assert c.calls[id := Call(n, Some(c.nodes[n]), to, now, Serve)] - {id} == c.calls;
  }

  lemma NobodyFinishes(act: Activity, c: Cluster, id: int)
    requires id !in c.calls
    ensures Run(act, c, Finish(id)) == c
  {
    OneAction(act, c, Proceed(id));
    TwoActions(act, c, Proceed(id), Proceed(id));
    RunInTurn(act, c, [Proceed(id)], [Proceed(id), Proceed(id)]);
    assert Finish(id) == [Proceed(id)] + [Proceed(id), Proceed(id)];
  }
}
