/** Two runs of a cluster in which a round falls. */
module ClusterExamples {
  import opened Arithmetic
  import opened Options
  import opened Rounds
  import opened Cluster
  import opened ClusterRounds

  const EXAMPLE := Activity(1, 0, 10 * MS_PER_MINUTE)

  /** A state of the example activity in its round `round`. */
  function ExampleState(round: int): RoundState {
    RoundState(1, 1, 0, 10 * MS_PER_MINUTE, round, (round - 1) * MS_PER_MINUTE, round * MS_PER_MINUTE)
  }

  lemma ExampleTick(s: int, r: int)
    requires 1 <= s < r <= 10
    ensures
      Tick(ExampleState(s), (r - 1) * MS_PER_MINUTE, UNOBSTRUCTED)
      == TickResult(ExampleState(r), Some(Served(r, Window((r - 1) * MS_PER_MINUTE, r * MS_PER_MINUTE))),
                    Some(r), [ExampleState(r)])
    ensures NewState(1, 0, 10 * MS_PER_MINUTE, (s - 1) * MS_PER_MINUTE) == ExampleState(s)
  {
    QuotientIsUnique((r - 1) * MS_PER_MINUTE, MS_PER_MINUTE, r - 1);
    QuotientIsUnique((s - 1) * MS_PER_MINUTE, MS_PER_MINUTE, s - 1);
    QuotientIsUnique(10 * MS_PER_MINUTE - 1, MS_PER_MINUTE, 9);
  }

  const TWO_NODES := map[1 := ExampleState(1), 2 := ExampleState(1)]
  const SECOND_ROUND := Call(1, Some(ExampleState(1)), ExampleState(2), MS_PER_MINUTE, Serve)
  const THIRD_ROUND := Call(2, Some(ExampleState(1)), ExampleState(3), 2 * MS_PER_MINUTE, Serve)

  lemma NodeOneRegisters() returns (actions: seq<Action>)
    ensures
      Run(EXAMPLE, Start(0), actions)
      == Cluster(map[1 := ExampleState(1)], map[], Some(1), None, [Saved(ExampleState(1), 0)], 0)
    ensures InOrder(actions)
  {
    ExampleTick(1, 2);
    var c := Apply(EXAMPLE, Start(0), BeginRegister(1, 1));
    OneAction(EXAMPLE, Start(0), BeginRegister(1, 1));
    FinishWritesEverything(EXAMPLE, c, 1);
    assert c.calls - {1} == map[];
    Chain(Start(0), [BeginRegister(1, 1)], c, Finish(1), Run(EXAMPLE, c, Finish(1)));
    actions := [BeginRegister(1, 1)] + Finish(1);
  }

  /** Two nodes in round 1 at the moment 0: node 1 has registered, node 2 adopted what it saved. */
  lemma TwoNodesServeRoundOne() returns (actions: seq<Action>)
    ensures Run(EXAMPLE, Start(0), actions) == Cluster(TWO_NODES, map[], Some(1), Some(ExampleState(1)), [], 0)
    ensures InOrder(actions)
  {
    var begin := NodeOneRegisters();
    var c := Run(EXAMPLE, Start(0), begin);
    TwoActions(EXAMPLE, c, Deliver(0), Adopt(2));
    actions := begin + [Deliver(0), Adopt(2)];
    Chain(Start(0), begin, c, [Deliver(0), Adopt(2)], Run(EXAMPLE, c, [Deliver(0), Adopt(2)]));
  }

  /** A minute passes, and then a node in round 1 decides on the round that has begun. */
  lemma PassAndBegin(c: Cluster, id: int, n: int, r: int)
    requires n in c.nodes && c.nodes[n] == ExampleState(1) && id !in c.calls
    requires 2 <= r <= 10 && c.clock + MS_PER_MINUTE == (r - 1) * MS_PER_MINUTE
    ensures
      Run(EXAMPLE, c, [Pass(MS_PER_MINUTE), BeginTick(id, n, 0)])
      == c.(clock := c.clock + MS_PER_MINUTE,
            calls := c.calls[id := Call(n, Some(ExampleState(1)), ExampleState(r), c.clock + MS_PER_MINUTE, Serve)])
  {
    ExampleTick(1, r);
    TwoActions(EXAMPLE, c, Pass(MS_PER_MINUTE), BeginTick(id, n, 0));
  }

  lemma Chain(c0: Cluster, a: seq<Action>, c1: Cluster, b: seq<Action>, c2: Cluster)
    requires Run(EXAMPLE, c0, a) == c1 && Run(EXAMPLE, c1, b) == c2
    ensures Run(EXAMPLE, c0, a + b) == c2
  {
    RunInTurn(EXAMPLE, c0, a, b);
  }

  /** Node 1 decides on round 2, and before it writes, node 2 decides on round 3. */
  lemma BothDecide() returns (actions: seq<Action>)
    ensures
      Run(EXAMPLE, Cluster(TWO_NODES, map[], Some(1), Some(ExampleState(1)), [], 0), actions)
      == Cluster(TWO_NODES, map[3 := SECOND_ROUND, 4 := THIRD_ROUND], Some(1), Some(ExampleState(1)), [],
                 2 * MS_PER_MINUTE)
    ensures InOrder(actions)
  {
    var first, second := [Pass(MS_PER_MINUTE), BeginTick(3, 1, 0)], [Pass(MS_PER_MINUTE), BeginTick(4, 2, 0)];
    var c0 := Cluster(TWO_NODES, map[], Some(1), Some(ExampleState(1)), [], 0);
    var c1 := c0.(clock := MS_PER_MINUTE, calls := map[3 := SECOND_ROUND]);
    PassAndBegin(c0, 3, 1, 2);
    PassAndBegin(c1, 4, 2, 3);
    actions := first + second;
    Chain(c0, first, c1, second, c1.(clock := 2 * MS_PER_MINUTE, calls := map[3 := SECOND_ROUND, 4 := THIRD_ROUND]));
  }

  /**
    Calls that overlap: node 1 decides on round 2 and takes more than a minute to settle round 1;
    meanwhile node 2, whose lock request finds the first one lapsed, decides on round 3 and
    writes it. Then node 1 writes. Redis falls from 3 to 2, and Mongo too, with saves in order.
   */
  lemma OverlappingTicksLowerBothRounds() returns (first: seq<Action>, second: seq<Action>)
    ensures InOrder(first) && InOrder(second)
    ensures
      var c1 := Run(EXAMPLE, Start(0), first);
      var c2 := Run(EXAMPLE, c1, second);
      && c1.roundKey == Some(3) && c1.document == Some(ExampleState(3)) && c1.queue == []
      && c2.roundKey == Some(2) && c2.document == Some(ExampleState(2)) && c2.queue == []
      && c2.nodes == map[1 := ExampleState(2), 2 := ExampleState(3)]
  {
    var begin := TwoNodesServeRoundOne();
    var decide := BothDecide();
    var c0 := Cluster(TWO_NODES, map[], Some(1), Some(ExampleState(1)), [], 0);
    var c1 := c0.(calls := map[3 := SECOND_ROUND, 4 := THIRD_ROUND], clock := 2 * MS_PER_MINUTE);
    var c2 := Cluster(map[1 := ExampleState(1), 2 := ExampleState(3)], map[3 := SECOND_ROUND], Some(3),
                      Some(ExampleState(3)), [], 2 * MS_PER_MINUTE);
    FinishAndDeliver(c1, 4);
    assert c1.calls - {4} == c2.calls && c1.nodes[2 := ExampleState(3)] == c2.nodes;
    FinishAndDeliver(c2, 3);
    Chain(Start(0), begin, c0, decide, c1);
    Chain(Start(0), begin + decide, c1, Finish(4) + [Deliver(0)], c2);
    first, second := begin + decide + (Finish(4) + [Deliver(0)]), Finish(3) + [Deliver(0)];
  }

  lemma FinishAndDeliver(c: Cluster, id: int)
    requires id in c.calls && c.calls[id].pc.Serve? && c.calls[id].from.Some? && c.queue == []
    ensures
      var call := c.calls[id];
      var n := call.node;
      var current := if n in c.nodes then Some(c.nodes[n]) else None;
      Run(EXAMPLE, c, Finish(id) + [Deliver(0)])
      == c.(nodes := if current == call.from then c.nodes[n := call.to] else c.nodes,
            calls := c.calls - {id}, roundKey := Some(call.to.round), document := Some(call.to))
  {
    RunInTurn(EXAMPLE, c, Finish(id), [Deliver(0)]);
    FinishWritesEverything(EXAMPLE, c, id);
    OneAction(EXAMPLE, Run(EXAMPLE, c, Finish(id)), Deliver(0));
  }

  /** A minute passes, and then a node in round 1 ticks without interruption. */
  function PassAndTick(id: int, n: int): seq<Action> {
    [Pass(MS_PER_MINUTE), BeginTick(id, n, 0)] + Finish(id)
  }

  lemma PassAndTickServes(c: Cluster, id: int, n: int, r: int)
    requires n in c.nodes && c.nodes[n] == ExampleState(1) && id !in c.calls
    requires 2 <= r <= 10 && c.clock + MS_PER_MINUTE == (r - 1) * MS_PER_MINUTE
    ensures
      Run(EXAMPLE, c, PassAndTick(id, n))
      == c.(nodes := c.nodes[n := ExampleState(r)], roundKey := Some(r), clock := c.clock + MS_PER_MINUTE,
            queue := c.queue + [Saved(ExampleState(r), c.clock + MS_PER_MINUTE)])
  {
    RunInTurn(EXAMPLE, c, [Pass(MS_PER_MINUTE), BeginTick(id, n, 0)], Finish(id));
    PassAndBegin(c, id, n, r);
    FinishTick(EXAMPLE, c.(clock := c.clock + MS_PER_MINUTE), id, n, ExampleState(r), c.clock + MS_PER_MINUTE);
  }

  /** Node 2 ticks in round 2, and its save does not arrive yet. */
  lemma SecondRoundServed() returns (actions: seq<Action>)
    ensures
      Run(EXAMPLE, Start(0), actions)
      == Cluster(map[1 := ExampleState(1), 2 := ExampleState(2)], map[], Some(2), Some(ExampleState(1)),
                 [Saved(ExampleState(2), MS_PER_MINUTE)], MS_PER_MINUTE)
  {
    var begin := TwoNodesServeRoundOne();
    var c0 := Cluster(TWO_NODES, map[], Some(1), Some(ExampleState(1)), [], 0);
    PassAndTickServes(c0, 3, 2, 2);
    actions := begin + PassAndTick(3, 2);
    Chain(Start(0), begin, c0, PassAndTick(3, 2), Run(EXAMPLE, c0, PassAndTick(3, 2)));
    assert TWO_NODES[2 := ExampleState(2)] == map[1 := ExampleState(1), 2 := ExampleState(2)];
  }

  /** Then node 1 in round 3, whose save waits behind the other. */
  lemma ThirdRoundServed() returns (actions: seq<Action>)
    ensures
      Run(EXAMPLE, Start(0), actions)
      == Cluster(map[1 := ExampleState(3), 2 := ExampleState(2)], map[], Some(3), Some(ExampleState(1)),
                 [Saved(ExampleState(2), MS_PER_MINUTE), Saved(ExampleState(3), 2 * MS_PER_MINUTE)], 2 * MS_PER_MINUTE)
  {
    var begin := SecondRoundServed();
    var c := Run(EXAMPLE, Start(0), begin);
    PassAndTickServes(c, 4, 1, 3);
    actions := begin + PassAndTick(4, 1);
    Chain(Start(0), begin, c, PassAndTick(4, 1), Run(EXAMPLE, c, PassAndTick(4, 1)));
    assert c.nodes[1 := ExampleState(3)] == map[1 := ExampleState(3), 2 := ExampleState(2)];
  }

  /**
    Calls in turn, but saves that do not arrive in order: the later save overtakes the earlier,
    and the next node to start adopts the old round.
   */
  lemma OvertakenSaveLowersMongo() returns (first: seq<Action>, second: seq<Action>)
    ensures
      var c1 := Run(EXAMPLE, Start(0), first);
      var c2 := Run(EXAMPLE, c1, second);
      && c1.roundKey == Some(3) && c1.document == Some(ExampleState(3)) && c1.calls == map[]
      && c2.roundKey == Some(3) && c2.document == Some(ExampleState(2)) && c2.calls == map[]
      && 5 in c2.nodes && c2.nodes[5] == ExampleState(2)
  {
    var begin := ThirdRoundServed();
    var c := Run(EXAMPLE, Start(0), begin);
    OneAction(EXAMPLE, c, Deliver(1));
    var c1 := Apply(EXAMPLE, c, Deliver(1));
    assert c1.queue == [Saved(ExampleState(2), MS_PER_MINUTE)];
    TwoActions(EXAMPLE, c1, Deliver(0), Adopt(5));
    Chain(Start(0), begin, c, [Deliver(1)], c1);
    first, second := begin + [Deliver(1)], [Deliver(0), Adopt(5)];
  }
}
