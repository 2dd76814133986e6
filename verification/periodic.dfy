/**
  The periodic handler of one node: the states it keeps in memory and updates in place, and what
  it writes to Redis and queues for Mongo.
 */
module Periodic {
  import opened Options
  import opened Rounds

  class PeriodicState {
    const baseCycleMinutes: int
    const totalOpenTime: int
    const totalCloseTime: int
    var cycleMinutes: int
    var currentRound: int
    var roundOpenTime: int
    var roundCloseTime: int

    function ToSavedState(): RoundState
      reads this
    {
      RoundState(cycleMinutes, baseCycleMinutes, totalOpenTime, totalCloseTime,
                 currentRound, roundOpenTime, roundCloseTime)
    }

    constructor FromSaved(saved: RoundState)
      ensures ToSavedState() == Rounds.FromSaved(saved)
    {
      cycleMinutes := saved.cycleMinutes;
      totalOpenTime, totalCloseTime := saved.totalOpen, saved.totalClose;
      currentRound, roundOpenTime, roundCloseTime := saved.round, saved.roundOpen, saved.roundClose;
      baseCycleMinutes := if saved.baseCycleMinutes == 0 then saved.cycleMinutes else saved.baseCycleMinutes;
    }

    constructor FirstRegistered(cycleMinutes: int, totalOpenTime: int, totalCloseTime: int, now: int)
      requires cycleMinutes > 0
      ensures ToSavedState() == NewState(cycleMinutes, totalOpenTime, totalCloseTime, now)
    {
      this.cycleMinutes, baseCycleMinutes := cycleMinutes, cycleMinutes;
      this.totalOpenTime, this.totalCloseTime := totalOpenTime, totalCloseTime;
      currentRound, roundOpenTime, roundCloseTime := 0, 0, 0;
      new;
      currentRound := ComputeRoundAt(ToSavedState(), now);
      var w := ComputeRoundWindow(ToSavedState(), currentRound);
      roundOpenTime, roundCloseTime := w.open, w.close;
    }

    /** Refused unless it goes to a later round that opens before the activity closes. */
    method AdvanceToRound(round: int) returns (ok: bool)
      modifies this`currentRound, this`roundOpenTime, this`roundCloseTime
      ensures (ToSavedState(), ok) == Rounds.AdvanceToRound(old(ToSavedState()), round)
    {
      if round <= currentRound {
        return false;
      }
      var w := ComputeRoundWindow(ToSavedState(), round);
      if w.open >= totalCloseTime {
        return false;
      }
      roundOpenTime, roundCloseTime := w.open, w.close;
      currentRound := round;
      return true;
    }
  }

  datatype RoundInfo = RoundInfo(round: int, window: Window, settled: bool, current: bool)

  /** How a state with current round `s.round` reports a round that has started. */
  function Info(s: RoundState, round: int, now: int): RoundInfo {
    var w := ComputeRoundWindow(s, round);
    RoundInfo(round, w, round < s.round || (round == s.round && w.close <= now), round == s.round)
  }

  /** The rounds 1, 2, ... up to the current one or to the first that does not fit the activity. */
  ghost predicate ListsStartedRounds(s: RoundState, now: int, infos: seq<RoundInfo>) {
    && |infos| <= (if s.round < 0 then 0 else s.round)
    && (forall i | 0 <= i < |infos| :: infos[i] == Info(s, i + 1, now) && infos[i].window.open < s.totalClose)
    && (|infos| < s.round ==> ComputeRoundWindow(s, |infos| + 1).open >= s.totalClose)
  }

  /** The current round as a node reports it: the later of its own round and the one in Redis. */
  function CurrentRoundInfo(s: RoundState, redisRound: int, now: int): RoundInfo {
    var round := if s.round > redisRound then s.round else redisRound;
    var w := ComputeRoundWindow(s, round);
    RoundInfo(round, w, w.close <= now, true)
  }

  class Handler {
    var states: map<string, PeriodicState>
    var curRounds: map<string, int>              // Redis: the round keys of all activities
    var saves: seq<(string, RoundState)>         // Mongo: the documents queued, oldest first

    /** No two activities share a state object. */
    ghost predicate Valid()
      reads this
    {
      forall k <- states, l <- states :: states[k] == states[l] ==> k == l
    }

    constructor ()
      ensures Valid() && states == map[] && curRounds == map[] && saves == []
    {
      states, curRounds, saves := map[], map[], [];
    }

    /** Register an activity: unless another node holds the lock, or registering its round fails. */
    method Register(key: string, cycleMinutes: int, openTime: int, closeTime: int, now: int,
                    locked: bool, registerOk: bool) returns (ok: bool)
      requires Valid()
      modifies this
      ensures Valid()
      ensures ok == (cycleMinutes > 0 && (key in old(states) || !locked || registerOk))
      ensures
        if cycleMinutes > 0 && key !in old(states) && locked && registerOk then
          && states.Keys == old(states).Keys + {key} && fresh(states[key])
          && (forall k <- old(states) :: states[k] == old(states)[k])
          && states[key].ToSavedState() == NewState(cycleMinutes, openTime, closeTime, now)
          && curRounds == old(curRounds)[key := states[key].currentRound]
          && saves == old(saves) + [(key, states[key].ToSavedState())]
        else
          states == old(states) && curRounds == old(curRounds) && saves == old(saves)
    {
      if cycleMinutes <= 0 {
        return false;
      }
      if key in states || !locked {
        return true;
      }
      var state := new PeriodicState.FirstRegistered(cycleMinutes, openTime, closeTime, now);
      if !registerOk {
        return false;
      }
      states := states[key := state];
      curRounds := curRounds[key := state.currentRound];
      saves := saves + [(key, state.ToSavedState())];
      return true;
    }

    /** Forward-only adoption of the document another node saved. */
    method AdoptFromMongo(key: string, doc: RoundState)
      requires Valid()
      modifies this`states
      ensures Valid()
      ensures states.Keys == old(states).Keys + {key}
      ensures forall k <- old(states) | k != key :: states[k] == old(states)[k]
      ensures if key !in old(states) || old(states)[key].currentRound < doc.round
              then fresh(states[key]) && states[key].ToSavedState() == Rounds.FromSaved(doc)
              else states[key] == old(states)[key]
    {
      if key !in states || states[key].currentRound < doc.round {
        var ps := new PeriodicState.FromSaved(doc);
        states := states[key := ps];
      }
    }

    /** Advance one activity; the caller has seen that its round expired. */
    method AdvanceRound(key: string, now: int, env: TickEnv)
      requires Valid() && key in states
      modifies this`curRounds, this`saves, states[key]
      ensures
        var r := Rounds.AdvanceRound(old(states[key].ToSavedState()), now, env);
        && states[key].ToSavedState() == r.state
        && curRounds == (if r.curRound.Some? then old(curRounds)[key := r.curRound.value] else old(curRounds))
        && saves == old(saves) + Tagged(key, r.saves)
    {
      var state := states[key];
      if !env.locked || !env.serviceFound || now >= state.totalCloseTime {
        return;
      }
      var nextRound := NextAdvanceRound(state.ToSavedState(), now);
      if env.provided.Some? && env.provided.value > 0 && env.provided.value != state.cycleMinutes {
        state.cycleMinutes := env.provided.value;
        nextRound := state.currentRound + 1;
        saves := saves + [(key, state.ToSavedState())];
      }
      var next := ComputeRoundWindow(state.ToSavedState(), nextRound);
      if next.open >= state.totalCloseTime || !env.replaceOk {
        return;
      }
      var _ := state.AdvanceToRound(nextRound);
      curRounds := curRounds[key := nextRound];
      saves := saves + [(key, state.ToSavedState())];
    }

    /** What the node holds of one activity: state, Redis round key, queued documents. */
    function View(key: string): ActivityView
      requires key in states
      reads this, states[key]
    {
      ActivityView(states[key].ToSavedState(), if key in curRounds then Some(curRounds[key]) else None,
                   DocsOf(key, saves))
    }

    /** One activity's turn in a tick. */
    method TickOne(key: string, now: int, env: TickEnv)
      requires Valid() && key in states
      modifies this`curRounds, this`saves, states[key]
      ensures View(key) == Ticked(old(View(key)), now, env)
      ensures forall k <- states | k != key :: View(k) == old(View(k))
    {
      if now >= states[key].roundCloseTime {
        AdvanceRound(key, now, env);
        ghost var r := Tick(old(states[key].ToSavedState()), now, env);
        forall k ensures DocsOf(k, saves) == DocsOf(k, old(saves)) + (if k == key then r.saves else []) {
          DocsOfTagged(k, old(saves), key, r.saves);
        }
      }
    }

    /** Advance every activity whose round has expired. */
    method TickAll(now: int, envs: map<string, TickEnv>)
      requires Valid() && states.Keys <= envs.Keys
      modifies this`curRounds, this`saves, states.Values
      ensures forall k <- states :: View(k) == Ticked(old(View(k)), now, envs[k])
    {
      var remaining := states.Keys;
      assert forall k <- states :: states[k] in states.Values;
      while remaining != {}
        invariant remaining <= states.Keys
        invariant forall k <- remaining :: View(k) == old(View(k))
        invariant forall k <- states.Keys - remaining :: View(k) == Ticked(old(View(k)), now, envs[k])
        decreases remaining
      {
        var key :| key in remaining;
        remaining := remaining - {key};
        label turn:
        TickOne(key, now, envs[key]);
        assert forall k <- states | k != key :: View(k) == old@turn(View(k));
      }
    }

    method GetRoundInfos(key: string, now: int) returns (currentRound: int, rounds: seq<RoundInfo>)
      requires key in states
      ensures currentRound == states[key].currentRound
      ensures ListsStartedRounds(states[key].ToSavedState(), now, rounds)
    {
      var state := states[key].ToSavedState();
      currentRound := state.round;
      rounds := [];
      var r := 1;
      while r <= currentRound
        invariant 1 <= r && |rounds| == r - 1
        invariant |rounds| <= (if currentRound < 0 then 0 else currentRound)
        invariant forall i | 0 <= i < |rounds| ::
            rounds[i] == Info(state, i + 1, now) && rounds[i].window.open < state.totalClose
      {
        var w := ComputeRoundWindow(state, r);
        if w.open >= state.totalClose {
          break;
        }
        var settled := r < currentRound || (r == currentRound && w.close <= now);
        rounds := rounds + [RoundInfo(r, w, settled, r == currentRound)];
        r := r + 1;
      }
    }

    method GetCurrentRoundInfo(key: string, now: int) returns (info: RoundInfo)
      requires key in states
      ensures info == CurrentRoundInfo(states[key].ToSavedState(), if key in curRounds then curRounds[key] else 0, now)
      ensures
        var redisRound := if key in curRounds then curRounds[key] else 0;
        && info.round >= states[key].currentRound && info.round >= redisRound
        && (info.round == states[key].currentRound || info.round == redisRound)
    {
      var state := states[key].ToSavedState();
      var curRound := if key in curRounds then curRounds[key] else 0;
      if state.round > curRound {
        curRound := state.round;
      }
      var w := ComputeRoundWindow(state, curRound);
      info := RoundInfo(curRound, w, w.close <= now, true);
    }
  }

  function Tagged(key: string, docs: seq<RoundState>): seq<(string, RoundState)> {
    seq(|docs|, i requires 0 <= i < |docs| => (key, docs[i]))
  }

  /** The documents queued for one activity. */
  function DocsOf(key: string, saves: seq<(string, RoundState)>): seq<RoundState> {
    if saves == [] then []
    else
      var last := saves[|saves| - 1];
      DocsOf(key, saves[..|saves| - 1]) + if last.0 == key then [last.1] else []
  }

  lemma {:induction false} DocsOfTagged(k: string, saves: seq<(string, RoundState)>, key: string, docs: seq<RoundState>)
    ensures DocsOf(k, saves + Tagged(key, docs)) == DocsOf(k, saves) + if k == key then docs else []
  {
    var all := saves + Tagged(key, docs);
    if docs == [] {
      assert all == saves;
    } else {
      var front := docs[..|docs| - 1];
      assert all[..|all| - 1] == saves + Tagged(key, front);
      DocsOfTagged(k, saves, key, front);
      assert front + [docs[|docs| - 1]] == docs;
    }
  }

  datatype ActivityView = ActivityView(state: RoundState, roundKey: Option<int>, docs: seq<RoundState>)

  function Ticked(v: ActivityView, now: int, env: TickEnv): ActivityView {
    var r := Tick(v.state, now, env);
    ActivityView(r.state, if r.curRound.Some? then r.curRound else v.roundKey, v.docs + r.saves)
  }

  // ---------------------------------------------------------------- what the queries report

  /**
    With a fixed cycle the list of rounds is complete and tiles the activity up to the close of
    the current round, and the current round is reported with the window it is served in.
   */
  lemma RoundInfosTileTheActivity(s: RoundState, now: int, infos: seq<RoundInfo>)
    requires OnGrid(s) && ListsStartedRounds(s, now, infos)
    ensures |infos| == s.round
    ensures infos[0].window.open == s.totalOpen
    ensures infos[s.round - 1].window == Window(s.roundOpen, s.roundClose)
    ensures forall i | 0 <= i < s.round :: infos[i].window == Grid(s, i + 1)
    ensures forall i, j | 0 <= i < s.round && j == i + 1 < s.round ::
              infos[i].window.close == infos[j].window.open && infos[i].settled
  {
    forall round | 1 <= round <= s.round
      ensures ComputeRoundWindow(s, round) == Grid(s, round) && Grid(s, round).open < s.totalClose
      ensures round < s.round ==> Grid(s, round).close == Grid(s, round + 1).open
    {
      ThreeBranchesAgree(s, round);
      GridTilesTheActivity(s, round);
    }
    GridTilesTheActivity(s, 1);
    if |infos| < s.round {
      assert false;
    }
  }

  /**
    A node that lags behind and reads a later round from Redis reports that round with the very
    window in which the node that opened it serves it.
   */
  lemma LaggingNodeReportsTheServedWindow(lagging: RoundState, advanced: RoundState, now: int)
    requires OnGrid(lagging) && OnGrid(advanced)
    requires lagging.totalOpen == advanced.totalOpen && lagging.totalClose == advanced.totalClose
    requires lagging.cycleMinutes == advanced.cycleMinutes
    requires lagging.round <= advanced.round
    ensures CurrentRoundInfo(lagging, advanced.round, now)
         == CurrentRoundInfo(advanced, advanced.round, now)
    ensures CurrentRoundInfo(lagging, advanced.round, now).window == Window(advanced.roundOpen, advanced.roundClose)
  {
    ThreeBranchesAgree(lagging, advanced.round);
    ThreeBranchesAgree(advanced, advanced.round);
  }
}
