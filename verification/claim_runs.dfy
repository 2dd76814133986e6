/**
  Any number of claim calls, interleaved access by access, on nodes that may fail and over a
  Redis that may lose fields. A run is any sequence of actions; an action that is not enabled
  leaves the system as it is.
 */
module ClaimRuns {
  import opened ClaimProtocol

  datatype System = System(store: Store, calls: map<int, Call>)

  datatype Action =
    | Begin(id: int, kind: Kind, key: Key, now: int)
    | Move(id: int)                 // the call performs its next access
    | Fail(id: int)                 // the call returns an error, or its node crashes
    | InsertThenFail(id: int)       // Mongo applies the upsert, the caller sees an error
    | SkipRestore(id: int)          // putting Mongo's time back into Redis fails; the error is ignored
    | SkipBackfill(id: int)         // so does the write of a query that missed
    | Lose(keys: set<Key>)          // Redis loses these fields, a whole hash or all of them

  function Apply(s: System, a: Action): System {
    match a
    case Begin(id, kind, key, now) =>
      if id in s.calls then s else s.(calls := s.calls[id := Call(kind, key, now, Start)])
    case Move(id) =>
      if id in s.calls && s.calls[id].Running() then
        var (st, c) := Advance(s.store, s.calls[id]);
        System(st, s.calls[id := c])
      else s
    case Fail(id) =>
      if id in s.calls && s.calls[id].Running() then
        s.(calls := s.calls[id := s.calls[id].(pc := Failed)])
      else s
    case InsertThenFail(id) =>
      if id in s.calls && s.calls[id].pc.Insert? then
        System(Advance(s.store, s.calls[id]).0, s.calls[id := s.calls[id].(pc := Failed)])
      else s
    case SkipRestore(id) =>
      if id in s.calls && s.calls[id].pc.Restore? then SkipWrite(s, id) else s
    case SkipBackfill(id) =>
      if id in s.calls && s.calls[id].pc.Backfill? then SkipWrite(s, id) else s
    case Lose(keys) =>
      s.(store := s.store.(redis := s.store.redis - keys))
  }

  /** The call returns what it would return, but its write to Redis is missing. */
  function SkipWrite(s: System, id: int): System
    requires id in s.calls && s.calls[id].Running()
  {
    s.(calls := s.calls[id := Advance(s.store, s.calls[id]).1])
  }

  function Run(s: System, actions: seq<Action>): System
    decreases |actions|
  {
    if actions == [] then s else Run(Apply(s, actions[0]), actions[1..])
  }

  // ---------------------------------------------------------------- at most one first claim

  /** No document of `older` is missing or changed in `newer`. */
  ghost predicate Extends(older: map<Key, int>, newer: map<Key, int>) {
    forall k <- older :: k in newer && newer[k] == older[k]
  }

  /** Whatever happened since Mongo held `initial`: the calls that won a reward. */
  ghost predicate WinnersAreRecorded(s: System, initial: map<Key, int>) {
    && Extends(initial, s.store.mongo)
    && (forall i <- s.calls :: s.calls[i].OnItsPath())
    && (forall i <- s.calls :: s.calls[i].Won() ==>
          && s.calls[i].key !in initial
          && s.calls[i].key in s.store.mongo
          && s.store.mongo[s.calls[i].key] == s.calls[i].pc.answer.time)
    && (forall i <- s.calls, j <- s.calls ::
          s.calls[i].Won() && s.calls[j].Won() && s.calls[i].key == s.calls[j].key ==> i == j)
    && (forall i <- s.calls :: s.calls[i].pc.ReadBack? ==> s.calls[i].key in s.store.mongo)
  }

  /** Replacing one call and growing Mongo keeps the winners, if a new winner is Mongo's first. */
  lemma ReplacedCallKeepsWinners(s: System, id: int, st: Store, c: Call, initial: map<Key, int>)
    requires WinnersAreRecorded(s, initial) && id in s.calls
    requires !s.calls[id].Won()
    requires Extends(s.store.mongo, st.mongo)
    requires c.key == s.calls[id].key && c.OnItsPath()
    requires c.Won() ==> c.key !in s.store.mongo && c.key in st.mongo && st.mongo[c.key] == c.pc.answer.time
    requires c.pc.ReadBack? ==> c.key in st.mongo
    ensures WinnersAreRecorded(System(st, s.calls[id := c]), initial)
  {
  }

  /** A call moves on, with its write to the stores or without. */
  lemma MoveKeepsWinners(s: System, id: int, initial: map<Key, int>)
    requires WinnersAreRecorded(s, initial) && id in s.calls && s.calls[id].Running()
    ensures WinnersAreRecorded(Apply(s, Move(id)), initial)
    ensures s.calls[id].pc.Restore? || s.calls[id].pc.Backfill? ==> WinnersAreRecorded(SkipWrite(s, id), initial)
  {
    var (st, c) := Advance(s.store, s.calls[id]);
    ReplacedCallKeepsWinners(s, id, st, c, initial);
    if s.calls[id].pc.Restore? || s.calls[id].pc.Backfill? {
      ReplacedCallKeepsWinners(s, id, s.store, c, initial);
    }
  }

  /** A call fails, before its insert or after it. */
  lemma FailureKeepsWinners(s: System, id: int, initial: map<Key, int>)
    requires WinnersAreRecorded(s, initial) && id in s.calls && s.calls[id].Running()
    ensures WinnersAreRecorded(Apply(s, Fail(id)), initial)
    ensures WinnersAreRecorded(Apply(s, InsertThenFail(id)), initial)
  {
    var c := s.calls[id].(pc := Failed);
    ReplacedCallKeepsWinners(s, id, s.store, c, initial);
    if s.calls[id].pc.Insert? {
      ReplacedCallKeepsWinners(s, id, Advance(s.store, s.calls[id]).0, c, initial);
    }
  }

  lemma WinnersStayRecorded(s: System, a: Action, initial: map<Key, int>)
    requires WinnersAreRecorded(s, initial)
    ensures WinnersAreRecorded(Apply(s, a), initial)
  {
    if !a.Begin? && !a.Lose? && a.id in s.calls && s.calls[a.id].Running() {
      if a.Fail? || a.InsertThenFail? {
        FailureKeepsWinners(s, a.id, initial);
      } else {
        MoveKeepsWinners(s, a.id, initial);
      }
    }
  }

  /**
    At-most-once claims. Start from any Redis, any Mongo and no call under way. In whatever
    order any number of calls then run, fail and lose their cache: of all claims on one key at
    most one is told to hand out the reward, none if Mongo already had the claim, and that one
    returns exactly the time Mongo keeps. The fallback of the upsert, "matched but not found",
    is never taken.
   */
  lemma {:induction false} FirstClaimHappensAtMostOnce(s0: System, actions: seq<Action>)
    requires s0.calls == map[]
    ensures WinnersAreRecorded(Run(s0, actions), s0.store.mongo)
  {
    WinnersStayRecordedInRuns(s0, actions, s0.store.mongo);
  }

  lemma {:induction false} WinnersStayRecordedInRuns(s: System, actions: seq<Action>, initial: map<Key, int>)
    requires WinnersAreRecorded(s, initial)
    ensures WinnersAreRecorded(Run(s, actions), initial)
    decreases |actions|
  {
    if actions != [] {
      WinnersStayRecorded(s, actions[0], initial);
      WinnersStayRecordedInRuns(Apply(s, actions[0]), actions[1..], initial);
    }
  }

  /** Between any two moments of a run, a claim time in Mongo neither changes nor disappears. */
  lemma {:induction false} MongoTimesArePermanent(s: System, actions: seq<Action>)
    ensures Extends(s.store.mongo, Run(s, actions).store.mongo)
    decreases |actions|
  {
    if actions != [] {
      MongoTimesArePermanent(Apply(s, actions[0]), actions[1..]);
    }
  }

  // ---------------------------------------------------------------- quiescence

  /** The call wrote its own time into Redis and will still insert that time or overwrite it. */
  predicate Owns(c: Call) {
    && c.kind.Atomic?
    && (c.pc.VerifyMongo? || c.pc.Insert? || c.pc.ReadBack? || c.pc.Restore?)
  }

  ghost predicate HasOwner(s: System, k: Key) {
    exists i <- s.calls :: s.calls[i].key == k && Owns(s.calls[i])
  }

  ghost predicate HasOwnerOf(s: System, k: Key, t: int) {
    exists i <- s.calls :: s.calls[i].key == k && s.calls[i].now == t && Owns(s.calls[i])
  }

  ghost predicate HasWinner(s: System, k: Key) {
    exists i <- s.calls :: s.calls[i].key == k && s.calls[i].Won()
  }

  ghost predicate Recorded(st: Store, k: Key, t: int) {
    k in st.mongo && st.mongo[k] == t
  }

  /** A time that a call still carries towards Redis was read from Mongo. */
  ghost predicate CarriesMongoTime(st: Store, c: Call) {
    && (c.pc.Restore? ==> Recorded(st, c.key, c.pc.mongoTime))
    && (c.pc.Backfill? && c.pc.found.Some? ==> Recorded(st, c.key, c.pc.found.value))
  }

  /** What holds of each call in a run without failures. */
  ghost predicate CallIsSettling(s: System, c: Call) {
    && c.OnItsPath() && !c.pc.Failed?
    && CarriesMongoTime(s.store, c)
    && (c.pc.ReadBack? ==> c.key in s.store.mongo)
    && (c.Claims() && c.pc.Done? ==> c.key in s.store.mongo || HasOwner(s, c.key))
  }

  /**
    The invariant of runs without failures that start empty: a time in Redis is Mongo's time or
    belongs to a call under way, and every finished claim left a record or a call under way.
   */
  ghost predicate Settling(s: System) {
    && (forall k <- s.store.redis :: s.store.redis[k].Time? ==>
          Recorded(s.store, k, s.store.redis[k].time) || HasOwnerOf(s, k, s.store.redis[k].time))
    && (forall k <- s.store.mongo :: HasWinner(s, k))
    && (forall i <- s.calls :: CallIsSettling(s, s.calls[i]))
  }

  /** All that the proof below needs to know about one access of a call. */
  ghost predicate Access(st: Store, c: Call, st': Store, c': Call) {
    && (c'.kind, c'.key, c'.now) == (c.kind, c.key, c.now)
    && c'.OnItsPath() && !c'.pc.Failed?
    && CarriesMongoTime(st, c')
    && (c'.pc.ReadBack? ==> c.key in st.mongo)
    && st'.mongo == (if c'.Won() then st.mongo[c.key := c.now] else st.mongo)
    && (c'.Won() ==> c.key !in st.mongo)
    && (|| (st'.redis == st.redis && (Owns(c) ==> Owns(c') || c'.Won()))
        || (&& c.key in st'.redis
            && st'.redis == st.redis[c.key := st'.redis[c.key]]
            && (|| st'.redis[c.key].Null?
                || Recorded(st, c.key, st'.redis[c.key].time)
                || (st'.redis[c.key].time == c.now && Owns(c')))))
    && (Owns(c) ==> Owns(c') || c.key in st'.mongo)
    && (c.Claims() && c'.pc.Done? ==>
          c.key in st'.mongo || (c.key in st.redis && st.redis[c.key].Time?))
  }

  lemma AdvanceIsAnAccess(s: System, c: Call)
    requires c.Running() && CallIsSettling(s, c)
    ensures Access(s.store, c, Advance(s.store, c).0, Advance(s.store, c).1)
    ensures c.pc.Backfill? ==> Access(s.store, c, s.store, Advance(s.store, c).1)
  {
  }

  /** Winners survive an access of any call, owners one of another call. */
  lemma WitnessesPersist(s: System, id: int, st: Store, c: Call)
    requires id in s.calls && s.calls[id].Running()
    ensures
      var s' := System(st, s.calls[id := c]);
      && (forall k :: HasWinner(s, k) ==> HasWinner(s', k))
      && (forall k, t :: HasOwnerOf(s, k, t) ==>
            HasOwnerOf(s', k, t) || (s.calls[id].key == k && s.calls[id].now == t && Owns(s.calls[id])))
      && (forall k :: HasOwner(s, k) ==>
            HasOwner(s', k) || (s.calls[id].key == k && Owns(s.calls[id])))
  {
    var s' := System(st, s.calls[id := c]);
    forall k | HasWinner(s, k) ensures HasWinner(s', k) {
      var i :| i in s.calls && s.calls[i].key == k && s.calls[i].Won();
      assert s'.calls[i] == s.calls[i];
    }
    forall k, t | HasOwnerOf(s, k, t) && !(s.calls[id].key == k && s.calls[id].now == t && Owns(s.calls[id]))
      ensures HasOwnerOf(s', k, t)
    {
      var i :| i in s.calls && s.calls[i].key == k && s.calls[i].now == t && Owns(s.calls[i]);
      assert s'.calls[i] == s.calls[i];
    }
    forall k | HasOwner(s, k) && !(s.calls[id].key == k && Owns(s.calls[id]))
      ensures HasOwner(s', k)
    {
      var i :| i in s.calls && s.calls[i].key == k && Owns(s.calls[i]);
      assert s'.calls[i] == s.calls[i];
    }
  }

  /** After the access, each key that was recorded or owned still is. */
  lemma AccessKeepsKeysSettling(s: System, id: int, st: Store, c: Call, k: Key)
    requires Settling(s) && id in s.calls && s.calls[id].Running() && Access(s.store, s.calls[id], st, c)
    ensures
      var s' := System(st, s.calls[id := c]);
      && (k in s.store.mongo || HasOwner(s, k) ==> k in st.mongo || HasOwner(s', k))
      && (k in st.mongo ==> HasWinner(s', k))
      && (k in st.redis && st.redis[k].Time? ==>
            Recorded(st, k, st.redis[k].time) || HasOwnerOf(s', k, st.redis[k].time))
  {
    var s' := System(st, s.calls[id := c]);
    WitnessesPersist(s, id, st, c);
    assert s'.calls[id] == c;
    assert Owns(c) ==> HasOwnerOf(s', c.key, c.now) && HasOwner(s', c.key);
    assert c.Won() ==> HasWinner(s', c.key);
  }

  lemma AccessKeepsSettling(s: System, id: int, st: Store, c: Call)
    requires Settling(s) && id in s.calls && s.calls[id].Running() && Access(s.store, s.calls[id], st, c)
    ensures Settling(System(st, s.calls[id := c]))
  {
    var s' := System(st, s.calls[id := c]);
    forall k {
      AccessKeepsKeysSettling(s, id, st, c, k);
    }
    forall i <- s'.calls ensures CallIsSettling(s', s'.calls[i]) {
      if i != id {
        assert CallIsSettling(s, s.calls[i]);
      } else if c.Claims() && c.pc.Done? && c.key !in st.mongo {
        OwnersOwnTheirKey(s, c.key, s.store.redis[c.key].time);
      }
    }
  }

  lemma OwnersOwnTheirKey(s: System, k: Key, t: int)
    ensures HasOwnerOf(s, k, t) ==> HasOwner(s, k)
  {
    if HasOwnerOf(s, k, t) {
      var i :| i in s.calls && s.calls[i].key == k && s.calls[i].now == t && Owns(s.calls[i]);
    }
  }

  lemma OtherActionsKeepSettling(s: System, a: Action)
    requires Settling(s)
    requires a.Begin? || a.Lose?
    ensures Settling(Apply(s, a))
  {
    var s' := Apply(s, a);
    assert forall i <- s.calls :: i in s'.calls && s'.calls[i] == s.calls[i];
    forall k | HasWinner(s, k) ensures HasWinner(s', k) {
      var i :| i in s.calls && s.calls[i].key == k && s.calls[i].Won();
      assert s'.calls[i] == s.calls[i];
    }
    forall k, t | HasOwnerOf(s, k, t) ensures HasOwnerOf(s', k, t) {
      var i :| i in s.calls && s.calls[i].key == k && s.calls[i].now == t && Owns(s.calls[i]);
      assert s'.calls[i] == s.calls[i];
    }
    forall k | HasOwner(s, k) ensures HasOwner(s', k) {
      var i :| i in s.calls && s.calls[i].key == k && Owns(s.calls[i]);
      assert s'.calls[i] == s.calls[i];
    }
  }

  predicate NoFailures(actions: seq<Action>) {
    forall a <- actions :: !a.Fail? && !a.InsertThenFail? && !a.SkipRestore?
  }

  lemma {:induction false} RunsKeepSettling(s: System, actions: seq<Action>)
    requires Settling(s) && NoFailures(actions)
    ensures Settling(Run(s, actions))
    decreases |actions|
  {
    if actions != [] {
      var a := actions[0];
      if a.Move? {
        if a.id in s.calls && s.calls[a.id].Running() {
          var (st, c) := Advance(s.store, s.calls[a.id]);
          AdvanceIsAnAccess(s, s.calls[a.id]);
          AccessKeepsSettling(s, a.id, st, c);
        }
      } else if a.SkipBackfill? {
        if a.id in s.calls && s.calls[a.id].pc.Backfill? {
          AdvanceIsAnAccess(s, s.calls[a.id]);
          AccessKeepsSettling(s, a.id, s.store, Advance(s.store, s.calls[a.id]).1);
        }
      } else {
        OtherActionsKeepSettling(s, a);
      }
      RunsKeepSettling(Apply(s, a), actions[1..]);
    }
  }

  /** Exactly one call on this key was told to hand out the reward. */
  ghost predicate ExactlyOneWinner(s: System, k: Key) {
    && HasWinner(s, k)
    && (forall i <- s.calls, j <- s.calls ::
          s.calls[i].Won() && s.calls[j].Won() && s.calls[i].key == k && s.calls[j].key == k ==> i == j)
  }

  predicate Quiescent(s: System) {
    forall i <- s.calls :: s.calls[i].pc.Done?
  }

  lemma SettledStateAgrees(s: System)
    requires Settling(s) && WinnersAreRecorded(s, map[]) && Quiescent(s)
    ensures forall i <- s.calls :: s.calls[i].Claims() ==> ExactlyOneWinner(s, s.calls[i].key)
    ensures forall k <- s.store.redis :: s.store.redis[k].Time? ==> Recorded(s.store, k, s.store.redis[k].time)
  {
    forall i <- s.calls | s.calls[i].Claims() ensures ExactlyOneWinner(s, s.calls[i].key) {
      assert CallIsSettling(s, s.calls[i]);
      assert !HasOwner(s, s.calls[i].key);
    }
  }

  /**
    Agreement at quiescence. A run that starts with both stores empty, and in which no call
    fails and every restored time reaches Redis, has reached a moment where every call has
    returned. Then on every key that some call claimed exactly one call was told to hand out the
    reward, and Redis holds nothing, the sentinel, or exactly Mongo's time.
   */
  lemma {:induction false} QuiescentClaimsAgree(actions: seq<Action>)
    requires NoFailures(actions)
    requires Quiescent(Run(System(Store(map[], map[]), map[]), actions))
    ensures
      var s := Run(System(Store(map[], map[]), map[]), actions);
      && (forall i <- s.calls :: s.calls[i].Claims() ==> ExactlyOneWinner(s, s.calls[i].key))
      && (forall k <- s.store.redis :: s.store.redis[k].Time? ==> Recorded(s.store, k, s.store.redis[k].time))
  {
    var s0 := System(Store(map[], map[]), map[]);
    RunsKeepSettling(s0, actions);
    FirstClaimHappensAtMostOnce(s0, actions);
    SettledStateAgrees(Run(s0, actions));
  }

  // ---------------------------------------------------------------- the times that are reported

  /** A time that some claim on the key wrote into Redis: the moment that claim was made. */
  ghost predicate ClaimedAt(s: System, k: Key, t: int) {
    exists i <- s.calls :: s.calls[i].kind.Atomic? && s.calls[i].key == k && s.calls[i].now == t
  }

  /** Mongo's time for the key, the moment of a claim on it, or what Redis held at the start. */
  ghost predicate Grounded(s: System, cached: map<Key, Field>, k: Key, t: int) {
    Recorded(s.store, k, t) || ClaimedAt(s, k, t) || (k in cached && cached[k] == Time(t))
  }

  ghost predicate CallIsGrounded(s: System, cached: map<Key, Field>, c: Call) {
    && c.OnItsPath() && CarriesMongoTime(s.store, c)
    && (c.pc.Done? && c.pc.answer.claimed ==> Grounded(s, cached, c.key, c.pc.answer.time))
    && (c.pc.Done? && c.pc.answer.claimed && c.kind.Historical? ==> Recorded(s.store, c.key, c.pc.answer.time))
  }

  ghost predicate TimesAreGrounded(s: System, cached: map<Key, Field>) {
    && (forall k <- s.store.redis :: s.store.redis[k].Time? ==> Grounded(s, cached, k, s.store.redis[k].time))
    && (forall i <- s.calls :: CallIsGrounded(s, cached, s.calls[i]))
  }

  /** Calls keep their kind, key and moment, and Mongo keeps its documents. */
  lemma StaysGrounded(s: System, s': System, cached: map<Key, Field>, k: Key, t: int)
    requires Grounded(s, cached, k, t) && Extends(s.store.mongo, s'.store.mongo)
    requires forall i <- s.calls ::
               i in s'.calls && (s'.calls[i].kind, s'.calls[i].key, s'.calls[i].now)
                                == (s.calls[i].kind, s.calls[i].key, s.calls[i].now)
    ensures Grounded(s', cached, k, t)
  {
    if ClaimedAt(s, k, t) {
      var i :| i in s.calls && s.calls[i].kind.Atomic? && s.calls[i].key == k && s.calls[i].now == t;
      assert s'.calls[i].now == t;
    }
  }

  /** One call is replaced by its next self; it and Redis carry only grounded times. */
  lemma ReplacedCallStaysGrounded(s: System, id: int, st: Store, c: Call, cached: map<Key, Field>)
    requires TimesAreGrounded(s, cached) && id in s.calls
    requires (c.kind, c.key, c.now) == (s.calls[id].kind, s.calls[id].key, s.calls[id].now)
    requires Extends(s.store.mongo, st.mongo)
    requires CallIsGrounded(System(st, s.calls[id := c]), cached, c)
    requires forall k <- st.redis | st.redis[k].Time? ::
               || (k in s.store.redis && st.redis[k] == s.store.redis[k])
               || Grounded(System(st, s.calls[id := c]), cached, k, st.redis[k].time)
    ensures TimesAreGrounded(System(st, s.calls[id := c]), cached)
  {
    var s' := System(st, s.calls[id := c]);
    forall k, t | Grounded(s, cached, k, t) ensures Grounded(s', cached, k, t) {
      StaysGrounded(s, s', cached, k, t);
    }
    forall i <- s'.calls ensures CallIsGrounded(s', cached, s'.calls[i]) {
      if i != id {
        assert CallIsGrounded(s, cached, s.calls[i]);
      }
    }
  }

  lemma MoveStaysGrounded(s: System, id: int, cached: map<Key, Field>)
    requires TimesAreGrounded(s, cached) && id in s.calls && s.calls[id].Running()
    ensures TimesAreGrounded(Apply(s, Move(id)), cached)
    ensures s.calls[id].pc.Restore? || s.calls[id].pc.Backfill? ==> TimesAreGrounded(SkipWrite(s, id), cached)
  {
    var (st, c) := Advance(s.store, s.calls[id]);
    var s' := System(st, s.calls[id := c]);
    assert CallIsGrounded(s, cached, s.calls[id]);
    forall k, t | Grounded(s, cached, k, t) ensures Grounded(s', cached, k, t) {
      StaysGrounded(s, s', cached, k, t);
    }
    assert s'.calls[id] == c;
    ReplacedCallStaysGrounded(s, id, st, c, cached);
    if s.calls[id].pc.Restore? || s.calls[id].pc.Backfill? {
      ReplacedCallStaysGrounded(s, id, s.store, c, cached);
    }
  }

  lemma FailureStaysGrounded(s: System, id: int, cached: map<Key, Field>)
    requires TimesAreGrounded(s, cached) && id in s.calls && s.calls[id].Running()
    ensures TimesAreGrounded(Apply(s, Fail(id)), cached)
    ensures TimesAreGrounded(Apply(s, InsertThenFail(id)), cached)
  {
    var c := s.calls[id].(pc := Failed);
    ReplacedCallStaysGrounded(s, id, s.store, c, cached);
    if s.calls[id].pc.Insert? {
      ReplacedCallStaysGrounded(s, id, Advance(s.store, s.calls[id]).0, c, cached);
    }
  }

  lemma BeginStaysGrounded(s: System, a: Action, cached: map<Key, Field>)
    requires TimesAreGrounded(s, cached) && (a.Begin? || a.Lose?)
    ensures TimesAreGrounded(Apply(s, a), cached)
  {
    var s' := Apply(s, a);
    forall k, t | Grounded(s, cached, k, t) ensures Grounded(s', cached, k, t) {
      StaysGrounded(s, s', cached, k, t);
    }
    forall i <- s'.calls ensures CallIsGrounded(s', cached, s'.calls[i]) {
      assert i in s.calls ==> CallIsGrounded(s, cached, s.calls[i]) && s'.calls[i] == s.calls[i];
    }
  }

  lemma {:induction false} RunsStayGrounded(s: System, actions: seq<Action>, cached: map<Key, Field>)
    requires TimesAreGrounded(s, cached)
    ensures TimesAreGrounded(Run(s, actions), cached)
    decreases |actions|
  {
    if actions != [] {
      var a := actions[0];
      if a.Begin? || a.Lose? {
        BeginStaysGrounded(s, a, cached);
      } else if a.id in s.calls && s.calls[a.id].Running() {
        if a.Fail? || a.InsertThenFail? {
          FailureStaysGrounded(s, a.id, cached);
        } else {
          MoveStaysGrounded(s, a.id, cached);
        }
      }
      RunsStayGrounded(Apply(s, a), actions[1..], cached);
    }
  }

  /**
    No made-up times. In whatever order calls run, fail and lose their cache: a call that answers
    "already claimed" names Mongo's time for the key, the moment of some claim on the key, or a
    time that Redis held when the run began; and a historical claim always names Mongo's time.
   */
  lemma RefusalsNameRealTimes(s0: System, actions: seq<Action>)
    requires s0.calls == map[]
    ensures
      var s := Run(s0, actions);
      forall i <- s.calls | s.calls[i].pc.Done? && s.calls[i].pc.answer.claimed ::
        && Grounded(s, s0.store.redis, s.calls[i].key, s.calls[i].pc.answer.time)
        && (s.calls[i].kind.Historical? ==> Recorded(s.store, s.calls[i].key, s.calls[i].pc.answer.time))
  {
    RunsStayGrounded(s0, actions, s0.store.redis);
    var s := Run(s0, actions);
    forall i <- s.calls | s.calls[i].pc.Done? && s.calls[i].pc.answer.claimed
      ensures Grounded(s, s0.store.redis, s.calls[i].key, s.calls[i].pc.answer.time)
      ensures s.calls[i].kind.Historical? ==> Recorded(s.store, s.calls[i].key, s.calls[i].pc.answer.time)
    {
      assert CallIsGrounded(s, s0.store.redis, s.calls[i]);
    }
  }

  // ---------------------------------------------------------------- a reward that nobody gets

  /** Mongo has the claim, but no call was told to hand out the reward. */
  ghost predicate Unpaid(s: System, k: Key) {
    k in s.store.mongo && !HasWinner(s, k)
  }

  /**
    A call that fails after its insert loses the reward of its key exactly if that insert was the
    first; otherwise it changes neither store.
   */
  lemma InsertThenFailLosesIff(s: System, id: int, k: Key, initial: map<Key, int>)
    requires WinnersAreRecorded(s, initial) && id in s.calls && s.calls[id].pc.Insert?
    ensures Unpaid(Apply(s, InsertThenFail(id)), k) && !Unpaid(s, k) <==> k == s.calls[id].key && k !in s.store.mongo
    ensures s.calls[id].key in s.store.mongo ==> Apply(s, InsertThenFail(id)).store == s.store
  {
    var s' := Apply(s, InsertThenFail(id));
    if HasWinner(s, k) {
      var i :| i in s.calls && s.calls[i].key == k && s.calls[i].Won();
      assert s'.calls[i] == s.calls[i];
    }
    if HasWinner(s', k) {
      var i :| i in s'.calls && s'.calls[i].key == k && s'.calls[i].Won();
      assert s'.calls[i] == s.calls[i];
    }
  }

  /** And then it is lost for good: whatever happens, no call is ever told to hand it out. */
  lemma {:induction false} UnpaidForGood(s: System, actions: seq<Action>, k: Key, initial: map<Key, int>)
    requires WinnersAreRecorded(s, initial) && Unpaid(s, k)
    ensures Unpaid(Run(s, actions), k)
    decreases |actions|
  {
    if actions != [] {
      UnpaidStays(s, actions[0], k, initial);
      WinnersStayRecorded(s, actions[0], initial);
      UnpaidForGood(Apply(s, actions[0]), actions[1..], k, initial);
    }
  }

  lemma UnpaidStays(s: System, a: Action, k: Key, initial: map<Key, int>)
    requires WinnersAreRecorded(s, initial) && Unpaid(s, k)
    ensures Unpaid(Apply(s, a), k)
  {
    var s' := Apply(s, a);
    forall i <- s'.calls ensures !(s'.calls[i].key == k && s'.calls[i].Won()) {
      assert i in s.calls ==> s.calls[i].OnItsPath() && !(s.calls[i].key == k && s.calls[i].Won());
    }
  }

  // ---------------------------------------------------------------- failures that block a reward

  /** Redis refuses every claim on the key, but Mongo has none and no call will insert one. */
  ghost predicate Blocked(s: System, k: Key) {
    k in s.store.redis && s.store.redis[k].Time? && k !in s.store.mongo && !HasOwner(s, k)
  }

  ghost predicate HasOtherOwner(s: System, k: Key, id: int) {
    exists i <- s.calls :: i != id && s.calls[i].key == k && Owns(s.calls[i])
  }

  /**
    Exactly when a call that fails in a run without failures so far blocks a key: it is the
    call's own key, the call is between its script and its insert (or the restore after it),
    Mongo has no claim, Redis still holds a time, and no other call is about to insert one.
   */
  lemma FailureBlocksIff(s: System, id: int, k: Key)
    requires Settling(s) && id in s.calls && s.calls[id].Running()
    ensures
      Blocked(Apply(s, Fail(id)), k) <==>
        && s.calls[id].key == k && Owns(s.calls[id])
        && k !in s.store.mongo
        && k in s.store.redis && s.store.redis[k].Time?
        && !HasOtherOwner(s, k, id)
  {
    var s' := Apply(s, Fail(id));
    OwnerIsOtherOwner(s, s', k, id);
    if k in s.store.redis && s.store.redis[k].Time? && k !in s.store.mongo && !HasOtherOwner(s, k, id) {
      assert HasOwnerOf(s, k, s.store.redis[k].time);
    }
  }

  lemma OwnerIsOtherOwner(s: System, s': System, k: Key, id: int)
    requires id in s.calls && s' == s.(calls := s.calls[id := s.calls[id].(pc := Failed)])
    ensures HasOwner(s', k) <==> HasOtherOwner(s, k, id)
  {
    if HasOwner(s', k) {
      var i :| i in s'.calls && s'.calls[i].key == k && Owns(s'.calls[i]);
      assert i != id && s.calls[i] == s'.calls[i];
    }
    if HasOtherOwner(s, k, id) {
      var i :| i in s.calls && i != id && s.calls[i].key == k && Owns(s.calls[i]);
      assert s'.calls[i] == s.calls[i];
    }
  }

  /** A blocked key is refused: with a time nobody was paid for, and leaving everything as it is. */
  lemma BlockedClaimIsRefused(s: System, k: Key, id: int, now: int)
    requires Blocked(s, k) && id !in s.calls
    ensures
      Run(s, [Begin(id, Atomic, k, now), Move(id)])
      == s.(calls := s.calls[id := Call(Atomic, k, now, Done(Answer(true, s.store.redis[k].time)))])
  {
    var actions := [Begin(id, Atomic, k, now), Move(id)];
    TwoActions(s, actions);
    assert actions[2..] == [];
  }

  /** What ends the blocking: a loss, a claim that bypasses Redis, or the sentinel of a late query. */
  predicate Unblocks(s: System, a: Action, k: Key) {
    match a
    case Lose(keys) => k in keys
    case Move(id) =>
      && id in s.calls && s.calls[id].key == k
      && (s.calls[id].pc.Insert? || (s.calls[id].pc.Backfill? && s.calls[id].pc.found.None?))
    case InsertThenFail(id) => id in s.calls && s.calls[id].key == k && s.calls[id].pc.Insert?
    case _ => false
  }

  /** And nothing else does. */
  lemma BlockingEndsIff(s: System, a: Action, k: Key)
    requires Blocked(s, k)
    ensures Blocked(Apply(s, a), k) <==> !Unblocks(s, a, k)
  {
    var s' := Apply(s, a);
    if !Unblocks(s, a, k) {
      forall i <- s'.calls ensures !(s'.calls[i].key == k && Owns(s'.calls[i])) {
        assert i in s.calls ==> !(s.calls[i].key == k && Owns(s.calls[i]));
      }
    }
  }

  /** Such a run: a call stops after its script, and the next claim is refused because of it. */
  lemma CrashedClaimBlocksTheReward(k: Key, t1: int, t2: int)
    ensures
      var s := Run(System(Store(map[], map[]), map[]),
                   [Begin(1, Atomic, k, t1), Move(1), Fail(1), Begin(2, Atomic, k, t2), Move(2)]);
      && 2 in s.calls && s.calls[2].pc == Done(Answer(true, t1))
      && s.store.mongo == map[] && !HasWinner(s, k)
  {
    var s0 := System(Store(map[], map[]), map[]);
    var actions := [Begin(1, Atomic, k, t1), Move(1), Fail(1), Begin(2, Atomic, k, t2), Move(2)];
    FourActions(s0, actions);
    assert actions[4..] == [Move(2)];
  }

  /** Unfolds a run by two actions, and by four. */
  lemma TwoActions(s: System, actions: seq<Action>)
    requires |actions| >= 2
    ensures Run(s, actions) == Run(Apply(Apply(s, actions[0]), actions[1]), actions[2..])
  {
    assert actions[1..][1..] == actions[2..];
  }

  lemma FourActions(s: System, actions: seq<Action>)
    requires |actions| >= 4
    ensures Run(s, actions)
         == Run(Apply(Apply(Apply(Apply(s, actions[0]), actions[1]), actions[2]), actions[3]), actions[4..])
  {
    TwoActions(s, actions);
    TwoActions(Apply(Apply(s, actions[0]), actions[1]), actions[2..]);
    assert actions[2..][2..] == actions[4..];
  }
}
