/**
  The claim operations as the store and its handler run them when no other call interleaves:
  Redis and Mongo are updated in place, and together they answer like one permanent map.
 */
module ClaimStore {
  import opened Options
  import opened ClaimProtocol
  import ClaimRuns

  /** Alone, a call returns after at most three accesses; this unfolds them. */
  lemma ThreeAccessesSuffice(st: Store, kind: Kind, key: Key, now: int)
    ensures
      var (s1, c1) := Advance(st, Call(kind, key, now, Start));
      var (s2, c2) := if c1.Running() then Advance(s1, c1) else (s1, c1);
      var (s3, c3) := if c2.Running() then Advance(s2, c2) else (s2, c2);
      c3.pc.Done? && Complete(st, Call(kind, key, now, Start)) == (s3, c3.pc.answer)
  {
    var (s1, c1) := Advance(st, Call(kind, key, now, Start));
    if c1.Running() {
      var (s2, c2) := Advance(s1, c1);
      if c2.Running() {
        var (s3, c3) := Advance(s2, c2);
        assert Complete(s2, c2) == Complete(s3, c3);
      }
      assert Complete(s1, c1) == Complete(s2, c2);
    }
  }

  class ClaimStore {
    var redis: map<Key, Field>
    var mongo: map<Key, int>

    function Contents(): Store
      reads this
    {
      Store(redis, mongo)
    }

    constructor ()
      ensures Contents() == Store(map[], map[])
    {
      redis, mongo := map[], map[];
    }

    /** Redis drops some fields. */
    method Evict(keys: set<Key>)
      modifies this`redis
      ensures redis == old(redis) - keys
    {
      redis := redis - keys;
    }

    /** Mongo's side: insert unless present, and report the time on record. */
    method SaveClaimIfNotExists(key: Key, claimTime: int) returns (isFirst: bool, existingTime: int)
      modifies this`mongo
      ensures isFirst == (key !in old(mongo))
      ensures mongo == if isFirst then old(mongo)[key := claimTime] else old(mongo)
      ensures key in mongo && existingTime == mongo[key]
    {
      if key !in mongo {
        mongo := mongo[key := claimTime];
        return true, claimTime;
      }
      return false, mongo[key];
    }

    method AtomicClaim(key: Key, now: int) returns (claimed: bool, claimTime: int)
      modifies this
      ensures (Contents(), Answer(claimed, claimTime)) == Complete(old(Contents()), Call(Atomic, key, now, Start))
    {
      ThreeAccessesSuffice(Contents(), Atomic, key, now);
      // the Lua script
      if key in redis && redis[key].Time? {
        return true, redis[key].time;
      }
      redis := redis[key := Time(now)];

      if key in mongo {
        var mongoTime := mongo[key];
        redis := redis[key := Time(mongoTime)];
        return true, mongoTime;
      }
      // no call overlaps, so the branch for a lost race on the insert cannot be taken here
      var isFirst, savedTime := SaveClaimIfNotExists(key, now);
      return !isFirst, savedTime;
    }

    method ClaimHistoricalReward(key: Key, now: int) returns (claimed: bool, claimTime: int)
      modifies this`mongo
      ensures (Contents(), Answer(claimed, claimTime)) == Complete(old(Contents()), Call(Historical, key, now, Start))
    {
      ThreeAccessesSuffice(Contents(), Historical, key, now);
      var isFirst, ct := SaveClaimIfNotExists(key, now);
      return !isFirst, ct;
    }

    method GetClaim(key: Key) returns (claimTime: int, found: bool)
      modifies this`redis
      ensures forall now ::
                (Contents(), Answer(found, claimTime)) == Complete(old(Contents()), Call(Query, key, now, Start))
    {
      forall now {
        ThreeAccessesSuffice(Contents(), Query, key, now);
      }
      if key in redis {
        match redis[key] {
          case Null => return 0, false;
          case Time(t) => return t, true;
        }
      }
      if key in mongo {
        var t := mongo[key];
        redis := redis[key := Time(t)];
        return t, true;
      }
      redis := redis[key := Null];
      return 0, false;
    }
  }

  /** In the interleaved system, a call whose accesses nobody separates behaves like `Complete`. */
  lemma UninterruptedCallCompletes(s: ClaimRuns.System, id: int, kind: Kind, key: Key, now: int)
    requires id !in s.calls
    ensures
      var s' := ClaimRuns.Run(s, [ClaimRuns.Begin(id, kind, key, now),
                                  ClaimRuns.Move(id), ClaimRuns.Move(id), ClaimRuns.Move(id)]);
      var (st, answer) := Complete(s.store, Call(kind, key, now, Start));
      s' == ClaimRuns.System(st, s.calls[id := Call(kind, key, now, Done(answer))])
  {
    var actions := [ClaimRuns.Begin(id, kind, key, now),
                    ClaimRuns.Move(id), ClaimRuns.Move(id), ClaimRuns.Move(id)];
    ClaimRuns.FourActions(s, actions);
    assert actions[4..] == [];
    ThreeAccessesSuffice(s.store, kind, key, now);
  }

  // ---------------------------------------------------------------- one permanent map

  /** Every time cached in Redis is Mongo's. */
  ghost predicate Coherent(st: Store) {
    forall k <- st.redis :: st.redis[k].Time? ==> k in st.mongo && st.mongo[k] == st.redis[k].time
  }

  /** The sentinel "not claimed" outlived the claim it denies. */
  predicate StaleSentinel(st: Store, k: Key) {
    k in st.redis && st.redis[k].Null? && k in st.mongo
  }

  /** The specification: a claim adds the key once and for all, a query looks it up. */
  function MapAnswer(m: map<Key, int>, kind: Kind, key: Key, now: int): (map<Key, int>, Answer) {
    if key in m then (m, Answer(true, m[key]))
    else if kind.Query? then (m, Answer(false, 0))
    else (m[key := now], Answer(false, now))
  }

  /**
    One uninterrupted call against the permanent map. Mongo always becomes what the map becomes
    and the caches stay coherent; the answer is the map's answer, except for a query that hits a
    stale sentinel, and then it never is.
   */
  lemma CallAnswersAsOneMap(st: Store, kind: Kind, key: Key, now: int)
    requires Coherent(st)
    ensures
      var (st', answer) := Complete(st, Call(kind, key, now, Start));
      var (m', expected) := MapAnswer(st.mongo, kind, key, now);
      && st'.mongo == m' && Coherent(st')
      && (answer == expected <==> !(kind.Query? && StaleSentinel(st, key)))
  {
    ThreeAccessesSuffice(st, kind, key, now);
  }

  /** Only a historical claim, which bypasses Redis, can make a sentinel stale. */
  lemma OnlyHistoricalClaimsStaleASentinel(st: Store, kind: Kind, key: Key, now: int, k: Key)
    requires Coherent(st) && !StaleSentinel(st, k)
    ensures
      StaleSentinel(Complete(st, Call(kind, key, now, Start)).0, k)
      <==> kind.Historical? && k == key && k !in st.mongo && k in st.redis
  {
    ThreeAccessesSuffice(st, kind, key, now);
  }

  /**
    What an uninterrupted call leaves in Redis: a claim and a query leave their own answer, as a
    time or as the sentinel; a historical claim leaves Redis alone; and no call touches another key.
   */
  lemma CallsLeaveTheirAnswerInRedis(st: Store, kind: Kind, key: Key, now: int)
    ensures
      var (st', answer) := Complete(st, Call(kind, key, now, Start));
      match kind
      case Atomic => st'.redis == st.redis[key := Time(answer.time)]
      case Query => st'.redis == st.redis[key := if answer.claimed then Time(answer.time) else Null]
      case Historical => st'.redis == st.redis
  {
    ThreeAccessesSuffice(st, kind, key, now);
  }

  datatype Op = Do(kind: Kind, key: Key, now: int) | Evict(keys: set<Key>)

  function Answers(st: Store, ops: seq<Op>): seq<Answer>
    decreases |ops|
  {
    if ops == [] then []
    else
      match ops[0]
      case Do(kind, key, now) =>
        var (st', answer) := Complete(st, Call(kind, key, now, Start));
        [answer] + Answers(st', ops[1..])
      case Evict(keys) =>
        Answers(st.(redis := st.redis - keys), ops[1..])
  }

  /** Evictions do not exist for the map. */
  function MapAnswers(m: map<Key, int>, ops: seq<Op>): seq<Answer>
    decreases |ops|
  {
    if ops == [] then []
    else
      match ops[0]
      case Do(kind, key, now) =>
        var (m', answer) := MapAnswer(m, kind, key, now);
        [answer] + MapAnswers(m', ops[1..])
      case Evict(_) =>
        MapAnswers(m, ops[1..])
  }

  /**
    Refinement: from coherent stores without stale sentinels, any sequence of AtomicClaim and
    GetClaim calls, with any evictions between them, is answered as by one permanent map.
   */
  lemma {:induction false} StoresAnswerAsOneMap(st: Store, ops: seq<Op>)
    requires Coherent(st) && (forall k <- st.redis :: !StaleSentinel(st, k))
    requires forall op <- ops :: op.Do? ==> !op.kind.Historical?
    ensures Answers(st, ops) == MapAnswers(st.mongo, ops)
    decreases |ops|
  {
    if ops != [] {
      match ops[0]
      case Do(kind, key, now) =>
        CallAnswersAsOneMap(st, kind, key, now);
        forall k <- Complete(st, Call(kind, key, now, Start)).0.redis
          ensures !StaleSentinel(Complete(st, Call(kind, key, now, Start)).0, k) {
          OnlyHistoricalClaimsStaleASentinel(st, kind, key, now, k);
        }
        StoresAnswerAsOneMap(Complete(st, Call(kind, key, now, Start)).0, ops[1..]);
      case Evict(keys) =>
        assert forall k <- st.redis - keys :: !StaleSentinel(st, k);
        StoresAnswerAsOneMap(st.(redis := st.redis - keys), ops[1..]);
    }
  }

  /** Some query of the sequence meets a sentinel that has become stale. */
  predicate HitsStaleSentinel(st: Store, ops: seq<Op>)
    decreases |ops|
  {
    ops != [] &&
      match ops[0]
      case Do(kind, key, now) =>
        || (kind.Query? && StaleSentinel(st, key))
        || HitsStaleSentinel(Complete(st, Call(kind, key, now, Start)).0, ops[1..])
      case Evict(keys) =>
        HitsStaleSentinel(st.(redis := st.redis - keys), ops[1..])
  }

  /** With historical claims in the sequence as well, this is exactly when some answer is wrong. */
  lemma {:induction false} SequenceAnswersAsOneMapIff(st: Store, ops: seq<Op>)
    requires Coherent(st)
    ensures Answers(st, ops) == MapAnswers(st.mongo, ops) <==> !HitsStaleSentinel(st, ops)
    decreases |ops|
  {
    if ops != [] {
      match ops[0]
      case Do(kind, key, now) =>
        var (st', answer) := Complete(st, Call(kind, key, now, Start));
        var (m', expected) := MapAnswer(st.mongo, kind, key, now);
        CallAnswersAsOneMap(st, kind, key, now);
        SequenceAnswersAsOneMapIff(st', ops[1..]);
        var later, laterExpected := Answers(st', ops[1..]), MapAnswers(m', ops[1..]);
        assert ([answer] + later)[0] == answer && ([expected] + laterExpected)[0] == expected;
        assert ([answer] + later)[1..] == later && ([expected] + laterExpected)[1..] == laterExpected;
      case Evict(keys) =>
        SequenceAnswersAsOneMapIff(st.(redis := st.redis - keys), ops[1..]);
    }
  }

  /** Such a sequence: a query caches the sentinel, a historical claim goes past it. */
  lemma StaleSentinelDeniesAClaim(k: Key, t1: int, t2: int, t3: int)
    ensures
      var ops := [Do(Query, k, t1), Do(Historical, k, t2), Do(Query, k, t3)];
      && Answers(Store(map[], map[]), ops) == [Answer(false, 0), Answer(false, t2), Answer(false, 0)]
      && MapAnswers(map[], ops) == [Answer(false, 0), Answer(false, t2), Answer(true, t2)]
  {
    var ops := [Do(Query, k, t1), Do(Historical, k, t2), Do(Query, k, t3)];
    var s0, s1, s2 := Store(map[], map[]), Store(map[k := Null], map[]), Store(map[k := Null], map[k := t2]);
    ThreeAccessesSuffice(s0, Query, k, t1);
    ThreeAccessesSuffice(s1, Historical, k, t2);
    ThreeAccessesSuffice(s2, Query, k, t3);
    assert ops[1..] == [ops[1], ops[2]] && [ops[1], ops[2]][1..] == [ops[2]] && [ops[2]][1..] == [];
    assert Answers(s2, [ops[2]]) == [Answer(false, 0)];
    assert Answers(s1, [ops[1], ops[2]]) == [Answer(false, t2), Answer(false, 0)];
    assert MapAnswers(map[k := t2], [ops[2]]) == [Answer(true, t2)];
    assert MapAnswers(map[], [ops[1], ops[2]]) == [Answer(false, t2), Answer(true, t2)];
  }

  /** Claims alone, historical ones included, never answer wrongly, whatever Redis remembers. */
  lemma {:induction false} ClaimsAnswerAsOneMap(st: Store, ops: seq<Op>)
    requires Coherent(st)
    requires forall op <- ops :: op.Do? ==> !op.kind.Query?
    ensures Answers(st, ops) == MapAnswers(st.mongo, ops)
    decreases |ops|
  {
    if ops != [] {
      match ops[0]
      case Do(kind, key, now) =>
        CallAnswersAsOneMap(st, kind, key, now);
        ClaimsAnswerAsOneMap(Complete(st, Call(kind, key, now, Start)).0, ops[1..]);
      case Evict(keys) =>
        ClaimsAnswerAsOneMap(st.(redis := st.redis - keys), ops[1..]);
    }
  }
}
