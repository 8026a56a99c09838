/**
 The data-plane rate limiter: one token bucket per key, idle buckets pruned every 256
 operations, and shared overflow buckets once the map is full. Time is in seconds.
 */
module TokenBucket {
  import opened Basics
  import opened Sums

  const MAX_ENTRIES := 16384
  const OVERFLOW_BUCKETS := 64
  const PRUNE_EVERY := 256

  datatype Key = Key(first: nat, rest: nat)

  datatype Params = Params(rate: real, burst: real, ttl: real)

  datatype Bucket = Bucket(tokens: real, updated: real, lastSeen: real)

  datatype Limiter = Limiter(operations: nat, entries: map<Key, Bucket>, overflow: map<nat, Bucket>)

  datatype Taken = Taken(allowed: bool, wait: real, bucket: Bucket)

  datatype Answer = Answer(allowed: bool, wait: real, limiter: Limiter)

  predicate Sane(p: Params) {
    p.rate > 0.0 && p.burst >= 0.0 && p.ttl >= 0.0
  }

  function Fresh(p: Params, now: real): Bucket {
    Bucket(p.burst, now, now)
  }

  function Gain(p: Params, elapsed: real): real {
    elapsed * p.rate
  }

  function Refilled(p: Params, b: Bucket, now: real): Bucket {
    if now > b.updated then
      var full := b.tokens + Gain(p, now - b.updated);
      Bucket(if full < p.burst then full else p.burst, now, now)
    else b.(lastSeen := now)
  }

  function Take(p: Params, b: Bucket, now: real): Taken
    requires p.rate > 0.0
  {
    var r := Refilled(p, b, now);
    if r.tokens >= 1.0 then Taken(true, 0.0, r.(tokens := r.tokens - 1.0))
    else
      var wait := (1.0 - r.tokens) / p.rate;
      Taken(false, if wait < 0.001 then 0.001 else wait, r)
  }

  function Pruned(p: Params, entries: map<Key, Bucket>, now: real): map<Key, Bucket> {
    map k | k in entries && !(entries[k].lastSeen < now - p.ttl) :: entries[k]
  }

  function Kept(p: Params, l: Limiter, now: real): map<Key, Bucket> {
    if (l.operations + 1) % PRUNE_EVERY == 0 then Pruned(p, l.entries, now) else l.entries
  }

  function Allow(p: Params, l: Limiter, key: Key, now: real): Answer
    requires p.rate > 0.0
  {
    var kept := Kept(p, l, now);
    if key in kept || |kept| < MAX_ENTRIES then
      var t := Take(p, if key in kept then kept[key] else Fresh(p, now), now);
      Answer(t.allowed, t.wait, Limiter(l.operations + 1, kept[key := t.bucket], l.overflow))
    else
      var slot := key.first % OVERFLOW_BUCKETS;
      var t := Take(p, if slot in l.overflow then l.overflow[slot] else Fresh(p, now), now);
      Answer(t.allowed, t.wait, Limiter(l.operations + 1, kept, l.overflow[slot := t.bucket]))
  }

  // ---------- the limiter as the node keeps it ----------

  class RateLimiter {
    const params: Params
    var operations: nat
    var entries: map<Key, Bucket>
    var overflow: map<nat, Bucket>

    function State(): Limiter
      reads this
    {
      Limiter(operations, entries, overflow)
    }

    constructor (p: Params)
      ensures params == p && State() == Limiter(0, map[], map[])
    {
      params, operations, entries, overflow := p, 0, map[], map[];
    }

    method PruneLocked(now: real)
      modifies this`entries
      ensures entries == if operations % PRUNE_EVERY == 0 then Pruned(params, old(entries), now) else old(entries)
    {
      if operations % PRUNE_EVERY != 0 {
        return;
      }
      var rest, cutoff := entries.Keys, now - params.ttl;
      while rest != {}
        invariant rest <= old(entries).Keys
        invariant entries == map k | k in old(entries)
          && (k in rest || !(old(entries)[k].lastSeen < cutoff)) :: old(entries)[k]
        decreases rest
      {
        var key :| key in rest;
        if entries[key].lastSeen < cutoff {
          entries := entries - {key};
        }
        rest := rest - {key};
      }
    }

    method AllowRequest(key: Key, now: real) returns (allowed: bool, wait: real)
      requires params.rate > 0.0
      modifies this
      ensures Answer(allowed, wait, State()) == Allow(params, old(State()), key, now)
    {
      hide Pruned;
      operations := operations + 1;
      PruneLocked(now);
      var inMap, slot := true, key.first % OVERFLOW_BUCKETS;
      var bucket := Fresh(params, now);
      if key in entries {
        bucket := entries[key];
      } else if |entries| >= MAX_ENTRIES {
        inMap := false;
        if slot in overflow {
          bucket := overflow[slot];
        }
      }
      var elapsed := now - bucket.updated;
      if elapsed > 0.0 {
        var full := bucket.tokens + Gain(params, elapsed);
        bucket := bucket.(tokens := if full < params.burst then full else params.burst, updated := now);
      }
      bucket := bucket.(lastSeen := now);
      if bucket.tokens >= 1.0 {
        bucket := bucket.(tokens := bucket.tokens - 1.0);
        allowed, wait := true, 0.0;
      } else {
        allowed, wait := false, (1.0 - bucket.tokens) / params.rate;
        if wait < 0.001 {
          wait := 0.001;
        }
      }
      if inMap {
        entries := entries[key := bucket];
      } else {
        overflow := overflow[slot := bucket];
      }
    }
  }

  // ---------- one bucket ----------

  /** A bucket in use holds between nothing and the burst and was last refilled when last seen. */
  predicate Level(p: Params, b: Bucket, now: real) {
    0.0 <= b.tokens <= p.burst && b.updated == b.lastSeen <= now
  }

  lemma GainIsMonotone(p: Params, a: real, b: real)
    requires Sane(p) && 0.0 <= a <= b
    ensures 0.0 <= Gain(p, a) <= Gain(p, b)
  {
  }

  lemma TakeKeepsLevel(p: Params, b: Bucket, now: real)
    requires Sane(p) && Level(p, b, now)
    ensures var t := Take(p, b, now);
      && Level(p, t.bucket, now) && t.bucket.updated == now
      && t.bucket.tokens + (if t.allowed then 1.0 else 0.0) <= b.tokens + Gain(p, now - b.updated)
      && t.bucket.tokens + (if t.allowed then 1.0 else 0.0) <= p.burst
  {
    GainIsMonotone(p, 0.0, now - b.updated);
  }

  /** A refused caller that waits as told is admitted, unless the burst is below one token. */
  lemma WaitingSuffices(p: Params, b: Bucket, now: real, later: real)
    requires Sane(p) && p.burst >= 1.0 && Level(p, b, now)
    requires !Take(p, b, now).allowed && later >= now + Take(p, b, now).wait
    ensures Take(p, Take(p, b, now).bucket, later).allowed
  {
    TakeKeepsLevel(p, b, now);
    var t := Take(p, b, now);
    var missing := (1.0 - t.bucket.tokens) / p.rate;
    assert Gain(p, missing) == 1.0 - t.bucket.tokens;
    assert missing >= 0.0;
    GainIsMonotone(p, missing, later - now);
  }

  /** Any bucket idle for longer than the lifetime is as good as new. */
  ghost predicate IdleMeansFull(p: Params) {
    forall b: Bucket, now: real :: Level(p, b, now) && b.lastSeen < now - p.ttl ==> Refilled(p, b, now) == Fresh(p, now)
  }

  /** A moment after the lifetime at which a spent bucket would not be full yet. */
  lemma JustPastLifetime(p: Params) returns (later: real)
    requires Sane(p) && Gain(p, p.ttl) < p.burst
    ensures later > p.ttl && Gain(p, later) < p.burst
  {
    var spare := (p.burst - Gain(p, p.ttl)) / (2.0 * p.rate);
    assert spare > 0.0;
    assert Gain(p, spare) * 2.0 == p.burst - Gain(p, p.ttl);
    later := p.ttl + spare;
    assert Gain(p, later) == Gain(p, p.ttl) + Gain(p, spare);
  }

  /** Replacing any idle bucket by a new one is exact if and only if the burst refills within the lifetime. */
  lemma PruningExactIff(p: Params)
    requires Sane(p)
    ensures IdleMeansFull(p) <==> Gain(p, p.ttl) >= p.burst
  {
    if Gain(p, p.ttl) >= p.burst {
      forall b: Bucket, now: real | Level(p, b, now) && b.lastSeen < now - p.ttl
        ensures Refilled(p, b, now) == Fresh(p, now)
      {
        GainIsMonotone(p, p.ttl, now - b.updated);
      }
    } else {
      var b := Bucket(0.0, 0.0, 0.0);
      var now := JustPastLifetime(p);
      assert Level(p, b, now) && b.lastSeen < now - p.ttl && Refilled(p, b, now) != Fresh(p, now);
    }
  }

  // ---------- runs ----------

  datatype Call = Call(key: Key, now: real)

  predicate ClockRuns(calls: seq<Call>) {
    forall i, j :: 0 <= i <= j < |calls| ==> calls[i].now <= calls[j].now
  }

  function KeysOf(calls: seq<Call>): set<Key> {
    set i | 0 <= i < |calls| :: calls[i].key
  }

  function After(p: Params, calls: seq<Call>): Limiter
    requires p.rate > 0.0
  {
    if calls == [] then Limiter(0, map[], map[]) else
      var last := calls[|calls| - 1];
      Allow(p, After(p, calls[..|calls| - 1]), last.key, last.now).limiter
  }

  /** The answer to the `i`-th call of a run. */
  function AnswerAt(p: Params, calls: seq<Call>, i: nat): Answer
    requires p.rate > 0.0 && i < |calls|
  {
    Allow(p, After(p, calls[..i]), calls[i].key, calls[i].now)
  }

  /** The reference: one bucket per key that is never dropped. */
  function IdealTake(p: Params, b: Option<Bucket>, now: real): Taken
    requires p.rate > 0.0
  {
    Take(p, if b.Some? then b.value else Fresh(p, now), now)
  }

  function Ideal(p: Params, calls: seq<Call>, key: Key): Option<Bucket>
    requires p.rate > 0.0
  {
    if calls == [] then None else
      var before, last := Ideal(p, calls[..|calls| - 1], key), calls[|calls| - 1];
      if last.key == key then Some(IdealTake(p, before, last.now).bucket) else before
  }

  function IdealAt(p: Params, calls: seq<Call>, i: nat): Taken
    requires p.rate > 0.0 && i < |calls|
  {
    IdealTake(p, Ideal(p, calls[..i], calls[i].key), calls[i].now)
  }

  /** Calls of `key` from `i` up to `j` that the reference admits. */
  function Admissions(p: Params, calls: seq<Call>, key: Key, i: nat, j: nat): nat
    requires p.rate > 0.0 && i <= j <= |calls|
    decreases j
  {
    if i == j then 0 else
      Admissions(p, calls, key, i, j - 1)
      + if calls[j - 1].key == key && IdealAt(p, calls, j - 1).allowed then 1 else 0
  }

  lemma {:induction false} IdealLevel(p: Params, calls: seq<Call>, key: Key, now: real)
    requires Sane(p) && ClockRuns(calls) && (calls != [] ==> calls[|calls| - 1].now <= now)
    ensures Ideal(p, calls, key).Some? ==> Level(p, Ideal(p, calls, key).value, now)
  {
    if calls != [] {
      var front, last := calls[..|calls| - 1], calls[|calls| - 1];
      assert front != [] ==> front[|front| - 1].now <= last.now;
      IdealLevel(p, front, key, last.now);
      var before := Ideal(p, front, key);
      TakeKeepsLevel(p, if before.Some? then before.value else Fresh(p, last.now), last.now);
    }
  }

  /** The budget since call `i`: admissions plus tokens in hand never pass the burst and the refill. */
  lemma {:induction false} Budget(p: Params, calls: seq<Call>, key: Key, i: nat, j: nat)
    requires Sane(p) && ClockRuns(calls) && i <= j <= |calls|
    ensures Admissions(p, calls, key, i, j) == 0 ||
      (var b := Ideal(p, calls[..j], key);
       && b.Some? && calls[i].now <= b.value.updated
       && Admissions(p, calls, key, i, j) as real + b.value.tokens <= p.burst + Gain(p, b.value.updated - calls[i].now))
    decreases j
  {
    if i < j {
      var last := calls[j - 1];
      assert calls[..j][..j - 1] == calls[..j - 1];
      Budget(p, calls, key, i, j - 1);
      if last.key == key {
        var before := Ideal(p, calls[..j - 1], key);
        IdealLevel(p, calls[..j - 1], key, last.now);
        var b := if before.Some? then before.value else Fresh(p, last.now);
        TakeKeepsLevel(p, b, last.now);
        BudgetStep(p, calls[i].now, b, last.now);
      }
    }
  }

  lemma BudgetStep(p: Params, start: real, b: Bucket, now: real)
    requires Sane(p) && start <= now && b.updated <= now
    ensures Gain(p, now - start) >= 0.0
    ensures Gain(p, b.updated - start) + Gain(p, now - b.updated) == Gain(p, now - start)
  {
  }

  // ---------- pruning ----------

  /** The map holds the reference buckets; a missing one is unused or idle past its lifetime. */
  ghost predicate Mirrors(p: Params, entries: map<Key, Bucket>, calls: seq<Call>, now: real)
    requires p.rate > 0.0
  {
    forall key ::
      && (key in entries ==> Ideal(p, calls, key) == Some(entries[key]))
      && (key !in entries && Ideal(p, calls, key).Some? ==> Ideal(p, calls, key).value.lastSeen < now - p.ttl)
  }

  lemma MirrorsLater(p: Params, l: Limiter, calls: seq<Call>, now: real, later: real)
    requires Sane(p) && Mirrors(p, l.entries, calls, now) && now <= later
    ensures Mirrors(p, Kept(p, l, later), calls, later)
  {
    hide Ideal;
  }

  /** A new bucket and an idle one answer alike. */
  lemma SameTake(p: Params, entries: map<Key, Bucket>, calls: seq<Call>, key: Key, now: real)
    requires Sane(p) && Gain(p, p.ttl) >= p.burst && Mirrors(p, entries, calls, now)
    requires Ideal(p, calls, key).Some? ==> Level(p, Ideal(p, calls, key).value, now)
    ensures Take(p, if key in entries then entries[key] else Fresh(p, now), now)
      == IdealTake(p, Ideal(p, calls, key), now)
  {
    hide Ideal, Gain;
    if key !in entries && Ideal(p, calls, key).Some? {
      PruningExactIff(p);
      assert Refilled(p, Ideal(p, calls, key).value, now) == Fresh(p, now);
    }
  }

  lemma StepMirrors(p: Params, l: Limiter, calls: seq<Call>, call: Call, from: real)
    requires Sane(p) && Gain(p, p.ttl) >= p.burst && Mirrors(p, l.entries, calls, from) && from <= call.now
    requires Ideal(p, calls, call.key).Some? ==> Level(p, Ideal(p, calls, call.key).value, call.now)
    requires call.key in Kept(p, l, call.now) || |Kept(p, l, call.now)| < MAX_ENTRIES
    ensures var answer, ideal := Allow(p, l, call.key, call.now), IdealTake(p, Ideal(p, calls, call.key), call.now);
      answer.allowed == ideal.allowed && answer.wait == ideal.wait
    ensures Mirrors(p, Allow(p, l, call.key, call.now).limiter.entries, calls + [call], call.now)
  {
    MirrorsLater(p, l, calls, from, call.now);
    var kept := Kept(p, l, call.now);
    SameTake(p, kept, calls, call.key, call.now);
    assert (calls + [call])[..|calls|] == calls;
    hide Take, Kept, Gain;
  }

  lemma {:induction false} EntriesAreCallers(p: Params, calls: seq<Call>)
    requires p.rate > 0.0
    ensures After(p, calls).entries.Keys <= KeysOf(calls)
  {
    if calls != [] {
      var front, last := calls[..|calls| - 1], calls[|calls| - 1];
      EntriesAreCallers(p, front);
      assert KeysOf(front) <= KeysOf(calls) && last.key in KeysOf(calls);
    }
  }

  /** The map is below capacity whenever a call brings a key it does not hold. */
  predicate HasRoom(p: Params, calls: seq<Call>)
    requires p.rate > 0.0
  {
    forall i :: 0 <= i < |calls| ==>
      var kept := Kept(p, After(p, calls[..i]), calls[i].now);
      calls[i].key in kept || |kept| < MAX_ENTRIES
  }

  /** With at most as many callers as the map holds, there is always room. */
  lemma RoomForAll(p: Params, calls: seq<Call>)
    requires p.rate > 0.0 && |KeysOf(calls)| <= MAX_ENTRIES
    ensures HasRoom(p, calls)
  {
    forall i | 0 <= i < |calls|
      ensures var kept := Kept(p, After(p, calls[..i]), calls[i].now); calls[i].key in kept || |kept| < MAX_ENTRIES
    {
      var kept := Kept(p, After(p, calls[..i]), calls[i].now);
      EntriesAreCallers(p, calls[..i]);
      assert KeysOf(calls[..i]) <= KeysOf(calls);
      assert kept.Keys <= KeysOf(calls);
      if calls[i].key !in kept {
        assert calls[i].key in KeysOf(calls);
        SubsetSize(kept.Keys, KeysOf(calls) - {calls[i].key});
      }
    }
  }

  /** The `i`-th call is answered as by the reference: the same verdict and the same wait. */
  predicate SameAnswer(p: Params, calls: seq<Call>, i: nat)
    requires p.rate > 0.0 && i < |calls|
  {
    AnswerAt(p, calls, i).allowed == IdealAt(p, calls, i).allowed
      && AnswerAt(p, calls, i).wait == IdealAt(p, calls, i).wait
  }

  lemma {:induction false} RunMirrors(p: Params, calls: seq<Call>, i: nat)
    requires Sane(p) && Gain(p, p.ttl) >= p.burst && ClockRuns(calls) && HasRoom(p, calls) && i <= |calls|
    ensures i == 0 ==> forall now :: Mirrors(p, After(p, calls[..i]).entries, calls[..i], now)
    ensures i > 0 ==> Mirrors(p, After(p, calls[..i]).entries, calls[..i], calls[i - 1].now)
    ensures i < |calls| ==> SameAnswer(p, calls, i)
  {
    hide SameAnswer, HasRoom, Gain;
    if i > 0 {
      RunMirrors(p, calls, i - 1);
      OneCall(p, calls, i - 1);
    }
    if i < |calls| {
      OneCall(p, calls, i);
    }
  }

  lemma OneCall(p: Params, calls: seq<Call>, i: nat)
    requires Sane(p) && Gain(p, p.ttl) >= p.burst && ClockRuns(calls) && HasRoom(p, calls) && i < |calls|
    requires Mirrors(p, After(p, calls[..i]).entries, calls[..i], if i == 0 then calls[0].now else calls[i - 1].now)
    ensures SameAnswer(p, calls, i)
    ensures Mirrors(p, After(p, calls[..i + 1]).entries, calls[..i + 1], calls[i].now)
  {
    hide Allow, Ideal, IdealTake, Gain, HasRoom, Kept, Mirrors, After, Level;
    IdealLevel(p, calls[..i], calls[i].key, calls[i].now);
    RoomAt(p, calls, i);
    AfterStep(p, calls, i);
    StepMirrors(p, After(p, calls[..i]), calls[..i], calls[i], if i == 0 then calls[0].now else calls[i - 1].now);
  }

  lemma RoomAt(p: Params, calls: seq<Call>, i: nat)
    requires p.rate > 0.0 && HasRoom(p, calls) && i < |calls|
    ensures var kept := Kept(p, After(p, calls[..i]), calls[i].now); calls[i].key in kept || |kept| < MAX_ENTRIES
  {
  }

  lemma AfterStep(p: Params, calls: seq<Call>, i: nat)
    requires p.rate > 0.0 && i < |calls|
    ensures calls[..i] + [calls[i]] == calls[..i + 1]
    ensures After(p, calls[..i + 1]) == AnswerAt(p, calls, i).limiter
  {
    assert calls[..i + 1][..i] == calls[..i];
  }

  /** Pruning is unobservable: every call is answered as by a bucket that is never dropped. */
  lemma PruningIsUnobservable(p: Params, calls: seq<Call>, i: nat)
    requires Sane(p) && Gain(p, p.ttl) >= p.burst && ClockRuns(calls) && HasRoom(p, calls) && i < |calls|
    ensures SameAnswer(p, calls, i)
  {
    hide SameAnswer, HasRoom, Gain;
    RunMirrors(p, calls, i);
  }

  /** Calls of `key` from `i` up to `j` that the limiter admits. */
  function AdmittedCount(p: Params, calls: seq<Call>, key: Key, i: nat, j: nat): nat
    requires p.rate > 0.0 && i <= j <= |calls|
    decreases j
  {
    if i == j then 0 else
      AdmittedCount(p, calls, key, i, j - 1)
      + if calls[j - 1].key == key && AnswerAt(p, calls, j - 1).allowed then 1 else 0
  }

  lemma {:induction false} SameCounts(p: Params, calls: seq<Call>, key: Key, i: nat, j: nat)
    requires p.rate > 0.0 && i <= j <= |calls| && forall k :: 0 <= k < |calls| ==> SameAnswer(p, calls, k)
    ensures AdmittedCount(p, calls, key, i, j) == Admissions(p, calls, key, i, j)
    decreases j
  {
    hide AnswerAt, IdealAt;
    if i < j {
      SameCounts(p, calls, key, i, j - 1);
      assert SameAnswer(p, calls, j - 1);
    }
  }

  /** The reference admits at most the burst and what is refilled meanwhile. */
  lemma ReferenceBounded(p: Params, calls: seq<Call>, key: Key, i: nat, j: nat)
    requires Sane(p) && ClockRuns(calls) && i < j <= |calls|
    ensures Admissions(p, calls, key, i, j) as real <= Allowance(p, calls[j - 1].now - calls[i].now)
  {
    hide Admissions, Ideal, Gain;
    Budget(p, calls, key, i, j);
    IdealLevel(p, calls[..j], key, calls[j - 1].now);
    GainIsMonotone(p, 0.0, calls[j - 1].now - calls[i].now);
    if Admissions(p, calls, key, i, j) != 0 {
      var b := Ideal(p, calls[..j], key).value;
      GainIsMonotone(p, b.updated - calls[i].now, calls[j - 1].now - calls[i].now);
    }
  }

  // ---------- exactly when the limiter keeps its promises ----------

  /** What a stretch of time may admit: the burst and `rate * length`. */
  function Allowance(p: Params, length: real): real {
    p.burst + Gain(p, length)
  }

  /** In every run with room in the map, every call is answered as by the reference. */
  ghost predicate NeverObserved(p: Params)
    requires p.rate > 0.0
  {
    forall calls: seq<Call>, i :: ClockRuns(calls) && HasRoom(p, calls) && 0 <= i < |calls| ==> SameAnswer(p, calls, i)
  }

  /** In every stretch of every run with room in the map, a key is admitted at most the allowance. */
  ghost predicate RateKept(p: Params)
    requires p.rate > 0.0
  {
    forall calls: seq<Call>, key, i, j :: ClockRuns(calls) && HasRoom(p, calls) && 0 <= i < j <= |calls| ==>
      AdmittedCount(p, calls, key, i, j) as real <= Allowance(p, calls[j - 1].now - calls[i].now)
  }

  lemma UnobservedKeepsRate(p: Params)
    requires Sane(p) && NeverObserved(p)
    ensures RateKept(p)
  {
    hide AdmittedCount, Allowance, SameAnswer, HasRoom;
    forall calls: seq<Call>, key, i, j | ClockRuns(calls) && HasRoom(p, calls) && 0 <= i < j <= |calls|
      ensures AdmittedCount(p, calls, key, i, j) as real <= Allowance(p, calls[j - 1].now - calls[i].now)
    {
      SameCounts(p, calls, key, i, j);
      ReferenceBounded(p, calls, key, i, j);
    }
  }

  /** In any stretch of a run a key is admitted at most `burst + rate * length` times. */
  lemma AdmissionsBounded(p: Params, calls: seq<Call>, key: Key, i: nat, j: nat)
    requires Sane(p) && Gain(p, p.ttl) >= p.burst && ClockRuns(calls) && HasRoom(p, calls) && i < j <= |calls|
    ensures AdmittedCount(p, calls, key, i, j) as real <= p.burst + (calls[j - 1].now - calls[i].now) * p.rate
  {
    hide AdmittedCount, Admissions, SameAnswer, HasRoom;
    forall k | 0 <= k < |calls| ensures SameAnswer(p, calls, k) {
      PruningIsUnobservable(p, calls, k);
    }
    SameCounts(p, calls, key, i, j);
    ReferenceBounded(p, calls, key, i, j);
  }

  // ---------- the failing run ----------

  const BUSY := Key(0, 0)
  const OTHER := Key(1, 0)

  /** Calls of the other key that bring the next operation to a multiple of 256. */
  function Padding(n: nat): nat {
    (PRUNE_EVERY - 1 - n) % PRUNE_EVERY
  }

  /** `n` calls of one key at 0, padding by another, and `n` more calls of the first at `later`. */
  function Burst(n: nat, later: real): seq<Call> {
    seq(n + Padding(n) + n, i => Call(
      if n <= i < n + Padding(n) then OTHER else BUSY, if i < n + Padding(n) then 0.0 else later))
  }

  /** The busy key's bucket after `i` of those calls; absent before the first. */
  predicate BurstState(p: Params, n: nat, later: real, i: nat, l: Limiter) {
    var quiet := n + Padding(n);
    && l.operations == i
    && (i == 0 ==> l.entries == map[])
    && (0 < i <= n ==> BUSY in l.entries && l.entries[BUSY] == Bucket((n - i) as real, 0.0, 0.0))
    && (n < i <= quiet ==> BUSY in l.entries && l.entries[BUSY] == Bucket(0.0, 0.0, 0.0))
    && (quiet < i ==> BUSY in l.entries && l.entries[BUSY] == Bucket((n + quiet - i) as real, later, later))
  }

  lemma BurstStep(p: Params, n: nat, later: real, i: nat, l: Limiter)
    requires Sane(p) && n >= 1 && p.burst == n as real && later > p.ttl
    requires i < |Burst(n, later)| && BurstState(p, n, later, i, l)
    requires var call := Burst(n, later)[i];
      call.key in Kept(p, l, call.now) || |Kept(p, l, call.now)| < MAX_ENTRIES
    ensures var call := Burst(n, later)[i];
      && BurstState(p, n, later, i + 1, Allow(p, l, call.key, call.now).limiter)
      && (call.key == BUSY ==> Allow(p, l, call.key, call.now).allowed)
  {
    hide Gain;
    var call, quiet := Burst(n, later)[i], n + Padding(n);
    var kept := Kept(p, l, call.now);
    assert (quiet + 1) % PRUNE_EVERY == 0;
    if i != quiet {
      assert i > 0 ==> BUSY in kept && kept[BUSY] == l.entries[BUSY];
    } else {
      assert BUSY !in kept;
    }
  }

  lemma BurstHasRoom(p: Params, n: nat, later: real)
    requires Sane(p)
    ensures HasRoom(p, Burst(n, later))
  {
    var calls := Burst(n, later);
    assert KeysOf(calls) <= {BUSY, OTHER};
    SubsetSize(KeysOf(calls), {BUSY, OTHER});
    RoomForAll(p, calls);
  }

  /** Every call of the busy key is admitted, the second batch from a bucket it has not earned. */
  lemma {:induction false} BurstAdmitted(p: Params, n: nat, later: real, i: nat)
    requires Sane(p) && n >= 1 && p.burst == n as real && later > p.ttl && i <= |Burst(n, later)|
    ensures BurstState(p, n, later, i, After(p, Burst(n, later)[..i]))
    ensures i < |Burst(n, later)| && Burst(n, later)[i].key == BUSY ==> AnswerAt(p, Burst(n, later), i).allowed
  {
    hide Burst, BurstState, Allow, Kept, HasRoom, After;
    var calls := Burst(n, later);
    BurstHasRoom(p, n, later);
    if i == 0 {
      assert calls[..0] == [];
      NothingYet(p, n, later);
    } else {
      BurstAdmitted(p, n, later, i - 1);
      AfterStep(p, calls, i - 1);
      RoomAt(p, calls, i - 1);
      BurstStep(p, n, later, i - 1, After(p, calls[..i - 1]));
    }
    if i < |calls| {
      RoomAt(p, calls, i);
      BurstStep(p, n, later, i, After(p, calls[..i]));
    }
  }

  lemma NothingYet(p: Params, n: nat, later: real)
    requires p.rate > 0.0
    ensures BurstState(p, n, later, 0, After(p, []))
  {
  }

  lemma BurstKey(n: nat, later: real, i: nat)
    requires i < |Burst(n, later)|
    ensures Burst(n, later)[i].key == if n <= i < n + Padding(n) then OTHER else BUSY
  {
  }

  lemma {:induction false} BurstCount(p: Params, n: nat, later: real, j: nat)
    requires Sane(p) && n >= 1 && p.burst == n as real && later > p.ttl && j <= |Burst(n, later)|
    ensures AdmittedCount(p, Burst(n, later), BUSY, 0, j) ==
      if j <= n then j else if j <= n + Padding(n) then n else j - Padding(n)
    decreases j
  {
    hide Burst, AnswerAt, BurstState, After, Padding;
    if j > 0 {
      BurstCount(p, n, later, j - 1);
      BurstAdmitted(p, n, later, j - 1);
      BurstKey(n, later, j - 1);
    }
  }

  /**
   When the burst does not refill within the lifetime, a key that spends its burst, stays
   idle just past the lifetime and comes back on a pruning operation is admitted `2 * n`
   times in a stretch that allows fewer.
   */
  lemma OveradmittingRun(p: Params, n: nat) returns (calls: seq<Call>)
    requires Sane(p) && n >= 1 && p.burst == n as real && Gain(p, p.ttl) < p.burst
    ensures ClockRuns(calls) && HasRoom(p, calls) && calls != []
    ensures AdmittedCount(p, calls, BUSY, 0, |calls|) == 2 * n
    ensures AdmittedCount(p, calls, BUSY, 0, |calls|) as real > Allowance(p, calls[|calls| - 1].now - calls[0].now)
  {
    hide AdmittedCount, HasRoom, Gain;
    var later := JustPastLifetime(p);
    calls := Burst(n, later);
    BurstHasRoom(p, n, later);
    BurstCount(p, n, later, |calls|);
    assert later - 0.0 == later;
  }

  lemma ShortLifetimeBreaksRate(p: Params, n: nat)
    requires Sane(p) && n >= 1 && p.burst == n as real && Gain(p, p.ttl) < p.burst
    ensures !RateKept(p)
  {
    hide Gain, AdmittedCount, Allowance, HasRoom;
    var calls := OveradmittingRun(p, n);
  }

  lemma LongLifetimeIsUnobserved(p: Params)
    requires Sane(p) && Gain(p, p.ttl) >= p.burst
    ensures NeverObserved(p)
  {
    hide Gain, SameAnswer, HasRoom;
    forall calls: seq<Call>, i | ClockRuns(calls) && HasRoom(p, calls) && 0 <= i < |calls|
      ensures SameAnswer(p, calls, i)
    {
      PruningIsUnobservable(p, calls, i);
    }
  }

  /**
   For the whole-number bursts of the configuration: the rate is kept in every run with
   room in the map if and only if the burst refills within the lifetime of an idle entry,
   and exactly then pruning cannot be observed either.
   */
  lemma RateKeptExactly(p: Params, n: nat)
    requires Sane(p) && p.burst == n as real
    ensures RateKept(p) <==> Gain(p, p.ttl) >= p.burst
    ensures NeverObserved(p) <==> Gain(p, p.ttl) >= p.burst
  {
    GainIsMonotone(p, 0.0, p.ttl);
    hide Gain, RateKept, NeverObserved;
    if Gain(p, p.ttl) >= p.burst {
      LongLifetimeIsUnobserved(p);
    } else {
      ShortLifetimeBreaksRate(p, n);
    }
    if NeverObserved(p) {
      UnobservedKeepsRate(p);
    }
  }

  // ---------- a full map ----------

  /** The `i`-th call finds the map full and is sent to this shared bucket. */
  predicate Overflows(p: Params, calls: seq<Call>, i: nat, slot: nat)
    requires p.rate > 0.0 && i < |calls|
  {
    var kept := Kept(p, After(p, calls[..i]), calls[i].now);
    calls[i].key !in kept && |kept| >= MAX_ENTRIES && calls[i].key.first % OVERFLOW_BUCKETS == slot
  }

  /** Calls from `i` up to `j` that a shared bucket admits, whoever makes them. */
  function OverflowCount(p: Params, calls: seq<Call>, slot: nat, i: nat, j: nat): nat
    requires p.rate > 0.0 && i <= j <= |calls|
    decreases j
  {
    if i == j then 0 else
      OverflowCount(p, calls, slot, i, j - 1)
      + if Overflows(p, calls, j - 1, slot) && AnswerAt(p, calls, j - 1).allowed then 1 else 0
  }

  /** What one call does to a shared bucket: nothing, or one attempt. */
  lemma OverflowStep(p: Params, calls: seq<Call>, i: nat, slot: nat)
    requires p.rate > 0.0 && i < |calls|
    ensures var before, after := After(p, calls[..i]).overflow, After(p, calls[..i + 1]).overflow;
      if Overflows(p, calls, i, slot) then
        var t := Take(p, if slot in before then before[slot] else Fresh(p, calls[i].now), calls[i].now);
        slot in after && after[slot] == t.bucket && AnswerAt(p, calls, i).allowed == t.allowed
      else (slot in after <==> slot in before) && (slot in before ==> after[slot] == before[slot])
  {
    AfterStep(p, calls, i);
    hide After, Take, Kept;
  }

  lemma {:induction false} OverflowLevel(p: Params, calls: seq<Call>, slot: nat, i: nat, now: real)
    requires Sane(p) && ClockRuns(calls) && i <= |calls| && (i > 0 ==> calls[i - 1].now <= now)
    ensures var l := After(p, calls[..i]); slot in l.overflow ==> Level(p, l.overflow[slot], now)
    decreases i
  {
    if i > 0 {
      var call := calls[i - 1];
      OverflowLevel(p, calls, slot, i - 1, call.now);
      OverflowStep(p, calls, i - 1, slot);
      var before := After(p, calls[..i - 1]).overflow;
      TakeKeepsLevel(p, if slot in before then before[slot] else Fresh(p, call.now), call.now);
      hide After, Take, AnswerAt, Overflows;
    }
  }

  /** Admissions plus tokens in hand of a shared bucket never pass the burst and the refill. */
  lemma {:induction false} OverflowBudget(p: Params, calls: seq<Call>, slot: nat, i: nat, j: nat)
    requires Sane(p) && ClockRuns(calls) && i <= j <= |calls|
    ensures OverflowCount(p, calls, slot, i, j) == 0 ||
      (var l := After(p, calls[..j]);
       && slot in l.overflow && calls[i].now <= l.overflow[slot].updated
       && OverflowCount(p, calls, slot, i, j) as real + l.overflow[slot].tokens
            <= p.burst + Gain(p, l.overflow[slot].updated - calls[i].now))
    decreases j
  {
    hide After, Take, AnswerAt, Overflows, Gain;
    if i < j {
      var call := calls[j - 1];
      OverflowBudget(p, calls, slot, i, j - 1);
      OverflowStep(p, calls, j - 1, slot);
      if Overflows(p, calls, j - 1, slot) {
        var before := After(p, calls[..j - 1]).overflow;
        OverflowLevel(p, calls, slot, j - 1, call.now);
        var b := if slot in before then before[slot] else Fresh(p, call.now);
        TakeKeepsLevel(p, b, call.now);
        BudgetStep(p, calls[i].now, b, call.now);
      }
    }
  }

  /** Callers who find the map full share one allowance per bucket, whatever the lifetime. */
  lemma OverflowBounded(p: Params, calls: seq<Call>, slot: nat, i: nat, j: nat)
    requires Sane(p) && ClockRuns(calls) && i < j <= |calls|
    ensures OverflowCount(p, calls, slot, i, j) as real <= Allowance(p, calls[j - 1].now - calls[i].now)
  {
    hide OverflowCount, After, Gain;
    OverflowBudget(p, calls, slot, i, j);
    OverflowLevel(p, calls, slot, j, calls[j - 1].now);
    GainIsMonotone(p, 0.0, calls[j - 1].now - calls[i].now);
    if OverflowCount(p, calls, slot, i, j) != 0 {
      var b := After(p, calls[..j]).overflow[slot];
      GainIsMonotone(p, b.updated - calls[i].now, calls[j - 1].now - calls[i].now);
    }
  }
}
