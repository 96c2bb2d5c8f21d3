/**
 The write rate limiter: token buckets in a map that is swept of idle callers and
 capped, past the cap, by one shared overflow bucket.
 */
module RateLimit {
  import opened Options

  // Times are seconds on the limiter's clock, token counts are reals.
  const IDLE_TTL: real := 600.0
  const SWEEP_INTERVAL: real := 60.0
  const MAX_BUCKETS: nat := 8192
  const ANON_WRITE_COST: real := 4.0
  const OVERFLOW_KEY: string := "\0overflow"

  // Writes a minute; a limiter exists only for a positive rate.
  type Rate = n: int | n > 0 witness 1

  function Capacity(rate: Rate): (r: real) ensures r > 0.0 { rate as real }

  function Refill(rate: Rate): (r: real) ensures r > 0.0 { rate as real / 60.0 }

  function Min(a: real, b: real): real { if a < b then a else b }

  function Ceil(x: real): int { -((-x).Floor) }

  datatype Bucket = Bucket(tokens: real, last: real)

  datatype Verdict = Verdict(retryAfter: int, ok: bool)

  // lastSweep is None for the zero time, which is always due.
  datatype State = State(buckets: map<string, Bucket>, lastSweep: Option<real>)

  function SweepIdle(buckets: map<string, Bucket>, now: real): map<string, Bucket> {
    map k | k in buckets && now - buckets[k].last <= IDLE_TTL :: buckets[k]
  }

  predicate SweepDue(st: State, now: real) {
    st.lastSweep.None? || now - st.lastSweep.value >= SWEEP_INTERVAL
  }

  // The state a call is served in, an unseen key having triggered the sweep when it is due.
  function Served(st: State, key: string, now: real): State {
    if key !in st.buckets && SweepDue(st, now) then State(SweepIdle(st.buckets, now), Some(now)) else st
  }

  // The bucket a call is charged to.
  function Charged(st: State, key: string, now: real): string {
    if key !in st.buckets && |Served(st, key, now).buckets| >= MAX_BUCKETS then OVERFLOW_KEY else key
  }

  // The tokens that come in over an interval.
  function Gain(rate: Rate, elapsed: real): real { elapsed * Refill(rate) }

  function Refilled(rate: Rate, b: Bucket, now: real): real {
    Min(Capacity(rate), b.tokens + Gain(rate, now - b.last))
  }

  // The tokens a bucket has at an instant; one that is not there yet is full.
  function TokensAt(rate: Rate, b: Option<Bucket>, now: real): real {
    if b.None? then Capacity(rate) else Refilled(rate, b.value, now)
  }

  function Lookup(buckets: map<string, Bucket>, key: string): Option<Bucket> {
    if key in buckets then Some(buckets[key]) else None
  }

  function Level(rate: Rate, st: State, key: string, now: real): real {
    TokensAt(rate, Lookup(st.buckets, key), now)
  }

  // One charge against a bucket holding `tokens`.
  function Charge(rate: Rate, tokens: real, cost: real, now: real): (Bucket, Verdict) {
    if tokens < cost then (Bucket(tokens, now), Verdict(Ceil((cost - tokens) / Refill(rate)), false))
    else (Bucket(tokens - cost, now), Verdict(0, true))
  }

  function Step(rate: Rate, st: State, key: string, cost: real, now: real): (State, Verdict) {
    var served, charged := Served(st, key, now), Charged(st, key, now);
    var (b, v) := Charge(rate, Level(rate, served, charged, now), cost, now);
    (served.(buckets := served.buckets[charged := b]), v)
  }

  class RateLimiter {
    const rate: Rate
    var buckets: map<string, Bucket>
    var lastSweep: Option<real>

    constructor (rate: Rate)
      ensures this.rate == rate && Snapshot() == State(map[], None)
    {
      this.rate := rate;
      buckets, lastSweep := map[], None;
    }

    ghost function Snapshot(): State reads this { State(buckets, lastSweep) }

    method Sweep(now: real)
      modifies this
      ensures buckets == SweepIdle(old(buckets), now) && lastSweep == old(lastSweep)
    {
      var before := buckets;
      var pending := buckets.Keys;
      while pending != {}
        invariant pending <= before.Keys && lastSweep == old(lastSweep)
        invariant buckets == map k | k in before && (k in pending || now - before[k].last <= IDLE_TTL) :: before[k]
        decreases pending
      {
        var key :| key in pending;
        if now - buckets[key].last > IDLE_TTL {
          buckets := buckets - {key};
        }
        pending := pending - {key};
      }
    }

    method AllowCost(key: string, cost: real, now: real) returns (v: Verdict)
      modifies this
      ensures (Snapshot(), v) == Step(rate, old(Snapshot()), key, cost, now)
    {
      hide SweepIdle, Refilled, Capacity, Refill, Ceil;
      ghost var before := Snapshot();
      var charged := key;
      if key !in buckets {
        if lastSweep.None? || now - lastSweep.value >= SWEEP_INTERVAL {
          Sweep(now);
          lastSweep := Some(now);
        }
        if |buckets| >= MAX_BUCKETS {
          charged := OVERFLOW_KEY;
        }
        if charged !in buckets {
          buckets := buckets[charged := Bucket(Capacity(rate), now)];
        }
      }
      var b := buckets[charged];
      var tokens := Refilled(rate, b, now);
      JustCharged(rate, Bucket(Capacity(rate), now));
      assert tokens == Level(rate, Served(before, key, now), charged, now);
      if tokens < cost {
        buckets := buckets[charged := Bucket(tokens, now)];
        assert buckets == Served(before, key, now).buckets[charged := Bucket(tokens, now)];
        return Verdict(Ceil((cost - tokens) / Refill(rate)), false);
      }
      buckets := buckets[charged := Bucket(tokens - cost, now)];
      assert buckets == Served(before, key, now).buckets[charged := Bucket(tokens - cost, now)];
      return Verdict(0, true);
    }
  }

  // A non-positive rate builds no limiter, and no limiter allows everything.
  method NewRateLimiter(perMinute: int) returns (l: RateLimiter?)
    ensures l == null <==> perMinute <= 0
    ensures l != null ==> fresh(l) && l.rate == perMinute && l.Snapshot() == State(map[], None)
  {
    if perMinute <= 0 {
      return null;
    }
    l := new RateLimiter(perMinute);
  }

  method Allow(l: RateLimiter?, key: string, now: real) returns (v: Verdict)
    modifies if l == null then {} else {l}
    ensures l == null ==> v == Verdict(0, true)
    ensures l != null ==> (l.Snapshot(), v) == Step(l.rate, old(l.Snapshot()), key, 1.0, now)
  {
    if l == null {
      return Verdict(0, true);
    }
    v := l.AllowCost(key, 1.0, now);
  }

  method AllowAnonymous(l: RateLimiter?, key: string, now: real) returns (v: Verdict)
    modifies if l == null then {} else {l}
    ensures l == null ==> v == Verdict(0, true)
    ensures l != null ==>
              (l.Snapshot(), v) == Step(l.rate, old(l.Snapshot()), key, Min(ANON_WRITE_COST, Capacity(l.rate)), now)
  {
    if l == null {
      return Verdict(0, true);
    }
    v := l.AllowCost(key, Min(ANON_WRITE_COST, Capacity(l.rate)), now);
  }

  // ---- The level of a bucket, and what moves it ----

  predicate SaneBucket(rate: Rate, b: Bucket, now: real) {
    0.0 <= b.tokens <= Capacity(rate) && b.last <= now
  }

  predicate Sane(rate: Rate, st: State, now: real) {
    forall k | k in st.buckets :: SaneBucket(rate, st.buckets[k], now)
  }

  lemma GainAdds(rate: Rate, a: real, b: real)
    ensures Gain(rate, a + b) == Gain(rate, a) + Gain(rate, b)
    ensures a <= b <==> Gain(rate, a) <= Gain(rate, b)
    ensures Gain(rate, 0.0) == 0.0
    ensures Gain(rate, 60.0) == Capacity(rate)
  {
    assert a <= b <==> a * Refill(rate) <= b * Refill(rate);
  }

  // Left alone, a bucket fills at the refill rate up to the capacity.
  lemma LevelRises(rate: Rate, b: Option<Bucket>, s: real, t: real)
    requires s <= t && (b.Some? ==> SaneBucket(rate, b.value, s))
    ensures TokensAt(rate, b, t) == Min(Capacity(rate), TokensAt(rate, b, s) + Gain(rate, t - s))
    ensures 0.0 <= TokensAt(rate, b, s) <= Capacity(rate)
  {
    hide Gain;
    GainAdds(rate, 0.0, t - s);
    if b.Some? {
      GainAdds(rate, 0.0, s - b.value.last);
      GainAdds(rate, s - b.value.last, t - s);
      assert t - b.value.last == (s - b.value.last) + (t - s);
    }
  }

  lemma IdleIsFull(rate: Rate, b: Bucket, now: real)
    requires SaneBucket(rate, b, now) && now - b.last > IDLE_TTL
    ensures TokensAt(rate, Some(b), now) == Capacity(rate)
  {
    hide Gain;
    GainAdds(rate, 60.0, now - b.last);
  }

  // An idle bucket is full, so sweeping it away changes no level.
  lemma SweepKeepsLevels(rate: Rate, st: State, key: string, k: string, now: real)
    requires Sane(rate, st, now)
    ensures Level(rate, Served(st, key, now), k, now) == Level(rate, st, k, now)
    ensures Sane(rate, Served(st, key, now), now)
  {
    hide Refilled;
    if k in st.buckets && now - st.buckets[k].last > IDLE_TTL {
      IdleIsFull(rate, st.buckets[k], now);
    }
  }

  lemma JustCharged(rate: Rate, b: Bucket)
    requires SaneBucket(rate, b, b.last)
    ensures Refilled(rate, b, b.last) == b.tokens == TokensAt(rate, Some(b), b.last)
  {
    hide Gain;
    GainAdds(rate, 0.0, 0.0);
  }

  lemma ChargeIsSane(rate: Rate, tokens: real, cost: real, now: real)
    requires 0.0 <= tokens <= Capacity(rate) && 0.0 < cost
    ensures var (b, v) := Charge(rate, tokens, cost, now);
            && SaneBucket(rate, b, now) && b.last == now
            && b.tokens == tokens - (if v.ok then cost else 0.0)
  {
  }

  // A call takes its cost from the bucket it is charged to, if granted, and nothing else moves.
  lemma StepLevels(rate: Rate, st: State, key: string, cost: real, now: real, k: string)
    requires Sane(rate, st, now) && 0.0 < cost
    ensures var (after, v) := Step(rate, st, key, cost, now);
            && Sane(rate, after, now)
            && Level(rate, after, k, now)
               == Level(rate, st, k, now) - (if v.ok && Charged(st, key, now) == k then cost else 0.0)
            && v == Charge(rate, Level(rate, st, Charged(st, key, now), now), cost, now).1
  {
    hide Served, Charged, TokensAt, SaneBucket, Charge;
    var served, charged := Served(st, key, now), Charged(st, key, now);
    SweepKeepsLevels(rate, st, key, k, now);
    SweepKeepsLevels(rate, st, key, charged, now);
    LevelRises(rate, Lookup(served.buckets, charged), now, now);
    ChargeIsSane(rate, Level(rate, served, charged, now), cost, now);
    var (b, v) := Charge(rate, Level(rate, served, charged, now), cost, now);
    JustCharged(rate, b);
  }

  // ---- One call in numbers ----

  // The keys that keep their bucket when this key calls: all of them, or those not idle if an unseen key finds the
  // sweep due.
  function Remaining(st: State, key: string, now: real): set<string> {
    set k | k in st.buckets
            && (key in st.buckets || (st.lastSweep.Some? && now - st.lastSweep.value < SWEEP_INTERVAL) || now - st.buckets[k].last <= IDLE_TTL)
  }

  // Only an unseen key that finds the map at its ceiling shares the overflow bucket.
  function BucketFor(st: State, key: string, now: real): string {
    if key in st.buckets || |Remaining(st, key, now)| < MAX_BUCKETS then key else OVERFLOW_KEY
  }

  lemma ChargedExactly(st: State, key: string, now: real)
    ensures Served(st, key, now).buckets.Keys == Remaining(st, key, now)
    ensures Charged(st, key, now) == BucketFor(st, key, now)
  {
    var served := Served(st, key, now).buckets;
    assert served.Keys == Remaining(st, key, now);
    assert |served| == |served.Keys|;
  }

  // What a bucket holds: it starts full and refills at a sixtieth of the rate a second, up to the rate.
  function Have(rate: Rate, b: Option<Bucket>, now: real): real {
    var full := rate as real;
    if b.None? then full else Min(full, b.value.tokens + (now - b.value.last) * (full / 60.0))
  }

  lemma LevelExactly(rate: Rate, st: State, key: string, k: string, now: real)
    requires k in Remaining(st, key, now) || k !in Served(st, key, now).buckets
    ensures Level(rate, Served(st, key, now), k, now)
            == Have(rate, if k in Remaining(st, key, now) then Some(st.buckets[k]) else None, now)
  {
    hide Remaining;
    ChargedExactly(st, key, now);
  }

  // A call leaves the remaining buckets as they were, but for the one it is charged to, which pays if it can.
  lemma StepExactly(rate: Rate, st: State, key: string, cost: real, now: real)
    ensures var (after, v) := Step(rate, st, key, cost, now);
            var left, k := Remaining(st, key, now), BucketFor(st, key, now);
            var have := Have(rate, if k in left then Some(st.buckets[k]) else None, now);
            && after.buckets.Keys == left + {k}
            && (forall other | other in left && other != k :: after.buckets[other] == st.buckets[other])
            && (v.ok <==> cost <= have)
            && after.buckets[k] == Bucket(if v.ok then have - cost else have, now)
            && after.lastSweep == (if key !in st.buckets && (st.lastSweep.None? || now - st.lastSweep.value >= SWEEP_INTERVAL)
                                   then Some(now) else st.lastSweep)
  {
    hide Remaining, BucketFor, Level, Have;
    ChargedExactly(st, key, now);
    LevelExactly(rate, st, key, Charged(st, key, now), now);
  }

  // ---- Runs of calls ----

  datatype Call = Call(key: string, cost: real, now: real)

  const FRESH: State := State(map[], None)

  predicate Chronological(calls: seq<Call>) {
    && (forall i | 0 <= i < |calls| :: 0.0 < calls[i].cost)
    && (forall i, j | 0 <= i <= j < |calls| :: calls[i].now <= calls[j].now)
  }

  // The limiter after its first n calls.
  function After(rate: Rate, calls: seq<Call>, n: nat): State
    requires n <= |calls|
  {
    if n == 0 then FRESH else Step(rate, After(rate, calls, n - 1), calls[n - 1].key, calls[n - 1].cost, calls[n - 1].now).0
  }

  function VerdictAt(rate: Rate, calls: seq<Call>, i: nat): Verdict
    requires i < |calls|
  {
    Step(rate, After(rate, calls, i), calls[i].key, calls[i].cost, calls[i].now).1
  }

  function ChargedAt(rate: Rate, calls: seq<Call>, i: nat): string
    requires i < |calls|
  {
    Charged(After(rate, calls, i), calls[i].key, calls[i].now)
  }

  predicate Bounded(st: State) {
    |st.buckets| <= MAX_BUCKETS || (|st.buckets| == MAX_BUCKETS + 1 && OVERFLOW_KEY in st.buckets)
  }

  lemma StepIsBounded(rate: Rate, st: State, key: string, cost: real, now: real)
    requires Bounded(st)
    ensures Bounded(Step(rate, st, key, cost, now).0)
  {
    hide Charge, TokensAt;
    var served := Served(st, key, now);
    var kept := SweepIdle(st.buckets, now);
    SmallerMap(kept, st.buckets);
    var charged := Charged(st, key, now);
    var after := Step(rate, st, key, cost, now).0;
    assert after.buckets.Keys == served.buckets.Keys + {charged};
  }

  lemma SmallerMap(a: map<string, Bucket>, b: map<string, Bucket>)
    requires a.Keys <= b.Keys
    ensures |a| <= |b|
    ensures |a| == |b| ==> a.Keys == b.Keys
  {
    assert |a| == |a.Keys| && |b| == |b.Keys|;
    SmallerSet(a.Keys, b.Keys);
  }

  lemma {:induction false} SmallerSet(a: set<string>, b: set<string>)
    requires a <= b
    ensures |a| <= |b|
    ensures |a| == |b| ==> a == b
  {
    if a != {} {
      var x :| x in a;
      SmallerSet(a - {x}, b - {x});
    }
  }

  // Whoever calls, however often and in whatever order of times, the map stays within its ceiling and the overflow bucket.
  lemma {:induction false} MapIsBounded(rate: Rate, calls: seq<Call>, n: nat)
    requires n <= |calls|
    ensures Bounded(After(rate, calls, n))
    ensures |After(rate, calls, n).buckets| <= MAX_BUCKETS + 1
  {
    if n > 0 {
      MapIsBounded(rate, calls, n - 1);
      StepIsBounded(rate, After(rate, calls, n - 1), calls[n - 1].key, calls[n - 1].cost, calls[n - 1].now);
    }
  }

  lemma {:induction false} RunIsSane(rate: Rate, calls: seq<Call>, n: nat, now: real)
    requires n <= |calls| && Chronological(calls) && (n > 0 ==> calls[n - 1].now <= now)
    ensures Sane(rate, After(rate, calls, n), now)
  {
    if n > 0 {
      var last := calls[n - 1];
      RunIsSane(rate, calls, n - 1, last.now);
      StepLevels(rate, After(rate, calls, n - 1), last.key, last.cost, last.now, last.key);
    }
  }

  // What call i took from bucket k.
  function Taken(rate: Rate, calls: seq<Call>, i: nat, k: string): real
    requires i < |calls|
  {
    if VerdictAt(rate, calls, i).ok && ChargedAt(rate, calls, i) == k then calls[i].cost else 0.0
  }

  // A bucket's level after call i, at any later time, follows from its level just before the call.
  lemma LevelAfter(rate: Rate, calls: seq<Call>, i: nat, k: string, t: real)
    requires i < |calls| && Chronological(calls) && calls[i].now <= t
    ensures var before := Level(rate, After(rate, calls, i), k, calls[i].now);
            && 0.0 <= Level(rate, After(rate, calls, i + 1), k, t) <= Capacity(rate)
            && Level(rate, After(rate, calls, i + 1), k, t)
               == Min(Capacity(rate), before - Taken(rate, calls, i, k) + Gain(rate, t - calls[i].now))
    ensures VerdictAt(rate, calls, i)
            == Charge(rate, Level(rate, After(rate, calls, i), ChargedAt(rate, calls, i), calls[i].now),
                      calls[i].cost, calls[i].now).1
  {
    hide Charge, TokensAt, Charged, Served, Capacity, Gain;
    var st, c := After(rate, calls, i), calls[i];
    RunIsSane(rate, calls, i, c.now);
    RunIsSane(rate, calls, i + 1, c.now);
    StepLevels(rate, st, c.key, c.cost, c.now, k);
    LevelRises(rate, Lookup(After(rate, calls, i + 1).buckets, k), c.now, t);
    LevelRises(rate, Lookup(After(rate, calls, i + 1).buckets, k), t, t);
  }

  // ---- The rate bound ----

  function Granted(rate: Rate, calls: seq<Call>, i: nat, j: nat, k: string): real
    requires i <= j <= |calls|
    decreases j
  {
    if i == j then 0.0 else Granted(rate, calls, i, j - 1, k) + Taken(rate, calls, j - 1, k)
  }

  // What any stretch of calls took from one bucket, plus what is left in it, is at most one burst plus the refill.
  lemma {:induction false} RateBound(rate: Rate, calls: seq<Call>, i: nat, j: nat, k: string, t: real)
    requires i < j <= |calls| && Chronological(calls) && calls[j - 1].now <= t
    ensures Granted(rate, calls, i, j, k) + Level(rate, After(rate, calls, j), k, t)
            <= Capacity(rate) + Gain(rate, t - calls[i].now)
    ensures 0.0 <= Level(rate, After(rate, calls, j), k, t) <= Capacity(rate)
  {
    hide Taken, VerdictAt, ChargedAt, TokensAt, Level, Capacity, Gain, Charge, After;
    var last := calls[j - 1].now;
    LevelAfter(rate, calls, j - 1, k, t);
    if i == j - 1 {
      LevelBounds(rate, calls, i, k);
    } else {
      RateBound(rate, calls, i, j - 1, k, last);
      GainAdds(rate, t - last, last - calls[i].now);
      assert t - calls[i].now == (t - last) + (last - calls[i].now);
    }
  }

  lemma LevelBounds(rate: Rate, calls: seq<Call>, i: nat, k: string)
    requires i < |calls| && Chronological(calls)
    ensures 0.0 <= Level(rate, After(rate, calls, i), k, calls[i].now) <= Capacity(rate)
  {
    RunIsSane(rate, calls, i, calls[i].now);
    LevelRises(rate, Lookup(After(rate, calls, i).buckets, k), calls[i].now, calls[i].now);
  }

  // ---- Expiry cannot be seen ----

  // One bucket for one key, never expired and never shared.
  function Solo(rate: Rate, calls: seq<Call>, n: nat, k: string): Option<Bucket>
    requires n <= |calls|
  {
    if n == 0 then None
    else if calls[n - 1].key != k then Solo(rate, calls, n - 1, k)
    else Some(Charge(rate, TokensAt(rate, Solo(rate, calls, n - 1, k), calls[n - 1].now), calls[n - 1].cost, calls[n - 1].now).0)
  }

  function SoloVerdict(rate: Rate, calls: seq<Call>, i: nat): Verdict
    requires i < |calls|
  {
    Charge(rate, TokensAt(rate, Solo(rate, calls, i, calls[i].key), calls[i].now), calls[i].cost, calls[i].now).1
  }

  // Every call of the first n has a bucket for its key or room for one.
  predicate HasRoom(rate: Rate, calls: seq<Call>, n: nat)
    requires n <= |calls|
  {
    forall i | 0 <= i < n :: RoomAt(rate, calls, i)
  }

  predicate RoomAt(rate: Rate, calls: seq<Call>, i: nat)
    requires i < |calls|
  {
    var st := After(rate, calls, i);
    calls[i].key in st.buckets || |Remaining(st, calls[i].key, calls[i].now)| < MAX_BUCKETS
  }

  // Which keys called.
  function Callers(calls: seq<Call>, n: nat): set<string>
    requires n <= |calls|
  {
    set i | 0 <= i < n :: calls[i].key
  }

  lemma MoreCallers(calls: seq<Call>, n: nat)
    requires n < |calls|
    ensures Callers(calls, n + 1) == Callers(calls, n) + {calls[n].key}
  {
  }

  // The map holds callers only, as long as there are no more of them than it may hold.
  lemma {:induction false} OnlyCallers(rate: Rate, calls: seq<Call>, n: nat)
    requires n <= |calls| && |Callers(calls, n)| <= MAX_BUCKETS
    ensures After(rate, calls, n).buckets.Keys <= Callers(calls, n)
    ensures HasRoom(rate, calls, n)
  {
    hide Step, RoomAt, Remaining, BucketFor, Callers;
    if n > 0 {
      var c, st := calls[n - 1], After(rate, calls, n - 1);
      MoreCallers(calls, n - 1);
      SmallerSet(Callers(calls, n - 1), Callers(calls, n));
      OnlyCallers(rate, calls, n - 1);
      RoomForCaller(rate, calls, n - 1);
      StepExactly(rate, st, c.key, c.cost, c.now);
      RemainingAreThere(st, c.key, c.now);
      OwnBucket(rate, calls, n - 1);
    }
  }

  lemma RemainingAreThere(st: State, key: string, now: real)
    ensures Remaining(st, key, now) <= st.buckets.Keys
  {
  }

  lemma OwnBucket(rate: Rate, calls: seq<Call>, i: nat)
    requires i < |calls| && RoomAt(rate, calls, i)
    ensures BucketFor(After(rate, calls, i), calls[i].key, calls[i].now) == calls[i].key
  {
  }

  lemma RoomForCaller(rate: Rate, calls: seq<Call>, i: nat)
    requires i < |calls| && |Callers(calls, i + 1)| <= MAX_BUCKETS
    requires After(rate, calls, i).buckets.Keys <= Callers(calls, i)
    ensures RoomAt(rate, calls, i)
  {
    hide Step, After, Callers, Remaining;
    var st, c := After(rate, calls, i), calls[i];
    MoreCallers(calls, i);
    if c.key !in st.buckets {
      RemainingAreThere(st, c.key, c.now);
      SmallerSet(Remaining(st, c.key, c.now), Callers(calls, i + 1) - {c.key});
    }
  }

  // With no more callers than buckets, every call is charged to its own key, however the sweeps fall.
  lemma FewCallersNeverShare(rate: Rate, calls: seq<Call>, i: nat)
    requires i < |calls| && |Callers(calls, i + 1)| <= MAX_BUCKETS
    ensures ChargedAt(rate, calls, i) == calls[i].key
  {
    hide Remaining, Callers, After, BucketFor, Charged;
    OnlyCallers(rate, calls, i + 1);
    assert RoomAt(rate, calls, i);
    OwnBucket(rate, calls, i);
    ChargedExactly(After(rate, calls, i), calls[i].key, calls[i].now);
  }

  lemma RoomMeansOwn(rate: Rate, calls: seq<Call>, n: nat)
    requires n <= |calls| && HasRoom(rate, calls, n)
    ensures forall i | 0 <= i < n :: ChargedAt(rate, calls, i) == calls[i].key
  {
    hide Remaining, After, BucketFor, Charged, RoomAt;
    forall i | 0 <= i < n ensures ChargedAt(rate, calls, i) == calls[i].key {
      assert RoomAt(rate, calls, i);
      OwnBucket(rate, calls, i);
      ChargedExactly(After(rate, calls, i), calls[i].key, calls[i].now);
    }
  }

  // Different callers at one moment.
  ghost predicate Crowd(calls: seq<Call>) {
    && (forall i | 0 <= i < |calls| :: calls[i].key != OVERFLOW_KEY && calls[i].now == calls[0].now)
    && (forall i, j | 0 <= i < j < |calls| :: calls[i].key != calls[j].key)
  }

  // Whose buckets the map holds once the first n of a crowd have called.
  function Seated(calls: seq<Call>, n: nat): set<string>
    requires n <= |calls|
  {
    if n <= MAX_BUCKETS then Callers(calls, n) else Callers(calls, MAX_BUCKETS) + {OVERFLOW_KEY}
  }

  ghost predicate HoldsCrowd(st: State, calls: seq<Call>, n: nat)
    requires n <= |calls|
  {
    st.buckets.Keys == Seated(calls, n) && forall k | k in st.buckets :: st.buckets[k].last == calls[0].now
  }

  lemma {:induction false} CrowdFills(rate: Rate, calls: seq<Call>, n: nat)
    requires Crowd(calls) && n <= |calls|
    ensures HoldsCrowd(After(rate, calls, n), calls, n)
  {
    if n > 0 {
      hide HoldsCrowd, Step, Crowd;
      CrowdFills(rate, calls, n - 1);
      CrowdCall(rate, calls, n - 1, After(rate, calls, n - 1));
    }
  }

  lemma CrowdCall(rate: Rate, calls: seq<Call>, n: nat, st: State)
    requires Crowd(calls) && n < |calls| && HoldsCrowd(st, calls, n)
    ensures HoldsCrowd(Step(rate, st, calls[n].key, calls[n].cost, calls[n].now).0, calls, n + 1)
  {
    hide Step, Remaining, BucketFor, Callers;
    var c := calls[n];
    var k := BucketFor(st, c.key, c.now);
    CrowdStep(calls, n, st);
    StepExactly(rate, st, c.key, c.cost, c.now);
    MoreCallers(calls, n);
    assert Seated(calls, n + 1) == Seated(calls, n) + {k};
  }

  lemma CrowdStep(calls: seq<Call>, n: nat, st: State)
    requires Crowd(calls) && n < |calls| && HoldsCrowd(st, calls, n)
    ensures Remaining(st, calls[n].key, calls[n].now) == st.buckets.Keys
    ensures BucketFor(st, calls[n].key, calls[n].now) == if n < MAX_BUCKETS then calls[n].key else OVERFLOW_KEY
  {
    hide Callers;
    var c, m := calls[n], if n < MAX_BUCKETS then n else MAX_BUCKETS;
    CallersCount(calls, m);
    NotYetCalled(calls, m, n);
    OverflowIsNoCaller(calls, m);
    assert Remaining(st, c.key, c.now) == st.buckets.Keys;
    SmallerSet(Callers(calls, m), st.buckets.Keys);
  }

  lemma NotYetCalled(calls: seq<Call>, m: nat, n: nat)
    requires Crowd(calls) && m <= n < |calls|
    ensures calls[n].key !in Callers(calls, m)
  {
  }

  lemma OverflowIsNoCaller(calls: seq<Call>, m: nat)
    requires Crowd(calls) && m <= |calls|
    ensures OVERFLOW_KEY !in Callers(calls, m)
  {
  }

  lemma {:induction false} CallersCount(calls: seq<Call>, n: nat)
    requires Crowd(calls) && n <= |calls|
    ensures |Callers(calls, n)| == n
  {
    if n > 0 {
      CallersCount(calls, n - 1);
      MoreCallers(calls, n - 1);
      NotYetCalled(calls, n - 1, n - 1);
    }
  }

  // The bound on the callers is tight: of a crowd, exactly the first 8192 have their own bucket.
  lemma CrowdShares(rate: Rate, calls: seq<Call>, i: nat)
    requires Crowd(calls) && i < |calls|
    ensures ChargedAt(rate, calls, i) == if i < MAX_BUCKETS then calls[i].key else OVERFLOW_KEY
  {
    hide Remaining, Callers, After, BucketFor, Charged;
    CrowdFills(rate, calls, i);
    CrowdStep(calls, i, After(rate, calls, i));
    ChargedExactly(After(rate, calls, i), calls[i].key, calls[i].now);
  }

  lemma {:induction false} SoloIsSane(rate: Rate, calls: seq<Call>, n: nat, k: string, now: real)
    requires n <= |calls| && Chronological(calls) && (n > 0 ==> calls[n - 1].now <= now)
    ensures var b := Solo(rate, calls, n, k); b.Some? ==> SaneBucket(rate, b.value, now)
  {
    hide Charge, TokensAt;
    if n > 0 {
      SoloIsSane(rate, calls, n - 1, k, calls[n - 1].now);
      if calls[n - 1].key == k {
        LevelRises(rate, Solo(rate, calls, n - 1, k), calls[n - 1].now, calls[n - 1].now);
        ChargeIsSane(rate, TokensAt(rate, Solo(rate, calls, n - 1, k), calls[n - 1].now), calls[n - 1].cost, calls[n - 1].now);
      }
    }
  }

  lemma SoloAfter(rate: Rate, calls: seq<Call>, i: nat, k: string, t: real)
    requires i < |calls| && Chronological(calls) && calls[i].now <= t
    ensures var before := TokensAt(rate, Solo(rate, calls, i, k), calls[i].now);
            var taken := if calls[i].key == k && SoloVerdict(rate, calls, i).ok then calls[i].cost else 0.0;
            TokensAt(rate, Solo(rate, calls, i + 1, k), t)
            == Min(Capacity(rate), before - taken + Gain(rate, t - calls[i].now))
  {
    hide Charge, TokensAt, Capacity, Gain;
    var c := calls[i];
    var before := Solo(rate, calls, i, k);
    SoloIsSane(rate, calls, i, k, c.now);
    SoloIsSane(rate, calls, i + 1, k, c.now);
    LevelRises(rate, before, c.now, t);
    LevelRises(rate, Solo(rate, calls, i + 1, k), c.now, t);
    if c.key == k {
      ChargeIsSane(rate, TokensAt(rate, before, c.now), c.cost, c.now);
      JustCharged(rate, Charge(rate, TokensAt(rate, before, c.now), c.cost, c.now).0);
    }
  }

  lemma {:induction false} LevelIsSolo(rate: Rate, calls: seq<Call>, n: nat, k: string, t: real)
    requires n <= |calls| && Chronological(calls) && (n > 0 ==> calls[n - 1].now <= t)
    requires forall i | 0 <= i < n :: ChargedAt(rate, calls, i) == calls[i].key
    ensures Level(rate, After(rate, calls, n), k, t) == TokensAt(rate, Solo(rate, calls, n, k), t)
  {
    hide Charge, TokensAt, Gain, ChargedAt;
    if n > 0 {
      var i := n - 1;
      LevelIsSolo(rate, calls, i, k, calls[i].now);
      LevelIsSolo(rate, calls, i, calls[i].key, calls[i].now);
      LevelAfter(rate, calls, i, k, t);
      SoloAfter(rate, calls, i, k, t);
    }
  }

  // While every key has its bucket or room for one, the swept and shared map answers every call as that call's own
  // bucket would.
  lemma RoomHidesExpiry(rate: Rate, calls: seq<Call>, i: nat)
    requires i < |calls| && Chronological(calls) && HasRoom(rate, calls, i + 1)
    ensures VerdictAt(rate, calls, i) == SoloVerdict(rate, calls, i)
  {
    hide Charge, TokensAt, ChargedAt, Level, HasRoom;
    RoomMeansOwn(rate, calls, i + 1);
    LevelIsSolo(rate, calls, i, calls[i].key, calls[i].now);
    LevelAfter(rate, calls, i, calls[i].key, calls[i].now);
  }

  // With no more callers than buckets that is always so: expiry and sharing cannot be told from one bucket a key.
  lemma ExpiryIsUnobservable(rate: Rate, calls: seq<Call>, i: nat)
    requires i < |calls| && Chronological(calls) && |Callers(calls, i + 1)| <= MAX_BUCKETS
    ensures VerdictAt(rate, calls, i) == SoloVerdict(rate, calls, i)
  {
    hide VerdictAt, SoloVerdict, HasRoom, Callers;
    OnlyCallers(rate, calls, i + 1);
    RoomHidesExpiry(rate, calls, i);
  }

  function OwnCalls(calls: seq<Call>, n: nat, k: string): seq<Call>
    requires n <= |calls|
  {
    if n == 0 then []
    else OwnCalls(calls, n - 1, k) + (if calls[n - 1].key == k then [calls[n - 1]] else [])
  }

  lemma {:induction false} SoloSeesOwnCalls(rate: Rate, a: seq<Call>, m: nat, b: seq<Call>, n: nat, k: string)
    requires m <= |a| && n <= |b| && OwnCalls(a, m, k) == OwnCalls(b, n, k)
    ensures Solo(rate, a, m, k) == Solo(rate, b, n, k)
    decreases m + n
  {
    hide Charge, TokensAt;
    if m > 0 && a[m - 1].key != k {
      SoloSeesOwnCalls(rate, a, m - 1, b, n, k);
    } else if n > 0 && b[n - 1].key != k {
      SoloSeesOwnCalls(rate, a, m, b, n - 1, k);
    } else if m > 0 && n > 0 {
      var x, y := OwnCalls(a, m - 1, k), OwnCalls(b, n - 1, k);
      assert x + [a[m - 1]] == y + [b[n - 1]];
      assert x == (x + [a[m - 1]])[..|x|] && y == (y + [b[n - 1]])[..|y|] && a[m - 1] == (x + [a[m - 1]])[|x|];
      SoloSeesOwnCalls(rate, a, m - 1, b, n - 1, k);
    }
  }

  // Two runs that agree on one key's calls answer that key alike, whatever every other key did in each.
  lemma RoomSeparatesKeys(rate: Rate, a: seq<Call>, i: nat, b: seq<Call>, j: nat)
    requires i < |a| && Chronological(a) && HasRoom(rate, a, i + 1)
    requires j < |b| && Chronological(b) && HasRoom(rate, b, j + 1)
    requires a[i] == b[j] && OwnCalls(a, i, a[i].key) == OwnCalls(b, j, a[i].key)
    ensures VerdictAt(rate, a, i) == VerdictAt(rate, b, j)
  {
    hide VerdictAt, HasRoom, OwnCalls, Solo;
    RoomHidesExpiry(rate, a, i);
    RoomHidesExpiry(rate, b, j);
    SoloSeesOwnCalls(rate, a, i, b, j, a[i].key);
  }

  lemma KeysAreIndependent(rate: Rate, a: seq<Call>, i: nat, b: seq<Call>, j: nat)
    requires i < |a| && Chronological(a) && |Callers(a, i + 1)| <= MAX_BUCKETS
    requires j < |b| && Chronological(b) && |Callers(b, j + 1)| <= MAX_BUCKETS
    requires a[i] == b[j] && OwnCalls(a, i, a[i].key) == OwnCalls(b, j, a[i].key)
    ensures VerdictAt(rate, a, i) == VerdictAt(rate, b, j)
  {
    hide VerdictAt, HasRoom, OwnCalls, Callers;
    OnlyCallers(rate, a, i + 1);
    OnlyCallers(rate, b, j + 1);
    RoomSeparatesKeys(rate, a, i, b, j);
  }

  // ---- Retry-After ----

  lemma {:induction false} UndrainedLevel(rate: Rate, calls: seq<Call>, i: nat, j: nat, k: string, t: real)
    requires i < j <= |calls| && Chronological(calls) && calls[j - 1].now <= t
    requires forall m | i <= m < j :: Taken(rate, calls, m, k) == 0.0
    ensures Level(rate, After(rate, calls, j), k, t)
            == Min(Capacity(rate), Level(rate, After(rate, calls, i), k, calls[i].now) + Gain(rate, t - calls[i].now))
  {
    hide Taken, TokensAt, Level, Gain, After, Capacity, VerdictAt, ChargedAt, Charge;
    var last := calls[j - 1].now;
    assert Taken(rate, calls, j - 1, k) == 0.0;
    GainAdds(rate, 0.0, t - last);
    LevelAfter(rate, calls, j - 1, k, t);
    if i < j - 1 {
      UndrainedLevel(rate, calls, i, j - 1, k, last);
      GainAdds(rate, t - last, last - calls[i].now);
      assert t - calls[i].now == (t - last) + (last - calls[i].now);
    }
  }

  // The tokens a level is short of, in whole seconds of refill rounded up.
  lemma WaitIsExact(rate: Rate, level: real, cost: real, elapsed: real)
    requires 0.0 <= level < cost <= Capacity(rate)
    ensures var r := Ceil((cost - level) / Refill(rate));
            && 1 <= r <= 60
            && (elapsed >= r as real ==> Min(Capacity(rate), level + Gain(rate, elapsed)) >= cost)
            && (elapsed <= (r - 1) as real ==> Min(Capacity(rate), level + Gain(rate, elapsed)) < cost)
  {
    hide Gain, Capacity;
    var wait := (cost - level) / Refill(rate);
    WaitFills(rate, cost - level);
    GainAdds(rate, 0.0, wait);
    GainAdds(rate, wait, 0.0);
    GainAdds(rate, wait, 60.0);
    GainAdds(rate, wait, elapsed);
    GainAdds(rate, elapsed, wait);
  }

  lemma WaitFills(rate: Rate, missing: real)
    ensures Gain(rate, missing / Refill(rate)) == missing
  {
  }

  // After a refusal that said to wait r, with nothing granted from that bucket meanwhile, the same cost is admitted
  // from r seconds on and still refused up to r - 1 seconds, whatever else was called, swept or refused in between.
  lemma RetryAfterIsExact(rate: Rate, calls: seq<Call>, i: nat, j: nat)
    requires i < j < |calls| && Chronological(calls)
    requires !VerdictAt(rate, calls, i).ok && calls[i].cost <= Capacity(rate)
    requires ChargedAt(rate, calls, j) == ChargedAt(rate, calls, i) && calls[j].cost == calls[i].cost
    requires forall m | i < m < j && VerdictAt(rate, calls, m).ok :: ChargedAt(rate, calls, m) != ChargedAt(rate, calls, i)
    ensures var r := VerdictAt(rate, calls, i).retryAfter;
            && 1 <= r <= 60
            && (calls[j].now >= calls[i].now + r as real ==> VerdictAt(rate, calls, j).ok)
            && (calls[j].now <= calls[i].now + (r - 1) as real ==> !VerdictAt(rate, calls, j).ok)
  {
    hide TokensAt, Level, Gain, After, Capacity, VerdictAt, ChargedAt;
    var k := ChargedAt(rate, calls, i);
    LevelAfter(rate, calls, i, k, calls[i].now);
    LevelAfter(rate, calls, j, k, calls[j].now);
    LevelBounds(rate, calls, i, k);
    UndrainedLevel(rate, calls, i, j, k, calls[j].now);
    WaitIsExact(rate, Level(rate, After(rate, calls, i), k, calls[i].now), calls[i].cost, calls[j].now - calls[i].now);
  }
}
