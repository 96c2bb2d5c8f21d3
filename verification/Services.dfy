/**
 The three admin services: check, write the tables, then write through to the bucket,
 where a failure is logged and the request still succeeds.
 */
module Services {
  import opened Options
  import opened Keys
  import opened Kv
  import opened Items
  import opened Tables
  import opened Database
  import opened Admin
  import opened Integrity
  import opened Coherence
  import opened Reconciler

  // Between the two logs this side put values under the published key and purged these keys, and nothing else.
  ghost predicate OwnWrites(a: Log, b: Log, publish: Option<Item>, purges: set<string>) {
    a <= b && forall i | |a| <= i < |b| && b[i].own ::
      (b[i].op.Put? && publish.Some? && b[i].key == KeyOf(publish.value)) || (b[i].op.Purge? && b[i].key in purges)
  }

  // Every write that did not fail happened: the row was shown at some moment, and each key purged.
  ghost predicate TookPlace(a: Log, b: Log, publish: Option<Item>, purges: set<string>, failed: set<string>) {
    && (publish.Some? && KeyOf(publish.value) !in failed ==> ShownWithin(a, b, publish.value))
    && (forall k | k in purges && k !in failed :: PurgedWithin(a, b, k))
  }

  ghost predicate FailuresPaid(before: seq<Turn>, after: seq<Turn>, publish: Option<Item>, failed: set<string>) {
    (publish.Some? ==> Publishable(publish.value)) ==> |failed| + Rough(after) <= Rough(before)
  }

  // The buckets' side of a request: what it wrote whoever else was about, and with nobody about. No more of its
  // writes fail than calls were disturbed, so a failed one does not stop the rest.
  ghost predicate Settled(a: Log, b: Log, before: seq<Turn>, after: seq<Turn>,
                          publish: Option<Item>, purges: set<string>, failed: set<string>) {
    && AsCalm(before, after)
    && OwnWrites(a, b, publish, purges) && TookPlace(a, b, publish, purges, failed)
    && (Uncontended(before) ==> WroteThrough(a, b, publish, purges, failed))
    && FailuresPaid(before, after, publish, failed)
    && (Uncontended(before) && Reliable(before) && (publish.Some? ==> Publishable(publish.value)) ==> failed == {})
  }

  lemma NothingToSettle(a: Log, turns: seq<Turn>)
    ensures Settled(a, a, turns, turns, None, {}, {})
  {
  }

  lemma PublishSettles(a: Log, b: Log, before: seq<Turn>, after: seq<Turn>, item: Item, ok: bool, stamp: string)
    requires AsCalm(before, after) && OwnPuts(a, b, {KeyOf(item)}) && (ok ==> ShownIn(b, item))
    requires Uncontended(before) ==> b == if ok then PublishItemQuietly(a, item, stamp) else a
    requires Uncontended(before) && Reliable(before) ==> ok == Publishable(item)
    requires !ok && Publishable(item) ==> Rough(after) < Rough(before)
    ensures Settled(a, b, before, after, Some(item), {}, if ok then {} else {KeyOf(item)})
  {
    hide KeyOf, Shows, Publishable, PublishItemQuietly, Live;
    if ok {
      ShownNow(a, b, item);
    }
    if Uncontended(before) && ok {
      PublishShows(a, item, stamp);
      forall k | k != KeyOf(item) ensures Live(b, k) == Live(a, k) {
        PublishTouchesOneKey(a, item, stamp, k);
      }
    }
  }

  lemma PublishTouchesOneKey(log: Log, item: Item, stamp: string, k: string)
    requires k != KeyOf(item)
    ensures Live(PublishItemQuietly(log, item, stamp), k) == Live(log, k)
  {
    Appended(log, Publisher.NewEntry(log, KeyOf(item), BuildOf(item), stamp), k);
  }

  // One more purge, of a key no publish of the request addresses.
  function StillFailed(purges: set<string>, failed: set<string>, key: string, ok: bool): set<string> {
    if ok then failed - {key} else if key in purges then failed else failed + {key}
  }

  lemma FailedGrows(purges: set<string>, failed: set<string>, key: string, ok: bool)
    ensures |StillFailed(purges, failed, key, ok)| <= |failed| + if ok then 0 else 1
    ensures failed == {} && ok ==> StillFailed(purges, failed, key, ok) == {}
  {
    Fewer(StillFailed(purges, failed, key, ok), failed + if ok then {} else {key});
  }

  lemma PurgeSettles(a: Log, b: Log, c: Log, t0: seq<Turn>, t1: seq<Turn>, t2: seq<Turn>,
                     publish: Option<Item>, purges: set<string>, failed: set<string>, key: string, ok: bool)
    requires Settled(a, b, t0, t1, publish, purges, failed) && AsCalm(t1, t2)
    requires publish.Some? ==> KeyOf(publish.value) != key
    requires Wrote(if ok then Done else Broken, b, c, Entry(key, Purge, true))
    requires Uncontended(t1) ==> |c| == |b| + if ok then 1 else 0
    requires Reliable(t1) ==> ok
    requires !ok ==> Rough(t2) < Rough(t1)
    ensures Settled(a, c, t0, t2, publish, purges + {key}, StillFailed(purges, failed, key, ok))
  {
    hide KeyOf, Publishable, Rough, Uncontended, Reliable, OwnWrites, TookPlace, WroteThrough, StillFailed;
    PurgeWrites(b, c, key, ok);
    FailedGrows(purges, failed, key, ok);
    WritesAdd(a, b, c, publish, purges, failed, key, ok);
    if Uncontended(t0) {
      assert c == if ok then b + [Entry(key, Purge, true)] else b by {
        if ok {
          assert c[..|c| - 1] == b;
        }
      }
      PurgedThrough(a, b, c, publish, purges, failed, key, ok);
    }
  }

  lemma PurgedThrough(a: Log, b: Log, c: Log, publish: Option<Item>, purges: set<string>, failed: set<string>, key: string, ok: bool)
    requires WroteThrough(a, b, publish, purges, failed) && (publish.Some? ==> KeyOf(publish.value) != key)
    requires c == if ok then b + [Entry(key, Purge, true)] else b
    ensures WroteThrough(a, c, publish, purges + {key}, StillFailed(purges, failed, key, ok))
  {
    hide KeyOf, Shows, Live;
    forall k ensures Live(c, k) == if ok && k == key then None else Live(b, k) {
      Appended(b, Entry(key, Purge, true), k);
    }
  }

  lemma PurgeWrites(b: Log, c: Log, key: string, ok: bool)
    requires Wrote(if ok then Done else Broken, b, c, Entry(key, Purge, true))
    ensures OwnWrites(b, c, None, {key}) && (ok ==> PurgedWithin(b, c, key))
  {
    if ok {
      var rest := c[..|c| - 1];
      assert forall i | 0 <= i < |rest| :: c[i] == rest[i];
      assert c[|c| - 1] == Entry(key, Purge, true);
    }
  }

  lemma WritesAdd(a: Log, b: Log, c: Log, publish: Option<Item>, purges: set<string>, failed: set<string>, key: string, ok: bool)
    requires OwnWrites(a, b, publish, purges) && TookPlace(a, b, publish, purges, failed)
    requires OwnWrites(b, c, None, {key}) && (ok ==> PurgedWithin(b, c, key))
    requires publish.Some? ==> KeyOf(publish.value) != key
    ensures OwnWrites(a, c, publish, purges + {key})
    ensures TookPlace(a, c, publish, purges + {key}, StillFailed(purges, failed, key, ok))
  {
    hide KeyOf, ShownIn;
    assert forall i | 0 <= i < |b| :: c[i] == b[i];
    if publish.Some? && KeyOf(publish.value) !in failed {
      ShownStays(a, b, c, publish.value);
    }
    forall k | k in purges + {key} && k !in StillFailed(purges, failed, key, ok) ensures PurgedWithin(a, c, k) {
      if k in purges && k !in failed {
        var i :| |a| <= i < |b| && b[i] == Entry(k, Purge, true);
        assert c[i] == Entry(k, Purge, true);
      } else {
        var i :| |b| <= i < |c| && c[i] == Entry(k, Purge, true);
      }
    }
  }

  // Purging by environment as the rows were drained, and by row, comes to the same keys.
  lemma SameKeys(db: Db, id: int, envs: seq<int>, purges: set<string>)
    requires id in db.flags
    requires forall env :: env in envs <==> exists k :: k in ValuesOf(db, id) && db.values[k].env == env
    requires purges == set j | 0 <= j < |envs| :: FlagKey(envs[j], db.flags[id].flagKey)
    ensures purges == set k | k in ValuesOf(db, id) :: FlagKey(db.values[k].env, db.flags[id].flagKey)
  {
    hide FlagKey;
    var byRow := set k | k in ValuesOf(db, id) :: FlagKey(db.values[k].env, db.flags[id].flagKey);
    forall key ensures key in purges <==> key in byRow {
      if key in purges {
        var j :| 0 <= j < |envs| && key == FlagKey(envs[j], db.flags[id].flagKey);
        assert envs[j] in envs;
      }
      if key in byRow {
        var k :| k in ValuesOf(db, id) && key == FlagKey(db.values[k].env, db.flags[id].flagKey);
        assert db.values[k].env in envs;
      }
    }
  }

  // ---- Requests in order ----

  function ErrorAt(events: seq<Event>, i: nat): Option<Error>
    requires i < |events|
  {
    Serve(After(EMPTY, events, i), events[i].request, events[i].newId, events[i].now).error
  }

  // The first n requests as a run, the buckets alone with the services.
  ghost predicate SoFar(events: seq<Event>, n: nat, kvs: seq<Kvs>, failed: seq<set<string>>)
    requires n <= |events|
  {
    && |failed| == n && |kvs| == n + 1 && kvs[0] == Kvs([], [], [])
    && forall j | 0 <= j < n :: TookStep(After(EMPTY, events, j), events[j], kvs[j], kvs[j + 1], failed[j])
  }

  lemma NothingServed(events: seq<Event>)
    ensures SoFar(events, 0, [Kvs([], [], [])], [])
  {
  }

  lemma OneMoreServed(events: seq<Event>, n: nat, kvs: seq<Kvs>, failed: seq<set<string>>, before: Kvs, after: Kvs, f: set<string>)
    requires n < |events| && |kvs| == n + 1 && before == kvs[n] && SoFar(events, n, kvs, failed)
    requires TookStep(After(EMPTY, events, n), events[n], before, after, f)
    ensures SoFar(events, n + 1, kvs + [after], failed + [f])
  {
    hide TookStep, After;
  }

  lemma ServedIsRun(run: Run)
    requires Feasible(EMPTY, run.events) && SoFar(run.events, |run.events|, run.kvs, run.failed)
    ensures var n, db := |run.events|, After(EMPTY, run.events, |run.events|);
            && ValidRun(run)
            && (forall b: BucketName :: Coherent(LogOf(run.kvs[n], b), ItemsOf(db, b), Dirty(run, n, b)))
            && ((forall f | f in run.failed :: f == {}) ==> forall b: BucketName :: Coherent(LogOf(run.kvs[n], b), ItemsOf(db, b), {}))
  {
    hide TookStep, After, Feasible, Coherent, ItemsOf, LogOf, Dirty;
    assert ValidRun(run);
    forall b: BucketName
      ensures Coherent(LogOf(run.kvs[|run.events|], b), ItemsOf(After(EMPTY, run.events, |run.events|), b), Dirty(run, |run.events|, b))
    {
      CoherentThroughout(run, |run.events|, b);
    }
    if forall f | f in run.failed :: f == {} {
      forall i | 0 <= i < |run.events| ensures run.failed[i] == {} {
        assert run.failed[i] in run.failed;
      }
      forall b: BucketName
        ensures Coherent(LogOf(run.kvs[|run.events|], b), ItemsOf(After(EMPTY, run.events, |run.events|), b), {})
      {
        CoherentWhenNothingFails(run, |run.events|, b);
      }
    }
  }

  class Api {
    const store: Store
    const flagsKv: Bucket
    const settingsKv: Bucket
    const bundlesKv: Bucket

    constructor (store: Store, flagsKv: Bucket, settingsKv: Bucket, bundlesKv: Bucket)
      ensures this.store == store && this.flagsKv == flagsKv && this.settingsKv == settingsKv && this.bundlesKv == bundlesKv
    {
      this.store, this.flagsKv, this.settingsKv, this.bundlesKv := store, flagsKv, settingsKv, bundlesKv;
    }

    function BucketNamed(b: BucketName): Bucket {
      match b
      case Flags => flagsKv
      case ServiceSettings => settingsKv
      case Localization => bundlesKv
    }

    // A failed publish is logged; the reconciler repairs it.
    method Publish(b: BucketName, item: Item, stamps: nat -> string) returns (ghost failed: set<string>)
      modifies BucketNamed(b)
      ensures Settled(old(BucketNamed(b).log), BucketNamed(b).log, old(BucketNamed(b).schedule), BucketNamed(b).schedule,
                      Some(item), {}, failed)
    {
      var kv := BucketNamed(b);
      ghost var log, turns := kv.log, kv.schedule;
      var ok := PublishItem(kv, item, stamps);
      failed := if ok then {} else {KeyOf(item)};
      PublishSettles(log, kv.log, turns, kv.schedule, item, ok, stamps(0));
    }

    // A purge that fails leaves the key for the next full sweep.
    method PurgeAfter(b: BucketName, key: string, ghost log: Log, ghost turns: seq<Turn>,
                      ghost publish: Option<Item>, ghost purges: set<string>, ghost failed: set<string>)
      returns (ghost left: set<string>)
      requires Settled(log, BucketNamed(b).log, turns, BucketNamed(b).schedule, publish, purges, failed)
      requires publish.Some? ==> KeyOf(publish.value) != key
      modifies BucketNamed(b)
      ensures Settled(log, BucketNamed(b).log, turns, BucketNamed(b).schedule, publish, purges + {key}, left)
    {
      var kv := BucketNamed(b);
      ghost var log1, turns1 := kv.log, kv.schedule;
      var ok := kv.PurgeKey(key);
      left := StillFailed(purges, failed, key, ok);
      PurgeSettles(log, log1, kv.log, turns, turns1, kv.schedule, publish, purges, failed, key, ok);
    }

    method CreateDocument(d: Domain, input: DocInput, newId: int, now: int, stamps: nat -> string)
      returns (e: Option<Error>, ghost failed: set<string>)
      modifies store, BucketNamed(BucketOf(d))
      ensures var out, kv := Admin.CreateDocument(old(store.Snapshot()), d, input, newId, now), BucketNamed(BucketOf(d));
              && store.Snapshot() == out.db && e == out.error
              && Settled(old(kv.log), kv.log, old(kv.schedule), kv.schedule, out.publish, out.purges, failed)
    {
      failed := {};
      NothingToSettle(BucketNamed(BucketOf(d)).log, BucketNamed(BucketOf(d)).schedule);
      e := CheckInput(d, input);
      if e.Some? {
        return;
      }
      e := store.CreateDoc(d, input, newId, now);
      if e.Some? {
        return;
      }
      failed := Publish(BucketOf(d), DocItem(d, DocOf(d, input, now)), stamps);
    }

    method UpdateDocument(d: Domain, input: DocInput, now: int, stamps: nat -> string)
      returns (e: Option<Error>, ghost failed: set<string>)
      modifies store, BucketNamed(BucketOf(d))
      ensures var out, kv := Admin.UpdateDocument(old(store.Snapshot()), d, input, now), BucketNamed(BucketOf(d));
              && store.Snapshot() == out.db && e == out.error
              && Settled(old(kv.log), kv.log, old(kv.schedule), kv.schedule, out.publish, out.purges, failed)
    {
      hide Settled, KeyOf;
      failed := {};
      ghost var log, turns := BucketNamed(BucketOf(d)).log, BucketNamed(BucketOf(d)).schedule;
      NothingToSettle(log, turns);
      if input.id <= 0 {
        return Some(InvalidId), {};
      }
      e := CheckInput(d, input);
      if e.Some? {
        return;
      }
      var previous := store.GetDoc(d, input.id);
      if previous.None? {
        return Some(DocumentNotFound), {};
      }
      e := store.UpdateDoc(d, input, now);
      if e.Some? {
        return;
      }
      var item, left := DocItem(d, DocOf(d, input, now)), DocKey(d, previous.value);
      failed := Publish(BucketOf(d), item, stamps);
      if left != KeyOf(item) {
        failed := PurgeAfter(BucketOf(d), left, log, turns, Some(item), {}, failed);
        assert {} + {left} == {left};
      }
    }

    method DeleteDocument(d: Domain, id: int) returns (e: Option<Error>, ghost failed: set<string>)
      modifies store, BucketNamed(BucketOf(d))
      ensures var out, kv := Admin.DeleteDocument(old(store.Snapshot()), d, id), BucketNamed(BucketOf(d));
              && store.Snapshot() == out.db && e == out.error
              && Settled(old(kv.log), kv.log, old(kv.schedule), kv.schedule, out.publish, out.purges, failed)
    {
      hide Settled, KeyOf;
      failed := {};
      ghost var log, turns := BucketNamed(BucketOf(d)).log, BucketNamed(BucketOf(d)).schedule;
      NothingToSettle(log, turns);
      if id <= 0 {
        return Some(InvalidId), {};
      }
      var removed;
      e, removed := store.DeleteDoc(d, id);
      if e.Some? {
        return;
      }
      var key := DocKey(d, removed.value);
      failed := PurgeAfter(BucketOf(d), key, log, turns, None, {}, {});
      assert {} + {key} == {key};
    }

    method CreateFlagValue(flagId: int, env: int, value: string, enabled: int, newId: int, now: int, stamps: nat -> string)
      returns (e: Option<Error>, ghost failed: set<string>)
      modifies store, flagsKv
      ensures var out := CreateValue(old(store.Snapshot()), flagId, env, value, enabled, newId, now);
              && store.Snapshot() == out.db && e == out.error
              && Settled(old(flagsKv.log), flagsKv.log, old(flagsKv.schedule), flagsKv.schedule, out.publish, out.purges, failed)
    {
      hide Settled, KeyOf;
      failed := {};
      NothingToSettle(flagsKv.log, flagsKv.schedule);
      if flagId <= 0 {
        return Some(InvalidId), {};
      }
      if env <= 0 {
        return Some(InvalidEnvironmentId), {};
      }
      e := CheckValue(value);
      if e.Some? {
        return;
      }
      if !ValidFlagState(enabled) {
        return Some(InvalidFlagState), {};
      }
      var flagKey;
      e, flagKey := store.CreateFlagValue(FlagValue(env, flagId, enabled, value, now), newId);
      if e.Some? {
        return;
      }
      failed := Publish(Flags, FlagItem(env, flagKey, enabled, value), stamps);
    }

    method UpdateFlagValue(id: int, value: string, enabled: int, expected: Option<int>, now: int, stamps: nat -> string)
      returns (e: Option<Error>, ghost failed: set<string>)
      modifies store, flagsKv
      ensures e.None? ==> id in old(store.values) && id in store.values && store.values[id].flagId in store.flags
                          && store.values[id] == old(store.values)[id].(value := value, enabled := enabled, updatedAt := now)
      ensures var out := UpdateValue(old(store.Snapshot()), id, value, enabled, expected, now);
              && store.Snapshot() == out.db && e == out.error
              && Settled(old(flagsKv.log), flagsKv.log, old(flagsKv.schedule), flagsKv.schedule, out.publish, out.purges, failed)
    {
      hide Settled, KeyOf;
      failed := {};
      NothingToSettle(flagsKv.log, flagsKv.schedule);
      if id <= 0 {
        return Some(InvalidId), {};
      }
      e := CheckValue(value);
      if e.Some? {
        return;
      }
      if !ValidFlagState(enabled) {
        return Some(InvalidFlagState), {};
      }
      var flagKey;
      e, flagKey := store.UpdateFlagValue(id, value, enabled, expected, now);
      if e.Some? {
        return;
      }
      failed := Publish(Flags, FlagItem(store.values[id].env, flagKey, enabled, value), stamps);
    }

    method DeleteFlagValue(id: int) returns (e: Option<Error>, ghost failed: set<string>)
      modifies store, flagsKv
      ensures var out := DeleteValue(old(store.Snapshot()), id);
              && store.Snapshot() == out.db && e == out.error
              && Settled(old(flagsKv.log), flagsKv.log, old(flagsKv.schedule), flagsKv.schedule, out.publish, out.purges, failed)
    {
      hide Settled;
      failed := {};
      ghost var log, turns := flagsKv.log, flagsKv.schedule;
      NothingToSettle(log, turns);
      if id <= 0 {
        return Some(InvalidId), {};
      }
      var env, flagKey;
      e, env, flagKey := store.DeleteFlagValue(id);
      if e.Some? {
        return;
      }
      var key := FlagKey(env, flagKey);
      failed := PurgeAfter(Flags, key, log, turns, None, {}, {});
      assert {} + {key} == {key};
    }

    // Every value the flag had is purged in turn.
    method DeleteFlag(id: int) returns (e: Option<Error>, ghost failed: set<string>)
      modifies store, flagsKv
      ensures var out := DeleteFlagAndValues(old(store.Snapshot()), id);
              && store.Snapshot() == out.db && e == out.error
              && Settled(old(flagsKv.log), flagsKv.log, old(flagsKv.schedule), flagsKv.schedule, out.publish, out.purges, failed)
    {
      hide Settled;
      failed := {};
      ghost var log, turns := flagsKv.log, flagsKv.schedule;
      NothingToSettle(log, turns);
      if id <= 0 {
        return Some(InvalidId), {};
      }
      var flagKey, removed;
      e, flagKey, removed := store.DeleteFlag(id);
      if e.Some? {
        return;
      }
      ghost var after := store.Snapshot();
      ghost var purges: set<string> := {};
      for i := 0 to |removed|
        invariant store.Snapshot() == after
        invariant purges == set j | 0 <= j < i :: FlagKey(removed[j], flagKey)
        invariant Settled(log, flagsKv.log, turns, flagsKv.schedule, None, purges, failed)
      {
        failed := PurgeAfter(Flags, FlagKey(removed[i], flagKey), log, turns, None, purges, failed);
        purges := purges + {FlagKey(removed[i], flagKey)};
      }
      SameKeys(old(store.Snapshot()), id, removed, purges);
    }

    method CreateEnvironment(name: string, newId: int) returns (e: Option<Error>)
      modifies store
      ensures var out := Serve(old(store.Snapshot()), Request.CreateEnvironment(name), newId, 0);
              store.Snapshot() == out.db && e == out.error
    {
      var trimmed := TrimSpace(name);
      if !ValidName(trimmed) {
        return Some(InvalidName);
      }
      e := store.CreateEnvironment(trimmed, newId);
    }

    method DeleteEnvironment(id: int) returns (e: Option<Error>)
      modifies store
      ensures var out := Serve(old(store.Snapshot()), Request.DeleteEnvironment(id), 0, 0);
              store.Snapshot() == out.db && e == out.error
    {
      if id <= 0 {
        return Some(InvalidId);
      }
      e := store.DeleteEnvironment(id);
    }

    method CreateMicroservice(name: string, newId: int) returns (e: Option<Error>)
      modifies store
      ensures var out := Serve(old(store.Snapshot()), Request.CreateMicroservice(name), newId, 0);
              store.Snapshot() == out.db && e == out.error
    {
      var trimmed := TrimSpace(name);
      if !ValidName(trimmed) {
        return Some(InvalidName);
      }
      e := store.CreateMicroservice(trimmed, newId);
    }

    method DeleteMicroservice(id: int) returns (e: Option<Error>)
      modifies store
      ensures var out := Serve(old(store.Snapshot()), Request.DeleteMicroservice(id), 0, 0);
              store.Snapshot() == out.db && e == out.error
    {
      if id <= 0 {
        return Some(InvalidId);
      }
      e := store.DeleteMicroservice(id);
    }

    method CreateFlag(flagKey: string, isActive: int, newId: int) returns (e: Option<Error>)
      modifies store
      ensures var out := Serve(old(store.Snapshot()), Request.CreateFlag(flagKey, isActive), newId, 0);
              store.Snapshot() == out.db && e == out.error
    {
      if !ValidFlagKey(flagKey) {
        return Some(InvalidFlagKey);
      }
      if !ValidFlagState(isActive) {
        return Some(InvalidFlagState);
      }
      e := store.CreateFlag(Flag(flagKey, isActive), newId);
    }

    // The routes: each request does to the tables and to its bucket what Serve says, and touches nothing else.
    method Handle(request: Request, newId: int, now: int, stamps: nat -> string)
      returns (e: Option<Error>, ghost failed: set<string>)
      modifies store, BucketNamed(BucketFor(request))
      ensures var out, kv := Serve(old(store.Snapshot()), request, newId, now), BucketNamed(BucketFor(request));
              && store.Snapshot() == out.db && e == out.error
              && Settled(old(kv.log), kv.log, old(kv.schedule), kv.schedule, out.publish, out.purges, failed)
    {
      hide Settled, CheckInput, CheckValue, TrimSpace, ValidFlagKey, Admin.CreateDocument, Admin.UpdateDocument,
        Admin.DeleteDocument, CreateValue, UpdateValue, DeleteValue, DeleteFlagAndValues;
      failed := {};
      ghost var kv := BucketNamed(BucketFor(request));
      NothingToSettle(kv.log, kv.schedule);
      if Unpublished(request) {
        UnpublishedOutcome(store.Snapshot(), request, newId, now);
        e := HandleUnpublished(request, newId, now);
        return;
      }
      match request {
        case DeleteFlag(id) => e, failed := DeleteFlag(id);
        case CreateFlagValue(flagId, env, value, enabled) =>
          e, failed := CreateFlagValue(flagId, env, value, enabled, newId, now, stamps);
        case UpdateFlagValue(id, value, enabled, expected) =>
          e, failed := UpdateFlagValue(id, value, enabled, expected, now, stamps);
        case DeleteFlagValue(id) => e, failed := DeleteFlagValue(id);
        case CreateDoc(d, input) => e, failed := CreateDocument(d, input, newId, now, stamps);
        case UpdateDoc(d, input) => e, failed := UpdateDocument(d, input, now, stamps);
        case DeleteDoc(d, id) => e, failed := DeleteDocument(d, id);
      }
    }

    ghost function Logs(): Kvs
      reads flagsKv, settingsKv, bundlesKv
    {
      Kvs(flagsKv.log, settingsKv.log, bundlesKv.log)
    }

    ghost predicate Distinct() { flagsKv != settingsKv && flagsKv != bundlesKv && settingsKv != bundlesKv }

    ghost predicate Alone()
      reads flagsKv, settingsKv, bundlesKv
    {
      Uncontended(flagsKv.schedule) && Uncontended(settingsKv.schedule) && Uncontended(bundlesKv.schedule)
    }

    ghost predicate Working()
      reads flagsKv, settingsKv, bundlesKv
    {
      Reliable(flagsKv.schedule) && Reliable(settingsKv.schedule) && Reliable(bundlesKv.schedule)
    }

    // One request of a run in which only the services write.
    method HandleAlone(e: Event, stamps: nat -> string) returns (error: Option<Error>, ghost failed: set<string>)
      requires Distinct() && Alone()
      modifies store, flagsKv, settingsKv, bundlesKv
      ensures var out := Serve(old(store.Snapshot()), e.request, e.newId, e.now); store.Snapshot() == out.db && error == out.error
      ensures TookStep(old(store.Snapshot()), e, old(Logs()), Logs(), failed)
      ensures Alone() && (old(Working()) ==> Working() && failed == {})
    {
      hide Serve, WroteThrough, OwnWrites, TookPlace, Uncontended, Reliable, Publishable;
      ghost var db := store.Snapshot();
      AcceptedIsPublishable(db, e.request, e.newId, e.now);
      error, failed := Handle(e.request, e.newId, e.now, stamps);
    }

    // A list of requests over empty tables and buckets is a run, so each bucket ends as its table's image except at
    // the keys whose last write failed, and exactly as the image when the buckets work throughout.
    method ServeAll(events: seq<Event>, stamps: nat -> nat -> string) returns (errors: seq<Option<Error>>, ghost run: Run)
      requires Distinct() && Alone() && store.Snapshot() == EMPTY && Logs() == Kvs([], [], [])
      requires Feasible(EMPTY, events)
      modifies store, flagsKv, settingsKv, bundlesKv
      ensures run.events == events && ValidRun(run)
      ensures store.Snapshot() == After(EMPTY, events, |events|) && Logs() == run.kvs[|events|]
      ensures |errors| == |events| && forall i | 0 <= i < |events| :: errors[i] == ErrorAt(events, i)
      ensures forall b: BucketName ::
                Coherent(BucketNamed(b).log, ItemsOf(store.Snapshot(), b), Dirty(run, |events|, b))
      ensures old(Working()) ==> forall b: BucketName :: Coherent(BucketNamed(b).log, ItemsOf(store.Snapshot(), b), {})
    {
      hide Serve, SoFar, Coherent, ItemsOf, Feasible, ValidRun, Dirty, Alone, Working, LogOf;
      errors := [];
      ghost var kvs: seq<Kvs>, failures: seq<set<string>> := [Logs()], [];
      NothingServed(events);
      for i := 0 to |events|
        invariant Alone() && (old(Working()) ==> Working())
        invariant store.Snapshot() == After(EMPTY, events, i)
        invariant |errors| == |failures| == i && |kvs| == i + 1 && kvs[i] == Logs()
        invariant SoFar(events, i, kvs, failures)
        invariant forall j | 0 <= j < i :: errors[j] == ErrorAt(events, j)
        invariant old(Working()) ==> forall f | f in failures :: f == {}
      {
        var error;
        ghost var failed;
        ghost var before := Logs();
        error, failed := HandleAlone(events[i], stamps(i));
        OneMoreServed(events, i, kvs, failures, before, Logs(), failed);
        errors, failures, kvs := errors + [error], failures + [failed], kvs + [Logs()];
      }
      run := Run(events, kvs, failures);
      ServedIsRun(run);
      assert forall b: BucketName :: BucketNamed(b).log == LogOf(Logs(), b) by { LogsByName(); }
    }

    lemma LogsByName()
      ensures forall b: BucketName :: BucketNamed(b).log == LogOf(Logs(), b)
    {
    }

    method HandleUnpublished(request: Request, newId: int, now: int) returns (e: Option<Error>)
      requires Unpublished(request)
      modifies store
      ensures var out := Serve(old(store.Snapshot()), request, newId, now);
              store.Snapshot() == out.db && e == out.error
    {
      match request {
        case CreateEnvironment(name) => e := CreateEnvironment(name, newId);
        case DeleteEnvironment(id) => e := DeleteEnvironment(id);
        case CreateMicroservice(name) => e := CreateMicroservice(name, newId);
        case DeleteMicroservice(id) => e := DeleteMicroservice(id);
        case CreateFlag(flagKey, isActive) => e := CreateFlag(flagKey, isActive, newId);
      }
    }
  }
}
