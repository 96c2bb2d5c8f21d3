/**
 The periodic sweep: republish what the database says, then purge the keys it no
 longer accounts for, while everybody else goes on writing.
 */
module Reconciler {
  import opened Options
  import opened Kv
  import opened Items

  const FULL_SWEEP_EVERY: nat := 12
  const MICROS_PER_SECOND: int := 1_000_000
  const OVERLAP: int := 60 * MICROS_PER_SECOND
  const MIN_PRUNE_KEYS: nat := 5

  datatype Row = Row(id: int, updatedAt: int, item: Item)

  // The incremental window's lower bound; None asks for a full sweep.
  function NextSince(runs: nat, lastRun: Option<int>): Option<int> {
    if lastRun.Some? && runs % FULL_SWEEP_EVERY != 0 then Some(lastRun.value - OVERLAP) else None
  }

  predicate InWindow(updatedAt: int, since: Option<int>) { since.None? || updatedAt >= since.value }

  // What the listing query answers with.
  function Window(rows: seq<Row>, since: Option<int>): seq<Row> {
    if rows == [] then []
    else (if InWindow(rows[0].updatedAt, since) then [rows[0]] else []) + Window(rows[1..], since)
  }

  function Answered(table: Option<seq<Row>>, since: Option<int>): seq<Row> {
    if table.Some? then Window(table.value, since) else []
  }

  function KeysOf(rows: seq<Row>): seq<string> { seq(|rows|, i requires 0 <= i < |rows| => KeyOf(rows[i].item)) }

  function KeySet(rows: seq<Row>): set<string> { set r | r in rows :: KeyOf(r.item) }

  // At some moment between the two logs the bucket held what the row says.
  ghost predicate ShownWithin(a: Log, b: Log, item: Item) {
    exists n :: |a| <= n <= |b| && ShownIn(b[..n], item)
  }

  datatype ResyncResult = ResyncResult(keys: seq<string>, partial: bool)

  // The clock as the sweep reads it: row by row, attempt by attempt.
  type Clock = nat -> nat -> string

  // The first n rows, published with nobody else about.
  function ResyncQuietly(log: Log, rows: seq<Row>, n: nat, clock: Clock): Log
    requires n <= |rows|
  {
    if n == 0 then log
    else PublishItemQuietly(ResyncQuietly(log, rows, n - 1, clock), rows[n - 1].item, clock(n - 1)(0))
  }

  lemma OwnPutsExtend(a: Log, b: Log, c: Log, some: set<string>, more: set<string>, all: set<string>)
    requires OwnPuts(a, b, some) && OwnPuts(b, c, more) && some <= all && more <= all
    ensures OwnPuts(a, c, all)
  {
    assert forall i | |a| <= i < |b| :: c[i] == b[i];
  }

  lemma ShownStays(a: Log, b: Log, c: Log, item: Item)
    requires b <= c && ShownWithin(a, b, item)
    ensures ShownWithin(a, c, item)
  {
    var n :| |a| <= n <= |b| && ShownIn(b[..n], item);
    assert c[..n] == b[..n];
  }

  lemma ShownNow(a: Log, c: Log, item: Item)
    requires a <= c && ShownIn(c, item)
    ensures ShownWithin(a, c, item)
  {
    assert c[..|c|] == c;
  }

  lemma OwnPutsMean(a: Log, b: Log, keys: set<string>)
    requires OwnPuts(a, b, keys)
    ensures a <= b
  {
  }

  function Recorded(res: ResyncResult, key: string, ok: bool): ResyncResult {
    if ok then res.(keys := res.keys + [key]) else res.(partial := true)
  }

  // The keys of the rows whose publish succeeded, in order.
  function PublishedKeys(rows: seq<Row>, published: seq<bool>): seq<string>
    requires |published| <= |rows|
  {
    if published == [] then []
    else
      var n := |published| - 1;
      PublishedKeys(rows, published[..n]) + (if published[n] then [KeyOf(rows[n].item)] else [])
  }

  // What a resync has done and reports once so many rows were published or not.
  ghost predicate Resynced(res: ResyncResult, a: Log, b: Log, rows: seq<Row>, published: seq<bool>) {
    && |published| <= |rows|
    && OwnPuts(a, b, KeySet(rows))
    && res == ResyncResult(PublishedKeys(rows, published), false in published)
    && AllShownWithin(a, b, rows, published)
  }

  ghost predicate AllShownWithin(a: Log, b: Log, rows: seq<Row>, published: seq<bool>)
    requires |published| <= |rows|
  {
    forall j | 0 <= j < |published| && published[j] :: ShownWithin(a, b, rows[j].item)
  }

  lemma RowResynced(res: ResyncResult, a: Log, b: Log, c: Log, rows: seq<Row>, published: seq<bool>, ok: bool)
    requires Resynced(res, a, b, rows, published) && |published| < |rows|
    requires OwnPuts(b, c, {KeyOf(rows[|published|].item)}) && (ok ==> ShownIn(c, rows[|published|].item))
    ensures Resynced(Recorded(res, KeyOf(rows[|published|].item), ok), a, c, rows, published + [ok])
  {
    hide KeyOf, ShownIn, OwnPuts, ShownWithin;
    var n, more := |published|, published + [ok];
    var key := KeyOf(rows[n].item);
    assert rows[n] in rows && key in KeySet(rows);
    OwnPutsMean(a, b, KeySet(rows));
    OwnPutsMean(b, c, {key});
    OwnPutsExtend(a, b, c, KeySet(rows), {key}, KeySet(rows));
    assert more[..n] == published && more[n] == ok;
    assert false in more <==> false in published || !ok;
    forall j | 0 <= j <= n && more[j] ensures ShownWithin(a, c, rows[j].item) {
      if j < n {
        ShownStays(a, b, c, rows[j].item);
      } else {
        ShownNow(a, c, rows[n].item);
      }
    }
  }

  // With every row published the keys are the rows' keys.
  lemma {:induction false} EveryKeyPublished(rows: seq<Row>, published: seq<bool>)
    requires |published| <= |rows| && false !in published
    ensures PublishedKeys(rows, published) == KeysOf(rows)[..|published|]
  {
    hide KeyOf;
    if published != [] {
      var n := |published| - 1;
      EveryKeyPublished(rows, published[..n]);
      assert published[n] in published;
      assert KeysOf(rows)[..n + 1] == KeysOf(rows)[..n] + [KeyOf(rows[n].item)];
    }
  }

  predicate AllPublishable(rows: seq<Row>) { forall r | r in rows :: Publishable(r.item) }

  ghost predicate Undisturbed(schedule: seq<Turn>, rows: seq<Row>) {
    Uncontended(schedule) && Reliable(schedule) && AllPublishable(rows)
  }

  // The rows that could be published and were not.
  function Lost(rows: seq<Row>, published: seq<bool>): set<int>
    requires |published| <= |rows|
  {
    set j | 0 <= j < |published| && !published[j] && Publishable(rows[j].item)
  }

  lemma LostGrows(rows: seq<Row>, published: seq<bool>, ok: bool)
    requires |published| < |rows|
    ensures |Lost(rows, published + [ok])| == |Lost(rows, published)| + if !ok && Publishable(rows[|published|].item) then 1 else 0
  {
    hide Publishable;
    var n, more := |published|, published + [ok];
    assert Lost(rows, more) == Lost(rows, published) + if !ok && Publishable(rows[n].item) then {n} else {};
  }

  // A row that will not publish is recorded and the sweep carries on behind it: no more rows are lost than calls
  // were disturbed.
  method Resync(kv: Bucket, rows: seq<Row>, clock: Clock) returns (res: ResyncResult, ghost published: seq<bool>)
    modifies kv
    ensures AsCalm(old(kv.schedule), kv.schedule)
    ensures |published| == |rows| && Resynced(res, old(kv.log), kv.log, rows, published)
    ensures |Lost(rows, published)| + Rough(kv.schedule) <= Rough(old(kv.schedule))
    ensures Undisturbed(old(kv.schedule), rows) ==>
              false !in published && kv.log == ResyncQuietly(old(kv.log), rows, |rows|, clock)
  {
    hide KeyOf, ShownIn, OwnPuts, PublishedKeys, AllShownWithin, PublishItemQuietly, Resynced, Lost;
    res, published := ResyncResult([], false), [];
    ghost var start := kv.log;
    ghost var calm := Undisturbed(kv.schedule, rows);
    NothingResynced(start, rows);
    for i := 0 to |rows|
      invariant AsCalm(old(kv.schedule), kv.schedule)
      invariant |published| == i && Resynced(res, start, kv.log, rows, published)
      invariant |Lost(rows, published)| + Rough(kv.schedule) <= Rough(old(kv.schedule))
      invariant calm ==> Undisturbed(kv.schedule, rows)
      invariant calm ==> false !in published && kv.log == ResyncQuietly(start, rows, i, clock)
    {
      ghost var before := kv.log;
      var ok := PublishItem(kv, rows[i].item, clock(i));
      RowResynced(res, start, before, kv.log, rows, published, ok);
      LostGrows(rows, published, ok);
      res, published := Recorded(res, KeyOf(rows[i].item), ok), published + [ok];
    }
  }

  lemma NothingResynced(a: Log, rows: seq<Row>)
    ensures Resynced(ResyncResult([], false), a, a, rows, [])
    ensures Lost(rows, []) == {}
  {
  }

  // ---- Pruning ----

  function Max(a: int, b: int): int { if a > b then a else b }

  function PruneLimit(keys: nat, fraction: real): int {
    Max(MIN_PRUNE_KEYS, (keys as real * fraction).Floor)
  }

  // How many keys one prune may take: five, or the fraction's share of the bucket.
  predicate WithinCeiling(n: nat, keys: nat, fraction: real) {
    n <= 5 || n as real <= keys as real * fraction
  }

  lemma LimitMeans(n: nat, keys: nat, fraction: real)
    ensures n <= PruneLimit(keys, fraction) <==> WithinCeiling(n, keys, fraction)
  {
  }

  // Where the first n listed keys stood.
  function Revisions(entries: seq<KeyRevision>, n: nat): map<string, nat>
    requires n <= |entries|
  {
    if n == 0 then map[] else Revisions(entries, n - 1)[entries[n - 1].key := entries[n - 1].revision]
  }

  // A listed key is stale when no row published it and it stands where it stood at the snapshot.
  predicate IsStale(e: KeyRevision, keep: set<string>, untouched: map<string, nat>) {
    e.key !in keep && e.key in untouched && untouched[e.key] == e.revision
  }

  function StaleKeys(actual: seq<KeyRevision>, n: nat, keep: set<string>, untouched: map<string, nat>): (out: seq<string>)
    requires n <= |actual|
  {
    if n == 0 then []
    else
      StaleKeys(actual, n - 1, keep, untouched)
      + (if IsStale(actual[n - 1], keep, untouched) then [actual[n - 1].key] else [])
  }

  // What a prune of this stream would purge.
  function StaleIn(log: Log, published: seq<string>, atStart: seq<KeyRevision>): seq<string> {
    var actual := Listing(log, |log|);
    StaleKeys(actual, |actual|, (set k | k in published), Revisions(atStart, |atStart|))
  }

  predicate PruneRefused(stale: seq<string>, published: seq<string>, keys: nat, fraction: real) {
    stale == [] || published == [] || |stale| > PruneLimit(keys, fraction)
  }

  function Markers(keys: seq<string>): Log { seq(|keys|, i requires 0 <= i < |keys| => Entry(keys[i], Purge, true)) }

  function PruneQuietly(log: Log, published: seq<string>, atStart: seq<KeyRevision>, fraction: real): Log {
    var stale := StaleIn(log, published, atStart);
    if PruneRefused(stale, published, |Listing(log, |log|)|, fraction) then log else log + Markers(stale)
  }

  // This side's entries at positions from..upto.
  function OwnCount(log: Log, from: nat, upto: nat): nat
    requires from <= upto <= |log|
  {
    if upto == from then 0 else OwnCount(log, from, upto - 1) + (if log[upto - 1].own then 1 else 0)
  }

  lemma {:induction false} OwnCountGrows(a: Log, b: Log, from: nat, upto: nat)
    requires a <= b && from <= upto <= |b| && from <= |a|
    ensures upto <= |a| ==> OwnCount(b, from, upto) == OwnCount(a, from, upto)
    ensures |a| <= upto && (forall i | |a| <= i < upto :: !b[i].own) ==> OwnCount(b, from, upto) == OwnCount(a, from, |a|)
    decreases upto
  {
    if upto > from {
      OwnCountGrows(a, b, from, upto - 1);
    }
  }

  // What this side did after `listed`: at most `limit` purges, each of a key in `keys`.
  ghost predicate OwnPurges(listed: Log, b: Log, keys: seq<string>, limit: int) {
    && listed <= b
    && (forall i | |listed| <= i < |b| && b[i].own :: b[i].op == Purge && b[i].key in keys)
    && OwnCount(b, |listed|, |b|) <= limit
  }

  lemma OnePurge(listed: Log, b: Log, c: Log, keys: seq<string>, limit: int, r: WriteResult, key: string)
    requires OwnPurges(listed, b, keys, limit) && key in keys
    requires r != KeyExists && Wrote(r, b, c, Entry(key, Purge, true))
    ensures OwnPurges(listed, c, keys, limit + 1)
  {
    if r == Done {
      var d := c[..|c| - 1];
      OwnCountGrows(b, d, |listed|, |d|);
      OwnCountGrows(d, c, |listed|, |d|);
      assert forall i | |b| <= i < |d| :: c[i] == d[i];
      assert forall i | |listed| <= i < |b| :: c[i] == b[i];
    } else {
      OwnCountGrows(b, c, |listed|, |c|);
      assert forall i | |listed| <= i < |b| :: c[i] == b[i];
    }
  }

  ghost predicate PurgedWithin(a: Log, b: Log, key: string) {
    exists i :: |a| <= i < |b| && b[i] == Entry(key, Purge, true)
  }

  // The stale keys not purged since.
  ghost function Missed(listed: Log, b: Log, stale: seq<string>): set<string> {
    set k | k in stale && !PurgedWithin(listed, b, k)
  }

  lemma MissedGrows(listed: Log, b: Log, c: Log, some: seq<string>, key: string, ok: bool)
    requires listed <= b && Wrote(if ok then Done else Broken, b, c, Entry(key, Purge, true))
    ensures |Missed(listed, c, some + [key])| <= |Missed(listed, b, some)| + if ok then 0 else 1
  {
    forall k | PurgedWithin(listed, b, k) ensures PurgedWithin(listed, c, k) {
      var i :| |listed| <= i < |b| && b[i] == Entry(k, Purge, true);
      assert b <= c && c[i] == b[i];
    }
    if ok {
      assert c[|c| - 1] == Entry(key, Purge, true);
    }
    Fewer(Missed(listed, c, some + [key]), Missed(listed, b, some) + if ok then {} else {key});
  }

  lemma {:induction false} Fewer<T>(a: set<T>, b: set<T>)
    requires a <= b
    ensures |a| <= |b|
  {
    if a != {} {
      var x :| x in a;
      Fewer(a - {x}, b - {x});
    }
  }

  // One purge a key; a failed one is skipped, so no more keys are missed than calls failed.
  method PurgeAll(kv: Bucket, stale: seq<string>)
    modifies kv
    ensures AsCalm(old(kv.schedule), kv.schedule)
    ensures OwnPurges(old(kv.log), kv.log, stale, |stale|)
    ensures |Missed(old(kv.log), kv.log, stale)| + Rough(kv.schedule) <= Rough(old(kv.schedule))
    ensures Uncontended(old(kv.schedule)) && Reliable(old(kv.schedule)) ==> kv.log == old(kv.log) + Markers(stale)
  {
    ghost var listed := kv.log;
    ghost var calm := Uncontended(kv.schedule) && Reliable(kv.schedule);
    hide Missed;
    assert |Missed(listed, listed, [])| == 0 by { NothingMissed(listed); }
    for i := 0 to |stale|
      invariant AsCalm(old(kv.schedule), kv.schedule)
      invariant OwnPurges(listed, kv.log, stale, i)
      invariant |Missed(listed, kv.log, stale[..i])| + Rough(kv.schedule) <= Rough(old(kv.schedule))
      invariant calm ==> kv.log == listed + Markers(stale[..i])
    {
      ghost var before := kv.log;
      var purged := kv.PurgeKey(stale[i]);
      OnePurge(listed, before, kv.log, stale, i, if purged then Done else Broken, stale[i]);
      MissedGrows(listed, before, kv.log, stale[..i], stale[i], purged);
      assert stale[..i + 1] == stale[..i] + [stale[i]];
      if calm {
        assert kv.log[..|kv.log| - 1] == before;
        assert kv.log == before + [Entry(stale[i], Purge, true)];
        assert Markers(stale[..i + 1]) == Markers(stale[..i]) + [Entry(stale[i], Purge, true)];
      }
    }
    assert stale[..|stale|] == stale;
  }

  lemma NothingMissed(listed: Log)
    ensures Missed(listed, listed, []) == {}
  {
  }

  // `atStart` is the bucket before the sweep read the database; `listed` is the stream as the
  // prune listed it. A failed listing or purge is skipped, not reported.
  method Prune(kv: Bucket, published: seq<string>, atStart: seq<KeyRevision>, fraction: real)
    returns (ghost listed: Log)
    modifies kv
    ensures AsCalm(old(kv.schedule), kv.schedule)
    ensures OnlyForeign(old(kv.log), listed)
    ensures OwnPurges(listed, kv.log, StaleIn(listed, published, atStart),
                      if published == [] then 0 else PruneLimit(|Listing(listed, |listed|)|, fraction))
    ensures var stale := StaleIn(listed, published, atStart);
            || FailsNext(old(kv.schedule)) || PruneRefused(stale, published, |Listing(listed, |listed|)|, fraction)
            || |Missed(listed, kv.log, stale)| + Rough(kv.schedule) <= Rough(old(kv.schedule))
    ensures WithinCeiling(OwnCount(kv.log, |listed|, |kv.log|), |Listing(listed, |listed|)|, fraction)
    ensures Uncontended(old(kv.schedule)) && Reliable(old(kv.schedule)) ==>
              kv.log == PruneQuietly(old(kv.log), published, atStart, fraction)
  {
    var ok, actual := kv.ListRevisions();
    listed := kv.log;
    if !ok {
      return;
    }
    var keep := set k | k in published;
    var untouched: map<string, nat> := map[];
    for i := 0 to |atStart|
      invariant untouched == Revisions(atStart, i)
    {
      untouched := untouched[atStart[i].key := atStart[i].revision];
    }
    var stale: seq<string> := [];
    for i := 0 to |actual|
      invariant stale == StaleKeys(actual, i, keep, untouched)
    {
      if actual[i].key in keep {
        continue;
      }
      if actual[i].key !in untouched || untouched[actual[i].key] != actual[i].revision {
        continue;
      }
      stale := stale + [actual[i].key];
    }
    if stale == [] {
      return;
    }
    var limit := PruneLimit(|actual|, fraction);
    if published == [] || |stale| > limit {
      return;
    }
    PurgeAll(kv, stale);
    MorePurges(listed, kv.log, stale, |stale|, limit);
    LimitMeans(OwnCount(kv.log, |listed|, |kv.log|), |actual|, fraction);
  }

  lemma MorePurges(listed: Log, b: Log, keys: seq<string>, few: int, limit: int)
    requires OwnPurges(listed, b, keys, few) && few <= limit
    ensures OwnPurges(listed, b, keys, limit)
  {
  }

  // ---- What a stale key is ----

  lemma {:induction false} StaleKeysMember(actual: seq<KeyRevision>, n: nat, keep: set<string>, untouched: map<string, nat>, k: string)
    requires n <= |actual|
    ensures k in StaleKeys(actual, n, keep, untouched) <==>
            exists i :: 0 <= i < n && actual[i].key == k && IsStale(actual[i], keep, untouched)
  {
    if n > 0 {
      StaleKeysMember(actual, n - 1, keep, untouched, k);
      var prior, last := StaleKeys(actual, n - 1, keep, untouched), actual[n - 1];
      if IsStale(last, keep, untouched) {
        assert k in prior + [last.key] <==> k in prior || k == last.key;
      } else {
        assert StaleKeys(actual, n, keep, untouched) == prior;
      }
    }
  }

  lemma {:induction false} RevisionsExact(entries: seq<KeyRevision>, n: nat, k: string)
    requires n <= |entries|
    requires forall i, j | 0 <= i < j < |entries| :: entries[i].key != entries[j].key
    ensures k in Revisions(entries, n) <==> exists i :: 0 <= i < n && entries[i].key == k
    ensures forall i | 0 <= i < n && entries[i].key == k :: Revisions(entries, n)[k] == entries[i].revision
  {
    if n > 0 {
      RevisionsExact(entries, n - 1, k);
      assert entries[n - 1].key == k ==> exists i :: 0 <= i < n && entries[i].key == k;
    }
  }

  // Exactly the live keys that no row published and that nobody touched since the snapshot.
  lemma StaleExactly(snap: Log, listed: Log, published: seq<string>, k: string)
    requires snap <= listed
    ensures k in StaleIn(listed, published, Listing(snap, |snap|)) <==>
            k !in published && Live(listed, k).Some? && Revision(listed, k) == Revision(snap, k)
  {
    var actual, atStart := Listing(listed, |listed|), Listing(snap, |snap|);
    var keep, untouched := (set p | p in published), Revisions(atStart, |atStart|);
    StaleKeysMember(actual, |actual|, keep, untouched, k);
    ListingOrdered(snap, |snap|);
    RevisionsExact(atStart, |atStart|, k);
    ListingExact(listed, KeyRevision(k, Revision(listed, k)));
    ListingExact(snap, KeyRevision(k, Revision(snap, k)));
    Untouched(snap, listed, k);
    forall i | 0 <= i < |actual| && actual[i].key == k ensures actual[i].revision == Revision(listed, k) {
      ListingExact(listed, actual[i]);
    }
    forall i | 0 <= i < |atStart| && atStart[i].key == k ensures atStart[i].revision == Revision(snap, k) {
      ListingExact(snap, atStart[i]);
    }
  }

  // ---- One source, one cycle ----

  // This side's purges, however the others interleaved: only on a full sweep that read rows and published every
  // one, only of live keys without a row that nobody touched between the snapshot and the prune's listing,
  // and no more of them than the ceiling allows. Everything else it wrote is a row's own key.
  ghost predicate Swept(a: Log, b: Log, snap: Log, listed: Log, rows: seq<Row>, full: bool, published: seq<bool>, fraction: real) {
    && a <= snap <= listed <= b
    && OnlyForeign(a, snap)
    && OwnPuts(snap, listed, KeySet(rows))
    && (forall i | |listed| <= i < |b| && b[i].own ::
          b[i].op == Purge && full && false !in published && rows != [] && PrunedSafely(snap, listed, rows, b[i].key))
    && WithinCeiling(OwnCount(b, |listed|, |b|), |Listing(listed, |listed|)|, fraction)
  }

  ghost predicate PrunedSafely(snap: Log, listed: Log, rows: seq<Row>, key: string) {
    key !in KeySet(rows) && Live(listed, key).Some? && Revision(listed, key) == Revision(snap, key)
  }

  lemma PurgesAreSafe(snap: Log, listed: Log, b: Log, rows: seq<Row>, stale: seq<string>, limit: int)
    requires snap <= listed && stale == StaleIn(listed, KeysOf(rows), Listing(snap, |snap|))
    requires OwnPurges(listed, b, stale, limit) && (rows == [] ==> limit == 0)
    ensures forall i | |listed| <= i < |b| && b[i].own ::
              b[i].op == Purge && rows != [] && PrunedSafely(snap, listed, rows, b[i].key)
  {
    forall i | |listed| <= i < |b| && b[i].own
      ensures b[i].op == Purge && rows != [] && PrunedSafely(snap, listed, rows, b[i].key)
    {
      StaleIsSafe(snap, listed, rows, b[i].key);
      if rows == [] {
        OwnCountPositive(b, |listed|, |b|, i);
      }
    }
  }

  lemma StaleIsSafe(snap: Log, listed: Log, rows: seq<Row>, key: string)
    requires snap <= listed && key in StaleIn(listed, KeysOf(rows), Listing(snap, |snap|))
    ensures PrunedSafely(snap, listed, rows, key)
  {
    StaleExactly(snap, listed, KeysOf(rows), key);
    KeysOfMember(rows, key);
  }

  lemma KeysOfMember(rows: seq<Row>, k: string)
    ensures k in KeysOf(rows) <==> k in KeySet(rows)
  {
    if k in KeySet(rows) {
      var r :| r in rows && KeyOf(r.item) == k;
      var i :| 0 <= i < |rows| && rows[i] == r;
      assert KeysOf(rows)[i] == k;
    }
  }

  lemma {:induction false} OwnCountPositive(log: Log, from: nat, upto: nat, i: nat)
    requires from <= i < upto <= |log| && log[i].own
    ensures OwnCount(log, from, upto) > 0
    decreases upto
  {
    if i < upto - 1 {
      OwnCountPositive(log, from, upto - 1, i);
    }
  }

  // One source's cycle over `rows`, with nobody else about.
  function SweepQuietly(log: Log, rows: seq<Row>, full: bool, clock: Clock, fraction: real): Log {
    var after := ResyncQuietly(log, rows, |rows|, clock);
    if full then PruneQuietly(after, KeysOf(rows), Listing(log, |log|), fraction) else after
  }

  // The cycle counts a source as failed for a table it could not read or a row it could not publish. A failed
  // snapshot, a refused prune and a failed purge do not.
  predicate SourceFailed(table: Option<seq<Row>>, published: seq<bool>) { table.None? || false in published }

  // The rows reported published were each shown at some moment of the sweep.
  ghost predicate Reported(snap: Log, b: Log, rows: seq<Row>, published: seq<bool>) {
    |published| == |rows| && AllShownWithin(snap, b, rows, published)
  }

  // One source's whole account: what it wrote and what it reports.
  ghost predicate Accounted(a: Log, b: Log, snap: Log, listed: Log, table: Option<seq<Row>>, since: Option<int>,
                            published: seq<bool>, fraction: real) {
    && Swept(a, b, snap, listed, Answered(table, since), since.None?, published, fraction)
    && Reported(snap, b, Answered(table, since), published)
  }

  // Left undisturbed, a source is swept quietly and does not fail.
  ghost predicate QuietlyDone(a: Log, turns: seq<Turn>, b: Log, table: Option<seq<Row>>, since: Option<int>, clock: Clock,
                              published: seq<bool>, fraction: real) {
    table.Some? && Undisturbed(turns, Answered(table, since)) ==>
      && !SourceFailed(table, published)
      && b == SweepQuietly(a, Answered(table, since), since.None?, clock, fraction)
  }

  lemma ReportedStays(snap: Log, b: Log, c: Log, rows: seq<Row>, published: seq<bool>)
    requires Reported(snap, b, rows, published) && b <= c
    ensures Reported(snap, c, rows, published)
  {
    hide ShownWithin;
    forall j | 0 <= j < |published| && published[j] ensures ShownWithin(snap, c, rows[j].item) {
      ShownStays(snap, b, c, rows[j].item);
    }
  }

  // `table` is what the database answers with, or None for a failed read.
  method SweepSource(kv: Bucket, table: Option<seq<Row>>, since: Option<int>, clock: Clock, fraction: real, cancelled: bool)
    returns (failed: bool, ghost snap: Log, ghost listed: Log, ghost published: seq<bool>)
    modifies kv
    ensures AsCalm(old(kv.schedule), kv.schedule)
    ensures Accounted(old(kv.log), kv.log, snap, listed, table, since, published, fraction)
    ensures failed <==> SourceFailed(table, published)
    ensures table.Some? ==> |Lost(Answered(table, since), published)| + Rough(kv.schedule) <= Rough(old(kv.schedule))
    ensures cancelled ==> kv.log == listed
    ensures !cancelled ==>
              QuietlyDone(old(kv.log), old(kv.schedule), kv.log, table, since, clock, published, fraction)
  {
    hide AllShownWithin, PublishedKeys, Window, Listing, StaleIn, KeyOf, PrunedSafely, ResyncQuietly;
    var full := since.None?;
    var atStart, snapshotted := [], true;
    if full {
      snapshotted, atStart := kv.ListRevisions();
    }
    snap, listed, published := kv.log, kv.log, [];
    if table.None? {
      NothingReported(snap);
      return true, snap, listed, [];
    }
    var rows := Window(table.value, since);
    var res;
    res, published := Resync(kv, rows, clock);
    listed := kv.log;
    failed := res.partial;
    if cancelled {
      return;
    }
    if full && !res.partial && snapshotted {
      EveryKeyPublished(rows, published);
      ghost var resynced := kv.log;
      listed := Prune(kv, res.keys, atStart, fraction);
      assert KeysOf(rows)[..|rows|] == KeysOf(rows) && |KeysOf(rows)| == |rows|;
      var limit := if KeysOf(rows) == [] then 0 else PruneLimit(|Listing(listed, |listed|)|, fraction);
      PurgesAreSafe(snap, listed, kv.log, rows, StaleIn(listed, KeysOf(rows), atStart), limit);
      OwnPutsExtend(snap, resynced, listed, KeySet(rows), {}, KeySet(rows));
      ReportedStays(snap, resynced, kv.log, rows, published);
    }
  }

  lemma NothingReported(snap: Log)
    ensures Reported(snap, snap, [], [])
  {
  }

  // ---- The cycle ----

  // A source: the bucket it owns, what its table holds when the cycle reads it, and the clock.
  datatype Source = Source(kv: Bucket, table: Option<seq<Row>>, clock: Clock)

  class Reconciler {
    const pruneMaxFraction: real
    // Cycles completed, and the start of the last clean one.
    var runs: nat
    var lastRun: Option<int>

    constructor (pruneMaxFraction: real)
      ensures this.pruneMaxFraction == pruneMaxFraction && runs == 0 && lastRun == None
    {
      this.pruneMaxFraction := pruneMaxFraction;
      runs, lastRun := 0, None;
    }

    // The context is found cancelled after the read of source `cancelAt`, if there is one.
    method RunOnce(sources: seq<Source>, started: int, cancelAt: nat)
      returns (failed: bool, ghost snaps: seq<Log>, ghost lists: seq<Log>, ghost published: seq<seq<bool>>)
      requires forall i, j | 0 <= i < j < |sources| :: sources[i].kv != sources[j].kv
      modifies this, set i | 0 <= i < |sources| :: sources[i].kv
      ensures cancelAt < |sources| ==> runs == old(runs) && lastRun == old(lastRun)
      ensures cancelAt >= |sources| ==>
                runs == old(runs) + 1 && lastRun == if failed then old(lastRun) else Some(started)
      ensures |snaps| == |lists| == |published| == if cancelAt < |sources| then cancelAt + 1 else |sources|
      ensures cancelAt < |sources| ==> sources[cancelAt].kv.log == lists[cancelAt]
      ensures forall i | |snaps| <= i < |sources| ::
                sources[i].kv.log == old(sources[i].kv.log) && sources[i].kv.schedule == old(sources[i].kv.schedule)
      ensures forall i | 0 <= i < |snaps| :: AsCalm(old(sources[i].kv.schedule), sources[i].kv.schedule)
      ensures var since := old(NextSince(runs, lastRun));
              forall i | 0 <= i < |snaps| ::
                var s := sources[i];
                Accounted(old(s.kv.log), s.kv.log, snaps[i], lists[i], s.table, since, published[i], pruneMaxFraction)
      ensures cancelAt >= |sources| ==>
                (failed <==> exists i :: 0 <= i < |sources| && SourceFailed(sources[i].table, published[i]))
      ensures cancelAt >= |sources| ==>
                var since := old(NextSince(runs, lastRun));
                forall i | 0 <= i < |sources| ::
                  var s := sources[i];
                  QuietlyDone(old(s.kv.log), old(s.kv.schedule), s.kv.log, s.table, since, s.clock, published[i], pruneMaxFraction)
    {
      hide Accounted, QuietlyDone, NextSince, SourceFailed, AsCalm;
      var since := NextSince(runs, lastRun);
      failed, snaps, lists, published := false, [], [], [];
      for i := 0 to |sources|
        invariant i <= cancelAt
        invariant runs == old(runs) && lastRun == old(lastRun)
        invariant |snaps| == |lists| == |published| == i
        invariant forall j | i <= j < |sources| ::
                    sources[j].kv.log == old(sources[j].kv.log) && sources[j].kv.schedule == old(sources[j].kv.schedule)
        invariant forall j | 0 <= j < i ::
                    var s := sources[j];
                    Accounted(old(s.kv.log), s.kv.log, snaps[j], lists[j], s.table, since, published[j], pruneMaxFraction)
        invariant forall j | 0 <= j < i :: AsCalm(old(sources[j].kv.schedule), sources[j].kv.schedule)
        invariant failed <==> exists j :: 0 <= j < i && SourceFailed(sources[j].table, published[j])
        invariant forall j | 0 <= j < i ::
                    var s := sources[j];
                    QuietlyDone(old(s.kv.log), old(s.kv.schedule), s.kv.log, s.table, since, s.clock, published[j], pruneMaxFraction)
      {
        var s := sources[i];
        var bad;
        ghost var snap, listed, oks;
        bad, snap, listed, oks := SweepSource(s.kv, s.table, since, s.clock, pruneMaxFraction, i == cancelAt);
        snaps, lists, published := snaps + [snap], lists + [listed], published + [oks];
        if i == cancelAt {
          return;
        }
        failed := failed || bad;
      }
      runs := runs + 1;
      if !failed {
        lastRun := Some(started);
      }
    }
  }
}
