/**
 What undisturbed sweeps converge to, from any bucket contents, and when they do not.
 */
module Healing {
  import opened Options
  import opened Kv
  import opened Publisher
  import opened Items
  import opened Reconciler

  ghost predicate UniqueKeys(rows: seq<Row>) {
    forall i, j | 0 <= i < j < |rows| :: KeyOf(rows[i].item) != KeyOf(rows[j].item)
  }

  ghost predicate AllShown(log: Log, rows: seq<Row>) { forall r | r in rows :: ShownIn(log, r.item) }

  // The bucket is the image of the rows: every row shown, and no key besides.
  ghost predicate Converged(log: Log, rows: seq<Row>) {
    && AllShown(log, rows)
    && (forall k | k in Contents(log) :: k in KeySet(rows))
  }

  // The live keys no row accounts for.
  function StaleSet(log: Log, rows: seq<Row>): set<string> { Contents(log).Keys - KeySet(rows) }

  // The guard of the prune, read off the bucket as the sweep finds it.
  predicate Healable(log: Log, rows: seq<Row>, fraction: real) {
    var stale := |StaleSet(log, rows)|;
    stale == 0 || (rows != [] && (stale <= 5 || stale as real <= (stale + |rows|) as real * fraction))
  }

  // ---- Resync: what it shows and what it leaves alone ----

  lemma PublishFrame(log: Log, item: Item, stamp: string, k: string)
    ensures log <= PublishItemQuietly(log, item, stamp)
    ensures k != KeyOf(item) ==>
              && Live(PublishItemQuietly(log, item, stamp), k) == Live(log, k)
              && Revision(PublishItemQuietly(log, item, stamp), k) == Revision(log, k)
  {
    Appended(log, NewEntry(log, KeyOf(item), BuildOf(item), stamp), k);
  }

  lemma ShownFrame(log: Log, item: Item, stamp: string, other: Item)
    requires KeyOf(other) != KeyOf(item)
    ensures ShownIn(PublishItemQuietly(log, item, stamp), other) <==> ShownIn(log, other)
  {
    hide PublishItemQuietly, Live;
    PublishFrame(log, item, stamp, KeyOf(other));
  }

  lemma {:induction false} ResyncFrame(log: Log, rows: seq<Row>, n: nat, clock: Clock, k: string)
    requires n <= |rows|
    ensures log <= ResyncQuietly(log, rows, n, clock)
    ensures (forall i | 0 <= i < n :: KeyOf(rows[i].item) != k) ==>
              && Live(ResyncQuietly(log, rows, n, clock), k) == Live(log, k)
              && Revision(ResyncQuietly(log, rows, n, clock), k) == Revision(log, k)
  {
    hide PublishItemQuietly, Live, Revision;
    if n > 0 {
      ResyncFrame(log, rows, n - 1, clock, k);
      PublishFrame(ResyncQuietly(log, rows, n - 1, clock), rows[n - 1].item, clock(n - 1)(0), k);
    }
  }

  lemma {:induction false} ResyncShows(log: Log, rows: seq<Row>, n: nat, clock: Clock, j: nat)
    requires UniqueKeys(rows) && n <= |rows| && j < |rows|
    requires j < n || ShownIn(log, rows[j].item)
    ensures ShownIn(ResyncQuietly(log, rows, n, clock), rows[j].item)
  {
    hide PublishItemQuietly, ShownIn, KeyOf;
    if n > 0 {
      var before := ResyncQuietly(log, rows, n - 1, clock);
      if j == n - 1 {
        PublishShows(before, rows[j].item, clock(j)(0));
      } else {
        ResyncShows(log, rows, n - 1, clock, j);
        ShownFrame(before, rows[n - 1].item, clock(n - 1)(0), rows[j].item);
      }
    }
  }

  lemma {:induction false} ResyncOfShownRows(log: Log, rows: seq<Row>, n: nat, clock: Clock)
    requires n <= |rows| && AllShown(log, rows)
    ensures ResyncQuietly(log, rows, n, clock) == log
  {
    hide PublishItemQuietly, ShownIn;
    if n > 0 {
      ResyncOfShownRows(log, rows, n - 1, clock);
      assert rows[n - 1] in rows;
      PublishShows(log, rows[n - 1].item, clock(n - 1)(0));
    }
  }

  lemma ResyncKeepsStale(log: Log, rows: seq<Row>, all: seq<Row>, clock: Clock)
    requires forall r | r in rows :: r in all
    ensures StaleSet(ResyncQuietly(log, rows, |rows|, clock), all) == StaleSet(log, all)
  {
    var after := ResyncQuietly(log, rows, |rows|, clock);
    forall k | k !in KeySet(all) ensures k in Contents(after) <==> k in Contents(log) {
      forall i | 0 <= i < |rows| ensures KeyOf(rows[i].item) != k {
        assert rows[i] in all;
      }
      ResyncFrame(log, rows, |rows|, clock, k);
      ContentsAt(log, k);
      ContentsAt(after, k);
    }
  }

  // ---- Prune: which keys, and how many ----

  ghost predicate Distinct<T>(s: seq<T>) { forall i, j | 0 <= i < j < |s| :: s[i] != s[j] }

  lemma {:induction false} DistinctSize<T>(s: seq<T>, t: set<T>)
    requires Distinct(s)
    requires forall x :: x in s <==> x in t
    ensures |s| == |t|
  {
    if s != [] {
      var x := s[|s| - 1];
      var rest := s[..|s| - 1];
      assert s == rest + [x];
      forall y ensures y in rest <==> y in t - {x} {
        if y in rest {
          var i :| 0 <= i < |rest| && rest[i] == y;
          assert s[i] != s[|s| - 1];
        }
      }
      DistinctSize(rest, t - {x});
      assert x in t;
    } else {
      assert t == {};
    }
  }

  lemma {:induction false} StaleKeysDistinct(actual: seq<KeyRevision>, n: nat, keep: set<string>, untouched: map<string, nat>)
    requires n <= |actual|
    requires forall i, j | 0 <= i < j < |actual| :: actual[i].key != actual[j].key
    ensures Distinct(StaleKeys(actual, n, keep, untouched))
  {
    if n > 0 {
      StaleKeysDistinct(actual, n - 1, keep, untouched);
      var prior := StaleKeys(actual, n - 1, keep, untouched);
      forall i | 0 <= i < |prior| ensures prior[i] != actual[n - 1].key {
        assert prior[i] in prior;
        StaleKeysMember(actual, n - 1, keep, untouched, prior[i]);
      }
    }
  }

  lemma StaleInDistinct(log: Log, published: seq<string>, atStart: seq<KeyRevision>)
    ensures Distinct(StaleIn(log, published, atStart))
  {
    var actual := Listing(log, |log|);
    ListingOrdered(log, |log|);
    StaleKeysDistinct(actual, |actual|, (set k | k in published), Revisions(atStart, |atStart|));
  }

  lemma ListingSize(log: Log)
    ensures |Listing(log, |log|)| == |Contents(log)|
  {
    var listing := Listing(log, |log|);
    var keys := seq(|listing|, i requires 0 <= i < |listing| => listing[i].key);
    ListingOrdered(log, |log|);
    forall k ensures k in keys <==> k in Contents(log).Keys {
      ContentsAt(log, k);
      ListingExact(log, KeyRevision(k, Revision(log, k)));
      if k in keys {
        var i :| 0 <= i < |keys| && keys[i] == k;
        ListingExact(log, listing[i]);
      }
      if KeyRevision(k, Revision(log, k)) in listing {
        var i :| 0 <= i < |listing| && listing[i] == KeyRevision(k, Revision(log, k));
        assert keys[i] == k;
      }
    }
    DistinctSize(keys, Contents(log).Keys);
  }

  // The prune of a sweep that only resynced since its snapshot purges exactly the stale set.
  lemma SweepStale(log: Log, rows: seq<Row>, clock: Clock)
    ensures var after := ResyncQuietly(log, rows, |rows|, clock);
            var stale := StaleIn(after, KeysOf(rows), Listing(log, |log|));
            |stale| == |StaleSet(log, rows)| && forall k :: k in stale <==> k in StaleSet(log, rows)
  {
    hide ResyncQuietly, StaleIn, Listing, Live, Revision, Contents;
    var after := ResyncQuietly(log, rows, |rows|, clock);
    var stale := StaleIn(after, KeysOf(rows), Listing(log, |log|));
    ResyncFrame(log, rows, |rows|, clock, "");
    forall k ensures k in stale <==> k in StaleSet(log, rows) {
      StaleExactly(log, after, KeysOf(rows), k);
      KeysOfMember(rows, k);
      ContentsAt(log, k);
      if k !in KeySet(rows) {
        forall i | 0 <= i < |rows| ensures KeyOf(rows[i].item) != k {
          assert rows[i] in rows;
        }
        ResyncFrame(log, rows, |rows|, clock, k);
      }
    }
    StaleInDistinct(after, KeysOf(rows), Listing(log, |log|));
    DistinctSize(stale, StaleSet(log, rows));
  }

  lemma ShownIsLive(log: Log, item: Item)
    ensures ShownIn(log, item) ==> KeyOf(item) in Contents(log)
  {
    ContentsAt(log, KeyOf(item));
  }

  lemma ResyncedSize(log: Log, rows: seq<Row>, clock: Clock)
    requires UniqueKeys(rows)
    ensures |Contents(ResyncQuietly(log, rows, |rows|, clock))| == |StaleSet(log, rows)| + |rows|
  {
    hide ResyncQuietly, ShownIn, Contents, Live;
    var after := ResyncQuietly(log, rows, |rows|, clock);
    forall k | k in KeySet(rows) ensures k in Contents(after) {
      var r :| r in rows && KeyOf(r.item) == k;
      var j :| 0 <= j < |rows| && rows[j] == r;
      ResyncShows(log, rows, |rows|, clock, j);
      ShownIsLive(after, r.item);
    }
    ResyncKeepsStale(log, rows, rows, clock);
    assert Contents(after).Keys == StaleSet(log, rows) + KeySet(rows);
    forall k ensures k in KeysOf(rows) <==> k in KeySet(rows) {
      KeysOfMember(rows, k);
    }
    DistinctSize(KeysOf(rows), KeySet(rows));
    assert |Contents(after)| == |Contents(after).Keys|;
  }

  // ---- One full sweep ----

  lemma {:induction false} MarkersPurge(log: Log, keys: seq<string>, k: string)
    ensures Live(log + Markers(keys), k) == if k in keys then None else Live(log, k)
  {
    if keys == [] {
      assert log + Markers(keys) == log;
    } else {
      var rest, last := keys[..|keys| - 1], keys[|keys| - 1];
      MarkersPurge(log, rest, k);
      assert keys == rest + [last];
      assert log + Markers(keys) == (log + Markers(rest)) + [Entry(last, Purge, true)];
      Appended(log + Markers(rest), Entry(last, Purge, true), k);
    }
  }

  lemma KeysOfSize(rows: seq<Row>)
    ensures |KeysOf(rows)| == |rows|
  {
  }

  lemma PruneRefusedExactly(log: Log, rows: seq<Row>, clock: Clock, fraction: real)
    requires UniqueKeys(rows)
    ensures var after := ResyncQuietly(log, rows, |rows|, clock);
            PruneRefused(StaleIn(after, KeysOf(rows), Listing(log, |log|)), KeysOf(rows), |Listing(after, |after|)|, fraction)
            <==> |StaleSet(log, rows)| == 0 || !Healable(log, rows, fraction)
  {
    hide ResyncQuietly, StaleIn, Listing, StaleSet, Contents, KeysOf, PruneLimit;
    var after := ResyncQuietly(log, rows, |rows|, clock);
    var stale, listed := StaleIn(after, KeysOf(rows), Listing(log, |log|)), Listing(after, |after|);
    var n := |StaleSet(log, rows)|;
    SweepStale(log, rows, clock);
    ResyncedSize(log, rows, clock);
    ListingSize(after);
    KeysOfSize(rows);
    assert |stale| == n && |listed| == n + |rows|;
    LimitMeans(n, n + |rows|, fraction);
    assert PruneRefused(stale, KeysOf(rows), |listed|, fraction)
           <==> n == 0 || |rows| == 0 || n > PruneLimit(n + |rows|, fraction);
  }

  // After a full sweep every row is shown; what was stale is gone when the guard let it, and all
  // still there when it did not.
  lemma FullSweep(log: Log, rows: seq<Row>, clock: Clock, fraction: real)
    requires UniqueKeys(rows) && AllPublishable(rows)
    ensures var b := SweepQuietly(log, rows, true, clock, fraction);
            && AllShown(b, rows)
            && StaleSet(b, rows) == if Healable(log, rows, fraction) then {} else StaleSet(log, rows)
  {
    var after := ResyncQuietly(log, rows, |rows|, clock);
    var stale := StaleIn(after, KeysOf(rows), Listing(log, |log|));
    var b := SweepQuietly(log, rows, true, clock, fraction);
    SweepStale(log, rows, clock);
    PruneRefusedExactly(log, rows, clock, fraction);
    ResyncKeepsStale(log, rows, rows, clock);
    var purged := if b == after then [] else stale;
    assert b == after || b == after + Markers(stale);
    forall k ensures Live(b, k) == if k in purged then None else Live(after, k) {
      MarkersPurge(after, stale, k);
      ContentsAt(b, k);
      ContentsAt(after, k);
    }
    forall r | r in rows ensures ShownIn(b, r.item) {
      var j :| 0 <= j < |rows| && rows[j] == r;
      ResyncShows(log, rows, |rows|, clock, j);
      assert KeyOf(r.item) in KeySet(rows);
    }
    forall k ensures k in StaleSet(b, rows) <==> k in StaleSet(after, rows) && k !in purged {
      ContentsAt(b, k);
      ContentsAt(after, k);
    }
    if stale != [] && b == after {
      assert |after + Markers(stale)| > |after|;
    }
  }

  // A full sweep converges a bucket exactly when the prune's guard, read off the bucket as the
  // sweep finds it, lets its stale keys go.
  lemma FullSweepConverges(log: Log, rows: seq<Row>, clock: Clock, fraction: real)
    requires UniqueKeys(rows) && AllPublishable(rows)
    ensures Converged(SweepQuietly(log, rows, true, clock, fraction), rows) <==> Healable(log, rows, fraction)
  {
    hide SweepQuietly, ShownIn, Contents, KeySet;
    var b := SweepQuietly(log, rows, true, clock, fraction);
    FullSweep(log, rows, clock, fraction);
    assert |StaleSet(log, rows)| == 0 <==> StaleSet(log, rows) == {};
    assert forall k :: k in StaleSet(b, rows) <==> k in Contents(b) && k !in KeySet(rows);
    assert StaleSet(b, rows) == {} <==> forall k :: k !in StaleSet(b, rows);
  }

  // ---- Sweeping again ----

  lemma ResyncShowsAll(log: Log, rows: seq<Row>, clock: Clock)
    requires UniqueKeys(rows)
    ensures AllShown(ResyncQuietly(log, rows, |rows|, clock), rows)
  {
    forall r | r in rows ensures ShownIn(ResyncQuietly(log, rows, |rows|, clock), r.item) {
      var j :| 0 <= j < |rows| && rows[j] == r;
      ResyncShows(log, rows, |rows|, clock, j);
    }
  }

  // Repeating a sweep over the same rows writes nothing at all: no revision moves and no stored
  // timestamp with it, whether the first prune went ahead or was refused.
  lemma RepeatIsQuiet(log: Log, rows: seq<Row>, full: bool, first: Clock, second: Clock, fraction: real)
    requires UniqueKeys(rows) && AllPublishable(rows)
    ensures var b := SweepQuietly(log, rows, full, first, fraction);
            SweepQuietly(b, rows, full, second, fraction) == b
  {
    hide ShownIn, SweepQuietly, ResyncQuietly, StaleSet, Healable;
    var b := SweepQuietly(log, rows, full, first, fraction);
    if full {
      FullSweep(log, rows, first, fraction);
      GuardReadsStaleSet(log, b, rows, fraction);
      NothingLeftToSweep(b, rows, full, second, fraction);
    } else {
      assert b == ResyncQuietly(log, rows, |rows|, first) by { IncrementalIsResync(log, rows, first, fraction); }
      ResyncShowsAll(log, rows, first);
      NothingLeftToSweep(b, rows, full, second, fraction);
    }
  }

  lemma IncrementalIsResync(log: Log, rows: seq<Row>, clock: Clock, fraction: real)
    ensures SweepQuietly(log, rows, false, clock, fraction) == ResyncQuietly(log, rows, |rows|, clock)
  {
  }

  lemma GuardReadsStaleSet(a: Log, b: Log, rows: seq<Row>, fraction: real)
    ensures StaleSet(a, rows) == StaleSet(b, rows) ==> Healable(a, rows, fraction) == Healable(b, rows, fraction)
    ensures StaleSet(a, rows) == {} <==> |StaleSet(a, rows)| == 0
    ensures StaleSet(a, rows) == {} ==> Healable(a, rows, fraction)
  {
    hide StaleSet;
  }

  lemma NothingLeftToSweep(log: Log, rows: seq<Row>, full: bool, clock: Clock, fraction: real)
    requires UniqueKeys(rows) && AllShown(log, rows)
    requires full ==> StaleSet(log, rows) == {} || !Healable(log, rows, fraction)
    ensures SweepQuietly(log, rows, full, clock, fraction) == log
  {
    hide ShownIn, ResyncQuietly, StaleSet, Healable, Listing, StaleIn, PruneRefused;
    ResyncOfShownRows(log, rows, |rows|, clock);
    if full {
      GuardReadsStaleSet(log, log, rows, fraction);
      PruneRefusedExactly(log, rows, clock, fraction);
    }
  }

  // ---- Runs ----

  lemma {:induction false} WindowMember(rows: seq<Row>, since: Option<int>, r: Row)
    ensures r in Window(rows, since) <==> r in rows && InWindow(r.updatedAt, since)
  {
    if rows != [] {
      WindowMember(rows[1..], since, r);
      assert rows == [rows[0]] + rows[1..];
    }
  }

  lemma {:induction false} WindowUnique(rows: seq<Row>, since: Option<int>)
    requires UniqueKeys(rows)
    ensures UniqueKeys(Window(rows, since))
  {
    if rows != [] {
      WindowUnique(rows[1..], since);
      var tail := Window(rows[1..], since);
      forall i | 0 <= i < |tail| ensures KeyOf(tail[i].item) != KeyOf(rows[0].item) {
        WindowMember(rows[1..], since, tail[i]);
        var j :| 0 <= j < |rows[1..]| && rows[1..][j] == tail[i];
        assert rows[j + 1] == tail[i];
      }
    }
  }

  lemma {:induction false} FullWindow(rows: seq<Row>)
    ensures Window(rows, None) == rows
  {
    if rows != [] {
      FullWindow(rows[1..]);
    }
  }

  // An incremental sweep shows every row of its window, un-shows none and prunes nothing.
  lemma IncrementalSweep(log: Log, rows: seq<Row>, since: Option<int>, clock: Clock, fraction: real)
    requires UniqueKeys(rows)
    ensures var b := SweepQuietly(log, Window(rows, since), false, clock, fraction);
            && StaleSet(b, rows) == StaleSet(log, rows)
            && (forall r | r in rows :: ShownIn(b, r.item) <==> InWindow(r.updatedAt, since) || ShownIn(log, r.item))
  {
    hide ShownIn, KeyOf, ResyncQuietly, SweepQuietly, InWindow, StaleSet;
    var some := Window(rows, since);
    var b := ResyncQuietly(log, some, |some|, clock);
    forall r ensures r in some <==> r in rows && InWindow(r.updatedAt, since) {
      WindowMember(rows, since, r);
    }
    IncrementalIsResync(log, some, clock, fraction);
    ResyncKeepsStale(log, some, rows, clock);
    WindowUnique(rows, since);
    ResyncShowsAll(log, some, clock);
    forall r | r in rows && !InWindow(r.updatedAt, since) ensures ShownIn(b, r.item) <==> ShownIn(log, r.item) {
      forall i | 0 <= i < |some| ensures KeyOf(some[i].item) != KeyOf(r.item) {
        assert some[i] in rows && some[i] != r;
      }
      ShownOutside(log, some, clock, r.item);
    }
  }

  lemma ShownOutside(log: Log, rows: seq<Row>, clock: Clock, item: Item)
    requires forall i | 0 <= i < |rows| :: KeyOf(rows[i].item) != KeyOf(item)
    ensures ShownIn(ResyncQuietly(log, rows, |rows|, clock), item) <==> ShownIn(log, item)
  {
    hide ResyncQuietly, Live;
    ResyncFrame(log, rows, |rows|, clock, KeyOf(item));
  }

  // So a change whose publish failed is repaired by the next incremental sweep that reads it; the bucket becomes the
  // image of the rows exactly when there was no stale key and every row not yet shown lies in the window.
  lemma IncrementalConverges(log: Log, rows: seq<Row>, since: Option<int>, clock: Clock, fraction: real)
    requires UniqueKeys(rows)
    ensures Converged(SweepQuietly(log, Window(rows, since), false, clock, fraction), rows)
            <==> StaleSet(log, rows) == {} && forall r | r in rows :: InWindow(r.updatedAt, since) || ShownIn(log, r.item)
  {
    hide ShownIn, SweepQuietly, StaleSet, InWindow, Converged;
    IncrementalSweep(log, rows, since, clock, fraction);
    ConvergedIs(SweepQuietly(log, Window(rows, since), false, clock, fraction), rows);
  }

  datatype Cycle = Cycle(started: int, clock: Clock)

  function LastRunAt(lastRun: Option<int>, cycles: seq<Cycle>, n: nat): Option<int>
    requires n <= |cycles|
  {
    if n == 0 then lastRun else Some(cycles[n - 1].started)
  }

  function SinceAt(runs: nat, lastRun: Option<int>, cycles: seq<Cycle>, n: nat): Option<int>
    requires n <= |cycles|
  {
    NextSince(runs + n, LastRunAt(lastRun, cycles, n))
  }

  // Of clean cycles, the first ever and every twelfth are full; any other looks back to a minute before the start of
  // the one before it.
  lemma Cadence(runs: nat, lastRun: Option<int>, cycles: seq<Cycle>, n: nat)
    requires n <= |cycles|
    ensures SinceAt(runs, lastRun, cycles, n).None? <==> (runs + n) % 12 == 0 || (n == 0 && lastRun.None?)
    ensures n > 0 && (runs + n) % 12 != 0 ==> SinceAt(runs, lastRun, cycles, n) == Some(cycles[n - 1].started - 60_000_000)
  {
  }

  // One source's bucket after n clean cycles of a reconciler that stood at (runs, lastRun).
  function RunQuietly(runs: nat, lastRun: Option<int>, log: Log, rows: seq<Row>, cycles: seq<Cycle>, n: nat, fraction: real): Log
    requires n <= |cycles|
  {
    if n == 0 then log
    else
      var since := SinceAt(runs, lastRun, cycles, n - 1);
      SweepQuietly(RunQuietly(runs, lastRun, log, rows, cycles, n - 1, fraction),
                   Window(rows, since), since.None?, cycles[n - 1].clock, fraction)
  }

  lemma ConvergedIs(log: Log, rows: seq<Row>)
    ensures Converged(log, rows) <==> AllShown(log, rows) && StaleSet(log, rows) == {}
  {
    assert forall k :: k in StaleSet(log, rows) <==> k in Contents(log) && k !in KeySet(rows);
    assert StaleSet(log, rows) == {} <==> forall k :: k !in StaleSet(log, rows);
  }

  lemma OneCycle(log: Log, rows: seq<Row>, since: Option<int>, clock: Clock, fraction: real)
    requires UniqueKeys(rows) && AllPublishable(rows)
    ensures var b := SweepQuietly(log, Window(rows, since), since.None?, clock, fraction);
            && (since.None? || AllShown(log, rows) ==> AllShown(b, rows))
            && StaleSet(b, rows) == if since.None? && Healable(log, rows, fraction) then {} else StaleSet(log, rows)
  {
    hide ShownIn, SweepQuietly, StaleSet, Healable;
    if since.None? {
      FullWindow(rows);
      FullSweep(log, rows, clock, fraction);
    } else {
      IncrementalSweep(log, rows, since, clock, fraction);
    }
  }

  lemma {:induction false} RunInvariant(
      runs: nat, lastRun: Option<int>, log: Log, rows: seq<Row>, cycles: seq<Cycle>, n: nat, fraction: real)
    requires UniqueKeys(rows) && AllPublishable(rows) && n <= |cycles|
    ensures var b := RunQuietly(runs, lastRun, log, rows, cycles, n, fraction);
            var swept := exists i :: 0 <= i < n && SinceAt(runs, lastRun, cycles, i).None?;
            && (swept ==> AllShown(b, rows))
            && StaleSet(b, rows) == if swept && Healable(log, rows, fraction) then {} else StaleSet(log, rows)
  {
    hide AllShown, SweepQuietly, StaleSet, SinceAt, Healable;
    if n > 0 {
      RunInvariant(runs, lastRun, log, rows, cycles, n - 1, fraction);
      var before := RunQuietly(runs, lastRun, log, rows, cycles, n - 1, fraction);
      OneCycle(before, rows, SinceAt(runs, lastRun, cycles, n - 1), cycles[n - 1].clock, fraction);
      GuardReadsStaleSet(before, log, rows, fraction);
    }
  }

  // Wherever the reconciler stands, twelve undisturbed cycles contain a full sweep. From then on
  // the bucket is the image of the rows if the prune's guard passes on the contents the run
  // started from, and never becomes it by any number of cycles if it does not.
  lemma BoundedHealing(runs: nat, lastRun: Option<int>, log: Log, rows: seq<Row>, cycles: seq<Cycle>, fraction: real)
    requires UniqueKeys(rows) && AllPublishable(rows) && |cycles| >= FULL_SWEEP_EVERY
    ensures Converged(RunQuietly(runs, lastRun, log, rows, cycles, |cycles|, fraction), rows)
            <==> Healable(log, rows, fraction)
  {
    hide RunQuietly, AllShown, StaleSet, Converged, Healable;
    var due := (FULL_SWEEP_EVERY - runs % FULL_SWEEP_EVERY) % FULL_SWEEP_EVERY;
    assert (runs + due) % FULL_SWEEP_EVERY == 0;
    assert SinceAt(runs, lastRun, cycles, due).None?;
    RunInvariant(runs, lastRun, log, rows, cycles, |cycles|, fraction);
    ConvergedIs(RunQuietly(runs, lastRun, log, rows, cycles, |cycles|, fraction), rows);
    GuardReadsStaleSet(log, log, rows, fraction);
  }

  // One stale key over an empty table: the guard never passes, and no number of cycles ever heals the bucket.
  lemma NeverHealed(body: Bytes, lastRun: Option<int>, cycles: seq<Cycle>, fraction: real)
    requires |cycles| >= FULL_SWEEP_EVERY
    ensures !Converged(RunQuietly(0, lastRun, [Entry("1.7", Put(body), true)], [], cycles, |cycles|, fraction), [])
  {
    hide RunQuietly, Converged;
    var log := [Entry("1.7", Put(body), true)];
    ContentsAt(log, "1.7");
    assert Revision(log, "1.7") == 1;
    assert "1.7" in StaleSet(log, []);
    BoundedHealing(0, lastRun, log, [], cycles, fraction);
  }

  function Puts(keys: seq<string>, body: Bytes): Log { seq(|keys|, i requires 0 <= i < |keys| => Entry(keys[i], Put(body), true)) }

  lemma PutsAreLive(keys: seq<string>, body: Bytes, k: string)
    ensures k in Contents(Puts(keys, body)) <==> k in keys
  {
    var log := Puts(keys, body);
    ContentsAt(log, k);
    var r := Revision(log, k);
    if k in keys {
      var i :| 0 <= i < |keys| && keys[i] == k;
      assert log[i].key == k;
    }
  }

  lemma PutsAreStale(keys: seq<string>, body: Bytes, row: Row)
    requires Distinct(keys) && KeyOf(row.item) !in keys
    ensures forall k :: k in keys <==> k in StaleSet(Puts(keys, body), [row])
    ensures |StaleSet(Puts(keys, body), [row])| == |keys|
  {
    hide KeyOf, Contents, Puts;
    forall k ensures k in keys <==> k in StaleSet(Puts(keys, body), [row]) {
      PutsAreLive(keys, body, k);
    }
    DistinctSize(keys, StaleSet(Puts(keys, body), [row]));
  }

  lemma MostOf(n: nat, fraction: real)
    requires n > 5 && fraction <= 0.8
    ensures n as real > (n + 1) as real * fraction
  {
    assert (n + 1) as real * fraction <= (n + 1) as real * 0.8;
  }

  // Nor does a row help: six stale keys or more beside one row are refused at any fraction up to four fifths, and
  // every one of them is still there after any number of cycles.
  lemma RefusedWithRows(keys: seq<string>, body: Bytes, row: Row, runs: nat, lastRun: Option<int>, cycles: seq<Cycle>, fraction: real)
    requires Distinct(keys) && |keys| > 5 && KeyOf(row.item) !in keys && Publishable(row.item)
    requires fraction <= 0.8 && |cycles| >= FULL_SWEEP_EVERY
    ensures var b := RunQuietly(runs, lastRun, Puts(keys, body), [row], cycles, |cycles|, fraction);
            !Converged(b, [row]) && forall k | k in keys :: k in Contents(b)
  {
    hide RunQuietly, Converged, KeyOf, Publishable, SinceAt, Contents, AllShown, Puts, KeySet, Distinct;
    var log := Puts(keys, body);
    PutsAreStale(keys, body, row);
    MostOf(|keys|, fraction);
    assert !Healable(log, [row], fraction);
    hide Healable, StaleSet;
    BoundedHealing(runs, lastRun, log, [row], cycles, fraction);
    RunInvariant(runs, lastRun, log, [row], cycles, |cycles|, fraction);
    StaleIsLive(RunQuietly(runs, lastRun, log, [row], cycles, |cycles|, fraction), [row]);
  }

  lemma StaleIsLive(log: Log, rows: seq<Row>)
    ensures forall k | k in StaleSet(log, rows) :: k in Contents(log)
  {
  }

  // ---- The reconciler's own runs ----

  // What a source's cycles come to: the same starts for every source, each with its own clock readings.
  function CyclesOf(started: seq<int>, clocks: seq<Clock>): (cycles: seq<Cycle>)
    requires |clocks| == |started|
    ensures |cycles| == |started|
  {
    seq(|started|, c requires 0 <= c < |started| => Cycle(started[c], clocks[c]))
  }

  ghost predicate Calm(schedule: seq<Turn>) { Uncontended(schedule) && Reliable(schedule) }

  function Sources(kvs: seq<Bucket>, tables: seq<seq<Row>>, clocks: seq<Clock>): (sources: seq<Source>)
    requires |tables| == |clocks| == |kvs|
    ensures |sources| == |kvs|
  {
    seq(|kvs|, i requires 0 <= i < |kvs| => Source(kvs[i], Some(tables[i]), clocks[i]))
  }

  // One source's bucket through one undisturbed cycle.
  ghost predicate SweptOnce(a: Log, b: Log, table: seq<Row>, since: Option<int>, clock: Clock, fraction: real) {
    b == SweepQuietly(a, Window(table, since), since.None?, clock, fraction)
  }

  lemma CalmSourceIsSwept(a: Log, before: seq<Turn>, b: Log, after: seq<Turn>, table: seq<Row>, since: Option<int>, clock: Clock,
                          published: seq<bool>, fraction: real)
    requires Calm(before) && AsCalm(before, after) && AllPublishable(table)
    requires QuietlyDone(a, before, b, Some(table), since, clock, published, fraction)
    ensures Calm(after) && !SourceFailed(Some(table), published) && SweptOnce(a, b, table, since, clock, fraction)
  {
    hide SweepQuietly, Publishable, SourceFailed;
    forall r | r in Window(table, since) ensures Publishable(r.item) {
      WindowMember(table, since, r);
    }
  }

  // One cycle over sources nobody disturbs: it is clean, and every bucket is swept quietly.
  method CleanCycle(r: Reconciler, kvs: seq<Bucket>, tables: seq<seq<Row>>, started: int, clocks: seq<Clock>)
    requires forall i, j | 0 <= i < j < |kvs| :: kvs[i] != kvs[j]
    requires |tables| == |clocks| == |kvs|
    requires forall i | 0 <= i < |kvs| :: Calm(kvs[i].schedule) && AllPublishable(tables[i])
    modifies r, set i | 0 <= i < |kvs| :: kvs[i]
    ensures r.runs == old(r.runs) + 1 && r.lastRun == Some(started)
    ensures forall i | 0 <= i < |kvs| :: Calm(kvs[i].schedule)
    ensures forall i | 0 <= i < |kvs| ::
              SweptOnce(old(kvs[i].log), kvs[i].log, tables[i], old(NextSince(r.runs, r.lastRun)), clocks[i], r.pruneMaxFraction)
  {
    hide Calm, AllPublishable, QuietlyDone, Accounted, SourceFailed, NextSince, AsCalm, SweptOnce;
    ghost var since := NextSince(r.runs, r.lastRun);
    var sources := Sources(kvs, tables, clocks);
    var failed;
    ghost var snaps, lists, published;
    failed, snaps, lists, published := r.RunOnce(sources, started, |sources|);
    forall i | 0 <= i < |kvs|
      ensures Calm(kvs[i].schedule) && !SourceFailed(sources[i].table, published[i])
      ensures SweptOnce(old(kvs[i].log), kvs[i].log, tables[i], since, clocks[i], r.pruneMaxFraction)
    {
      assert sources[i] == Source(kvs[i], Some(tables[i]), clocks[i]);
      CalmSourceIsSwept(old(kvs[i].log), old(kvs[i].schedule), kvs[i].log, kvs[i].schedule, tables[i], since, clocks[i],
                        published[i], r.pruneMaxFraction);
    }
  }

  // What a source's bucket is after c of the cycles.
  function RunAt(runs: nat, lastRun: Option<int>, log: Log, table: seq<Row>, started: seq<int>, clocks: seq<Clock>, c: nat,
                 fraction: real): Log
    requires c <= |started| == |clocks|
  {
    RunQuietly(runs, lastRun, log, table, CyclesOf(started, clocks), c, fraction)
  }

  lemma CycleDone(runs: nat, lastRun: Option<int>, start: Log, a: Log, b: Log, table: seq<Row>, started: seq<int>,
                  clocks: seq<Clock>, c: nat, fraction: real)
    requires c < |started| == |clocks| && a == RunAt(runs, lastRun, start, table, started, clocks, c, fraction)
    requires SweptOnce(a, b, table, NextSince(runs + c, if c == 0 then lastRun else Some(started[c - 1])), clocks[c], fraction)
    ensures b == RunAt(runs, lastRun, start, table, started, clocks, c + 1, fraction)
  {
    hide SweepQuietly, NextSince;
    assert SinceAt(runs, lastRun, CyclesOf(started, clocks), c)
           == NextSince(runs + c, if c == 0 then lastRun else Some(started[c - 1]));
  }

  // Repeated cycles over sources nobody disturbs. Every bucket goes through its quiet run, so after twelve cycles or
  // more each is the image of its rows exactly when its own prune guard passed at the start.
  method RunCycles(r: Reconciler, kvs: seq<Bucket>, tables: seq<seq<Row>>, started: seq<int>, clocks: seq<seq<Clock>>)
    requires forall i, j | 0 <= i < j < |kvs| :: kvs[i] != kvs[j]
    requires |tables| == |clocks| == |kvs| && forall i | 0 <= i < |kvs| :: |clocks[i]| == |started|
    requires forall i | 0 <= i < |kvs| :: Calm(kvs[i].schedule) && UniqueKeys(tables[i]) && AllPublishable(tables[i])
    modifies r, set i | 0 <= i < |kvs| :: kvs[i]
    ensures r.runs == old(r.runs) + |started|
    ensures r.lastRun == if started == [] then old(r.lastRun) else Some(started[|started| - 1])
    ensures forall i | 0 <= i < |kvs| ::
              kvs[i].log == RunAt(old(r.runs), old(r.lastRun), old(kvs[i].log), tables[i], started, clocks[i], |started|,
                                  r.pruneMaxFraction)
    ensures |started| >= FULL_SWEEP_EVERY ==>
              forall i | 0 <= i < |kvs| ::
                Converged(kvs[i].log, tables[i]) <==> Healable(old(kvs[i].log), tables[i], r.pruneMaxFraction)
  {
    hide RunAt, Calm, AllPublishable, Converged, Healable, UniqueKeys, SweptOnce, NextSince;
    ghost var runs, lastRun := r.runs, r.lastRun;
    for c := 0 to |started|
      invariant r.runs == runs + c
      invariant r.lastRun == if c == 0 then lastRun else Some(started[c - 1])
      invariant forall i | 0 <= i < |kvs| :: Calm(kvs[i].schedule)
      invariant forall i | 0 <= i < |kvs| ::
                  (c == 0 ==> kvs[i].log == old(kvs[i].log))
                  && (c > 0 ==> kvs[i].log == RunAt(runs, lastRun, old(kvs[i].log), tables[i], started, clocks[i], c,
                                                    r.pruneMaxFraction))
    {
      var readings := seq(|kvs|, i requires 0 <= i < |kvs| => clocks[i][c]);
      label before:
      CleanCycle(r, kvs, tables, started[c], readings);
      forall i | 0 <= i < |kvs|
        ensures kvs[i].log == RunAt(runs, lastRun, old(kvs[i].log), tables[i], started, clocks[i], c + 1, r.pruneMaxFraction)
      {
        NoCycles(runs, lastRun, old(kvs[i].log), tables[i], started, clocks[i], r.pruneMaxFraction);
        CycleDone(runs, lastRun, old(kvs[i].log), old@before(kvs[i].log), kvs[i].log, tables[i], started, clocks[i], c,
                  r.pruneMaxFraction);
      }
    }
    forall i | 0 <= i < |kvs|
      ensures kvs[i].log == RunAt(runs, lastRun, old(kvs[i].log), tables[i], started, clocks[i], |started|, r.pruneMaxFraction)
      ensures |started| >= FULL_SWEEP_EVERY ==>
                (Converged(kvs[i].log, tables[i]) <==> Healable(old(kvs[i].log), tables[i], r.pruneMaxFraction))
    {
      NoCycles(runs, lastRun, old(kvs[i].log), tables[i], started, clocks[i], r.pruneMaxFraction);
      EnoughCycles(runs, lastRun, old(kvs[i].log), tables[i], started, clocks[i], r.pruneMaxFraction);
    }
  }

  lemma NoCycles(runs: nat, lastRun: Option<int>, log: Log, table: seq<Row>, started: seq<int>, clocks: seq<Clock>, fraction: real)
    requires |clocks| == |started|
    ensures RunAt(runs, lastRun, log, table, started, clocks, 0, fraction) == log
  {
  }

  lemma EnoughCycles(runs: nat, lastRun: Option<int>, log: Log, table: seq<Row>, started: seq<int>, clocks: seq<Clock>,
                     fraction: real)
    requires |clocks| == |started| && UniqueKeys(table) && AllPublishable(table)
    ensures |started| >= FULL_SWEEP_EVERY ==>
              (Converged(RunAt(runs, lastRun, log, table, started, clocks, |started|, fraction), table)
               <==> Healable(log, table, fraction))
  {
    hide RunQuietly, Converged, Healable, UniqueKeys, AllPublishable;
    if |started| >= FULL_SWEEP_EVERY {
      BoundedHealing(runs, lastRun, log, table, CyclesOf(started, clocks), fraction);
    }
  }
}
