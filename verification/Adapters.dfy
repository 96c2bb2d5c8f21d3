/**
 The reconciler's sources: which rows a sweep lists, and what a full sweep over them
 does for the tables' image.
 */
module Adapters {
  import opened Options
  import opened Kv
  import opened Items
  import opened Tables
  import opened Database
  import opened Integrity
  import opened Coherence
  import opened Reconciler
  import opened Healing

  function UpdatedAt(db: Db, b: BucketName, id: int): int
    requires id in ItemsOf(db, b)
  {
    match b
    case Flags => db.values[id].updatedAt
    case ServiceSettings => db.settings[id].updatedAt
    case Localization => db.bundles[id].updatedAt
  }

  predicate Listed(db: Db, b: BucketName, since: Option<int>, id: int) {
    id in ItemsOf(db, b) && InWindow(UpdatedAt(db, b, id), since)
  }

  function RowOf(db: Db, b: BucketName, id: int): Row
    requires id in ItemsOf(db, b)
  {
    Row(id, UpdatedAt(db, b, id), ItemsOf(db, b)[id])
  }

  // The query's answer: every row of the window once, by ascending id.
  ghost predicate IsListing(rows: seq<Row>, db: Db, b: BucketName, since: Option<int>) {
    && (forall i, j | 0 <= i < j < |rows| :: rows[i].id < rows[j].id)
    && (forall r | r in rows :: Listed(db, b, since, r.id) && r == RowOf(db, b, r.id))
    && (forall id | Listed(db, b, since, id) :: RowOf(db, b, id) in rows)
  }

  lemma {:induction false} HasLeast(ids: set<int>)
    requires ids != {}
    ensures exists m: int :: m in ids && forall k | k in ids :: m <= k
  {
    NonEmpty(ids);
    var x: int :| x in ids;
    var rest := ids - {x};
    assert forall k: int | k in ids :: k == x || k in rest;
    if rest != {} {
      HasLeast(rest);
      var m: int :| m in rest && forall k | k in rest :: m <= k;
      var least := if x < m then x else m;
      assert least in ids && forall k | k in ids :: least <= k;
    } else {
      assert x in ids && forall k | k in ids :: x <= k;
    }
  }

  // The scan is through every listed id but the pending ones, which all come later.
  ghost predicate Scanned(rows: seq<Row>, db: Db, b: BucketName, since: Option<int>, pending: set<int>) {
    && (forall i, j | 0 <= i < j < |rows| :: rows[i].id < rows[j].id)
    && (forall r | r in rows :: Listed(db, b, since, r.id) && r == RowOf(db, b, r.id))
    && (forall r, k | r in rows && k in pending :: r.id < k)
    && (forall id | Listed(db, b, since, id) :: id in pending || RowOf(db, b, id) in rows)
  }

  lemma ScanStep(rows: seq<Row>, db: Db, b: BucketName, since: Option<int>, pending: set<int>, id: int)
    requires Scanned(rows, db, b, since, pending)
    requires id in pending && Listed(db, b, since, id) && forall k | k in pending :: id <= k
    ensures Scanned(rows + [RowOf(db, b, id)], db, b, since, pending - {id})
  {
    hide ItemsOf, UpdatedAt;
    var row := RowOf(db, b, id);
    var more := rows + [row];
    forall i, j | 0 <= i < j < |more| ensures more[i].id < more[j].id {
      assert more[i] in rows;
    }
    forall r | r in more ensures r in rows || r == row {
    }
    assert more[|rows|] == row;
  }

  method ListAllForReconcile(store: Store, b: BucketName, since: Option<int>) returns (rows: seq<Row>)
    ensures IsListing(rows, store.Snapshot(), b, since)
  {
    hide ItemsOf, UpdatedAt;
    rows := [];
    var db := store.Snapshot();
    var all := set id | id in ItemsOf(db, b) && Listed(db, b, since, id);
    var pending := all;
    while pending != {}
      invariant pending <= all && Scanned(rows, db, b, since, pending)
      decreases |pending|
    {
      hide Scanned, RowOf;
      HasLeast(pending);
      var id: int :| id in pending && forall k | k in pending :: id <= k;
      ScanStep(rows, db, b, since, pending, id);
      rows, pending := rows + [RowOf(db, b, id)], pending - {id};
    }
  }

  // The incremental listing is the full one cut down to the window.
  lemma WindowOfListing(rows: seq<Row>, db: Db, b: BucketName, since: Option<int>)
    requires IsListing(rows, db, b, None)
    ensures IsListing(Window(rows, since), db, b, since)
  {
    hide ItemsOf, UpdatedAt;
    var some := Window(rows, since);
    forall r ensures r in some <==> r in rows && InWindow(r.updatedAt, since) {
      WindowMember(rows, since, r);
    }
    WindowAscends(rows, since);
  }

  lemma {:induction false} WindowAscends(rows: seq<Row>, since: Option<int>)
    requires forall i, j | 0 <= i < j < |rows| :: rows[i].id < rows[j].id
    ensures forall i, j | 0 <= i < j < |Window(rows, since)| :: Window(rows, since)[i].id < Window(rows, since)[j].id
  {
    if rows != [] {
      var tail := Window(rows[1..], since);
      WindowAscends(rows[1..], since);
      forall i | 0 <= i < |tail| ensures rows[0].id < tail[i].id {
        WindowMember(rows[1..], since, tail[i]);
        var j :| 0 <= j < |rows[1..]| && rows[1..][j] == tail[i];
        assert rows[1..][j] == rows[j + 1];
      }
    }
  }

  // A sweep's rows publish under distinct keys in every state the API can reach.
  lemma ListingHasUniqueKeys(rows: seq<Row>, db: Db, b: BucketName, since: Option<int>)
    requires Holds(db) && IsListing(rows, db, b, since)
    ensures UniqueKeys(rows)
  {
    hide ItemsOf, UpdatedAt, Holds, KeyOf;
    RowsHaveDistinctKeys(db, b);
    forall i, j | 0 <= i < j < |rows| ensures KeyOf(rows[i].item) != KeyOf(rows[j].item) {
      assert rows[i] in rows && rows[j] in rows;
      assert rows[i].id != rows[j].id;
    }
  }

  // And nothing the API stores is refused by the publisher.
  lemma ListingIsPublishable(rows: seq<Row>, db: Db, b: BucketName, since: Option<int>)
    requires Holds(db) && IsListing(rows, db, b, since)
    ensures AllPublishable(rows)
  {
    hide UniqueNames, GoodIds, UniqueFlagKeys, ValuesHold, UpdatedAt;
    forall r | r in rows ensures Publishable(r.item) {
      assert Listed(db, b, since, r.id);
      match b
      case Flags =>
      case ServiceSettings =>
        DocsMean(db, Settings);
        assert DocHolds(db, Settings, db.settings[r.id]);
      case Localization =>
        DocsMean(db, Bundles);
        assert DocHolds(db, Bundles, db.bundles[r.id]);
    }
  }

  lemma ListedKeys(rows: seq<Row>, db: Db, b: BucketName, k: string)
    requires IsListing(rows, db, b, None)
    ensures k in KeySet(rows) <==> KeyIn(ItemsOf(db, b), k)
  {
    hide ItemsOf, UpdatedAt, KeyOf;
    var items := ItemsOf(db, b);
    if KeyIn(items, k) {
      var id :| id in items && KeyOf(items[id]) == k;
      assert Listed(db, b, None, id) && RowOf(db, b, id) in rows;
    }
  }

  // Converged, as the sweeps see it, and coherent, as the services see it, are one thing.
  lemma ConvergedIsCoherent(log: Log, rows: seq<Row>, db: Db, b: BucketName)
    requires IsListing(rows, db, b, None)
    ensures Converged(log, rows) <==> Coherent(log, ItemsOf(db, b), {})
  {
    hide ItemsOf, UpdatedAt, KeyOf, ShownIn, Live;
    var items := ItemsOf(db, b);
    assert forall id | id in items :: Listed(db, b, None, id) && RowOf(db, b, id) in rows && RowOf(db, b, id).item == items[id];
    assert forall r | r in rows :: r.id in items && r.item == items[r.id];
    forall k ensures (k in Contents(log) <==> Live(log, k).Some?) && (k in KeySet(rows) <==> KeyIn(items, k)) {
      ContentsAt(log, k);
      ListedKeys(rows, db, b, k);
    }
  }

  // ---- From failed write-throughs back to coherence ----

  lemma StaleIsDirty(log: Log, rows: seq<Row>, db: Db, b: BucketName, dirty: set<string>)
    requires IsListing(rows, db, b, None) && Coherent(log, ItemsOf(db, b), dirty)
    ensures StaleSet(log, rows) <= dirty
  {
    hide ItemsOf, UpdatedAt, KeyOf, Live, ShownIn;
    forall k | k in StaleSet(log, rows) ensures k in dirty {
      ContentsAt(log, k);
      ListedKeys(rows, db, b, k);
    }
  }

  // After any run of requests, however many publishes and purges failed, one full sweep with nobody else writing
  // makes the bucket the image of its table exactly when the prune guard lets it; and it does whenever the table
  // has a row and no more keys were left dirty than a prune may always take.
  lemma OutageHeals(run: Run, n: nat, b: BucketName, rows: seq<Row>, clock: Clock, fraction: real)
    requires ValidRun(run) && n <= |run.events| && IsListing(rows, After(EMPTY, run.events, n), b, None)
    ensures var log, items := LogOf(run.kvs[n], b), ItemsOf(After(EMPTY, run.events, n), b);
            var swept := SweepQuietly(log, rows, true, clock, fraction);
            && (Coherent(swept, items, {}) <==> Healable(log, rows, fraction))
            && (rows != [] && |Dirty(run, n, b)| <= MIN_PRUNE_KEYS ==> Coherent(swept, items, {}))
  {
    hide ItemsOf, UpdatedAt, KeyOf, Live, ShownIn, Coherent, Converged, SweepQuietly, StaleSet, IsListing, ValidRun, AllPublishable, Dirty, After, LogOf;
    RunHolds(run, n);
    var db, log := After(EMPTY, run.events, n), LogOf(run.kvs[n], b);
    ListingHasUniqueKeys(rows, db, b, None);
    ListingIsPublishable(rows, db, b, None);
    FullSweepConverges(log, rows, clock, fraction);
    ConvergedIsCoherent(SweepQuietly(log, rows, true, clock, fraction), rows, db, b);
    CoherentThroughout(run, n, b);
    StaleIsDirty(log, rows, db, b, Dirty(run, n, b));
    Fewer(StaleSet(log, rows), Dirty(run, n, b));
  }

  lemma RunHolds(run: Run, n: nat)
    requires ValidRun(run) && n <= |run.events|
    ensures Holds(After(EMPTY, run.events, n)) && n < |run.kvs| && |run.failed| == |run.events|
  {
    EveryRunHolds(run.events, n);
  }
}
