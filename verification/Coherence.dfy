/**
 The dual write: tables first, bucket second and best-effort. What the bucket and the
 tables then have in common.
 */
module Coherence {
  import opened Options
  import opened Keys
  import opened Kv
  import opened Items
  import opened Tables
  import opened Admin
  import opened Integrity

  // The rows of the table behind a bucket, as the items they publish; a flag value is joined with its flag.
  function ItemsOf(db: Db, b: BucketName): map<int, Item> {
    match b
    case Flags => FlagItems(db.flags, db.values)
    case ServiceSettings => DocItems(Settings, db.settings)
    case Localization => DocItems(Bundles, db.bundles)
  }

  function DocItems(d: Domain, docs: map<int, Doc>): map<int, Item> { map id | id in docs :: DocItem(d, docs[id]) }

  function FlagItems(flags: map<int, Flag>, values: map<int, FlagValue>): map<int, Item> {
    map id | id in values && values[id].flagId in flags ::
      FlagItem(values[id].env, flags[values[id].flagId].flagKey, values[id].enabled, values[id].value)
  }

  ghost predicate DistinctKeys(items: map<int, Item>) {
    forall i, j | i in items && j in items && KeyOf(items[i]) == KeyOf(items[j]) :: i == j
  }

  // Two rows never publish under one key: the natural keys are unique and the builders are injective.
  lemma RowsHaveDistinctKeys(db: Db, b: BucketName)
    requires Holds(db)
    ensures DistinctKeys(ItemsOf(db, b))
  {
    hide UniqueNames, GoodIds, DocHolds, FlagKey, ServiceSettingsKey, LocalizationKey;
    var items := ItemsOf(db, b);
    assert DocsHold(db, Settings) && DocsHold(db, Bundles);
    DocsMean(db, Settings);
    forall i, j | i in items && j in items && KeyOf(items[i]) == KeyOf(items[j]) ensures i == j {
      match b
      case Flags =>
        var x, y := db.values[i], db.values[j];
        FlagKeyInjective(x.env, db.flags[x.flagId].flagKey, y.env, db.flags[y.flagId].flagKey);
      case ServiceSettings =>
        var x, y := db.settings[i], db.settings[j];
        ServiceSettingsKeyInjective(x.env, x.ms, y.env, y.ms);
        assert DocHolds(db, Settings, x) && DocHolds(db, Settings, y);
        SettingsHaveNoLocale(db, x);
        SettingsHaveNoLocale(db, y);
      case Localization =>
        var x, y := db.bundles[i], db.bundles[j];
        LocalizationKeyInjective(x.env, x.ms, x.locale, y.env, y.ms, y.locale);
    }
  }

  lemma SettingsHaveNoLocale(db: Db, doc: Doc)
    requires DocHolds(db, Settings, doc)
    ensures doc.locale == ""
  {
  }

  // Outside the dirty keys the bucket is exactly the image of the rows.
  ghost predicate Coherent(log: Log, items: map<int, Item>, dirty: set<string>) {
    && (forall id | id in items && KeyOf(items[id]) !in dirty :: ShownIn(log, items[id]))
    && (forall k | k !in dirty && Live(log, k).Some? :: KeyIn(items, k))
  }

  ghost predicate KeyIn(items: map<int, Item>, k: string) { exists id :: id in items && KeyOf(items[id]) == k }

  // ---- One request's writes ----

  function Addressed(publish: Option<Item>, purges: set<string>): set<string> {
    purges + if publish.Some? then {KeyOf(publish.value)} else {}
  }

  // Every write that did not fail took effect, and nothing else changed.
  ghost predicate WroteThrough(a: Log, b: Log, publish: Option<Item>, purges: set<string>, failed: set<string>) {
    && failed <= Addressed(publish, purges)
    && (publish.Some? && KeyOf(publish.value) !in failed ==> ShownIn(b, publish.value))
    && (forall k | k in purges && k !in failed :: Live(b, k).None?)
    && (forall k | k !in Addressed(publish, purges) || k in failed :: Live(b, k) == Live(a, k))
  }

  // The writes account for every difference the request made to the rows.
  ghost predicate Covers(before: map<int, Item>, after: map<int, Item>, publish: Option<Item>, purges: set<string>) {
    && (forall id | id in after && KeyOf(after[id]) !in Addressed(publish, purges) :: id in before && before[id] == after[id])
    && (forall id | id in before && KeyOf(before[id]) !in Addressed(publish, purges) :: id in after && after[id] == before[id])
    && (publish.Some? ==> KeyIn(after, KeyOf(publish.value)))
    && (publish.Some? ==> forall id | id in after && KeyOf(after[id]) == KeyOf(publish.value) :: after[id] == publish.value)
    && (forall id | id in after :: KeyOf(after[id]) !in purges)
    && (forall k | k in purges :: KeyIn(before, k))
  }

  lemma WritesKeepCoherence(a: Log, b: Log, before: map<int, Item>, after: map<int, Item>,
                            publish: Option<Item>, purges: set<string>, failed: set<string>, dirty: set<string>)
    requires Coherent(a, before, dirty)
    requires Covers(before, after, publish, purges) && WroteThrough(a, b, publish, purges, failed)
    ensures Coherent(b, after, dirty - Addressed(publish, purges) + failed)
  {
    hide KeyOf, Live, Shows;
    var addressed := Addressed(publish, purges);
    forall id | id in after && KeyOf(after[id]) !in dirty - addressed + failed ensures ShownIn(b, after[id]) {
      if KeyOf(after[id]) !in addressed {
        assert ShownIn(a, before[id]);
      }
    }
    forall k | k !in dirty - addressed + failed && Live(b, k).Some? ensures KeyIn(after, k) {
      if k !in addressed {
        assert KeyIn(before, k);
        var id :| id in before && KeyOf(before[id]) == k;
        assert id in after && KeyOf(after[id]) == k;
      }
    }
  }

  // The purged keys are exactly the keys that had a row and have none any more.
  lemma PurgesAreLostKeys(db: Db, request: Request, newId: int, now: int, k: string)
    requires Holds(db) && FreshId(db, request, newId)
    ensures var out := Serve(db, request, newId, now);
            k in out.purges <==> KeyIn(ItemsOf(db, BucketFor(request)), k) && !KeyIn(ItemsOf(out.db, BucketFor(request)), k)
  {
    hide Serve, ItemsOf, KeyOf, Holds, FreshId;
    ServeAccounted(db, request, newId, now);
    var out := Serve(db, request, newId, now);
    var before, after := ItemsOf(db, BucketFor(request)), ItemsOf(out.db, BucketFor(request));
    if KeyIn(before, k) && k !in Addressed(out.publish, out.purges) {
      var id :| id in before && KeyOf(before[id]) == k;
      assert id in after && KeyOf(after[id]) == k;
    }
  }

  lemma PutCovers(items: map<int, Item>, id: int, item: Item, purges: set<string>)
    requires DistinctKeys(items) && DistinctKeys(items[id := item])
    requires purges == if id in items && KeyOf(items[id]) != KeyOf(item) then {KeyOf(items[id])} else {}
    ensures Covers(items, items[id := item], Some(item), purges)
  {
    hide KeyOf;
    var after := items[id := item];
    assert id in after && KeyOf(after[id]) == KeyOf(item);
    assert forall k | k in items && k != id :: k in after && after[k] == items[k];
  }

  lemma DropCovers(items: map<int, Item>, gone: set<int>, purges: set<string>)
    requires DistinctKeys(items)
    requires forall k :: k in purges <==> exists id :: id in gone && id in items && KeyOf(items[id]) == k
    ensures Covers(items, items - gone, None, purges)
  {
    hide KeyOf;
  }

  lemma SameCovers(items: map<int, Item>)
    ensures Covers(items, items, None, {})
  {
  }

  // ---- Every request's writes cover its own change ----

  ghost predicate Accounted(db: Db, after: Db, b: BucketName, publish: Option<Item>, purges: set<string>) {
    && Covers(ItemsOf(db, b), ItemsOf(after, b), publish, purges)
    && (forall c: BucketName | c != b :: ItemsOf(after, c) == ItemsOf(db, c))
  }

  lemma DocPutItems(db: Db, d: Domain, id: int, doc: Doc)
    ensures var after := WithDocs(db, d, Docs(db, d)[id := doc]);
            && ItemsOf(after, BucketOf(d)) == ItemsOf(db, BucketOf(d))[id := DocItem(d, doc)]
            && (forall c: BucketName | c != BucketOf(d) :: ItemsOf(after, c) == ItemsOf(db, c))
  {
  }

  lemma DocDropItems(db: Db, d: Domain, id: int)
    ensures var after := WithDocs(db, d, Docs(db, d) - {id});
            && ItemsOf(after, BucketOf(d)) == ItemsOf(db, BucketOf(d)) - {id}
            && (forall c: BucketName | c != BucketOf(d) :: ItemsOf(after, c) == ItemsOf(db, c))
  {
  }

  lemma ItemsOfDocs(db: Db, d: Domain)
    ensures ItemsOf(db, BucketOf(d)) == DocItems(d, Docs(db, d))
  {
  }

  lemma CreateDocumentAccounted(db: Db, d: Domain, input: DocInput, newId: int, now: int)
    requires Holds(db) && newId !in Docs(db, d)
    ensures var out := CreateDocument(db, d, input, newId, now);
            Accounted(db, out.db, BucketOf(d), out.publish, out.purges)
  {
    hide CheckInput, Holds, ItemsOf, KeyStored, DocRefsError, Covers;
    var out := CreateDocument(db, d, input, newId, now);
    SameCovers(ItemsOf(db, BucketOf(d)));
    if out.error.None? {
      InsertDocHolds(db, d, input, newId, now);
      RowsHaveDistinctKeys(db, BucketOf(d));
      RowsHaveDistinctKeys(out.db, BucketOf(d));
      DocPutItems(db, d, newId, DocOf(d, input, now));
      ItemsOfDocs(db, d);
      PutCovers(ItemsOf(db, BucketOf(d)), newId, DocItem(d, DocOf(d, input, now)), {});
    }
  }

  lemma UpdateDocumentAccounted(db: Db, d: Domain, input: DocInput, now: int)
    requires Holds(db)
    ensures var out := UpdateDocument(db, d, input, now);
            Accounted(db, out.db, BucketOf(d), out.publish, out.purges)
  {
    hide CheckInput, Holds, ItemsOf, DocRefsError, Covers;
    var out := UpdateDocument(db, d, input, now);
    SameCovers(ItemsOf(db, BucketOf(d)));
    if out.error.None? {
      UpdateDocHolds(db, d, input, now);
      RowsHaveDistinctKeys(db, BucketOf(d));
      RowsHaveDistinctKeys(out.db, BucketOf(d));
      DocPutItems(db, d, input.id, DocOf(d, input, now));
      ItemsOfDocs(db, d);
      PutCovers(ItemsOf(db, BucketOf(d)), input.id, DocItem(d, DocOf(d, input, now)), out.purges);
    }
  }

  lemma DeleteDocumentAccounted(db: Db, d: Domain, id: int)
    requires Holds(db)
    ensures var out := DeleteDocument(db, d, id);
            Accounted(db, out.db, BucketOf(d), out.publish, out.purges)
  {
    hide Holds, ItemsOf, Covers, DocItem, KeyOf;
    var out := DeleteDocument(db, d, id);
    SameCovers(ItemsOf(db, BucketOf(d)));
    if out.error.None? {
      RowsHaveDistinctKeys(db, BucketOf(d));
      DocDropItems(db, d, id);
      ItemsOfDocs(db, d);
      DropCovers(ItemsOf(db, BucketOf(d)), {id}, out.purges);
    }
  }

  lemma ValueItems(db: Db)
    requires ValuesHold(db)
    ensures ItemsOf(db, Flags).Keys == db.values.Keys
    ensures forall id | id in db.values :: ItemsOf(db, Flags)[id] == FlagItemOf(db, db.values[id])
  {
    assert forall id | id in db.values :: id in ItemsOf(db, Flags);
  }

  lemma ValuePutItems(db: Db, id: int, row: FlagValue)
    requires ValuesHold(db) && row.flagId in db.flags
    ensures var after := db.(values := db.values[id := row]);
            && ItemsOf(after, Flags) == ItemsOf(db, Flags)[id := FlagItemOf(db, row)]
            && (forall c: BucketName | c != Flags :: ItemsOf(after, c) == ItemsOf(db, c))
  {
    var after := db.(values := db.values[id := row]);
    var a, b := ItemsOf(after, Flags), ItemsOf(db, Flags)[id := FlagItemOf(db, row)];
    forall k ensures (k in a <==> k in b) && (k in a ==> a[k] == b[k]) {
    }
    assert a == b;
  }

  lemma CreateValueAccounted(db: Db, flagId: int, env: int, value: string, enabled: int, newId: int, now: int)
    requires Holds(db) && newId !in db.values
    ensures var out := CreateValue(db, flagId, env, value, enabled, newId, now);
            Accounted(db, out.db, Flags, out.publish, out.purges)
  {
    hide CheckValue, ItemsOf, Covers, UniqueNames, UniqueFlagKeys, DocsHold, FlagItemOf;
    var out := CreateValue(db, flagId, env, value, enabled, newId, now);
    var row := FlagValue(env, flagId, enabled, value, now);
    SameCovers(ItemsOf(db, Flags));
    if out.error.None? {
      InsertValueHolds(db, row, newId);
      RowsHaveDistinctKeys(db, Flags);
      RowsHaveDistinctKeys(out.db, Flags);
      ValuePutItems(db, newId, row);
      ValueItems(db);
      PutCovers(ItemsOf(db, Flags), newId, FlagItemOf(db, row), {});
    }
  }

  lemma UpdateValueAccounted(db: Db, id: int, value: string, enabled: int, expected: Option<int>, now: int)
    requires Holds(db)
    ensures var out := UpdateValue(db, id, value, enabled, expected, now);
            Accounted(db, out.db, Flags, out.publish, out.purges)
  {
    hide CheckValue, ItemsOf, Covers, UniqueNames, UniqueFlagKeys, DocsHold;
    var out := UpdateValue(db, id, value, enabled, expected, now);
    SameCovers(ItemsOf(db, Flags));
    if out.error.None? {
      var row := out.db.values[id];
      UpdateValueHolds(db, id, value, enabled, expected, now);
      RowsHaveDistinctKeys(db, Flags);
      RowsHaveDistinctKeys(out.db, Flags);
      ValuePutItems(db, id, row);
      ValueItems(db);
      PutCovers(ItemsOf(db, Flags), id, FlagItemOf(db, row), {});
    }
  }

  // The flags the remaining values refer to are as they were.
  ghost predicate KeepsFlags(db: Db, after: Db) {
    forall id | id in after.values ::
      after.values[id].flagId in after.flags && after.values[id].flagId in db.flags
      && after.flags[after.values[id].flagId] == db.flags[after.values[id].flagId]
  }

  lemma FlagItemAt(flags: map<int, Flag>, values: map<int, FlagValue>, id: int)
    ensures id in FlagItems(flags, values) <==> id in values && values[id].flagId in flags
    ensures id in FlagItems(flags, values) ==>
              var row := values[id];
              FlagItems(flags, values)[id] == FlagItem(row.env, flags[row.flagId].flagKey, row.enabled, row.value)
  {
  }

  lemma DropValueItems(db: Db, after: Db, gone: set<int>)
    requires after.values == db.values - gone && KeepsFlags(db, after)
    requires after.settings == db.settings && after.bundles == db.bundles
    ensures ItemsOf(after, Flags) == ItemsOf(db, Flags) - gone
    ensures forall c: BucketName | c != Flags :: ItemsOf(after, c) == ItemsOf(db, c)
  {
    hide DocItem, DocItems, FlagItems;
    var a, b := FlagItems(after.flags, after.values), FlagItems(db.flags, db.values) - gone;
    forall id ensures (id in a <==> id in b) && (id in a ==> a[id] == b[id]) {
      FlagItemAt(after.flags, after.values, id);
      FlagItemAt(db.flags, db.values, id);
    }
    assert a == b;
  }

  lemma DeleteValueAccounted(db: Db, id: int)
    requires Holds(db)
    ensures var out := DeleteValue(db, id);
            Accounted(db, out.db, Flags, out.publish, out.purges)
  {
    hide ItemsOf, Covers, UniqueNames, UniqueFlagKeys, DocsHold, FlagItemOf, KeyOf;
    var out := DeleteValue(db, id);
    SameCovers(ItemsOf(db, Flags));
    if out.error.None? {
      RowsHaveDistinctKeys(db, Flags);
      DropValueItems(db, out.db, {id});
      ValueItems(db);
      DropCovers(ItemsOf(db, Flags), {id}, out.purges);
    }
  }

  // The cascade purges the key of every value the flag had, and of no other.
  lemma DeleteFlagAccounted(db: Db, id: int)
    requires Holds(db)
    ensures var out := DeleteFlagAndValues(db, id);
            Accounted(db, out.db, Flags, out.publish, out.purges)
  {
    hide ItemsOf, Covers, UniqueNames, UniqueFlagKeys, DocsHold, FlagKey;
    var out := DeleteFlagAndValues(db, id);
    SameCovers(ItemsOf(db, Flags));
    if out.error.None? {
      var gone := ValuesOf(db, id);
      RowsHaveDistinctKeys(db, Flags);
      DropValueItems(db, out.db, gone);
      ValueItems(db);
      forall k ensures k in out.purges <==> exists v :: v in gone && v in ItemsOf(db, Flags) && KeyOf(ItemsOf(db, Flags)[v]) == k {
        if k in out.purges {
          var v :| v in gone && FlagKey(db.values[v].env, db.flags[id].flagKey) == k;
          assert KeyOf(ItemsOf(db, Flags)[v]) == k;
        }
      }
      DropCovers(ItemsOf(db, Flags), gone, out.purges);
    }
  }

  lemma UnpublishedKeepsFlags(db: Db, request: Request, newId: int, now: int)
    requires Unpublished(request) && ValuesHold(db) && FreshId(db, request, newId)
    ensures KeepsFlags(db, Serve(db, request, newId, now).db)
  {
    hide TrimSpace, ValidFlagKey, EnvironmentInUse, ServiceInUse, InsertName;
    UnpublishedOutcome(db, request, newId, now);
  }

  lemma UnpublishedAccounted(db: Db, request: Request, newId: int, now: int)
    requires Unpublished(request) && ValuesHold(db) && FreshId(db, request, newId)
    ensures var out := Serve(db, request, newId, now);
            Accounted(db, out.db, Flags, out.publish, out.purges)
  {
    hide Serve, ItemsOf, Covers, KeepsFlags;
    UnpublishedOutcome(db, request, newId, now);
    UnpublishedKeepsFlags(db, request, newId, now);
    assert db.values - {} == db.values && ItemsOf(db, Flags) - {} == ItemsOf(db, Flags);
    DropValueItems(db, Serve(db, request, newId, now).db, {});
    SameCovers(ItemsOf(db, Flags));
  }

  lemma ServeAccounted(db: Db, request: Request, newId: int, now: int)
    requires Holds(db) && FreshId(db, request, newId)
    ensures var out := Serve(db, request, newId, now);
            Accounted(db, out.db, BucketFor(request), out.publish, out.purges)
  {
    if Unpublished(request) {
      UnpublishedAccounted(db, request, newId, now);
    } else {
      PublishedAccounted(db, request, newId, now);
    }
  }

  lemma PublishedAccounted(db: Db, request: Request, newId: int, now: int)
    requires Holds(db) && FreshId(db, request, newId) && !Unpublished(request)
    ensures var out := Serve(db, request, newId, now);
            Accounted(db, out.db, BucketFor(request), out.publish, out.purges)
  {
    hide Accounted, Holds, CreateDocument, UpdateDocument, DeleteDocument, CreateValue, UpdateValue, DeleteValue,
      DeleteFlagAndValues;
    match request
    case DeleteFlag(id) => DeleteFlagAccounted(db, id);
    case CreateFlagValue(flagId, env, value, enabled) => CreateValueAccounted(db, flagId, env, value, enabled, newId, now);
    case UpdateFlagValue(id, value, enabled, expected) => UpdateValueAccounted(db, id, value, enabled, expected, now);
    case DeleteFlagValue(id) => DeleteValueAccounted(db, id);
    case CreateDoc(d, input) => CreateDocumentAccounted(db, d, input, newId, now);
    case UpdateDoc(d, input) => UpdateDocumentAccounted(db, d, input, now);
    case DeleteDoc(d, id) => DeleteDocumentAccounted(db, d, id);
  }

  // ---- Runs ----

  datatype Kvs = Kvs(flags: Log, settings: Log, bundles: Log)

  function LogOf(kvs: Kvs, b: BucketName): Log {
    match b
    case Flags => kvs.flags
    case ServiceSettings => kvs.settings
    case Localization => kvs.bundles
  }

  // The requests in order, the buckets before, between and after them, and the keys whose write failed each time.
  datatype Run = Run(events: seq<Event>, kvs: seq<Kvs>, failed: seq<set<string>>)

  function OutcomeAt(run: Run, i: nat): Outcome
    requires i < |run.events|
  {
    Serve(After(EMPTY, run.events, i), run.events[i].request, run.events[i].newId, run.events[i].now)
  }

  // A request served on these tables wrote its own bucket, as far as its writes did not fail, and no other.
  ghost predicate TookStep(db: Db, e: Event, before: Kvs, after: Kvs, failed: set<string>) {
    var out, b := Serve(db, e.request, e.newId, e.now), BucketFor(e.request);
    && WroteThrough(LogOf(before, b), LogOf(after, b), out.publish, out.purges, failed)
    && (forall c: BucketName | c != b :: LogOf(after, c) == LogOf(before, c))
  }

  ghost predicate Took(run: Run, i: nat)
    requires i < |run.events| == |run.failed| && |run.kvs| == |run.events| + 1
  {
    TookStep(After(EMPTY, run.events, i), run.events[i], run.kvs[i], run.kvs[i + 1], run.failed[i])
  }

  ghost predicate ValidRun(run: Run) {
    && |run.failed| == |run.events| && |run.kvs| == |run.events| + 1
    && Feasible(EMPTY, run.events)
    && run.kvs[0] == Kvs([], [], [])
    && (forall i | 0 <= i < |run.events| :: Took(run, i))
  }

  // The keys of a bucket whose last addressed write failed.
  function Dirty(run: Run, n: nat, b: BucketName): set<string>
    requires n <= |run.events| == |run.failed|
  {
    if n == 0 then {}
    else if BucketFor(run.events[n - 1].request) != b then Dirty(run, n - 1, b)
    else
      var out := OutcomeAt(run, n - 1);
      Dirty(run, n - 1, b) - Addressed(out.publish, out.purges) + run.failed[n - 1]
  }

  lemma {:induction false} DirtyOnlyByFailure(run: Run, n: nat, b: BucketName, k: string)
    requires n <= |run.events| == |run.failed|
    ensures k in Dirty(run, n, b) ==> exists i | 0 <= i < n :: k in run.failed[i] && BucketFor(run.events[i].request) == b
  {
    hide OutcomeAt, Addressed;
    if n > 0 {
      DirtyOnlyByFailure(run, n - 1, b, k);
    }
  }

  // Through every run, each bucket is the image of its table except at keys whose last write failed.
  lemma {:induction false} CoherentThroughout(run: Run, n: nat, b: BucketName)
    requires ValidRun(run) && n <= |run.events|
    ensures Coherent(LogOf(run.kvs[n], b), ItemsOf(After(EMPTY, run.events, n), b), Dirty(run, n, b))
  {
    hide Serve, ItemsOf, Coherent, WroteThrough, Holds, FreshId, Covers, LogOf;
    if n == 0 {
      EmptyIsCoherent(run, b);
    } else {
      var i, e := n - 1, run.events[n - 1];
      var before := After(EMPTY, run.events, i);
      CoherentThroughout(run, i, b);
      EveryRunHolds(run.events, i);
      ServeAccounted(before, e.request, e.newId, e.now);
      assert Took(run, i);
      var out := OutcomeAt(run, i);
      if b == BucketFor(e.request) {
        WritesKeepCoherence(LogOf(run.kvs[i], b), LogOf(run.kvs[n], b), ItemsOf(before, b), ItemsOf(out.db, b),
                            out.publish, out.purges, run.failed[i], Dirty(run, i, b));
      }
    }
  }

  lemma EmptyIsCoherent(run: Run, b: BucketName)
    requires ValidRun(run)
    ensures Coherent(LogOf(run.kvs[0], b), ItemsOf(After(EMPTY, run.events, 0), b), {})
  {
  }

  // With every publish and purge through, the bucket is the image of the table, key for key.
  lemma CoherentWhenNothingFails(run: Run, n: nat, b: BucketName)
    requires ValidRun(run) && n <= |run.events|
    requires forall i | 0 <= i < n :: run.failed[i] == {}
    ensures Coherent(LogOf(run.kvs[n], b), ItemsOf(After(EMPTY, run.events, n), b), {})
  {
    hide OutcomeAt, Coherent, ItemsOf, Took;
    forall k ensures k !in Dirty(run, n, b) {
      DirtyOnlyByFailure(run, n, b, k);
    }
    assert Dirty(run, n, b) == {};
    CoherentThroughout(run, n, b);
  }
}
