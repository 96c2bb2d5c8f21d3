/**
 The whole way: admin requests with failing publishes, one full sweep, and what a
 consumer then answers, all in terms of the tables.
 */
module Pipeline {
  import opened Options
  import opened Keys
  import opened Kv
  import opened Tables
  import opened Admin
  import opened Integrity
  import opened Coherence
  import opened Reconciler
  import opened Healing
  import opened Adapters
  import opened Client
  import opened EndToEnd
  import opened Aliases

  ghost predicate ValueRow(db: Db, id: int, env: int, flagKey: string) {
    id in db.values && db.values[id].env == env
    && db.values[id].flagId in db.flags && db.flags[db.values[id].flagId].flagKey == flagKey
  }

  ghost predicate DocRow(docs: map<int, Doc>, id: int, env: int, ms: int, locale: string) {
    id in docs && SameKey(docs[id], ms, env, locale)
  }

  // The state after a run, and its bucket swept in full with nobody else writing.
  ghost predicate SweptAfter(run: Run, n: nat, b: BucketName, rows: seq<Row>, swept: Log) {
    && ValidRun(run) && n <= |run.events|
    && IsListing(rows, After(EMPTY, run.events, n), b, None)
    && (exists clock, fraction ::
          && Healable(LogOf(run.kvs[n], b), rows, fraction)
          && swept == SweepQuietly(LogOf(run.kvs[n], b), rows, true, clock, fraction))
  }

  lemma SweptIsConverged(run: Run, n: nat, b: BucketName, rows: seq<Row>, swept: Log)
    requires SweptAfter(run, n, b, rows, swept)
    ensures Converged(swept, rows) && Holds(After(EMPTY, run.events, n))
  {
    hide Healable, SweepQuietly, Converged, ValidRun, IsListing, Holds, After, LogOf;
    RunHolds(run, n);
    ListingHasUniqueKeys(rows, After(EMPTY, run.events, n), b, None);
    ListingIsPublishable(rows, After(EMPTY, run.events, n), b, None);
    var clock, fraction :| Healable(LogOf(run.kvs[n], b), rows, fraction)
                           && swept == SweepQuietly(LogOf(run.kvs[n], b), rows, true, clock, fraction);
    FullSweepConverges(LogOf(run.kvs[n], b), rows, clock, fraction);
  }

  lemma ListedFlags(rows: seq<Row>, db: Db, env: int, flagKey: string)
    requires IsListing(rows, db, Flags, None)
    ensures forall r | r in rows :: r.item.FlagItem?
    ensures (exists r :: r in rows && FlagRow(r, env, flagKey)) <==> exists id :: ValueRow(db, id, env, flagKey)
    ensures forall id | ValueRow(db, id, env, flagKey) ::
              var r := RowOf(db, Flags, id);
              r in rows && FlagRow(r, env, flagKey) && r.item.enabled == db.values[id].enabled && r.item.value == db.values[id].value
  {
    hide FlagItems;
    forall id ensures id in ItemsOf(db, Flags) <==> id in db.values && db.values[id].flagId in db.flags {
      FlagItemAt(db.flags, db.values, id);
    }
    forall id | id in ItemsOf(db, Flags) ensures ItemsOf(db, Flags)[id] == FlagItemOf(db, db.values[id]) {
      FlagItemAt(db.flags, db.values, id);
    }
    forall r | r in rows && FlagRow(r, env, flagKey) ensures ValueRow(db, r.id, env, flagKey) {
    }
    forall id | ValueRow(db, id, env, flagKey) ensures Listed(db, Flags, None, id) {
    }
  }

  // A flag is on for a consumer exactly when its row says so, and known exactly when it has one.
  lemma FlagReachesConsumer(run: Run, n: nat, rows: seq<Row>, swept: Log, env: int, us: seq<Update>, flagKey: string)
    requires SweptAfter(run, n, Flags, rows, swept) && Delivered(us, swept, EnvironmentPrefix(env))
    ensures var db := After(EMPTY, run.events, n);
            && (flagKey in FlagCache(env, us) <==> exists id :: ValueRow(db, id, env, flagKey))
            && (forall id | ValueRow(db, id, env, flagKey) ::
                  FlagAnswers(FlagCache(env, us), flagKey, db.values[id].enabled, db.values[id].value))
  {
    hide FlagCache, Delivered, Converged, Holds, After, IsListing, FlagAnswers, FlagRow, ValidRun, EnvironmentPrefix;
    var db := After(EMPTY, run.events, n);
    SweptIsConverged(run, n, Flags, rows, swept);
    ListedFlags(rows, db, env, flagKey);
    FlagsEndToEnd(swept, rows, env, us, flagKey);
    forall id | ValueRow(db, id, env, flagKey)
      ensures FlagAnswers(FlagCache(env, us), flagKey, db.values[id].enabled, db.values[id].value)
    {
      assert RowOf(db, Flags, id) in rows;
    }
  }

  lemma ListedDocs(rows: seq<Row>, db: Db, d: Domain)
    requires IsListing(rows, db, BucketOf(d), None) && Holds(db)
    ensures forall r | r in rows :: r.id in Docs(db, d) && r.item == DocItem(d, Docs(db, d)[r.id]) && IsInt64(Docs(db, d)[r.id].ms)
    ensures forall id | id in Docs(db, d) :: exists r :: r in rows && r.id == id
    ensures d.Settings? ==> forall id | id in Docs(db, d) :: Docs(db, d)[id].locale == ""
  {
    hide UniqueNames, UniqueFlagKeys, ValuesHold;
    assert DocsHold(db, d);
    DocsMean(db, d);
    assert GoodIds(db.services);
    forall r | r in rows ensures r.id in Docs(db, d) && r.item == DocItem(d, Docs(db, d)[r.id]) && IsInt64(Docs(db, d)[r.id].ms) {
      assert Listed(db, BucketOf(d), None, r.id);
      assert DocHolds(db, d, Docs(db, d)[r.id]);
    }
    forall id | id in Docs(db, d) ensures exists r :: r in rows && r.id == id {
      assert Listed(db, BucketOf(d), None, id);
      assert RowOf(db, BucketOf(d), id) in rows;
    }
    if d.Settings? {
      forall id | id in Docs(db, d) ensures Docs(db, d)[id].locale == "" {
        SettingsHaveNoLocale(db, Docs(db, d)[id]);
      }
    }
  }

  // A consumer in scope of a service holds exactly the settings row of its environment.
  lemma SettingsReachConsumer(run: Run, n: nat, rows: seq<Row>, swept: Log, env: int, msId: int, us: seq<Update>, ms: int)
    requires SweptAfter(run, n, ServiceSettings, rows, swept)
    requires msId >= 0 && Delivered(us, swept, Pattern(ServiceSettings, env, msId))
    requires msId > 0 || SettingsAliasesAgree(env, us)
    ensures var docs := After(EMPTY, run.events, n).settings;
            && (ms in SettingsCache(env, us) <==> EndToEnd.InScope(msId, ms) && exists id :: DocRow(docs, id, env, ms, ""))
            && (forall id | DocRow(docs, id, env, ms, "") && EndToEnd.InScope(msId, ms) ::
                  Get(SettingsCache(env, us), ms) == Some(docs[id].body))
  {
    hide SettingsCache, Delivered, Converged, Holds, After, IsListing, ValidRun, Pattern, SettingsAliasesAgree, SweptAfter, Get;
    SweptIsConverged(run, n, ServiceSettings, rows, swept);
    var db := DbOf(run, n, ServiceSettings, rows, swept);
    var docs := db.settings;
    ListedDocs(rows, db, Settings);
    SettingsEndToEnd(swept, rows, env, msId, us, ms);
    forall id | DocRow(docs, id, env, ms, "") ensures exists r :: r in rows && SettingsRow(r, env, ms) && r.item.body == docs[id].body {
      assert id in Docs(db, Settings);
      var r :| r in rows && r.id == id;
      assert SettingsRow(r, env, ms);
    }
    forall r | r in rows && SettingsRow(r, env, ms) ensures DocRow(docs, r.id, env, ms, "") {
    }
  }

  lemma DbOf(run: Run, n: nat, b: BucketName, rows: seq<Row>, swept: Log) returns (db: Db)
    requires SweptAfter(run, n, b, rows, swept)
    ensures n <= |run.events| && db == After(EMPTY, run.events, n) && IsListing(rows, db, b, None)
  {
    db := After(EMPTY, run.events, n);
  }

  // And exactly the bundle rows of the services in scope.
  lemma BundlesReachConsumer(run: Run, n: nat, rows: seq<Row>, swept: Log, env: int, msId: int, us: seq<Update>, ms: int, locale: string)
    requires SweptAfter(run, n, Localization, rows, swept)
    requires msId >= 0 && IsInt64(msId) && Delivered(us, swept, Pattern(Localization, env, msId))
    requires msId > 0 || BundleAliasesAgree(env, us)
    ensures var docs := After(EMPTY, run.events, n).bundles;
            && ((ms, locale) in BundleCache(env, us) <==>
                  EndToEnd.InScope(msId, ms) && exists id :: DocRow(docs, id, env, ms, locale))
            && (forall id | DocRow(docs, id, env, ms, locale) && EndToEnd.InScope(msId, ms) ::
                  Get(BundleCache(env, us), (ms, locale)) == Some(docs[id].body))
  {
    hide BundleCache, Delivered, Converged, Holds, After, IsListing, ValidRun, Pattern, BundleAliasesAgree, SweptAfter, Get;
    SweptIsConverged(run, n, Localization, rows, swept);
    var db := DbOf(run, n, Localization, rows, swept);
    var docs := db.bundles;
    ListedDocs(rows, db, Bundles);
    BundlesEndToEnd(swept, rows, env, msId, us, ms, locale);
    forall id | DocRow(docs, id, env, ms, locale)
      ensures exists r :: r in rows && BundleRow(r, env, ms, locale) && r.item.body == docs[id].body
    {
      assert id in Docs(db, Bundles);
      var r :| r in rows && r.id == id;
      assert BundleRow(r, env, ms, locale);
    }
    forall r | r in rows && BundleRow(r, env, ms, locale) ensures DocRow(docs, r.id, env, ms, locale) {
    }
  }

  // ---- Exactly, for a consumer of the whole watch ----

  // What a document table holds for a service in scope of an environment.
  ghost predicate TableSays(docs: map<int, Doc>, env: int, msId: int, ms: int, locale: string, body: Bytes) {
    EndToEnd.InScope(msId, ms) && exists id :: DocRow(docs, id, env, ms, locale) && docs[id].body == body
  }

  // A cache answers exactly what the table holds.
  ghost predicate SettingsAnswerTable(cache: map<int, Bytes>, docs: map<int, Doc>, env: int, msId: int) {
    forall ms, body :: Get(cache, ms) == Some(body) <==> TableSays(docs, env, msId, ms, "", body)
  }

  ghost predicate BundlesAnswerTable(cache: map<(int, string), Bytes>, docs: map<int, Doc>, env: int, msId: int) {
    forall ms, locale, body :: Get(cache, (ms, locale)) == Some(body) <==> TableSays(docs, env, msId, ms, locale, body)
  }

  // What the rows say of an identity, through a reader and a watch.
  ghost predicate RowsSay<K>(rows: seq<Row>, reader: Reader<K>, pattern: string, k: K, body: Bytes)
    requires DocRows(rows)
  {
    exists r :: r in rows && RowSpeaks(reader, pattern, r, k) && r.item.body == body
  }

  ghost predicate AnswersSaid<K(!new)>(cache: map<K, Bytes>, rows: seq<Row>, reader: Reader<K>, pattern: string)
    requires DocRows(rows)
  {
    forall k, body :: Get(cache, k) == Some(body) <==> RowsSay(rows, reader, pattern, k, body)
  }

  lemma {:induction false} RowsAnswered<K(!new)>(cache: map<K, Bytes>, rows: seq<Row>, reader: Reader<K>, pattern: string)
    requires DocRows(rows)
    ensures AnswersRows(cache, rows, reader, pattern) <==> AnswersSaid(cache, rows, reader, pattern)
  {
    hide RowSpeaks;
    if AnswersSaid(cache, rows, reader, pattern) {
      forall k | k in cache ensures exists r :: r in rows && RowSpeaks(reader, pattern, r, k) {
        assert RowsSay(rows, reader, pattern, k, cache[k]);
      }
      forall r, k | r in rows && RowSpeaks(reader, pattern, r, k) ensures Get(cache, k) == Some(r.item.body) {
        assert RowsSay(rows, reader, pattern, k, r.item.body);
      }
    }
  }

  lemma SettingsRowsOfTable(rows: seq<Row>, db: Db, env: int, msId: int, ms: int, body: Bytes)
    requires IsListing(rows, db, ServiceSettings, None) && Holds(db) && msId >= 0
    ensures SettingsRows(rows)
    ensures RowsSay(rows, SettingsReader(env), Pattern(ServiceSettings, env, msId), ms, body)
            <==> TableSays(db.settings, env, msId, ms, "", body)
  {
    hide RowSpeaks, IsListing, Holds, Pattern, SettingsReader;
    ListedDocs(rows, db, Settings);
    var reader, pattern := SettingsReader(env), Pattern(ServiceSettings, env, msId);
    forall r | r in rows ensures RowSpeaks(reader, pattern, r, ms) <==> SettingsRow(r, env, ms) && EndToEnd.InScope(msId, ms) {
      SettingsRowSpeaks(r, env, msId, ms);
    }
    forall id | DocRow(db.settings, id, env, ms, "") ensures exists r :: r in rows && r.id == id {
      assert id in Docs(db, Settings);
    }
    if RowsSay(rows, reader, pattern, ms, body) {
      var r :| r in rows && RowSpeaks(reader, pattern, r, ms) && r.item.body == body;
      assert DocRow(db.settings, r.id, env, ms, "");
    }
  }

  // A client that consumed the whole watch, fleet-wide or scoped, answers exactly the settings table if and only if
  // no alias was written after a live key.
  lemma SettingsReachConsumerExactly(run: Run, n: nat, rows: seq<Row>, swept: Log, env: int, msId: int)
    requires SweptAfter(run, n, ServiceSettings, rows, swept) && msId >= 0
    ensures var pattern := Pattern(ServiceSettings, env, msId);
            SettingsAnswerTable(SettingsCache(env, WatchOf(swept, |swept|, pattern)), After(EMPTY, run.events, n).settings, env, msId)
            <==> NoNewerAlias(swept, rows, SettingsReader(env), pattern)
  {
    hide DocCache, Converged, Holds, After, IsListing, Pattern, SettingsReader, SweptAfter, NoNewerAlias, AnswersRows,
      SettingsAnswerTable, AnswersSaid;
    SweptIsConverged(run, n, ServiceSettings, rows, swept);
    var db := DbOf(run, n, ServiceSettings, rows, swept);
    var reader, pattern := SettingsReader(env), Pattern(ServiceSettings, env, msId);
    SettingsRowsOfTable(rows, db, env, msId, 0, Text("", true, None));
    SettingsWatchExactly(swept, rows, env, msId);
    RowsAnswered(WatchedCache(swept, reader, pattern), rows, reader, pattern);
    SettingsSaid(WatchedCache(swept, reader, pattern), rows, db, env, msId);
  }

  lemma SettingsSaid(cache: map<int, Bytes>, rows: seq<Row>, db: Db, env: int, msId: int)
    requires IsListing(rows, db, ServiceSettings, None) && Holds(db) && msId >= 0 && SettingsRows(rows)
    ensures AnswersSaid(cache, rows, SettingsReader(env), Pattern(ServiceSettings, env, msId))
            <==> SettingsAnswerTable(cache, db.settings, env, msId)
  {
    hide IsListing, Holds, Pattern, SettingsReader, RowsSay, TableSays;
    forall ms: int, body
      ensures RowsSay(rows, SettingsReader(env), Pattern(ServiceSettings, env, msId), ms, body)
              <==> TableSays(db.settings, env, msId, ms, "", body)
    {
      SettingsRowsOfTable(rows, db, env, msId, ms, body);
    }
    var reader, pattern := SettingsReader(env), Pattern(ServiceSettings, env, msId);
    if SettingsAnswerTable(cache, db.settings, env, msId) {
      forall k: int, body ensures Get(cache, k) == Some(body) <==> RowsSay(rows, reader, pattern, k, body) {
        assert Get(cache, k) == Some(body) <==> TableSays(db.settings, env, msId, k, "", body);
      }
      assert AnswersSaid(cache, rows, reader, pattern);
    }
    if AnswersSaid(cache, rows, reader, pattern) {
      forall k: int, body ensures Get(cache, k) == Some(body) <==> TableSays(db.settings, env, msId, k, "", body) {
        assert Get(cache, k) == Some(body) <==> RowsSay(rows, reader, pattern, k, body);
      }
    }
  }

  lemma BundleRowsOfTable(rows: seq<Row>, db: Db, env: int, msId: int, k: (int, string), body: Bytes)
    requires IsListing(rows, db, Localization, None) && Holds(db) && msId >= 0
    ensures BundleRows(rows)
    ensures RowsSay(rows, BundleReader(env), Pattern(Localization, env, msId), k, body)
            <==> TableSays(db.bundles, env, msId, k.0, k.1, body)
  {
    hide RowSpeaks, IsListing, Holds, Pattern, BundleReader;
    ListedDocs(rows, db, Bundles);
    var reader, pattern := BundleReader(env), Pattern(Localization, env, msId);
    forall r | r in rows
      ensures RowSpeaks(reader, pattern, r, k) <==> BundleRow(r, env, k.0, k.1) && EndToEnd.InScope(msId, k.0)
    {
      BundleRowSpeaks(r, env, msId, k.0, k.1);
    }
    forall id | DocRow(db.bundles, id, env, k.0, k.1) ensures exists r :: r in rows && r.id == id {
      assert id in Docs(db, Bundles);
    }
    if RowsSay(rows, reader, pattern, k, body) {
      var r :| r in rows && RowSpeaks(reader, pattern, r, k) && r.item.body == body;
      assert DocRow(db.bundles, r.id, env, k.0, k.1);
    }
  }

  // And exactly the bundle table.
  lemma BundlesReachConsumerExactly(run: Run, n: nat, rows: seq<Row>, swept: Log, env: int, msId: int)
    requires SweptAfter(run, n, Localization, rows, swept) && msId >= 0
    ensures var pattern := Pattern(Localization, env, msId);
            BundlesAnswerTable(BundleCache(env, WatchOf(swept, |swept|, pattern)), After(EMPTY, run.events, n).bundles, env, msId)
            <==> NoNewerAlias(swept, rows, BundleReader(env), pattern)
  {
    hide DocCache, Converged, Holds, After, IsListing, Pattern, BundleReader, SweptAfter, NoNewerAlias, AnswersRows,
      BundlesAnswerTable, AnswersSaid;
    SweptIsConverged(run, n, Localization, rows, swept);
    var db := DbOf(run, n, Localization, rows, swept);
    var reader, pattern := BundleReader(env), Pattern(Localization, env, msId);
    BundleRowsOfTable(rows, db, env, msId, (0, ""), Text("", true, None));
    BundlesWatchExactly(swept, rows, env, msId);
    RowsAnswered(WatchedCache(swept, reader, pattern), rows, reader, pattern);
    BundlesSaid(WatchedCache(swept, reader, pattern), rows, db, env, msId);
  }

  lemma BundlesSaid(cache: map<(int, string), Bytes>, rows: seq<Row>, db: Db, env: int, msId: int)
    requires IsListing(rows, db, Localization, None) && Holds(db) && msId >= 0 && BundleRows(rows)
    ensures AnswersSaid(cache, rows, BundleReader(env), Pattern(Localization, env, msId))
            <==> BundlesAnswerTable(cache, db.bundles, env, msId)
  {
    hide IsListing, Holds, Pattern, BundleReader, RowsSay, TableSays;
    forall k: (int, string), body
      ensures RowsSay(rows, BundleReader(env), Pattern(Localization, env, msId), k, body)
              <==> TableSays(db.bundles, env, msId, k.0, k.1, body)
      ensures k == (k.0, k.1)
    {
      BundleRowsOfTable(rows, db, env, msId, k, body);
    }
  }

  // ---- Asking a client ----

  // A client opened on what its watches delivered says a flag is on exactly when its environment has an enabled row
  // for it, and gives a value exactly when there is a row with that value. It opens only for usable ids.
  method AskFlag(ghost run: Run, ghost n: nat, ghost rows: seq<Row>, ghost swept: Log, env: int, msId: int,
                 flags: seq<Update>, settings: seq<Update>, bundles: seq<Update>, flagKey: string)
    returns (ready: bool, on: bool, value: Option<string>)
    requires SweptAfter(run, n, Flags, rows, swept) && Delivered(flags, swept, EnvironmentPrefix(env))
    ensures ready <==> env > 0 && msId >= 0
    ensures var db := After(EMPTY, run.events, n);
            ready ==>
              && (on <==> exists id :: ValueRow(db, id, env, flagKey) && db.values[id].enabled != 0)
              && (forall v :: value == Some(v) <==> exists id :: ValueRow(db, id, env, flagKey) && db.values[id].value == v)
  {
    hide SweptAfter, Delivered, FlagCache, EnvironmentPrefix, After;
    var c := Open(env, msId, flags, settings, bundles);
    if c == null {
      return false, false, None;
    }
    ready := true;
    on := c.FlagEnabled(flagKey);
    value := c.FlagValue(flagKey);
    FlagReachesConsumer(run, n, rows, swept, env, flags, flagKey);
  }

  // ServiceSettings answers exactly the row of a service in scope.
  method AskSettings(ghost run: Run, ghost n: nat, ghost rows: seq<Row>, ghost swept: Log, env: int, msId: int,
                     flags: seq<Update>, settings: seq<Update>, bundles: seq<Update>, ms: int)
    returns (ready: bool, r: Option<Bytes>)
    requires SweptAfter(run, n, ServiceSettings, rows, swept)
    requires msId >= 0 ==> Delivered(settings, swept, Pattern(ServiceSettings, env, msId))
    requires msId > 0 || SettingsAliasesAgree(env, settings)
    ensures ready <==> env > 0 && msId >= 0
    ensures var docs := After(EMPTY, run.events, n).settings;
            ready ==> forall v :: r == Some(v) <==>
              (msId == 0 || msId == ms) && exists id :: DocRow(docs, id, env, ms, "") && docs[id].body == v
  {
    hide SweptAfter, Delivered, SettingsCache, Pattern, After, SettingsAliasesAgree;
    var c := Open(env, msId, flags, settings, bundles);
    if c == null {
      return false, None;
    }
    ready := true;
    r := c.ServiceSettings(ms);
    SettingsReachConsumer(run, n, rows, swept, env, msId, settings, ms);
  }

  // Translate answers from exactly the bundle row of a service in scope.
  method AskText(ghost run: Run, ghost n: nat, ghost rows: seq<Row>, ghost swept: Log, env: int, msId: int,
                 flags: seq<Update>, settings: seq<Update>, bundles: seq<Update>,
                 ms: int, locale: string, key: string, parse: Bytes -> Option<map<string, string>>)
    returns (ready: bool, r: Option<string>)
    requires SweptAfter(run, n, Localization, rows, swept) && IsInt64(msId)
    requires msId >= 0 ==> Delivered(bundles, swept, Pattern(Localization, env, msId))
    requires msId > 0 || BundleAliasesAgree(env, bundles)
    ensures ready <==> env > 0 && msId >= 0
    ensures var docs := After(EMPTY, run.events, n).bundles;
            ready ==> forall text :: r == Some(text) <==>
              && (msId == 0 || msId == ms)
              && exists id :: DocRow(docs, id, env, ms, locale) && SaysText(docs[id].body, key, text, parse)
  {
    hide SweptAfter, Delivered, BundleCache, Pattern, After, BundleAliasesAgree;
    var c := Open(env, msId, flags, settings, bundles);
    if c == null {
      return false, None;
    }
    ready := true;
    r := c.Translate(ms, locale, key, parse);
    BundlesReachConsumer(run, n, rows, swept, env, msId, bundles, ms, locale);
  }
}
