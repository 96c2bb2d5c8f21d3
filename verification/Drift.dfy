/**
 The drift report (webui/src/drift.js): the watched environment's rows against what
 the consumer caches.
 */
module Drift {
  import opened Options

  // What a row and a cached entry are known by: a flag key, a service, or a service and a locale.
  datatype Key = FlagId(flagKey: string) | SettingsId(ms: int) | BundleId(service: int, locale: string)

  // What is compared: a flag's state, or a document as JSON.stringify writes it.
  datatype Value = FlagState(enabled: bool, value: string) | Json(text: string)

  datatype Row = Row(id: int, env: int, key: Key, value: Value)

  datatype Kind = MissingInCache | MissingInDatabase | ValueDiffers

  datatype Issue = Issue(key: Key, kind: Kind, id: Option<int>)

  datatype Report = Report(issues: seq<Issue>, compared: nat, outOfScope: nat)

  // Rows as the listings return them; enabled is an integer there.
  datatype FlagRow = FlagRow(id: int, env: int, flagKey: string, enabled: int, value: string)
  datatype DocRow = DocRow(id: int, env: int, ms: int, locale: string, json: string)

  datatype CachedFlag = CachedFlag(enabled: bool, value: string)

  datatype Snapshot = Snapshot(
    flags: map<string, CachedFlag>,
    serviceSettings: map<int, string>,
    localization: map<int, map<string, string>>)

  function FlagRows(rows: seq<FlagRow>): (out: seq<Row>)
    ensures |out| == |rows|
  {
    seq(|rows|, i requires 0 <= i < |rows| =>
        Row(rows[i].id, rows[i].env, FlagId(rows[i].flagKey), FlagState(rows[i].enabled != 0, rows[i].value)))
  }

  function SettingsRows(rows: seq<DocRow>): (out: seq<Row>)
    ensures |out| == |rows|
  {
    seq(|rows|, i requires 0 <= i < |rows| => Row(rows[i].id, rows[i].env, SettingsId(rows[i].ms), Json(rows[i].json)))
  }

  function BundleRows(rows: seq<DocRow>): (out: seq<Row>)
    ensures |out| == |rows|
  {
    seq(|rows|, i requires 0 <= i < |rows| =>
        Row(rows[i].id, rows[i].env, BundleId(rows[i].ms, rows[i].locale), Json(rows[i].json)))
  }

  function CachedFlags(flags: map<string, CachedFlag>): map<Key, Value> {
    map k | k in flags :: FlagId(k) := FlagState(flags[k].enabled, flags[k].value)
  }

  function CachedSettings(settings: map<int, string>): map<Key, Value> {
    map ms | ms in settings :: SettingsId(ms) := Json(settings[ms])
  }

  function CachedBundles(loc: map<int, map<string, string>>): map<Key, Value> {
    map ms, locale | ms in loc && locale in loc[ms] :: BundleId(ms, locale) := Json(loc[ms][locale])
  }

  // The watched environment's rows by key, a later row taking the place of an earlier one.
  function Table(rows: seq<Row>, n: nat, env: int): map<Key, Row>
    requires n <= |rows|
  {
    if n == 0 then map[]
    else if rows[n - 1].env != env then Table(rows, n - 1, env)
    else Table(rows, n - 1, env)[rows[n - 1].key := rows[n - 1]]
  }

  function Elsewhere(rows: seq<Row>, n: nat, env: int): nat
    requires n <= |rows|
  {
    if n == 0 then 0 else Elsewhere(rows, n - 1, env) + (if rows[n - 1].env != env then 1 else 0)
  }

  // What the report should say about one key.
  predicate Justified(i: Issue, db: map<Key, Row>, cache: map<Key, Value>) {
    match i.kind
    case MissingInCache => i.key in db && i.key !in cache && i.id == Some(db[i.key].id)
    case MissingInDatabase => i.key in cache && i.key !in db && i.id == None
    case ValueDiffers => i.key in db && i.key in cache && cache[i.key] != db[i.key].value && i.id == Some(db[i.key].id)
  }

  // A report names a key once.
  ghost predicate OneEach(issues: seq<Issue>) { forall i, j | 0 <= i < j < |issues| :: issues[i].key != issues[j].key }

  predicate AboutRow(i: Issue) { !i.kind.MissingInDatabase? }

  method Index(rows: seq<Row>, env: int) returns (db: map<Key, Row>, outOfScope: nat)
    ensures db == Table(rows, |rows|, env) && outOfScope == Elsewhere(rows, |rows|, env)
  {
    db, outOfScope := map[], 0;
    for i := 0 to |rows|
      invariant db == Table(rows, i, env) && outOfScope == Elsewhere(rows, i, env)
    {
      if rows[i].env != env {
        outOfScope := outOfScope + 1;
      } else {
        db := db[rows[i].key := rows[i]];
      }
    }
  }

  method CompareRows(db: map<Key, Row>, cache: map<Key, Value>) returns (issues: seq<Issue>, compared: nat)
    ensures compared == |db|
    ensures forall i :: i in issues <==> AboutRow(i) && Justified(i, db, cache)
    ensures OneEach(issues)
  {
    issues, compared := [], 0;
    var pending := db.Keys;
    while pending != {}
      invariant pending <= db.Keys && compared + |pending| == |db|
      invariant forall i :: i in issues <==> AboutRow(i) && Justified(i, db, cache) && i.key !in pending
      invariant OneEach(issues)
      decreases |pending|
    {
      var key: Key :| key in pending;
      var row := db[key];
      compared, pending := compared + 1, pending - {key};
      if key !in cache {
        issues := issues + [Issue(key, MissingInCache, Some(row.id))];
      } else if cache[key] != row.value {
        issues := issues + [Issue(key, ValueDiffers, Some(row.id))];
      }
    }
  }

  method CompareCache(db: map<Key, Row>, cache: map<Key, Value>) returns (issues: seq<Issue>)
    ensures forall i :: i in issues <==> !AboutRow(i) && Justified(i, db, cache)
    ensures OneEach(issues)
  {
    issues := [];
    var pending := cache.Keys;
    while pending != {}
      invariant pending <= cache.Keys
      invariant forall i :: i in issues <==> !AboutRow(i) && Justified(i, db, cache) && i.key !in pending
      invariant OneEach(issues)
      decreases |pending|
    {
      var key: Key :| key in pending;
      pending := pending - {key};
      if key !in db {
        issues := issues + [Issue(key, MissingInDatabase, None)];
      }
    }
  }

  // ---- What a report means on the rows ----

  // The row that speaks for a key: the last of the environment's rows, among the first n, that has it.
  ghost predicate Speaks(rows: seq<Row>, n: nat, j: int, env: int, k: Key)
    requires n <= |rows|
  {
    && 0 <= j < n && rows[j].env == env && rows[j].key == k
    && forall m | j < m < n && rows[m].env == env :: rows[m].key != k
  }

  ghost predicate HasRow(rows: seq<Row>, env: int, k: Key) { exists r :: r in rows && r.env == env && r.key == k }

  // A row without a cached entry, a cached entry without a row, or the two with different values.
  ghost predicate Drifts(i: Issue, rows: seq<Row>, cache: map<Key, Value>, env: int) {
    match i.kind
    case MissingInCache => i.key !in cache && exists j :: Speaks(rows, |rows|, j, env, i.key) && i.id == Some(rows[j].id)
    case MissingInDatabase => i.key in cache && !HasRow(rows, env, i.key) && i.id == None
    case ValueDiffers =>
      i.key in cache && exists j :: Speaks(rows, |rows|, j, env, i.key) && i.id == Some(rows[j].id) && cache[i.key] != rows[j].value
  }

  function KeysIn(rows: seq<Row>, env: int): set<Key> { set r | r in rows && r.env == env :: r.key }

  function Outside(rows: seq<Row>, n: nat, env: int): set<int>
    requires n <= |rows|
  {
    set j | 0 <= j < n && rows[j].env != env
  }

  lemma {:induction false} TableSpeaks(rows: seq<Row>, n: nat, env: int, k: Key)
    requires n <= |rows|
    ensures k in Table(rows, n, env) <==> exists j :: Speaks(rows, n, j, env, k)
    ensures forall j | Speaks(rows, n, j, env, k) :: k in Table(rows, n, env) && Table(rows, n, env)[k] == rows[j]
  {
    if n > 0 {
      TableSpeaks(rows, n - 1, env, k);
      var last := rows[n - 1];
      if last.env == env && last.key == k {
        assert Speaks(rows, n, n - 1, env, k);
      } else {
        if k in Table(rows, n - 1, env) {
          var j :| Speaks(rows, n - 1, j, env, k);
          assert Speaks(rows, n, j, env, k);
        }
        assert forall j | Speaks(rows, n, j, env, k) :: Speaks(rows, n - 1, j, env, k);
      }
    }
  }

  lemma JustifiedMeans(i: Issue, rows: seq<Row>, cache: map<Key, Value>, env: int)
    ensures Justified(i, Table(rows, |rows|, env), cache) <==> Drifts(i, rows, cache, env)
  {
    hide Table, Speaks;
    assert rows[..|rows|] == rows;
    TableSpeaks(rows, |rows|, env, i.key);
    TableOf(rows, |rows|, env, i.key);
    assert i.key in Table(rows, |rows|, env) <==> HasRow(rows, env, i.key);
  }

  lemma TableCounts(rows: seq<Row>, env: int)
    ensures |Table(rows, |rows|, env)| == |KeysIn(rows, env)|
    ensures Elsewhere(rows, |rows|, env) == |Outside(rows, |rows|, env)|
  {
    hide Table;
    assert rows[..|rows|] == rows;
    var table := Table(rows, |rows|, env);
    forall k ensures k in table <==> k in KeysIn(rows, env) {
      TableOf(rows, |rows|, env, k);
    }
    assert table.Keys == KeysIn(rows, env) && |table| == |table.Keys|;
    ElsewhereCounts(rows, |rows|, env);
  }

  lemma {:induction false} ElsewhereCounts(rows: seq<Row>, n: nat, env: int)
    requires n <= |rows|
    ensures Elsewhere(rows, n, env) == |Outside(rows, n, env)|
  {
    if n > 0 {
      ElsewhereCounts(rows, n - 1, env);
      var before := Outside(rows, n - 1, env);
      assert Outside(rows, n, env) == if rows[n - 1].env != env then before + {n - 1} else before;
    }
  }

  // One domain's share of the report.
  ghost predicate Reports(r: Report, rows: seq<Row>, cache: map<Key, Value>, env: int) {
    && (forall i :: i in r.issues <==> Drifts(i, rows, cache, env))
    && OneEach(r.issues)
    && r.compared == |KeysIn(rows, env)|
    && r.outOfScope == |Outside(rows, |rows|, env)|
  }

  method CompareDomain(rows: seq<Row>, cache: map<Key, Value>, env: int) returns (r: Report)
    ensures Reports(r, rows, cache, env)
  {
    hide Justified, Drifts, Table, Elsewhere, OneEach, KeysIn, Outside;
    var db, outOfScope := Index(rows, env);
    var issues, compared := CompareRows(db, cache);
    var more := CompareCache(db, cache);
    forall i, j | i in issues && j in more ensures i.key != j.key {
      RowsFirst(i, j, db, cache);
    }
    EachOnce(issues, more);
    TableCounts(rows, env);
    forall i ensures Justified(i, db, cache) <==> Drifts(i, rows, cache, env) {
      JustifiedMeans(i, rows, cache, env);
    }
    r := Report(issues + more, compared, outOfScope);
  }

  lemma RowsFirst(i: Issue, j: Issue, db: map<Key, Row>, cache: map<Key, Value>)
    requires AboutRow(i) && Justified(i, db, cache) && !AboutRow(j) && Justified(j, db, cache)
    ensures i.key != j.key
  {
  }

  lemma EachOnce(a: seq<Issue>, b: seq<Issue>)
    requires OneEach(a) && OneEach(b) && forall i, j | i in a && j in b :: i.key != j.key
    ensures OneEach(a + b)
  {
    forall i, j | 0 <= i < j < |a + b| ensures (a + b)[i].key != (a + b)[j].key {
      if i < |a| <= j {
        assert a[i] in a && b[j - |a|] in b;
      }
    }
  }

  // ---- Sound and complete ----

  ghost predicate UniqueIn(rows: seq<Row>, env: int) {
    forall i, j | 0 <= i < j < |rows| && rows[i].env == env && rows[j].env == env :: rows[i].key != rows[j].key
  }

  // The cache is the environment's rows, key for key and value for value.
  ghost predicate Mirrors(rows: seq<Row>, cache: map<Key, Value>, env: int) {
    && (forall r | r in rows && r.env == env :: r.key in cache && cache[r.key] == r.value)
    && (forall k | k in cache :: exists r :: r in rows && r.env == env && r.key == k)
  }

  lemma {:induction false} TableOf(rows: seq<Row>, n: nat, env: int, k: Key)
    requires n <= |rows|
    ensures k in Table(rows, n, env) ==>
              && Table(rows, n, env)[k] in rows[..n]
              && Table(rows, n, env)[k].env == env && Table(rows, n, env)[k].key == k
    ensures k !in Table(rows, n, env) ==> forall r | r in rows[..n] && r.env == env :: r.key != k
  {
    if n > 0 {
      TableOf(rows, n - 1, env, k);
      assert rows[..n] == rows[..n - 1] + [rows[n - 1]];
    }
  }

  lemma {:induction false} TableSize(rows: seq<Row>, n: nat, env: int)
    requires n <= |rows|
    ensures |Table(rows, n, env)| + Elsewhere(rows, n, env) <= n
    ensures |Table(rows, n, env)| + Elsewhere(rows, n, env) == n <==> UniqueIn(rows[..n], env)
  {
    if n > 0 {
      TableSize(rows, n - 1, env);
      var before, last := Table(rows, n - 1, env), rows[n - 1];
      TableOf(rows, n - 1, env, last.key);
      OneMoreRow(rows, n, env);
      if last.env == env {
        assert before[last.key := last].Keys == before.Keys + {last.key};
      }
    }
  }

  lemma OneMoreRow(rows: seq<Row>, n: nat, env: int)
    requires 0 < n <= |rows|
    ensures UniqueIn(rows[..n], env) <==>
            UniqueIn(rows[..n - 1], env)
            && (rows[n - 1].env == env ==> forall r | r in rows[..n - 1] && r.env == env :: r.key != rows[n - 1].key)
  {
    var some, all := rows[..n - 1], rows[..n];
    assert all == some + [rows[n - 1]];
    if UniqueIn(all, env) {
      forall r | r in some && r.env == env && rows[n - 1].env == env ensures r.key != rows[n - 1].key {
        var i :| 0 <= i < |some| && some[i] == r;
        assert all[i] == r && all[n - 1] == rows[n - 1];
      }
      assert forall i | 0 <= i < |some| :: all[i] == some[i];
    }
  }

  // Every row is either compared or out of scope exactly when the environment's natural keys are unique.
  lemma EveryRowIsAccountedFor(r: Report, rows: seq<Row>, cache: map<Key, Value>, env: int)
    requires Reports(r, rows, cache, env)
    ensures r.compared + r.outOfScope == |rows| <==> UniqueIn(rows, env)
  {
    TableSize(rows, |rows|, env);
    TableCounts(rows, env);
    assert rows[..|rows|] == rows;
  }

  // With unique natural keys, no issue is reported exactly when the cache mirrors the rows.
  lemma NoIssueIffMirrored(r: Report, rows: seq<Row>, cache: map<Key, Value>, env: int)
    requires Reports(r, rows, cache, env) && UniqueIn(rows, env)
    ensures r.issues == [] <==> Mirrors(rows, cache, env)
  {
    hide KeysIn, Outside, OneEach, UniqueIn;
    forall j | 0 <= j < |rows| && rows[j].env == env ensures Speaks(rows, |rows|, j, env, rows[j].key) {
      OnlyRowSpeaks(rows, env, j);
    }
    if r.issues == [] {
      NoIssueMirrors(r, rows, cache, env);
    } else {
      assert r.issues[0] in r.issues;
    }
  }

  lemma OnlyRowSpeaks(rows: seq<Row>, env: int, j: nat)
    requires UniqueIn(rows, env) && j < |rows| && rows[j].env == env
    ensures Speaks(rows, |rows|, j, env, rows[j].key)
  {
  }

  lemma NoIssueMirrors(r: Report, rows: seq<Row>, cache: map<Key, Value>, env: int)
    requires Reports(r, rows, cache, env) && r.issues == []
    requires forall j | 0 <= j < |rows| && rows[j].env == env :: Speaks(rows, |rows|, j, env, rows[j].key)
    ensures Mirrors(rows, cache, env)
  {
    hide KeysIn, Outside, Speaks;
    forall row | row in rows && row.env == env ensures row.key in cache && cache[row.key] == row.value {
      var j :| 0 <= j < |rows| && rows[j] == row;
      assert !Drifts(Issue(row.key, MissingInCache, Some(row.id)), rows, cache, env);
      assert !Drifts(Issue(row.key, ValueDiffers, Some(row.id)), rows, cache, env);
    }
    forall k | k in cache ensures HasRow(rows, env, k) {
      assert !Drifts(Issue(k, MissingInDatabase, None), rows, cache, env);
    }
  }

  lemma Part(r: Report, rows: seq<Row>, cache: map<Key, Value>, env: int)
    requires Reports(r, rows, cache, env)
    ensures r.compared + r.outOfScope <= |rows|
    ensures r.compared + r.outOfScope == |rows| <==> UniqueIn(rows, env)
    ensures UniqueIn(rows, env) ==> (r.issues == [] <==> Mirrors(rows, cache, env))
  {
    hide UniqueIn, Mirrors, Table, Elsewhere, Drifts, KeysIn, Outside;
    TableSize(rows, |rows|, env);
    TableCounts(rows, env);
    EveryRowIsAccountedFor(r, rows, cache, env);
    if UniqueIn(rows, env) {
      NoIssueIffMirrored(r, rows, cache, env);
    }
  }

  ghost predicate UniqueKeys(env: int, flagValues: seq<FlagRow>, configs: seq<DocRow>, localization: seq<DocRow>) {
    && UniqueIn(FlagRows(flagValues), env)
    && UniqueIn(SettingsRows(configs), env)
    && UniqueIn(BundleRows(localization), env)
  }

  // The cached flags are the environment's, on exactly when the row's integer is not zero.
  ghost predicate FlagsInStep(env: int, flags: map<string, CachedFlag>, rows: seq<FlagRow>) {
    && (forall r | r in rows && r.env == env ::
          r.flagKey in flags && flags[r.flagKey].enabled == (r.enabled != 0) && flags[r.flagKey].value == r.value)
    && (forall k | k in flags :: exists r :: r in rows && r.env == env && r.flagKey == k)
  }

  ghost predicate SettingsInStep(env: int, cached: map<int, string>, rows: seq<DocRow>) {
    && (forall r | r in rows && r.env == env :: r.ms in cached && cached[r.ms] == r.json)
    && (forall ms | ms in cached :: exists r :: r in rows && r.env == env && r.ms == ms)
  }

  ghost predicate BundlesInStep(env: int, cached: map<int, map<string, string>>, rows: seq<DocRow>) {
    && (forall r | r in rows && r.env == env :: r.ms in cached && r.locale in cached[r.ms] && cached[r.ms][r.locale] == r.json)
    && (forall ms, locale | ms in cached && locale in cached[ms] ::
          exists r :: r in rows && r.env == env && r.ms == ms && r.locale == locale)
  }

  // All three caches hold the environment's rows and nothing else.
  ghost predicate InStep(env: int, snapshot: Snapshot, flagValues: seq<FlagRow>, configs: seq<DocRow>, localization: seq<DocRow>) {
    && FlagsInStep(env, snapshot.flags, flagValues)
    && SettingsInStep(env, snapshot.serviceSettings, configs)
    && BundlesInStep(env, snapshot.localization, localization)
  }

  lemma FlagsMirror(env: int, flags: map<string, CachedFlag>, rows: seq<FlagRow>)
    ensures Mirrors(FlagRows(rows), CachedFlags(flags), env) <==> FlagsInStep(env, flags, rows)
  {
    var all, cache := FlagRows(rows), CachedFlags(flags);
    assert forall j | 0 <= j < |rows| :: all[j] in all && rows[j] in rows;
    if Mirrors(all, cache, env) {
      forall k | k in flags ensures exists r :: r in rows && r.env == env && r.flagKey == k {
        assert FlagId(k) in cache;
      }
    }
  }

  lemma SettingsMirror(env: int, cached: map<int, string>, rows: seq<DocRow>)
    ensures Mirrors(SettingsRows(rows), CachedSettings(cached), env) <==> SettingsInStep(env, cached, rows)
  {
    var all, cache := SettingsRows(rows), CachedSettings(cached);
    assert forall j | 0 <= j < |rows| :: all[j] in all && rows[j] in rows;
    if Mirrors(all, cache, env) {
      forall ms | ms in cached ensures exists r :: r in rows && r.env == env && r.ms == ms {
        assert SettingsId(ms) in cache;
      }
    }
  }

  lemma BundlesMirror(env: int, cached: map<int, map<string, string>>, rows: seq<DocRow>)
    ensures Mirrors(BundleRows(rows), CachedBundles(cached), env) <==> BundlesInStep(env, cached, rows)
  {
    var all, cache := BundleRows(rows), CachedBundles(cached);
    assert forall j | 0 <= j < |rows| :: all[j] in all && rows[j] in rows;
    if Mirrors(all, cache, env) {
      forall ms, locale | ms in cached && locale in cached[ms]
        ensures exists r :: r in rows && r.env == env && r.ms == ms && r.locale == locale
      {
        assert BundleId(ms, locale) in cache;
      }
    }
  }

  // How many natural keys the environment's rows have, and how many rows are elsewhere.
  ghost function ComparedIn(env: int, flagValues: seq<FlagRow>, configs: seq<DocRow>, localization: seq<DocRow>): nat {
    |set r | r in flagValues && r.env == env :: FlagId(r.flagKey)|
    + |set r | r in configs && r.env == env :: SettingsId(r.ms)|
    + |set r | r in localization && r.env == env :: BundleId(r.ms, r.locale)|
  }

  ghost function OutsideOf(env: int, flagValues: seq<FlagRow>, configs: seq<DocRow>, localization: seq<DocRow>): nat {
    |set j | 0 <= j < |flagValues| && flagValues[j].env != env|
    + |set j | 0 <= j < |configs| && configs[j].env != env|
    + |set j | 0 <= j < |localization| && localization[j].env != env|
  }

  lemma CountsOfRows(env: int, flagValues: seq<FlagRow>, configs: seq<DocRow>, localization: seq<DocRow>)
    ensures ComparedIn(env, flagValues, configs, localization)
            == |KeysIn(FlagRows(flagValues), env)| + |KeysIn(SettingsRows(configs), env)| + |KeysIn(BundleRows(localization), env)|
    ensures OutsideOf(env, flagValues, configs, localization)
            == |Outside(FlagRows(flagValues), |flagValues|, env)| + |Outside(SettingsRows(configs), |configs|, env)|
               + |Outside(BundleRows(localization), |localization|, env)|
  {
    FlagKeysIn(env, flagValues);
    DocKeysIn(env, configs);
    DocKeysIn(env, localization);
    assert Outside(FlagRows(flagValues), |flagValues|, env) == set j | 0 <= j < |flagValues| && flagValues[j].env != env;
    assert Outside(SettingsRows(configs), |configs|, env) == set j | 0 <= j < |configs| && configs[j].env != env;
    assert Outside(BundleRows(localization), |localization|, env)
           == set j | 0 <= j < |localization| && localization[j].env != env;
  }

  lemma FlagKeysIn(env: int, rows: seq<FlagRow>)
    ensures KeysIn(FlagRows(rows), env) == set r | r in rows && r.env == env :: FlagId(r.flagKey)
  {
    var all := FlagRows(rows);
    assert forall j | 0 <= j < |rows| :: all[j] in all && rows[j] in rows;
  }

  lemma DocKeysIn(env: int, rows: seq<DocRow>)
    ensures KeysIn(SettingsRows(rows), env) == set r | r in rows && r.env == env :: SettingsId(r.ms)
    ensures KeysIn(BundleRows(rows), env) == set r | r in rows && r.env == env :: BundleId(r.ms, r.locale)
  {
    var settings, bundles := SettingsRows(rows), BundleRows(rows);
    assert forall j | 0 <= j < |rows| :: settings[j] in settings && bundles[j] in bundles && rows[j] in rows;
  }

  // The key of an issue tells its section.
  lemma SectionOf(i: Issue, rows: seq<Row>, cache: map<Key, Value>, env: int)
    requires Drifts(i, rows, cache, env)
    ensures i.key in cache || exists r :: r in rows && r.key == i.key
  {
  }

  lemma SectionsApart(env: int, snapshot: Snapshot, flagValues: seq<FlagRow>, configs: seq<DocRow>, localization: seq<DocRow>, i: Issue)
    ensures Drifts(i, FlagRows(flagValues), CachedFlags(snapshot.flags), env) ==> i.key.FlagId?
    ensures Drifts(i, SettingsRows(configs), CachedSettings(snapshot.serviceSettings), env) ==> i.key.SettingsId?
    ensures Drifts(i, BundleRows(localization), CachedBundles(snapshot.localization), env) ==> i.key.BundleId?
  {
    hide Drifts;
    if Drifts(i, FlagRows(flagValues), CachedFlags(snapshot.flags), env) {
      SectionOf(i, FlagRows(flagValues), CachedFlags(snapshot.flags), env);
    }
    if Drifts(i, SettingsRows(configs), CachedSettings(snapshot.serviceSettings), env) {
      SectionOf(i, SettingsRows(configs), CachedSettings(snapshot.serviceSettings), env);
    }
    if Drifts(i, BundleRows(localization), CachedBundles(snapshot.localization), env) {
      SectionOf(i, BundleRows(localization), CachedBundles(snapshot.localization), env);
    }
  }

  // Every issue names a key that really differs, with the row and the kind, and every such key has its one issue.
  // The counts are the environment's natural keys and the rows elsewhere; they cover every row exactly when the natural
  // keys are unique, and then no issue means no drift.
  method ComputeDrift(env: int, snapshot: Snapshot, flagValues: seq<FlagRow>, configs: seq<DocRow>, localization: seq<DocRow>)
    returns (report: Report)
    ensures forall i :: i in report.issues <==>
              || Drifts(i, FlagRows(flagValues), CachedFlags(snapshot.flags), env)
              || Drifts(i, SettingsRows(configs), CachedSettings(snapshot.serviceSettings), env)
              || Drifts(i, BundleRows(localization), CachedBundles(snapshot.localization), env)
    ensures OneEach(report.issues)
    ensures report.compared == ComparedIn(env, flagValues, configs, localization)
    ensures report.outOfScope == OutsideOf(env, flagValues, configs, localization)
    ensures report.compared + report.outOfScope == |flagValues| + |configs| + |localization|
            <==> UniqueKeys(env, flagValues, configs, localization)
    ensures UniqueKeys(env, flagValues, configs, localization) ==>
              (report.issues == [] <==> InStep(env, snapshot, flagValues, configs, localization))
  {
    hide UniqueIn, Mirrors, Drifts, CachedFlags, CachedSettings, CachedBundles, FlagRows, SettingsRows, BundleRows, OneEach,
      KeysIn, Outside, ComparedIn, OutsideOf, FlagsInStep, SettingsInStep, BundlesInStep;
    var flags := CompareDomain(FlagRows(flagValues), CachedFlags(snapshot.flags), env);
    var settings := CompareDomain(SettingsRows(configs), CachedSettings(snapshot.serviceSettings), env);
    var bundles := CompareDomain(BundleRows(localization), CachedBundles(snapshot.localization), env);
    report := Report(flags.issues + settings.issues + bundles.issues,
                     flags.compared + settings.compared + bundles.compared,
                     flags.outOfScope + settings.outOfScope + bundles.outOfScope);
    forall i ensures (i in flags.issues ==> i.key.FlagId?) && (i in settings.issues ==> i.key.SettingsId?)
                     && (i in bundles.issues ==> i.key.BundleId?)
    {
      SectionsApart(env, snapshot, flagValues, configs, localization, i);
    }
    EachOnce(flags.issues, settings.issues);
    EachOnce(flags.issues + settings.issues, bundles.issues);
    CountsOfRows(env, flagValues, configs, localization);
    Part(flags, FlagRows(flagValues), CachedFlags(snapshot.flags), env);
    Part(settings, SettingsRows(configs), CachedSettings(snapshot.serviceSettings), env);
    Part(bundles, BundleRows(localization), CachedBundles(snapshot.localization), env);
    FlagsMirror(env, snapshot.flags, flagValues);
    SettingsMirror(env, snapshot.serviceSettings, configs);
    BundlesMirror(env, snapshot.localization, localization);
    assert report.issues == [] <==> flags.issues == [] && settings.issues == [] && bundles.issues == [];
  }
}
