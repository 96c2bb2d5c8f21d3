/**
 From database rows to a consumer's lookups, once the bucket has converged and the
 consumer has consumed the watch.
 */
module EndToEnd {
  import opened Options
  import opened Keys
  import opened Kv
  import opened Items
  import opened Reconciler
  import opened Healing
  import opened Client

  // The updates end, for each key of the watch and no other, in what the bucket holds there.
  ghost predicate Delivered(us: seq<Update>, log: Log, pattern: string) {
    && (forall u | u in us :: Watched(pattern, u.key))
    && (forall key, v | Watched(pattern, key) :: LastPut(us, key, v) <==> Live(log, key) == Some(v))
  }

  ghost predicate LastPut(us: seq<Update>, key: string, v: Bytes) {
    exists i :: Newest(us, i) && us[i] == Update(key, Put(v))
  }

  // The watch of a whole bucket: its entries that match, in order.
  ghost function WatchOf(log: Log, n: nat, pattern: string): seq<Update>
    requires n <= |log|
  {
    if n == 0 then []
    else WatchOf(log, n - 1, pattern)
         + (if Watched(pattern, log[n - 1].key) then [Update(log[n - 1].key, log[n - 1].op)] else [])
  }

  lemma AppendNewest(us: seq<Update>, u: Update, key: string, v: Bytes)
    ensures LastPut(us + [u], key, v) <==> if u.key == key then u.op == Put(v) else LastPut(us, key, v)
  {
    var all := us + [u];
    assert Newest(all, |us|) && all[|us|] == u;
    if LastPut(us, key, v) && u.key != key {
      var i :| Newest(us, i) && us[i] == Update(key, Put(v));
      assert Newest(all, i) && all[i] == us[i];
    }
    if LastPut(all, key, v) && u.key != key {
      var i :| Newest(all, i) && all[i] == Update(key, Put(v));
      assert Newest(us, i) by {
        forall j | i < j < |us| ensures us[j].key != us[i].key { assert all[j] == us[j]; }
      }
    }
  }

  lemma {:induction false} WatchIsDelivered(log: Log, n: nat, pattern: string)
    requires n <= |log|
    ensures Delivered(WatchOf(log, n, pattern), log[..n], pattern)
  {
    hide Newest, Live, Watched, LastPut;
    if n == 0 {
      EmptyIsDelivered(pattern);
    } else {
      WatchIsDelivered(log, n - 1, pattern);
      var e, us := log[n - 1], WatchOf(log, n - 1, pattern);
      assert log[..n] == log[..n - 1] + [e];
      forall key, v | Watched(pattern, key)
        ensures LastPut(WatchOf(log, n, pattern), key, v) <==> Live(log[..n], key) == Some(v)
      {
        Appended(log[..n - 1], e, key);
        AppendNewest(us, Update(e.key, e.op), key, v);
        assert Live(log[..n], key) == Some(v) <==> if e.key == key then e.op == Put(v) else Live(log[..n - 1], key) == Some(v);
        assert Watched(pattern, e.key) ==> WatchOf(log, n, pattern) == us + [Update(e.key, e.op)];
        assert !Watched(pattern, e.key) ==> WatchOf(log, n, pattern) == us;
      }
    }
  }

  lemma EmptyIsDelivered(pattern: string)
    ensures Delivered([], [], pattern)
  {
    assert forall key, v :: !LastPut([], key, v);
  }

  // Consuming everything the watch ever delivers is one way to be up to date.
  lemma WholeWatchIsDelivered(log: Log, pattern: string)
    ensures Delivered(WatchOf(log, |log|, pattern), log, pattern)
  {
    WatchIsDelivered(log, |log|, pattern);
    assert log[..|log|] == log;
  }

  // ---- Between a live key and a cached identity ----

  lemma {:induction false} LiveIsCached<K, V>(us: seq<Update>, fx: seq<Effect<K, V>>, log: Log, pattern: string,
                                              key: string, value: Bytes) returns (i: int)
    requires ReadOff(us, fx) && Agree(us, fx) && Delivered(us, log, pattern)
    requires Watched(pattern, key) && Live(log, key) == Some(value)
    ensures 0 <= i < |us| && us[i] == Update(key, Put(value))
    ensures forall k | About(fx[i], k) :: Get(Replay(map[], fx, |fx|), k) == Outcome(fx[i].change)
  {
    hide Replay, Agree, Get, Live, Watched;
    assert LastPut(us, key, value);
    i :| Newest(us, i) && us[i] == Update(key, Put(value));
    forall k | About(fx[i], k) ensures Get(Replay(map[], fx, |fx|), k) == Outcome(fx[i].change) {
      NewestSpeaks(us, fx, i, k);
    }
  }

  lemma {:induction false} CachedIsLive<K, V>(us: seq<Update>, fx: seq<Effect<K, V>>, log: Log, pattern: string, k: K)
    returns (i: int, value: Bytes)
    requires ReadOff(us, fx) && Delivered(us, log, pattern)
    requires forall i | 0 <= i < |us| && us[i].op.Purge? :: fx[i].change.Drop?
    requires k in Replay(map[], fx, |fx|)
    ensures 0 <= i < |us| && fx[i].id == Some(k) && us[i].op == Put(value)
    ensures Watched(pattern, us[i].key) && Live(log, us[i].key) == Some(value)
  {
    hide Replay, Live, Watched;
    var v := Replay(map[], fx, |fx|)[k];
    CacheRefinesLog(fx, k, v);
    var p :| 0 <= p < |fx| && fx[p] == Effect(Some(k), Set(v)) && forall j | p < j < |fx| :: !About(fx[j], k);
    i := NewestUnder(us, p);
    assert fx[i].id == fx[p].id;
    assert us[i].op.Put?;
    value := us[i].op.value;
    assert us[i] in us;
    assert LastPut(us, us[i].key, value);
  }

  // ---- The three lookups ----

  ghost predicate FlagRow(r: Row, env: int, flagKey: string) {
    r.item.FlagItem? && r.item.env == env && r.item.flagKey == flagKey
  }

  ghost predicate SettingsRow(r: Row, env: int, ms: int) {
    r.item.SettingsItem? && r.item.env == env && r.item.ms == ms
  }

  ghost predicate BundleRow(r: Row, env: int, ms: int, locale: string) {
    r.item.BundleItem? && r.item.env == env && r.item.ms == ms && r.item.locale == locale
  }

  // What FlagEnabled and FlagValue answer for a flag that has a row.
  ghost predicate FlagAnswers(cache: map<string, FlagPayload>, flagKey: string, enabled: int, value: string) {
    flagKey in cache && cache[flagKey].enabled == (enabled != 0) && cache[flagKey].value == value
  }

  lemma FlagRowIsCached(log: Log, rows: seq<Row>, env: int, us: seq<Update>, r: Row)
    requires Converged(log, rows) && Delivered(us, log, EnvironmentPrefix(env))
    requires r in rows && r.item.FlagItem? && r.item.env == env
    ensures FlagAnswers(FlagCache(env, us), r.item.flagKey, r.item.enabled, r.item.value)
  {
    hide Delivered, Replay, Live, Watched, ReadOff, Agree, TrimEnv, FlagKey;
    WatchedFlags(env, us, log);
    var key := FlagKey(env, r.item.flagKey);
    EnvironmentWatch(env, env, r.item.flagKey, 0, "");
    assert ShownIn(log, r.item);
    var value := Live(log, key).value;
    FlagIdentityRecovered(env, r.item.flagKey);
    var fx := FlagEffects(env, us);
    var i := LiveIsCached(us, fx, log, EnvironmentPrefix(env), key, value);
    assert fx[i] == FlagEffect(env, us[i]);
    assert About(fx[i], r.item.flagKey);
  }

  lemma WatchedFlags(env: int, us: seq<Update>, log: Log)
    requires Delivered(us, log, EnvironmentPrefix(env))
    ensures ReadOff(us, FlagEffects(env, us)) && Agree(us, FlagEffects(env, us))
  {
    hide Watched, FlagEffects, ReadOff, Agree;
    forall u | u in us ensures InEnvironment(u.key, env) {
      WatchedIsInEnvironment(env, u.key);
    }
    FlagsAgree(env, us);
  }

  // FlagEnabled and FlagValue answer what the environment's row says, and no flag without a row is cached.
  lemma FlagsEndToEnd(log: Log, rows: seq<Row>, env: int, us: seq<Update>, flagKey: string)
    requires Converged(log, rows) && Delivered(us, log, EnvironmentPrefix(env))
    requires forall r | r in rows :: r.item.FlagItem?
    ensures flagKey in FlagCache(env, us) <==> exists r :: r in rows && FlagRow(r, env, flagKey)
    ensures forall r | r in rows && FlagRow(r, env, flagKey) ::
              FlagAnswers(FlagCache(env, us), flagKey, r.item.enabled, r.item.value)
  {
    hide Delivered, Replay, Live, Watched, ReadOff, Agree, TrimEnv, FlagKey;
    forall r | r in rows && FlagRow(r, env, flagKey)
      ensures FlagAnswers(FlagCache(env, us), flagKey, r.item.enabled, r.item.value)
    {
      FlagRowIsCached(log, rows, env, us, r);
    }
    if flagKey in FlagCache(env, us) {
      WatchedFlags(env, us, log);
      var i, value := CachedIsLive(us, FlagEffects(env, us), log, EnvironmentPrefix(env), flagKey);
      var r := RowBehind(log, rows, us[i].key);
      EnvironmentWatch(env, r.item.env, r.item.flagKey, 0, "");
      FlagIdentityRecovered(env, r.item.flagKey);
      assert FlagEffects(env, us)[i] == FlagEffect(env, us[i]);
      assert FlagRow(r, env, flagKey);
    }
  }

  lemma RowBehind(log: Log, rows: seq<Row>, key: string) returns (r: Row)
    requires Converged(log, rows) && Live(log, key).Some?
    ensures r in rows && KeyOf(r.item) == key
  {
    ContentsAt(log, key);
    r :| r in rows && KeyOf(r.item) == key;
  }

  predicate InScope(msId: int, ms: int) { msId == 0 || msId == ms }

  ghost predicate SettingsRows(rows: seq<Row>) { forall r | r in rows :: r.item.SettingsItem? && IsInt64(r.item.ms) }

  ghost predicate BundleRows(rows: seq<Row>) { forall r | r in rows :: r.item.BundleItem? && IsInt64(r.item.ms) }

  // ---- Documents, in either bucket ----

  ghost predicate DocRows(rows: seq<Row>) { forall r | r in rows :: !r.item.FlagItem? }

  // The keys a watch delivers that its consumer reads as k.
  ghost predicate Speaks<K>(reader: Reader<K>, pattern: string, key: string, k: K) {
    Watched(pattern, key) && reader(key) == Some(k)
  }

  ghost predicate RowSpeaks<K>(reader: Reader<K>, pattern: string, r: Row, k: K) { Speaks(reader, pattern, KeyOf(r.item), k) }

  lemma {:induction false} DocRowIsCached<K>(log: Log, rows: seq<Row>, us: seq<Update>, reader: Reader<K>, pattern: string,
                                             r: Row, k: K)
    requires Converged(log, rows) && Delivered(us, log, pattern) && AliasesAgree(reader, us)
    requires r in rows && !r.item.FlagItem? && RowSpeaks(reader, pattern, r, k)
    ensures Get(DocCache(reader, us), k) == Some(r.item.body)
  {
    hide Replay, Live, Watched, ReadOff, Agree, KeyOf, Get, AliasesAgree;
    AgreementOfAliases(reader, us);
    assert ShownIn(log, r.item);
    var fx := DocEffects(reader, us);
    var i := LiveIsCached(us, fx, log, pattern, KeyOf(r.item), r.item.body);
    assert fx[i] == DocEffect(reader, us[i]);
    assert About(fx[i], k);
  }

  lemma {:induction false} CachedDocHasRow<K>(log: Log, rows: seq<Row>, us: seq<Update>, reader: Reader<K>, pattern: string, k: K)
    requires Converged(log, rows) && Delivered(us, log, pattern) && k in DocCache(reader, us)
    ensures exists r :: r in rows && RowSpeaks(reader, pattern, r, k)
  {
    hide Replay, Live, Watched, KeyOf;
    AgreementOfAliases(reader, us);
    var i, value := CachedIsLive(us, DocEffects(reader, us), log, pattern, k);
    var r := RowBehind(log, rows, us[i].key);
    assert DocEffects(reader, us)[i] == DocEffect(reader, us[i]);
    assert RowSpeaks(reader, pattern, r, k);
  }

  // What an up-to-date consumer has cached is exactly what the rows its watch covers say.
  lemma {:induction false} DocsEndToEnd<K>(log: Log, rows: seq<Row>, us: seq<Update>, reader: Reader<K>, pattern: string, k: K)
    requires Converged(log, rows) && Delivered(us, log, pattern) && AliasesAgree(reader, us) && DocRows(rows)
    ensures k in DocCache(reader, us) <==> exists r :: r in rows && RowSpeaks(reader, pattern, r, k)
    ensures forall r | r in rows && RowSpeaks(reader, pattern, r, k) :: Get(DocCache(reader, us), k) == Some(r.item.body)
  {
    hide Delivered, Converged, AliasesAgree, DocCache, RowSpeaks;
    forall r | r in rows && RowSpeaks(reader, pattern, r, k) ensures Get(DocCache(reader, us), k) == Some(r.item.body) {
      DocRowIsCached(log, rows, us, reader, pattern, r, k);
    }
    if k in DocCache(reader, us) {
      CachedDocHasRow(log, rows, us, reader, pattern, k);
    }
  }

  // ---- Which rows speak for which identity ----

  lemma SettingsRowSpeaks(r: Row, env: int, msId: int, ms: int)
    requires r.item.SettingsItem? && IsInt64(r.item.ms) && msId >= 0
    ensures RowSpeaks(SettingsReader(env), Pattern(ServiceSettings, env, msId), r, ms) <==>
            SettingsRow(r, env, ms) && InScope(msId, ms)
  {
    hide Watched, ServiceSettingsKey, SettingsPattern, EnvironmentPrefix, SettingsIdentity;
    SettingsWatch(env, msId, r.item.env, r.item.ms);
    EnvironmentWatch(env, r.item.env, "", r.item.ms, "");
    SettingsIdentityRecovered(r.item.env, r.item.ms);
  }

  lemma BundleRowSpeaks(r: Row, env: int, msId: int, ms: int, locale: string)
    requires r.item.BundleItem? && IsInt64(r.item.ms) && msId >= 0
    ensures RowSpeaks(BundleReader(env), Pattern(Localization, env, msId), r, (ms, locale)) <==>
            BundleRow(r, env, ms, locale) && InScope(msId, ms)
  {
    hide Watched, LocalizationKey, BundlePattern, EnvironmentPrefix, BundleIdentity;
    BundleWatch(env, msId, r.item.env, r.item.ms, r.item.locale);
    EnvironmentWatch(env, r.item.env, "", r.item.ms, r.item.locale);
    BundleIdentityRecovered(r.item.env, r.item.ms, r.item.locale);
  }

  // A service-scoped settings watch carries one key only, so it has no aliases.
  lemma ScopedSettingsAgree(env: int, msId: int, us: seq<Update>)
    requires msId > 0 && forall u | u in us :: Watched(Pattern(ServiceSettings, env, msId), u.key)
    ensures SettingsAliasesAgree(env, us)
  {
    hide Watched, SettingsReader, ServiceSettingsKey;
    forall i, j | Newest(us, i) && Newest(us, j) ensures us[i].key == us[j].key {
      assert us[i] in us && us[j] in us;
      WatchedIsTheSetting(env, msId, us[i].key);
      WatchedIsTheSetting(env, msId, us[j].key);
    }
  }

  // A service-scoped bundle watch carries keys under one prefix, so its identities are its keys.
  lemma ScopedBundlesAgree(env: int, msId: int, us: seq<Update>)
    requires msId > 0 && IsInt64(msId) && forall u | u in us :: Watched(Pattern(Localization, env, msId), u.key)
    ensures BundleAliasesAgree(env, us)
  {
    hide Watched, LocalizationKey;
    forall u | u in us ensures exists ms, locale :: IsInt64(ms) && u.key == LocalizationKey(env, ms, locale) {
      WatchedIsABundle(env, msId, u.key);
      var rest :| u.key == LocalizationKey(env, msId, rest);
    }
    BuiltBundleKeysAgree(env, us);
  }

  // ServiceSettings answers the row of a service in scope, and nothing without a row is cached.
  lemma SettingsEndToEnd(log: Log, rows: seq<Row>, env: int, msId: int, us: seq<Update>, ms: int)
    requires Converged(log, rows) && Delivered(us, log, Pattern(ServiceSettings, env, msId)) && msId >= 0
    requires msId > 0 || SettingsAliasesAgree(env, us)
    requires SettingsRows(rows)
    ensures ms in SettingsCache(env, us) <==> InScope(msId, ms) && exists r :: r in rows && SettingsRow(r, env, ms)
    ensures forall r | r in rows && SettingsRow(r, env, ms) && InScope(msId, ms) ::
              Get(SettingsCache(env, us), ms) == Some(r.item.body)
  {
    hide Converged, DocCache, Watched, AliasesAgree, SettingsReader, RowSpeaks, Pattern;
    if msId > 0 {
      ScopedSettingsAgree(env, msId, us);
    }
    DocsEndToEnd(log, rows, us, SettingsReader(env), Pattern(ServiceSettings, env, msId), ms);
    forall r | r in rows
      ensures RowSpeaks(SettingsReader(env), Pattern(ServiceSettings, env, msId), r, ms) <==>
              SettingsRow(r, env, ms) && InScope(msId, ms)
    {
      SettingsRowSpeaks(r, env, msId, ms);
    }
  }

  // The bundle Translate reads is the row's, for every service in scope, and no other is cached.
  lemma BundlesEndToEnd(log: Log, rows: seq<Row>, env: int, msId: int, us: seq<Update>, ms: int, locale: string)
    requires Converged(log, rows) && Delivered(us, log, Pattern(Localization, env, msId)) && msId >= 0 && IsInt64(msId)
    requires msId > 0 || BundleAliasesAgree(env, us)
    requires BundleRows(rows)
    ensures (ms, locale) in BundleCache(env, us) <==>
            InScope(msId, ms) && exists r :: r in rows && BundleRow(r, env, ms, locale)
    ensures forall r | r in rows && BundleRow(r, env, ms, locale) && InScope(msId, ms) ::
              Get(BundleCache(env, us), (ms, locale)) == Some(r.item.body)
  {
    hide Converged, DocCache, Watched, AliasesAgree, BundleReader, RowSpeaks, Pattern;
    if msId > 0 {
      ScopedBundlesAgree(env, msId, us);
    }
    DocsEndToEnd(log, rows, us, BundleReader(env), Pattern(Localization, env, msId), (ms, locale));
    forall r | r in rows
      ensures RowSpeaks(BundleReader(env), Pattern(Localization, env, msId), r, (ms, locale)) <==>
              BundleRow(r, env, ms, locale) && InScope(msId, ms)
    {
      BundleRowSpeaks(r, env, msId, ms, locale);
    }
  }
}
