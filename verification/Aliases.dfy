/**
 A consumer that has consumed a bucket's whole watch, and exactly when its lookups are
 the rows: a key such as "1.07", which no builder makes but ParseInt reads as service 7,
 must not have been written after the live key. Settings and bundles alike.
 */
module Aliases {
  import opened Options
  import opened Keys
  import opened Kv
  import opened Items
  import opened Reconciler
  import opened Healing
  import opened Client
  import opened EndToEnd

  // The last of the first n entries under a key of a kind, counted from one; 0 without one.
  ghost function LastOf(log: Log, n: nat, kind: string -> bool): (r: nat)
    requires n <= |log|
    ensures r <= n && (r > 0 ==> kind(log[r - 1].key))
    ensures forall i | r <= i < n :: !kind(log[i].key)
  {
    if n == 0 then 0 else if kind(log[n - 1].key) then n else LastOf(log, n - 1, kind)
  }

  // The keys the watch delivers that its consumer reads as k.
  ghost function Speaking<K>(reader: Reader<K>, pattern: string, k: K): string -> bool {
    key => Speaks(reader, pattern, key, k)
  }

  lemma {:induction false} CacheOfWatch<K>(log: Log, n: nat, reader: Reader<K>, pattern: string, k: K)
    requires n <= |log|
    ensures var r := LastOf(log, n, Speaking(reader, pattern, k));
            Get(DocCache(reader, WatchOf(log, n, pattern)), k) == if r == 0 then None else Outcome(ChangeOf(log[r - 1].op))
  {
    hide Watched, Replay;
    if n == 0 {
      EmptyReplay(DocEffects(reader, []));
    } else {
      CacheOfWatch(log, n - 1, reader, pattern, k);
      var us, u := WatchOf(log, n - 1, pattern), Update(log[n - 1].key, log[n - 1].op);
      if Watched(pattern, log[n - 1].key) {
        assert DocEffects(reader, us + [u]) == DocEffects(reader, us) + [DocEffect(reader, u)];
        OneMore(DocEffects(reader, us), DocEffect(reader, u));
      } else {
        assert WatchOf(log, n, pattern) == us;
      }
    }
  }

  lemma EmptyReplay<K, V>(fx: seq<Effect<K, V>>)
    requires fx == []
    ensures Replay(map[], fx, |fx|) == map[]
  {
  }

  // No key that reads as a row's identity was written after the row's own key.
  ghost predicate NoNewerAlias<K(!new)>(log: Log, rows: seq<Row>, reader: Reader<K>, pattern: string) {
    forall r, k, key | r in rows && RowSpeaks(reader, pattern, r, k) && Speaks(reader, pattern, key, k) ::
      Revision(log, key) <= Revision(log, KeyOf(r.item))
  }

  // A cache holds every row the watch covers and nothing else.
  ghost predicate AnswersRows<K(!new)>(cache: map<K, Bytes>, rows: seq<Row>, reader: Reader<K>, pattern: string)
    requires DocRows(rows)
  {
    && (forall k | k in cache :: exists r :: r in rows && RowSpeaks(reader, pattern, r, k))
    && (forall r, k | r in rows && RowSpeaks(reader, pattern, r, k) :: Get(cache, k) == Some(r.item.body))
  }

  // What a consumer of the whole watch caches.
  ghost function WatchedCache<K>(log: Log, reader: Reader<K>, pattern: string): map<K, Bytes> {
    DocCache(reader, WatchOf(log, |log|, pattern))
  }

  // Rows that read as one identity have one key.
  ghost predicate OneKeyEach<K(!new)>(rows: seq<Row>, reader: Reader<K>, pattern: string) {
    forall r, other, k | r in rows && other in rows && RowSpeaks(reader, pattern, r, k) && RowSpeaks(reader, pattern, other, k) ::
      KeyOf(r.item) == KeyOf(other.item)
  }

  // The entry a cached value comes from is its key's last, and its key is a row's if it is live.
  lemma {:induction false} LastWord<K>(log: Log, rows: seq<Row>, reader: Reader<K>, pattern: string, k: K) returns (p: nat)
    requires Converged(log, rows)
    ensures p == LastOf(log, |log|, Speaking(reader, pattern, k))
    ensures p > 0 ==> Revision(log, log[p - 1].key) == p && Speaks(reader, pattern, log[p - 1].key, k)
    ensures forall key | Speaks(reader, pattern, key, k) :: Revision(log, key) <= p
    ensures p > 0 && log[p - 1].op.Put? ==>
              exists r :: r in rows && RowSpeaks(reader, pattern, r, k) && KeyOf(r.item) == log[p - 1].key
  {
    hide Speaks, KeyOf;
    p := LastOf(log, |log|, Speaking(reader, pattern, k));
    if p > 0 {
      var key := log[p - 1].key;
      assert Speaking(reader, pattern, k)(key);
      assert Revision(log, key) == p;
      if log[p - 1].op.Put? {
        var r := RowBehind(log, rows, key);
        assert RowSpeaks(reader, pattern, r, k);
      }
    }
    forall key | Speaks(reader, pattern, key, k) ensures Revision(log, key) <= p {
      assert Speaking(reader, pattern, k)(key);
    }
  }

  lemma RowIsLive(log: Log, rows: seq<Row>, r: Row)
    requires Converged(log, rows) && DocRows(rows) && r in rows
    ensures Revision(log, KeyOf(r.item)) > 0 && Live(log, KeyOf(r.item)) == Some(r.item.body)
  {
    hide KeyOf;
    assert ShownIn(log, r.item);
  }

  // Whatever was written after a live row under an alias was no put.
  lemma {:induction false} NewerIsNoPut<K(!new)>(log: Log, rows: seq<Row>, reader: Reader<K>, pattern: string, r: Row, k: K, p: nat)
    requires OneKeyEach(rows, reader, pattern) && r in rows && RowSpeaks(reader, pattern, r, k)
    requires Revision(log, KeyOf(r.item)) < p <= |log| && Revision(log, log[p - 1].key) == p
    requires log[p - 1].op.Put? ==>
               exists other :: other in rows && RowSpeaks(reader, pattern, other, k) && KeyOf(other.item) == log[p - 1].key
    ensures log[p - 1].op.Purge?
  {
    hide RowSpeaks, KeyOf, Revision;
  }

  lemma {:induction false} RowAnswered<K(!new)>(log: Log, rows: seq<Row>, reader: Reader<K>, pattern: string, r: Row, k: K)
    requires Converged(log, rows) && DocRows(rows) && OneKeyEach(rows, reader, pattern)
    requires r in rows && RowSpeaks(reader, pattern, r, k)
    ensures Get(WatchedCache(log, reader, pattern), k) == Some(r.item.body) <==>
            forall key | Speaks(reader, pattern, key, k) :: Revision(log, key) <= Revision(log, KeyOf(r.item))
  {
    hide Speaks, KeyOf, DocCache, OneKeyEach, LastOf, WatchOf, Converged;
    var own := KeyOf(r.item);
    RowIsLive(log, rows, r);
    CacheOfWatch(log, |log|, reader, pattern, k);
    var p := LastWord(log, rows, reader, pattern, k);
    assert Speaks(reader, pattern, own, k);
    assert Revision(log, own) <= p;
    if Revision(log, own) < p {
      assert Speaks(reader, pattern, log[p - 1].key, k);
      NewerIsNoPut(log, rows, reader, pattern, r, k, p);
    }
  }

  lemma {:induction false} CachedIsARow<K>(log: Log, rows: seq<Row>, reader: Reader<K>, pattern: string, k: K)
    requires Converged(log, rows) && k in WatchedCache(log, reader, pattern)
    ensures exists r :: r in rows && RowSpeaks(reader, pattern, r, k)
  {
    hide Speaks, KeyOf, DocCache, Converged, WatchOf;
    CacheOfWatch(log, |log|, reader, pattern, k);
    var p := LastWord(log, rows, reader, pattern, k);
  }

  // Consuming the whole watch of a converged bucket leaves exactly the rows cached if, and only if, no alias was
  // written after a live key.
  lemma {:induction false} WholeWatchExactly<K(!new)>(log: Log, rows: seq<Row>, reader: Reader<K>, pattern: string)
    requires Converged(log, rows) && DocRows(rows) && OneKeyEach(rows, reader, pattern)
    ensures AnswersRows(WatchedCache(log, reader, pattern), rows, reader, pattern) <==> NoNewerAlias(log, rows, reader, pattern)
  {
    hide Speaks, KeyOf, DocCache, Get, RowSpeaks, Converged;
    var cache := WatchedCache(log, reader, pattern);
    forall k | k in cache ensures exists r :: r in rows && RowSpeaks(reader, pattern, r, k) {
      CachedIsARow(log, rows, reader, pattern, k);
    }
    forall r, k | r in rows && RowSpeaks(reader, pattern, r, k)
      ensures Get(cache, k) == Some(r.item.body) <==>
              forall key | Speaks(reader, pattern, key, k) :: Revision(log, key) <= Revision(log, KeyOf(r.item))
    {
      RowAnswered(log, rows, reader, pattern, r, k);
    }
  }

  // For settings, of a client scoped to a service or fleet-wide.
  lemma SettingsWatchExactly(log: Log, rows: seq<Row>, env: int, msId: int)
    requires Converged(log, rows) && SettingsRows(rows) && msId >= 0
    ensures var reader, pattern := SettingsReader(env), Pattern(ServiceSettings, env, msId);
            AnswersRows(WatchedCache(log, reader, pattern), rows, reader, pattern) <==> NoNewerAlias(log, rows, reader, pattern)
  {
    hide Converged, AnswersRows, NoNewerAlias, RowSpeaks, Pattern, SettingsReader;
    var reader, pattern := SettingsReader(env), Pattern(ServiceSettings, env, msId);
    forall r, other, k | r in rows && other in rows && RowSpeaks(reader, pattern, r, k) && RowSpeaks(reader, pattern, other, k)
      ensures KeyOf(r.item) == KeyOf(other.item)
    {
      SettingsRowSpeaks(r, env, msId, k);
      SettingsRowSpeaks(other, env, msId, k);
    }
    WholeWatchExactly(log, rows, reader, pattern);
  }

  // And for bundles.
  lemma BundlesWatchExactly(log: Log, rows: seq<Row>, env: int, msId: int)
    requires Converged(log, rows) && BundleRows(rows) && msId >= 0
    ensures var reader, pattern := BundleReader(env), Pattern(Localization, env, msId);
            AnswersRows(WatchedCache(log, reader, pattern), rows, reader, pattern) <==> NoNewerAlias(log, rows, reader, pattern)
  {
    hide Converged, AnswersRows, NoNewerAlias, RowSpeaks, Pattern, BundleReader;
    var reader, pattern := BundleReader(env), Pattern(Localization, env, msId);
    forall r, other, k | r in rows && other in rows && RowSpeaks(reader, pattern, r, k) && RowSpeaks(reader, pattern, other, k)
      ensures KeyOf(r.item) == KeyOf(other.item)
    {
      BundleRowSpeaks(r, env, msId, k.0, k.1);
      BundleRowSpeaks(other, env, msId, k.0, k.1);
    }
    WholeWatchExactly(log, rows, reader, pattern);
  }

  // An outsider wrote "1.07" after service 7's live settings, and its key was purged: the bucket is converged, and a
  // fleet-wide consumer of its whole watch has no settings for service 7.
  function OutsidersLog(body: Bytes, other: Bytes): Log {
    [Entry("1.7", Put(body), true), Entry("1.07", Put(other), false), Entry("1.07", Purge, true)]
  }

  lemma OutsiderHidesLiveSettings(body: Bytes, other: Bytes)
    ensures var log, rows := OutsidersLog(body, other), [Row(1, 0, SettingsItem(1, 7, body))];
            && Converged(log, rows)
            && !NoNewerAlias(log, rows, SettingsReader(1), EnvironmentPrefix(1))
            && !AnswersRows(WatchedCache(log, SettingsReader(1), EnvironmentPrefix(1)), rows, SettingsReader(1), EnvironmentPrefix(1))
  {
    hide NoNewerAlias, AnswersRows, Speaks, Converged;
    var log, rows := OutsidersLog(body, other), [Row(1, 0, SettingsItem(1, 7, body))];
    OutsidersRevisions(body, other);
    SevenSpeaks();
    OutsidersLogConverged(body, other);
    NewerAlias(log, rows, rows[0], "1.07");
    SettingsWatchExactly(log, rows, 1, 0);
  }

  lemma NewerAlias(log: Log, rows: seq<Row>, r: Row, key: string)
    requires r in rows && RowSpeaks(SettingsReader(1), EnvironmentPrefix(1), r, 7)
    requires Speaks(SettingsReader(1), EnvironmentPrefix(1), key, 7) && Revision(log, key) > Revision(log, KeyOf(r.item))
    ensures !NoNewerAlias(log, rows, SettingsReader(1), EnvironmentPrefix(1))
  {
    hide Speaks, RowSpeaks, Revision, KeyOf;
  }

  lemma OutsidersRevisions(body: Bytes, other: Bytes)
    ensures var log := OutsidersLog(body, other);
            && Revision(log, "1.7") == 1 && Revision(log, "1.07") == 3
            && Live(log, "1.7") == Some(body) && Live(log, "1.07").None?
            && forall k | k != "1.7" && k != "1.07" :: Live(log, k).None?
  {
    var log := OutsidersLog(body, other);
    assert LastBefore(log, 1, "1.7") == 1;
    assert LastBefore(log, 2, "1.7") == 1;
    assert LastBefore(log, 3, "1.7") == 1;
  }

  lemma OutsidersLogConverged(body: Bytes, other: Bytes)
    requires ServiceSettingsKey(1, 7) == "1.7"
    ensures Converged(OutsidersLog(body, other), [Row(1, 0, SettingsItem(1, 7, body))])
  {
    hide ServiceSettingsKey, Live;
    var log := OutsidersLog(body, other);
    OutsidersRevisions(body, other);
    forall k | k in Contents(log) ensures k == "1.7" {
      ContentsAt(log, k);
    }
    assert [Row(1, 0, SettingsItem(1, 7, body))][0] in [Row(1, 0, SettingsItem(1, 7, body))];
  }

  lemma SevenSpeaks()
    ensures ServiceSettingsKey(1, 7) == "1.7"
    ensures Speaks(SettingsReader(1), EnvironmentPrefix(1), "1.7", 7)
    ensures Speaks(SettingsReader(1), EnvironmentPrefix(1), "1.07", 7)
  {
    hide Watched;
    AliasesOfSeven();
    assert Decimal(1) == "1" && Decimal(7) == "7";
    assert Decimal(1) + "." == "1.";
    WatchedIsInEnvironment(1, "1.7");
    WatchedIsInEnvironment(1, "1.07");
  }
}
