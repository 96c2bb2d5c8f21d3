/**
 The consumer (pkg/configclient): watched updates folded into three in-memory maps.
 */
module Client {
  import opened Options
  import opened Keys
  import opened Kv

  // One delivered entry. Whatever is not a put counts as a removal.
  datatype Update = Update(key: string, op: Op)

  // What an update does to one entry of a cache; Keep is a payload that does not decode.
  datatype Change<V> = Set(value: V) | Drop | Keep

  datatype Effect<K, V> = Effect(id: Option<K>, change: Change<V>)

  function FlagEffect(env: int, u: Update): Effect<string, FlagPayload> {
    Effect(Some(TrimEnv(env, u.key)),
           match u.op
           case Purge => Drop
           case Put(value) => if Decode(value).Some? then Set(Decode(value).value) else Keep)
  }

  function ChangeOf(op: Op): Change<Bytes> {
    match op
    case Purge => Drop
    case Put(value) => Set(value)
  }

  // How a consumer reads an entry's identity off its key.
  type Reader<!K> = string -> Option<K>

  function SettingsReader(env: int): Reader<int> { key => SettingsIdentity(env, key) }

  function BundleReader(env: int): Reader<(int, string)> { key => BundleIdentity(env, key) }

  function DocEffect<K>(reader: Reader<K>, u: Update): Effect<K, Bytes> { Effect(reader(u.key), ChangeOf(u.op)) }

  ghost function Apply<K, V>(cache: map<K, V>, e: Effect<K, V>): map<K, V> {
    if e.id.None? || e.change.Keep? then cache
    else if e.change.Drop? then cache - {e.id.value}
    else cache[e.id.value := e.change.value]
  }

  ghost function Replay<K, V>(cache: map<K, V>, fx: seq<Effect<K, V>>, n: nat): map<K, V>
    requires n <= |fx|
  {
    if n == 0 then cache else Apply(Replay(cache, fx, n - 1), fx[n - 1])
  }

  ghost function FlagEffects(env: int, us: seq<Update>): (fx: seq<Effect<string, FlagPayload>>)
    ensures |fx| == |us|
  {
    seq(|us|, i requires 0 <= i < |us| => FlagEffect(env, us[i]))
  }

  ghost function DocEffects<K>(reader: Reader<K>, us: seq<Update>): (fx: seq<Effect<K, Bytes>>)
    ensures |fx| == |us|
  {
    seq(|us|, i requires 0 <= i < |us| => DocEffect(reader, us[i]))
  }

  // The two levels of the bundle cache as one map.
  ghost function Flat(loc: map<int, map<string, Bytes>>): map<(int, string), Bytes> {
    map p | p in (set ms, locale | ms in loc && locale in loc[ms] :: (ms, locale)) :: loc[p.0][p.1]
  }

  lemma FlatEmpty()
    ensures Flat(map[]) == map[]
  {
  }

  lemma FlatInner(loc: map<int, map<string, Bytes>>, ms: int, inner: map<string, Bytes>, p: (int, string))
    ensures var flat := Flat(loc[ms := inner]);
            if p.0 == ms then p in flat <==> p.1 in inner else p in flat <==> p in Flat(loc)
    ensures var flat := Flat(loc[ms := inner]);
            p in flat ==> flat[p] == if p.0 == ms then inner[p.1] else Flat(loc)[p]
    ensures p in Flat(loc) <==> p.0 in loc && p.1 in loc[p.0]
  {
  }

  // Deleting from or storing in one service's map deletes or stores that one pair.
  lemma FlatDrop(loc: map<int, map<string, Bytes>>, ms: int, locale: string)
    ensures ms in loc ==> Flat(loc[ms := loc[ms] - {locale}]) == Flat(loc) - {(ms, locale)}
    ensures ms !in loc ==> Flat(loc) == Flat(loc) - {(ms, locale)}
  {
    hide Flat;
    if ms in loc {
      var inner := loc[ms] - {locale};
      var a, b := Flat(loc[ms := inner]), Flat(loc) - {(ms, locale)};
      forall p ensures (p in a <==> p in b) && (p in a ==> a[p] == b[p]) {
        FlatInner(loc, ms, inner, p);
        FlatInner(loc, ms, loc[ms], p);
        assert loc[ms := loc[ms]] == loc;
      }
      assert a == b;
    } else {
      FlatInner(loc, ms, map[], (ms, locale));
    }
  }

  lemma FlatSet(loc: map<int, map<string, Bytes>>, ms: int, locale: string, value: Bytes)
    ensures var inner := if ms in loc then loc[ms] else map[];
            Flat(loc[ms := inner[locale := value]]) == Flat(loc)[(ms, locale) := value]
  {
    hide Flat;
    var inner := if ms in loc then loc[ms] else map[];
    var a, b := Flat(loc[ms := inner[locale := value]]), Flat(loc)[(ms, locale) := value];
    forall p ensures (p in a <==> p in b) && (p in a ==> a[p] == b[p]) {
      FlatInner(loc, ms, inner[locale := value], p);
      if ms in loc {
        FlatInner(loc, ms, loc[ms], p);
        assert loc[ms := loc[ms]] == loc;
      }
    }
    assert a == b;
  }

  // What a client asks of each bucket: a service's own keys when it is scoped to one.
  function Pattern(bucket: BucketName, env: int, msId: int): string {
    match bucket
    case Flags => EnvironmentPrefix(env)
    case ServiceSettings => if msId > 0 then SettingsPattern(env, msId) else EnvironmentPrefix(env)
    case Localization => if msId > 0 then BundlePattern(env, msId) else EnvironmentPrefix(env)
  }

  class Client {
    const env: int
    const msId: int
    var flags: map<string, FlagPayload>
    var micro: map<int, Bytes>
    var loc: map<int, map<string, Bytes>>
    var outOfScope: nat

    constructor (env: int, msId: int)
      ensures this.env == env && this.msId == msId
      ensures flags == map[] && micro == map[] && Flat(loc) == map[] && outOfScope == 0
    {
      this.env, this.msId := env, msId;
      flags, micro, loc, outOfScope := map[], map[], map[], 0;
      FlatEmpty();
    }

    method ApplyFlag(key: string, op: Op)
      modifies this`flags
      ensures flags == Apply(old(flags), FlagEffect(env, Update(key, op)))
    {
      var flagKey := TrimEnv(env, key);
      if op.Purge? {
        flags := flags - {flagKey};
        return;
      }
      var p := Decode(op.value);
      if p.None? {
        return;
      }
      flags := flags[flagKey := p.value];
    }

    method ApplyServiceSettings(key: string, op: Op)
      modifies this`micro
      ensures micro == Apply(old(micro), DocEffect(SettingsReader(env), Update(key, op)))
    {
      var ms := ParseInt(TrimEnv(env, key));
      if ms.None? {
        return;
      }
      if op.Purge? {
        micro := micro - {ms.value};
        return;
      }
      micro := micro[ms.value := op.value];
    }

    method ApplyLoc(key: string, op: Op)
      modifies this`loc
      ensures Flat(loc) == Apply(Flat(old(loc)), DocEffect(BundleReader(env), Update(key, op)))
    {
      hide Cut, ParseInt, TrimEnv, Flat;
      var parts := Cut(TrimEnv(env, key));
      if parts.None? {
        return;
      }
      var ms := ParseInt(parts.value.0);
      if ms.None? {
        return;
      }
      var locale := parts.value.1;
      if op.Purge? {
        FlatDrop(loc, ms.value, locale);
        if ms.value in loc {
          loc := loc[ms.value := loc[ms.value] - {locale}];
        }
        return;
      }
      FlatSet(loc, ms.value, locale, op.value);
      if ms.value !in loc {
        loc := loc[ms.value := map[]];
      }
      loc := loc[ms.value := loc[ms.value][locale := op.value]];
      assert loc == old(loc)[ms.value := loc[ms.value]];
    }

    // The watcher's loop over the entries of one bucket, the initial replay and what follows it.
    method StartWatch(bucket: BucketName, us: seq<Update>)
      modifies this`flags, this`micro, this`loc
      ensures flags == if bucket.Flags? then Replay(old(flags), FlagEffects(env, us), |us|) else old(flags)
      ensures micro == if bucket.ServiceSettings? then Replay(old(micro), DocEffects(SettingsReader(env), us), |us|) else old(micro)
      ensures Flat(loc) == if bucket.Localization? then Replay(Flat(old(loc)), DocEffects(BundleReader(env), us), |us|) else Flat(old(loc))
    {
      hide FlagEffect, DocEffect, SettingsReader, BundleReader, Flat, Apply;
      var i := 0;
      while i < |us|
        invariant i <= |us|
        invariant flags == if bucket.Flags? then Replay(old(flags), FlagEffects(env, us), i) else old(flags)
        invariant micro == if bucket.ServiceSettings? then Replay(old(micro), DocEffects(SettingsReader(env), us), i) else old(micro)
        invariant Flat(loc) == if bucket.Localization? then Replay(Flat(old(loc)), DocEffects(BundleReader(env), us), i) else Flat(old(loc))
      {
        match bucket {
          case Flags => ApplyFlag(us[i].key, us[i].op);
          case ServiceSettings => ApplyServiceSettings(us[i].key, us[i].op);
          case Localization => ApplyLoc(us[i].key, us[i].op);
        }
        i := i + 1;
      }
    }

    method FlagEnabled(flagKey: string) returns (on: bool)
      ensures on <==> flagKey in flags && flags[flagKey].enabled
    {
      on := flagKey in flags && flags[flagKey].enabled;
    }

    method FlagValue(flagKey: string) returns (r: Option<string>)
      ensures r == if flagKey in flags then Some(flags[flagKey].value) else None
    {
      r := if flagKey in flags then Some(flags[flagKey].value) else None;
    }

    predicate InScope(ms: int) { msId == 0 || msId == ms }

    method ServiceSettings(ms: int) returns (r: Option<Bytes>)
      modifies this`outOfScope
      ensures r == if (msId == 0 || msId == ms) && ms in micro then Some(micro[ms]) else None
      ensures outOfScope == old(outOfScope) + if msId == 0 || msId == ms then 0 else 1
    {
      if !InScope(ms) {
        outOfScope := outOfScope + 1;
        return None;
      }
      r := if ms in micro then Some(micro[ms]) else None;
    }

    // One text of the cached bundle; `parse` is what json.Unmarshal makes of a bundle, None where it fails.
    method Translate(ms: int, locale: string, key: string, parse: Bytes -> Option<map<string, string>>) returns (r: Option<string>)
      modifies this`outOfScope
      ensures forall text :: r == Some(text) <==>
                (msId == 0 || msId == ms) && (ms, locale) in Flat(loc) && SaysText(Flat(loc)[(ms, locale)], key, text, parse)
      ensures outOfScope == old(outOfScope) + if msId == 0 || msId == ms then 0 else 1
    {
      if !InScope(ms) {
        outOfScope := outOfScope + 1;
        return None;
      }
      if ms !in loc || locale !in loc[ms] {
        return None;
      }
      var texts := parse(loc[ms][locale]);
      if texts.None? {
        return None;
      }
      r := if key in texts.value then Some(texts.value[key]) else None;
    }
  }

  // The bundle parses, and maps the key to this text.
  predicate SaysText(bundle: Bytes, key: string, text: string, parse: Bytes -> Option<map<string, string>>) {
    parse(bundle).Some? && key in parse(bundle).value && parse(bundle).value[key] == text
  }

  // ---- A cache is a reading of the log ----

  ghost function Get<K, V>(cache: map<K, V>, k: K): Option<V> { if k in cache then Some(cache[k]) else None }

  ghost predicate About<K, V>(e: Effect<K, V>, k: K) { e.id == Some(k) && !e.change.Keep? }

  ghost function Outcome<V>(c: Change<V>): Option<V> { if c.Set? then Some(c.value) else None }

  // The cached value of k is what the last update that says anything about k says.
  lemma {:induction false} CacheIsLastWord<K, V>(cache: map<K, V>, fx: seq<Effect<K, V>>, n: nat, i: nat, k: K)
    requires i < n <= |fx| && About(fx[i], k) && forall j | i < j < n :: !About(fx[j], k)
    ensures Get(Replay(cache, fx, n), k) == Outcome(fx[i].change)
  {
    if i < n - 1 {
      CacheIsLastWord(cache, fx, n - 1, i, k);
    }
  }

  lemma {:induction false} CacheUntouched<K, V>(cache: map<K, V>, fx: seq<Effect<K, V>>, n: nat, k: K)
    requires n <= |fx| && forall j | 0 <= j < n :: !About(fx[j], k)
    ensures Get(Replay(cache, fx, n), k) == Get(cache, k)
  {
    if n > 0 {
      CacheUntouched(cache, fx, n - 1, k);
    }
  }

  // The last of the first n updates about k, counted from one; 0 without one.
  ghost function LastAbout<K, V>(fx: seq<Effect<K, V>>, n: nat, k: K): (r: nat)
    requires n <= |fx|
    ensures r <= n && (r > 0 ==> About(fx[r - 1], k)) && forall j | r <= j < n :: !About(fx[j], k)
  {
    if n == 0 then 0 else if About(fx[n - 1], k) then n else LastAbout(fx, n - 1, k)
  }

  // A fresh cache maps k to v exactly when some update set k to v and no later one set or dropped k.
  lemma CacheRefinesLog<K, V>(fx: seq<Effect<K, V>>, k: K, v: V)
    ensures Get(Replay(map[], fx, |fx|), k) == Some(v) <==>
            exists i | 0 <= i < |fx| :: fx[i] == Effect(Some(k), Set(v)) && forall j | i < j < |fx| :: !About(fx[j], k)
  {
    var r := LastAbout(fx, |fx|, k);
    if r == 0 {
      CacheUntouched(map[], fx, |fx|, k);
    } else {
      CacheIsLastWord(map[], fx, |fx|, r - 1, k);
    }
    if i :| 0 <= i < |fx| && fx[i] == Effect(Some(k), Set(v)) && forall j | i < j < |fx| :: !About(fx[j], k) {
      assert About(fx[i], k);
      CacheIsLastWord(map[], fx, |fx|, i, k);
    }
  }

  // ---- What each of the three caches holds after a run of updates ----

  ghost function FlagCache(env: int, us: seq<Update>): map<string, FlagPayload> {
    Replay(map[], FlagEffects(env, us), |us|)
  }

  ghost function DocCache<K>(reader: Reader<K>, us: seq<Update>): map<K, Bytes> {
    Replay(map[], DocEffects(reader, us), |us|)
  }

  ghost function SettingsCache(env: int, us: seq<Update>): map<int, Bytes> { DocCache(SettingsReader(env), us) }

  ghost function BundleCache(env: int, us: seq<Update>): map<(int, string), Bytes> { DocCache(BundleReader(env), us) }

  // Opening a client: the ids are checked, then the three watches are drained in turn.
  method Open(env: int, msId: int, flagUpdates: seq<Update>, settingsUpdates: seq<Update>, bundleUpdates: seq<Update>)
    returns (c: Client?)
    ensures c == null <==> env <= 0 || msId < 0
    ensures c != null ==>
              && fresh(c) && c.env == env && c.msId == msId && c.outOfScope == 0
              && c.flags == FlagCache(env, flagUpdates)
              && c.micro == SettingsCache(env, settingsUpdates)
              && Flat(c.loc) == BundleCache(env, bundleUpdates)
  {
    hide Flat, Replay;
    if env <= 0 || msId < 0 {
      return null;
    }
    c := new Client(env, msId);
    c.StartWatch(Flags, flagUpdates);
    c.StartWatch(ServiceSettings, settingsUpdates);
    c.StartWatch(Localization, bundleUpdates);
  }

  ghost predicate SpeaksOfFlag(env: int, u: Update, flagKey: string) {
    TrimEnv(env, u.key) == flagKey && (u.op.Purge? || Decode(u.op.value).Some?)
  }

  // A flag is the last decodable put under its key since its last removal; a malformed put changes nothing.
  lemma FlagIsLastDecodablePut(env: int, us: seq<Update>, flagKey: string, p: FlagPayload)
    ensures Get(FlagCache(env, us), flagKey) == Some(p) <==>
            exists i | 0 <= i < |us| ::
              && SpeaksOfFlag(env, us[i], flagKey) && us[i].op.Put? && Decode(us[i].op.value) == Some(p)
              && forall j | i < j < |us| :: !SpeaksOfFlag(env, us[j], flagKey)
  {
    hide Replay, TrimEnv;
    var fx := FlagEffects(env, us);
    CacheRefinesLog(fx, flagKey, p);
    assert forall i | 0 <= i < |us| :: SpeaksOfFlag(env, us[i], flagKey) <==> About(fx[i], flagKey);
    assert forall i | 0 <= i < |us| ::
        fx[i] == Effect(Some(flagKey), Set(p)) <==>
        SpeaksOfFlag(env, us[i], flagKey) && us[i].op.Put? && Decode(us[i].op.value) == Some(p);
  }

  // ---- Redelivery: the latest entries again, in any order and any number of times ----

  ghost predicate Newest(us: seq<Update>, i: int) {
    0 <= i < |us| && forall j | i < j < |us| :: us[j].key != us[i].key
  }

  ghost predicate Redelivery(us: seq<Update>, again: seq<Update>) {
    forall r | r in again :: exists i :: Newest(us, i) && us[i] == r
  }

  lemma {:induction false} NewestUnder(us: seq<Update>, p: nat) returns (q: nat)
    requires p < |us|
    ensures p <= q && Newest(us, q) && us[q].key == us[p].key
    decreases |us| - p
  {
    if j :| p < j < |us| && us[j].key == us[p].key {
      q := NewestUnder(us, j);
    } else {
      q := p;
    }
  }

  // An update's identity is read off its key, and its effect off the update.
  ghost predicate ReadOff<K, V>(us: seq<Update>, fx: seq<Effect<K, V>>) {
    && |us| == |fx|
    && (forall i, j | 0 <= i < |us| && 0 <= j < |us| && us[i].key == us[j].key :: fx[i].id == fx[j].id)
  }

  // The latest entries of keys that share an identity do the same to it.
  ghost predicate Agree<K, V>(us: seq<Update>, fx: seq<Effect<K, V>>)
    requires |us| == |fx|
  {
    forall i, j | Newest(us, i) && Newest(us, j) && fx[i].id.Some? && fx[i].id == fx[j].id :: fx[i].change == fx[j].change
  }

  lemma {:induction false} NewestSpeaks<K, V>(us: seq<Update>, fx: seq<Effect<K, V>>, i: int, k: K)
    requires ReadOff(us, fx) && Agree(us, fx) && Newest(us, i) && About(fx[i], k)
    ensures Get(Replay(map[], fx, |fx|), k) == Outcome(fx[i].change)
  {
    var r := LastAbout(fx, |fx|, k);
    var p := r - 1;
    var q := NewestUnder(us, p);
    assert fx[q].change == fx[i].change;
    assert About(fx[q], k);
    CacheIsLastWord(map[], fx, |fx|, p, k);
  }

  lemma {:induction false} QuietAgain<K, V>(fx: seq<Effect<K, V>>, again: seq<Effect<K, V>>, n: nat)
    requires n <= |again|
    requires forall r, k | r in again && About(r, k) :: Get(Replay(map[], fx, |fx|), k) == Outcome(r.change)
    ensures Replay(map[], fx + again, |fx| + n) == Replay(map[], fx, |fx|)
  {
    var cache := Replay(map[], fx, |fx|);
    if n == 0 {
      ReplayPrefix(map[], fx, again, |fx|);
    } else {
      QuietAgain(fx, again, n - 1);
      var r := again[n - 1];
      assert (fx + again)[|fx| + n - 1] == r && r in again;
      if r.id.Some? && !r.change.Keep? {
        assert About(r, r.id.value);
        assert Get(cache, r.id.value) == Outcome(r.change);
      }
      assert Apply(cache, r) == cache;
    }
  }

  lemma {:induction false} ReplayPrefix<K, V>(cache: map<K, V>, fx: seq<Effect<K, V>>, more: seq<Effect<K, V>>, n: nat)
    requires n <= |fx|
    ensures Replay(cache, fx + more, n) == Replay(cache, fx, n)
  {
    if n > 0 {
      ReplayPrefix(cache, fx, more, n - 1);
      assert (fx + more)[n - 1] == fx[n - 1];
    }
  }

  // Redelivering one entry on top of a finished run.
  lemma OneMore<K, V>(fx: seq<Effect<K, V>>, e: Effect<K, V>)
    ensures Replay(map[], fx + [e], |fx| + 1) == Apply(Replay(map[], fx, |fx|), e)
  {
    ReplayPrefix(map[], fx, [e], |fx|);
  }

  lemma {:induction false} QuietWhenAgreed<K, V>(us: seq<Update>, fx: seq<Effect<K, V>>,
                                                 again: seq<Update>, more: seq<Effect<K, V>>)
    requires ReadOff(us, fx) && Agree(us, fx) && Redelivery(us, again) && |more| == |again|
    requires forall i, j | 0 <= i < |us| && 0 <= j < |again| && us[i] == again[j] :: fx[i] == more[j]
    ensures Replay(map[], fx + more, |fx + more|) == Replay(map[], fx, |fx|)
  {
    hide Replay, ReadOff, Agree, Get;
    forall r, k | r in more && About(r, k) ensures Get(Replay(map[], fx, |fx|), k) == Outcome(r.change) {
      var j :| 0 <= j < |more| && more[j] == r;
      assert again[j] in again;
      var i :| Newest(us, i) && us[i] == again[j];
      NewestSpeaks(us, fx, i, k);
    }
    QuietAgain(fx, more, |more|);
  }

  // A flag's identity is its key less the environment, so no two watched keys share one.
  lemma FlagsAgree(env: int, us: seq<Update>)
    requires forall u | u in us :: InEnvironment(u.key, env)
    ensures ReadOff(us, FlagEffects(env, us)) && Agree(us, FlagEffects(env, us))
  {
    var fx := FlagEffects(env, us);
    forall i, j | Newest(us, i) && Newest(us, j) && fx[i].id == fx[j].id ensures us[i].key == us[j].key {
      assert us[i] in us && us[j] in us;
      var p := Decimal(env) + ".";
      assert us[i].key == p + us[i].key[|p|..] && us[j].key == p + us[j].key[|p|..];
    }
  }

  // Redelivering a watched flag's latest entries never changes the cache, malformed payloads included.
  lemma FlagsSurviveRedelivery(env: int, us: seq<Update>, again: seq<Update>)
    requires (forall u | u in us :: InEnvironment(u.key, env)) && Redelivery(us, again)
    ensures FlagCache(env, us + again) == FlagCache(env, us)
  {
    hide Replay;
    var fx, more := FlagEffects(env, us), FlagEffects(env, again);
    assert FlagEffects(env, us + again) == fx + more;
    FlagsAgree(env, us);
    QuietWhenAgreed(us, fx, again, more);
  }

  // Two keys that read as one identity, as ParseInt reads "1.7" and "1.07", last said the same.
  ghost predicate AliasesAgree<K>(reader: Reader<K>, us: seq<Update>) {
    forall i, j | Newest(us, i) && Newest(us, j) && reader(us[i].key).Some? && reader(us[i].key) == reader(us[j].key) ::
      us[i].op == us[j].op
  }

  ghost predicate SettingsAliasesAgree(env: int, us: seq<Update>) { AliasesAgree(SettingsReader(env), us) }

  ghost predicate BundleAliasesAgree(env: int, us: seq<Update>) { AliasesAgree(BundleReader(env), us) }

  // One redelivered entry that disagrees with a cached identity changes the cache.
  lemma {:induction false} DisagreementShows<K, V>(us: seq<Update>, fx: seq<Effect<K, V>>, i: nat, j: nat)
    requires i < |fx| && j < |fx| && fx[i].id.Some? && fx[i].id == fx[j].id && fx[i].change != fx[j].change
    requires !fx[i].change.Keep? && !fx[j].change.Keep?
    ensures Apply(Replay(map[], fx, |fx|), fx[i]) != Replay(map[], fx, |fx|)
            || Apply(Replay(map[], fx, |fx|), fx[j]) != Replay(map[], fx, |fx|)
  {
    hide Replay;
    var cache, k := Replay(map[], fx, |fx|), fx[i].id.value;
    assert Get(Apply(cache, fx[i]), k) == Outcome(fx[i].change);
    assert Get(Apply(cache, fx[j]), k) == Outcome(fx[j].change);
  }

  lemma {:induction false} AgreementOfAliases<K>(reader: Reader<K>, us: seq<Update>)
    ensures ReadOff(us, DocEffects(reader, us))
    ensures AliasesAgree(reader, us) <==> Agree(us, DocEffects(reader, us))
  {
  }

  // Redelivery is harmless in every order exactly when the aliases agree.
  lemma {:induction false} DocsSurviveRedelivery<K>(reader: Reader<K>, us: seq<Update>)
    ensures (forall again | Redelivery(us, again) :: DocCache(reader, us + again) == DocCache(reader, us))
            <==> AliasesAgree(reader, us)
  {
    hide Replay, Agree;
    var fx := DocEffects(reader, us);
    AgreementOfAliases(reader, us);
    forall again ensures DocEffects(reader, us + again) == fx + DocEffects(reader, again) {
    }
    if AliasesAgree(reader, us) {
      forall again | Redelivery(us, again) ensures DocCache(reader, us + again) == DocCache(reader, us) {
        QuietWhenAgreed(us, fx, again, DocEffects(reader, again));
      }
    } else {
      var i, j :| Newest(us, i) && Newest(us, j) && reader(us[i].key).Some? && reader(us[i].key) == reader(us[j].key)
                  && us[i].op != us[j].op;
      DisagreementShows(us, fx, i, j);
      forall n | n == i || n == j
        ensures Redelivery(us, [us[n]]) && DocCache(reader, us + [us[n]]) == Apply(DocCache(reader, us), fx[n])
      {
        OneMore(fx, fx[n]);
        assert DocEffects(reader, [us[n]]) == [fx[n]];
      }
    }
  }

  lemma SettingsSurviveRedelivery(env: int, us: seq<Update>)
    ensures (forall again | Redelivery(us, again) :: SettingsCache(env, us + again) == SettingsCache(env, us))
            <==> SettingsAliasesAgree(env, us)
  {
    hide DocCache, AliasesAgree, SettingsReader;
    DocsSurviveRedelivery(SettingsReader(env), us);
  }

  lemma BundlesSurviveRedelivery(env: int, us: seq<Update>)
    ensures (forall again | Redelivery(us, again) :: BundleCache(env, us + again) == BundleCache(env, us))
            <==> BundleAliasesAgree(env, us)
  {
    hide DocCache, AliasesAgree, BundleReader;
    DocsSurviveRedelivery(BundleReader(env), us);
  }

  // Keys the control plane's own builder made have no aliases.
  lemma BuiltSettingsKeysAgree(env: int, us: seq<Update>)
    requires forall u | u in us :: exists ms :: IsInt64(ms) && u.key == ServiceSettingsKey(env, ms)
    ensures SettingsAliasesAgree(env, us)
  {
    hide ServiceSettingsKey, SettingsIdentity;
    forall i, j | Newest(us, i) && Newest(us, j) && SettingsIdentity(env, us[i].key) == SettingsIdentity(env, us[j].key)
      ensures us[i].key == us[j].key
    {
      assert us[i] in us && us[j] in us;
      var m :| IsInt64(m) && us[i].key == ServiceSettingsKey(env, m);
      var n :| IsInt64(n) && us[j].key == ServiceSettingsKey(env, n);
      SettingsIdentityRecovered(env, m);
      SettingsIdentityRecovered(env, n);
    }
  }

  lemma BuiltBundleKeysAgree(env: int, us: seq<Update>)
    requires forall u | u in us :: exists ms, locale :: IsInt64(ms) && u.key == LocalizationKey(env, ms, locale)
    ensures BundleAliasesAgree(env, us)
  {
    hide LocalizationKey, BundleIdentity;
    forall i, j | Newest(us, i) && Newest(us, j) && BundleIdentity(env, us[i].key) == BundleIdentity(env, us[j].key)
      ensures us[i].key == us[j].key
    {
      assert us[i] in us && us[j] in us;
      var m, l :| IsInt64(m) && us[i].key == LocalizationKey(env, m, l);
      var n, k :| IsInt64(n) && us[j].key == LocalizationKey(env, n, k);
      BundleIdentityRecovered(env, m, l);
      BundleIdentityRecovered(env, n, k);
    }
  }

  // A removal under "1.07", redelivered, takes service 7's live settings out of the cache.
  lemma AliasDropsLiveSettings(body: Bytes)
    ensures var us := [Update("1.07", Purge), Update("1.7", Put(body))];
            && Redelivery(us, [us[0]])
            && SettingsCache(1, us) == map[7 := body]
            && SettingsCache(1, us + [us[0]]) == map[]
  {
    var us := [Update("1.07", Purge), Update("1.7", Put(body))];
    assert Newest(us, 0);
    AliasesOfSeven();
    var fx := DocEffects(SettingsReader(1), us);
    assert fx[0] == Effect(Some(7), Drop) && fx[1] == Effect(Some(7), Set(body));
    assert Replay(map[], fx, 0) == map[];
    assert Replay(map[], fx, 1) == map[];
    assert DocEffects(SettingsReader(1), us + [us[0]]) == fx + [fx[0]];
    OneMore(fx, fx[0]);
  }

  lemma AliasesOfSeven()
    ensures SettingsIdentity(1, "1.07") == SettingsIdentity(1, "1.7") == Some(7)
  {
    assert Decimal(1) == "1";
    assert "1.07"[2..] == "07" && "1.7"[2..] == "7";
    assert Decimal(1) + "." == "1.";
    assert TrimEnv(1, "1.07") == "07" && TrimEnv(1, "1.7") == "7";
    assert "07"[..1] == "0" && "0"[..0] == "" && "7"[..0] == "";
    assert Magnitude("") == 0 && Magnitude("0") == 0;
    assert Magnitude("7") == 7 && Magnitude("07") == 7;
  }
}
