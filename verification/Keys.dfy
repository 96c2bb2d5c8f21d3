/**
 KV keys: how the control plane builds them, how a consumer's watch selects them
 and how the consumer reads an identity back out of one.
 */
module Keys {
  import opened Options

  const INT64_LIMIT: int := 0x8000_0000_0000_0000

  predicate IsInt64(n: int) { -INT64_LIMIT <= n < INT64_LIMIT }

  // ---- Decimal integers, as fmt's %d writes them and strconv.ParseInt reads them ----

  function Digit(d: nat): (c: char)
    requires d < 10
  {
    (48 + d) as char
  }

  predicate IsDigit(c: char) { '0' <= c <= '9' }

  function Digits(n: nat): string {
    if n < 10 then [Digit(n)] else Digits(n / 10) + [Digit(n % 10)]
  }

  function Decimal(n: int): string {
    if n < 0 then "-" + Digits(-n) else Digits(n)
  }

  function Magnitude(s: string): nat
    requires forall c | c in s :: IsDigit(c)
  {
    if s == "" then 0
    else
      var last := s[|s| - 1];
      assert IsDigit(last);
      Magnitude(s[..|s| - 1]) * 10 + (last as int - 48)
  }

  // Base ten, 64 bits: an optional sign, then digits only, and no wider than an int64.
  function ParseInt(s: string): Option<int> {
    var signed := s != "" && (s[0] == '-' || s[0] == '+');
    var digits := if signed then s[1..] else s;
    if digits == "" || exists c | c in digits :: !IsDigit(c) then
      None
    else
      var m: int := Magnitude(digits);
      var n := if signed && s[0] == '-' then -m else m;
      if IsInt64(n) then Some(n) else None
  }

  lemma {:induction false} DigitsParse(n: nat)
    ensures Digits(n) != "" && forall c | c in Digits(n) :: IsDigit(c)
    ensures Magnitude(Digits(n)) == n
  {
    if n >= 10 {
      DigitsParse(n / 10);
      assert Digits(n)[..|Digits(n)| - 1] == Digits(n / 10);
    }
  }

  // strconv.ParseInt undoes fmt's %d on every 64-bit id.
  lemma DecimalRoundTrip(n: int)
    requires IsInt64(n)
    ensures ParseInt(Decimal(n)) == Some(n)
  {
    if n < 0 {
      DigitsParse(-n);
      assert Decimal(n)[1..] == Digits(-n);
    } else {
      DigitsParse(n);
      assert Digits(n)[0] in Digits(n);
    }
  }

  predicate AllDigits(s: string) { forall c | c in s :: IsDigit(c) }

  lemma {:induction false} ZerosAddNothing(zeros: string, n: nat)
    requires forall c | c in zeros :: c == '0'
    ensures AllDigits(zeros + Digits(n)) && Magnitude(zeros + Digits(n)) == n
    decreases n
  {
    DigitsParse(n);
    var s := zeros + Digits(n);
    if n >= 10 {
      ZerosAddNothing(zeros, n / 10);
      assert s[..|s| - 1] == zeros + Digits(n / 10);
    } else {
      ZerosAreZero(zeros);
      assert s[..|s| - 1] == zeros;
    }
  }

  lemma {:induction false} ZerosAreZero(zeros: string)
    requires forall c | c in zeros :: c == '0'
    ensures AllDigits(zeros) && Magnitude(zeros) == 0
  {
    if zeros != "" {
      var most := zeros[..|zeros| - 1];
      assert forall c | c in most :: c in zeros;
      assert zeros[|zeros| - 1] in zeros;
      ZerosAreZero(most);
    }
  }

  // It also reads a sign and leading zeros, whence the aliases, and nothing wider than an int64.
  lemma ParseIntReads(zeros: string, n: nat)
    requires forall c | c in zeros :: c == '0'
    ensures ParseInt(zeros + Digits(n)) == ParseInt("+" + zeros + Digits(n))
            == if n < INT64_LIMIT then Some(n as int) else None
    ensures ParseInt("-" + zeros + Digits(n)) == if n <= INT64_LIMIT then Some(0 - n as int) else None
  {
    hide Digits, Magnitude;
    var s := zeros + Digits(n);
    ZerosAddNothing(zeros, n);
    DigitsParse(n);
    assert s[0] in s;
    assert "+" + zeros + Digits(n) == "+" + s && "-" + zeros + Digits(n) == "-" + s;
    assert ("+" + s)[1..] == s && ("-" + s)[1..] == s;
  }

  // Anything but digits behind the sign is no number.
  lemma ParseIntRefuses(s: string)
    requires ParseInt(s).Some?
    ensures s != "" && var digits := if s[0] == '+' || s[0] == '-' then s[1..] else s; digits != "" && AllDigits(digits)
  {
  }

  lemma DecimalHasNoDot(n: int)
    ensures '.' !in Decimal(n) && Decimal(n) != ""
  {
    DigitsParse(if n < 0 then -n else n);
  }

  lemma DecimalInjective(m: int, n: int)
    requires Decimal(m) == Decimal(n)
    ensures m == n
  {
    DigitsParse(if m < 0 then -m else m);
    DigitsParse(if n < 0 then -n else n);
    assert m < 0 ==> Decimal(m)[1..] == Digits(-m);
    assert n < 0 ==> Decimal(n)[1..] == Digits(-n);
    assert m >= 0 ==> Decimal(m)[0] in Digits(m);
    assert n >= 0 ==> Decimal(n)[0] in Digits(n);
  }

  // ---- Splitting on the separator ----

  // strings.SplitN(s, ".", 2): the parts around the first dot, or None without one.
  function Cut(s: string): (r: Option<(string, string)>)
    ensures r.None? <==> '.' !in s
    ensures r.Some? ==> s == r.value.0 + "." + r.value.1 && '.' !in r.value.0
  {
    if s == "" then None
    else if s[0] == '.' then Some(("", s[1..]))
    else match Cut(s[1..])
      case None => None
      case Some(p) => Some(([s[0]] + p.0, p.1))
  }

  lemma {:induction false} CutJoin(a: string, b: string)
    requires '.' !in a
    ensures Cut(a + "." + b) == Some((a, b))
  {
    if a == "" {
      assert (a + "." + b)[1..] == b;
    } else {
      assert (a + "." + b)[1..] == a[1..] + "." + b;
      CutJoin(a[1..], b);
      assert [a[0]] + a[1..] == a;
    }
  }

  // strings.TrimPrefix
  function TrimPrefix(s: string, prefix: string): string {
    if prefix <= s then s[|prefix|..] else s
  }

  // ---- The builders ----

  function FlagKey(env: int, flagKey: string): string {
    Decimal(env) + "." + flagKey
  }

  function ServiceSettingsKey(env: int, ms: int): string {
    Decimal(env) + "." + Decimal(ms)
  }

  function LocalizationKey(env: int, ms: int, locale: string): string {
    Decimal(env) + "." + Decimal(ms) + "." + locale
  }

  function EnvironmentPrefix(env: int): string {
    Decimal(env) + ".>"
  }

  // The keys of one environment, in any bucket.
  predicate InEnvironment(key: string, env: int) {
    Decimal(env) + "." <= key
  }

  lemma EnvironmentOfKey(key: string, d: int, e: int)
    requires InEnvironment(key, d) && InEnvironment(key, e)
    ensures d == e
  {
    DecimalHasNoDot(d);
    DecimalHasNoDot(e);
    var a, b := Decimal(d), Decimal(e);
    assert key == a + "." + key[|a| + 1..] && key == b + "." + key[|b| + 1..];
    CutJoin(a, key[|a| + 1..]);
    CutJoin(b, key[|b| + 1..]);
    DecimalInjective(d, e);
  }

  // Two keys are one key exactly when the identities they were built from are.
  lemma FlagKeyInjective(d: int, f: string, e: int, g: string)
    ensures FlagKey(d, f) == FlagKey(e, g) <==> d == e && f == g
  {
    DecimalHasNoDot(d);
    DecimalHasNoDot(e);
    CutJoin(Decimal(d), f);
    CutJoin(Decimal(e), g);
    if FlagKey(d, f) == FlagKey(e, g) {
      DecimalInjective(d, e);
    }
  }

  lemma ServiceSettingsKeyInjective(d: int, m: int, e: int, n: int)
    ensures ServiceSettingsKey(d, m) == ServiceSettingsKey(e, n) <==> d == e && m == n
  {
    FlagKeyInjective(d, Decimal(m), e, Decimal(n));
    if Decimal(m) == Decimal(n) {
      DecimalInjective(m, n);
    }
  }

  lemma LocalizationKeyIsNested(env: int, ms: int, locale: string)
    ensures LocalizationKey(env, ms, locale) == FlagKey(env, FlagKey(ms, locale))
  {
    assert Decimal(env) + "." + Decimal(ms) + "." + locale == Decimal(env) + "." + (Decimal(ms) + "." + locale);
  }

  lemma LocalizationKeyInjective(d: int, m: int, k: string, e: int, n: int, l: string)
    ensures LocalizationKey(d, m, k) == LocalizationKey(e, n, l) <==> d == e && m == n && k == l
  {
    LocalizationKeyIsNested(d, m, k);
    LocalizationKeyIsNested(e, n, l);
    FlagKeyInjective(d, FlagKey(m, k), e, FlagKey(n, l));
    FlagKeyInjective(m, k, n, l);
  }

  // ---- Reading an identity back (pkg/configclient) ----

  function TrimEnv(env: int, key: string): string {
    TrimPrefix(key, Decimal(env) + ".")
  }

  function SettingsIdentity(env: int, key: string): Option<int> {
    ParseInt(TrimEnv(env, key))
  }

  function BundleIdentity(env: int, key: string): Option<(int, string)> {
    match Cut(TrimEnv(env, key))
    case None => None
    case Some(parts) =>
      match ParseInt(parts.0)
      case None => None
      case Some(ms) => Some((ms, parts.1))
  }

  // A consumer recovers exactly the identity a key was built from.
  lemma FlagIdentityRecovered(env: int, flagKey: string)
    ensures TrimEnv(env, FlagKey(env, flagKey)) == flagKey
  {
  }

  lemma SettingsIdentityRecovered(env: int, ms: int)
    requires IsInt64(ms)
    ensures SettingsIdentity(env, ServiceSettingsKey(env, ms)) == Some(ms)
  {
    assert ServiceSettingsKey(env, ms)[|Decimal(env) + "."|..] == Decimal(ms);
    DecimalRoundTrip(ms);
  }

  lemma BundleIdentityRecovered(env: int, ms: int, locale: string)
    requires IsInt64(ms)
    ensures BundleIdentity(env, LocalizationKey(env, ms, locale)) == Some((ms, locale))
  {
    LocalizationKeyIsNested(env, ms, locale);
    assert TrimEnv(env, LocalizationKey(env, ms, locale)) == FlagKey(ms, locale);
    DecimalHasNoDot(ms);
    CutJoin(Decimal(ms), locale);
    DecimalRoundTrip(ms);
  }

  // ---- Watch patterns: dot-separated tokens, ">" standing for one or more of them ----

  function Tokens(s: string): (ts: seq<string>)
    ensures ts != []
    decreases |s|
  {
    match Cut(s)
    case None => [s]
    case Some(p) => [p.0] + Tokens(p.1)
  }

  predicate Matches(pattern: seq<string>, subject: seq<string>) {
    if pattern == [] then subject == []
    else if pattern == [">"] then subject != []
    else subject != [] && (pattern[0] == "*" || pattern[0] == subject[0]) && Matches(pattern[1..], subject[1..])
  }

  predicate Watched(pattern: string, key: string) {
    Matches(Tokens(pattern), Tokens(key))
  }

  function SettingsPattern(env: int, ms: int): string { Decimal(env) + "." + Decimal(ms) }

  function BundlePattern(env: int, ms: int): string { Decimal(env) + "." + Decimal(ms) + ".>" }

  // One literal token of a pattern against one token of a subject.
  lemma MatchesLiteral(a: string, rest: seq<string>, subject: seq<string>)
    requires a != ">" && a != "*"
    ensures Matches([a] + rest, subject) <==> subject != [] && subject[0] == a && Matches(rest, subject[1..])
  {
    assert ([a] + rest)[1..] == rest && ([a] + rest)[0] == a;
  }

  lemma TokensJoin(a: string, b: string)
    requires '.' !in a
    ensures Tokens(a) == [a]
    ensures Tokens(a + "." + b) == [a] + Tokens(b)
  {
    CutJoin(a, b);
  }

  lemma DecimalIsNoWildcard(n: int)
    ensures Decimal(n) != ">" && Decimal(n) != "*"
  {
    DigitsParse(if n < 0 then -n else n);
    assert n >= 0 ==> Decimal(n)[0] in Digits(n);
  }

  lemma PrefixPattern(a: string, env: int, rest: string)
    requires '.' !in a
    ensures Watched(Decimal(env) + ".>", a + "." + rest) <==> a == Decimal(env)
  {
    DecimalHasNoDot(env);
    DecimalIsNoWildcard(env);
    TokensJoin(a, rest);
    TokensJoin(Decimal(env), ">");
    TokensJoin(">", "");
    var p, s := Tokens(Decimal(env) + ".>"), Tokens(a + "." + rest);
    assert Decimal(env) + ".>" == Decimal(env) + "." + ">";
    assert p == [Decimal(env), ">"] && p[1..] == [">"];
    assert s == [a] + Tokens(rest) && s[1..] == Tokens(rest);
    assert Matches(p[1..], s[1..]) && |p| == 2;
  }

  lemma WatchedIsInEnvironment(env: int, key: string)
    ensures Watched(EnvironmentPrefix(env), key) <==> InEnvironment(key, env)
  {
    hide Decimal, Matches;
    var d := Decimal(env);
    DecimalHasNoDot(env);
    DecimalIsNoWildcard(env);
    TokensJoin(d, ">");
    TokensJoin(">", "");
    assert EnvironmentPrefix(env) == d + "." + ">";
    MatchesLiteral(d, [">"], Tokens(key));
    assert forall ts: seq<string> :: Matches([">"], ts) <==> ts != [] by { MatchesAny(); }
    if InEnvironment(key, env) {
      assert key == d + "." + key[|d| + 1..];
      TokensJoin(d, key[|d| + 1..]);
    }
  }

  lemma MatchesAny()
    ensures forall ts: seq<string> :: Matches([">"], ts) <==> ts != []
  {
  }

  // "{env}.>" selects exactly one environment's keys, in each of the three buckets.
  lemma EnvironmentWatch(env: int, e: int, flagKey: string, ms: int, locale: string)
    ensures Watched(EnvironmentPrefix(env), FlagKey(e, flagKey)) <==> e == env
    ensures Watched(EnvironmentPrefix(env), ServiceSettingsKey(e, ms)) <==> e == env
    ensures Watched(EnvironmentPrefix(env), LocalizationKey(e, ms, locale)) <==> e == env
  {
    DecimalHasNoDot(e);
    LocalizationKeyIsNested(e, ms, locale);
    forall rest ensures Watched(EnvironmentPrefix(env), FlagKey(e, rest)) <==> e == env {
      PrefixPattern(Decimal(e), env, rest);
      if Decimal(e) == Decimal(env) {
        DecimalInjective(e, env);
      }
    }
    assert ServiceSettingsKey(e, ms) == FlagKey(e, Decimal(ms));
  }

  // "{env}.{ms}" selects exactly one service's settings key.
  lemma SettingsWatch(env: int, ms: int, e: int, m: int)
    ensures Watched(SettingsPattern(env, ms), ServiceSettingsKey(e, m)) <==> e == env && m == ms
  {
    DecimalHasNoDot(env);
    DecimalHasNoDot(e);
    DecimalHasNoDot(ms);
    DecimalHasNoDot(m);
    DecimalIsNoWildcard(env);
    DecimalIsNoWildcard(ms);
    TokensJoin(Decimal(env), Decimal(ms));
    TokensJoin(Decimal(e), Decimal(m));
    TokensJoin(Decimal(ms), "");
    TokensJoin(Decimal(m), "");
    if Decimal(env) == Decimal(e) && Decimal(ms) == Decimal(m) {
      DecimalInjective(env, e);
      DecimalInjective(ms, m);
    }
    var p, s := Tokens(SettingsPattern(env, ms)), Tokens(ServiceSettingsKey(e, m));
    assert p == [Decimal(env), Decimal(ms)] && s == [Decimal(e), Decimal(m)];
    assert p[1..] == [Decimal(ms)] && s[1..] == [Decimal(m)];
    assert p[1..][1..] == [] && s[1..][1..] == [];
    assert Matches([Decimal(ms)], [Decimal(m)]) <==> Decimal(ms) == Decimal(m);
  }

  lemma {:induction false} SameTokens(a: string, b: string)
    requires Tokens(a) == Tokens(b)
    ensures a == b
    decreases |a|
  {
    var x, y := Cut(a), Cut(b);
    if x.Some? && y.Some? {
      assert Tokens(a)[1..] == Tokens(x.value.1) && Tokens(b)[1..] == Tokens(y.value.1);
      assert Tokens(a)[0] == x.value.0 && Tokens(b)[0] == y.value.0;
      SameTokens(x.value.1, y.value.1);
    } else {
      assert |Tokens(a)| == |Tokens(b)|;
    }
  }

  // A scoped settings watch selects a single key.
  lemma WatchedIsTheSetting(env: int, ms: int, key: string)
    ensures Watched(SettingsPattern(env, ms), key) <==> key == ServiceSettingsKey(env, ms)
  {
    hide Decimal, Matches;
    DecimalHasNoDot(env);
    DecimalHasNoDot(ms);
    DecimalIsNoWildcard(env);
    DecimalIsNoWildcard(ms);
    TokensJoin(Decimal(env), Decimal(ms));
    TokensJoin(Decimal(ms), "");
    var s := Tokens(key);
    MatchesLiteral(Decimal(env), [Decimal(ms)], s);
    MatchesLiteral(Decimal(ms), [], s[1..]);
    assert [Decimal(ms)] + [] == [Decimal(ms)];
    assert forall ts: seq<string> :: Matches([], ts) <==> ts == [] by { MatchesNone(); }
    if Watched(SettingsPattern(env, ms), key) {
      assert s == [s[0]] + [s[1..][0]] + s[1..][1..];
      SameTokens(SettingsPattern(env, ms), key);
    }
  }

  lemma MatchesNone()
    ensures forall ts: seq<string> :: Matches([], ts) <==> ts == []
  {
  }

  // A scoped bundle watch selects the keys under one service's own prefix.
  lemma WatchedIsABundle(env: int, ms: int, key: string)
    requires Watched(BundlePattern(env, ms), key)
    ensures exists rest :: key == LocalizationKey(env, ms, rest)
  {
    hide Decimal, Matches, Tokens;
    DecimalHasNoDot(env);
    DecimalIsNoWildcard(env);
    assert BundlePattern(env, ms) == Decimal(env) + "." + EnvironmentPrefix(ms);
    TokensJoin(Decimal(env), EnvironmentPrefix(ms));
    MatchesLiteral(Decimal(env), Tokens(EnvironmentPrefix(ms)), Tokens(key));
    var tail := TailTokens(env, ms, key);
    WatchedIsInEnvironment(ms, tail);
    var rest := tail[|Decimal(ms)| + 1..];
    LocalizationKeyIsNested(env, ms, rest);
    assert tail == FlagKey(ms, rest);
  }

  lemma TailTokens(env: int, ms: int, key: string) returns (tail: string)
    requires Tokens(key)[0] == Decimal(env) && Matches(Tokens(EnvironmentPrefix(ms)), Tokens(key)[1..])
    ensures key == Decimal(env) + "." + tail && Watched(EnvironmentPrefix(ms), tail)
  {
    hide Decimal;
    match Cut(key)
    case None =>
      assert false;
    case Some(p) =>
      tail := p.1;
      assert Tokens(key) == [p.0] + Tokens(tail);
      assert Tokens(key)[1..] == Tokens(tail);
  }

  // "{env}.{ms}.>" selects exactly one service's bundles.
  lemma BundleWatch(env: int, ms: int, e: int, m: int, locale: string)
    ensures Watched(BundlePattern(env, ms), LocalizationKey(e, m, locale)) <==> e == env && m == ms
  {
    DecimalHasNoDot(env);
    DecimalHasNoDot(e);
    DecimalHasNoDot(m);
    DecimalIsNoWildcard(env);
    LocalizationKeyIsNested(e, m, locale);
    assert BundlePattern(env, ms) == Decimal(env) + "." + (Decimal(ms) + ".>");
    TokensJoin(Decimal(env), Decimal(ms) + ".>");
    TokensJoin(Decimal(e), FlagKey(m, locale));
    PrefixPattern(Decimal(m), ms, locale);
    var p, s := Tokens(BundlePattern(env, ms)), Tokens(LocalizationKey(e, m, locale));
    assert p[1..] == Tokens(Decimal(ms) + ".>") && s[1..] == Tokens(FlagKey(m, locale));
    if Decimal(env) == Decimal(e) {
      DecimalInjective(env, e);
    }
    if Decimal(ms) == Decimal(m) {
      DecimalInjective(ms, m);
    }
  }

  // ---- What the services accept as a key segment ----

  predicate KeyChar(c: char) {
    'a' <= c <= 'z' || 'A' <= c <= 'Z' || '0' <= c <= '9' || c == '-' || c == '_'
  }

  predicate ValidFlagKey(s: string) { s != "" && |s| <= 128 && forall c | c in s :: KeyChar(c) }

  predicate ValidLocale(s: string) { s != "" && |s| <= 35 && forall c | c in s :: KeyChar(c) }

  // A valid segment adds exactly one token, so a key splits back into its parts at the dots.
  lemma ValidSegmentsAreTokens(env: int, flagKey: string, ms: int, locale: string)
    requires ValidFlagKey(flagKey) && ValidLocale(locale)
    ensures Tokens(FlagKey(env, flagKey)) == [Decimal(env), flagKey]
    ensures Tokens(LocalizationKey(env, ms, locale)) == [Decimal(env), Decimal(ms), locale]
  {
    DecimalHasNoDot(env);
    DecimalHasNoDot(ms);
    LocalizationKeyIsNested(env, ms, locale);
    TokensJoin(Decimal(env), flagKey);
    TokensJoin(Decimal(env), FlagKey(ms, locale));
    TokensJoin(Decimal(ms), locale);
    TokensJoin(flagKey, "");
    TokensJoin(locale, "");
  }
}
