/**
 When each admin request is granted, why it is refused otherwise, and what a granted one
 stores and owes its bucket, read off the tables and the request.
 */
module Grants {
  import opened Options
  import opened Keys
  import opened Items
  import opened Tables
  import opened Admin
  import opened Integrity

  // ---- What the checks accept ----

  predicate StartsAnObject(s: string) {
    exists i :: 0 <= i < |s| && s[i] == '{' && forall j | 0 <= j < i :: s[j] in " \t\r\n"
  }

  predicate GoodBody(body: Document) {
    body.wellFormed && Utf8Size(body.text) <= 524288 && StartsAnObject(body.text)
  }

  predicate GoodSegment(s: string, longest: nat) { 1 <= |s| <= longest && forall c | c in s :: KeyChar(c) }

  predicate GoodInput(d: Domain, input: DocInput) {
    0 < input.ms && 0 < input.env && (d.Bundles? ==> GoodSegment(input.locale, 35)) && GoodBody(input.body)
  }

  predicate GoodState(value: string, enabled: int) { 1 <= |value| <= 4000 && (enabled == 0 || enabled == 1) }

  predicate GoodName(name: string) { name != "" && Utf8Size(name) <= 100 }

  lemma {:induction false} SkipBlanksFinds(s: string)
    ensures StartsAnObject(s) <==> SkipBlanks(s) != "" && SkipBlanks(s)[0] == '{'
  {
    if s != "" {
      var rest := s[1..];
      SkipBlanksFinds(rest);
      if StartsAnObject(rest) && Blank(s[0]) {
        var i :| 0 <= i < |rest| && rest[i] == '{' && forall j | 0 <= j < i :: rest[j] in " \t\r\n";
        assert s[i + 1] == '{' && forall j | 0 <= j < i + 1 :: s[j] == if j == 0 then s[0] else rest[j - 1];
      }
      if StartsAnObject(s) && Blank(s[0]) {
        var i :| 0 <= i < |s| && s[i] == '{' && forall j | 0 <= j < i :: s[j] in " \t\r\n";
        assert rest[i - 1] == '{' && forall j | 0 <= j < i - 1 :: rest[j] == s[j + 1];
      }
    }
  }

  // A document passes exactly if it is well-formed, no larger than a bucket's values and an object.
  lemma DocumentAccepted(body: Document)
    ensures CheckDocument(body).None? <==> GoodBody(body)
    ensures CheckDocument(body) == Some(DocumentTooLarge) <==> Utf8Size(body.text) > 524288
  {
    hide StartsAnObject;
    SkipBlanksFinds(body.text);
  }

  // The stretch of s without the spaces around it.
  ghost predicate Trims(s: string, t: string) {
    && (exists i, j :: IsMiddle(s, t, i, j))
    && (t != "" ==> !Space(t[0]) && !Space(t[|t| - 1]))
  }

  ghost predicate IsMiddle(s: string, t: string, i: int, j: int) {
    && 0 <= i <= j <= |s| && t == s[i..j]
    && (forall k | 0 <= k < i :: Space(s[k])) && (forall k | j <= k < |s| :: Space(s[k]))
  }

  lemma {:induction false} TrimLeftCuts(s: string)
    ensures exists i :: 0 <= i <= |s| && TrimLeft(s) == s[i..] && (forall k | 0 <= k < i :: Space(s[k]))
                        && (i < |s| ==> !Space(s[i]))
  {
    hide Space;
    if s != "" && Space(s[0]) {
      TrimLeftCuts(s[1..]);
      var i :| 0 <= i <= |s[1..]| && TrimLeft(s[1..]) == s[1..][i..] && (forall k | 0 <= k < i :: Space(s[1..][k]))
               && (i < |s[1..]| ==> !Space(s[1..][i]));
      assert s[1..][i..] == s[i + 1..];
      assert forall k | 0 <= k < i + 1 :: s[k] == if k == 0 then s[0] else s[1..][k - 1];
    } else {
      assert s == s[0..];
    }
  }

  lemma {:induction false} TrimRightCuts(s: string)
    ensures exists j :: 0 <= j <= |s| && TrimRight(s) == s[..j] && (forall k | j <= k < |s| :: Space(s[k]))
                        && (j > 0 ==> !Space(s[j - 1]))
  {
    hide Space;
    if s != "" && Space(s[|s| - 1]) {
      var rest := s[..|s| - 1];
      TrimRightCuts(rest);
      var j :| 0 <= j <= |rest| && TrimRight(rest) == rest[..j] && (forall k | j <= k < |rest| :: Space(rest[k]))
               && (j > 0 ==> !Space(rest[j - 1]));
      assert rest[..j] == s[..j];
      assert forall k | j <= k < |s| :: s[k] == if k == |s| - 1 then s[|s| - 1] else rest[k];
    } else {
      assert s == s[..|s|];
    }
  }

  // strings.TrimSpace cuts the spaces on both sides, and there is one way to do that.
  lemma TrimSpaceTrims(s: string, t: string)
    ensures Trims(s, t) <==> t == TrimSpace(s)
  {
    hide Space, TrimLeft, TrimRight, IsMiddle;
    var i, j := TrimmedMiddle(s);
    if Trims(s, t) {
      var a, b :| IsMiddle(s, t, a, b);
      OneMiddle(s, t, a, b, TrimSpace(s), i, j);
    }
  }

  lemma TrimmedMiddle(s: string) returns (i: int, j: int)
    ensures var t := TrimSpace(s); IsMiddle(s, t, i, j) && (t != "" ==> !Space(t[0]) && !Space(t[|t| - 1]))
  {
    hide Space, TrimLeft, TrimRight;
    TrimLeftCuts(s);
    i :| 0 <= i <= |s| && TrimLeft(s) == s[i..] && (forall k | 0 <= k < i :: Space(s[k])) && (i < |s| ==> !Space(s[i]));
    var u := s[i..];
    TrimRightCuts(u);
    var n :| 0 <= n <= |u| && TrimRight(u) == u[..n] && (forall k | n <= k < |u| :: Space(u[k])) && (n > 0 ==> !Space(u[n - 1]));
    j := i + n;
    MiddleOfTail(s, i, u, n);
  }

  lemma MiddleOfTail(s: string, i: int, u: string, n: int)
    requires 0 <= i <= |s| && u == s[i..] && 0 <= n <= |u|
    requires forall k | 0 <= k < i :: Space(s[k])
    requires forall k | n <= k < |u| :: Space(u[k])
    ensures IsMiddle(s, u[..n], i, i + n)
  {
    hide Space;
    assert u[..n] == s[i..i + n];
    forall k | i + n <= k < |s| ensures Space(s[k]) {
      assert s[k] == u[k - i];
    }
  }

  lemma Inside(s: string, t: string, a: int, b: int, u: string, i: int, j: int)
    requires IsMiddle(s, t, a, b) && t != "" && !Space(t[0]) && !Space(t[|t| - 1])
    requires IsMiddle(s, u, i, j)
    ensures a < b && i <= a && b <= j
  {
    hide Space;
    assert t[0] == s[a] && t[|t| - 1] == s[b - 1];
  }

  lemma OneMiddle(s: string, t: string, a: int, b: int, u: string, i: int, j: int)
    requires IsMiddle(s, t, a, b) && (t != "" ==> !Space(t[0]) && !Space(t[|t| - 1]))
    requires IsMiddle(s, u, i, j) && (u != "" ==> !Space(u[0]) && !Space(u[|u| - 1]))
    ensures t == u
  {
    hide Space, IsMiddle;
    if t != "" {
      Inside(s, t, a, b, u, i, j);
    }
    if u != "" {
      Inside(s, u, i, j, t, a, b);
    }
    MiddleIs(s, t, a, b);
    MiddleIs(s, u, i, j);
  }

  lemma MiddleIs(s: string, t: string, i: int, j: int)
    requires IsMiddle(s, t, i, j)
    ensures 0 <= i <= j <= |s| && t == s[i..j]
  {
  }

  // A string's size in UTF-8: one to four bytes a character, added up.
  lemma {:induction false} Utf8SizeAdds(s: string, t: string)
    ensures Utf8Size(s + t) == Utf8Size(s) + Utf8Size(t)
  {
    if t == "" {
      assert s + t == s;
    } else {
      var most := t[..|t| - 1];
      Utf8SizeAdds(s, most);
      assert (s + t)[..|s + t| - 1] == s + most;
    }
  }

  lemma Utf8SizeOfOne(c: char)
    ensures Utf8Size([c]) == if c <= '\U{7F}' then 1 else if c <= '\U{7FF}' then 2 else if c <= '\U{FFFF}' then 3 else 4
  {
    assert [c][..0] == "";
  }

  lemma InputAccepted(d: Domain, input: DocInput)
    ensures CheckInput(d, input).None? <==> GoodInput(d, input)
    ensures CheckInput(d, input).Some? ==>
              CheckInput(d, input).value in {InvalidMicroserviceId, InvalidEnvironmentId, InvalidLocale, InvalidJson, DocumentTooLarge}
  {
    hide GoodBody;
    DocumentAccepted(input.body);
  }

  // ---- When a request is granted ----

  // No row has the natural key the input asks for.
  ghost predicate Free(docs: map<int, Doc>, d: Domain, input: DocInput) {
    forall id | id in docs ::
      !(docs[id].ms == input.ms && docs[id].env == input.env && docs[id].locale == if d.Settings? then "" else input.locale)
  }

  ghost predicate Unreferenced(db: Db, env: int) {
    && (forall id | id in db.values :: db.values[id].env != env)
    && (forall id | id in db.settings :: db.settings[id].env != env)
    && (forall id | id in db.bundles :: db.bundles[id].env != env)
  }

  ghost predicate Unused(db: Db, ms: int) {
    && (forall id | id in db.settings :: db.settings[id].ms != ms)
    && (forall id | id in db.bundles :: db.bundles[id].ms != ms)
  }

  ghost predicate NewPair(db: Db, env: int, flagId: int) {
    forall id | id in db.values :: !(db.values[id].env == env && db.values[id].flagId == flagId)
  }

  ghost predicate Granted(db: Db, request: Request) {
    match request
    case CreateEnvironment(name) => GoodName(TrimSpace(name)) && forall id | id in db.envs :: db.envs[id] != TrimSpace(name)
    case CreateMicroservice(name) => GoodName(TrimSpace(name)) && forall id | id in db.services :: db.services[id] != TrimSpace(name)
    case DeleteEnvironment(id) => 0 < id && id in db.envs && Unreferenced(db, id)
    case DeleteMicroservice(id) => 0 < id && id in db.services && Unused(db, id)
    case CreateFlag(flagKey, isActive) =>
      GoodSegment(flagKey, 128) && (isActive == 0 || isActive == 1) && forall id | id in db.flags :: db.flags[id].flagKey != flagKey
    case DeleteFlag(id) => 0 < id && id in db.flags
    case CreateFlagValue(flagId, env, value, enabled) =>
      GoodState(value, enabled) && 0 < flagId && flagId in db.flags && 0 < env && env in db.envs && NewPair(db, env, flagId)
    case UpdateFlagValue(id, value, enabled, expected) =>
      GoodState(value, enabled) && 0 < id && id in db.values && (expected.Some? ==> db.values[id].updatedAt == expected.value)
    case DeleteFlagValue(id) => 0 < id && id in db.values
    case CreateDoc(d, input) =>
      GoodInput(d, input) && input.ms in db.services && input.env in db.envs && Free(Docs(db, d), d, input)
    case UpdateDoc(d, input) =>
      && GoodInput(d, input) && 0 < input.id && input.id in Docs(db, d)
      && input.ms in db.services && input.env in db.envs && Free(Docs(db, d) - {input.id}, d, input)
      && (input.expected.Some? ==> Docs(db, d)[input.id].updatedAt == input.expected.value)
    case DeleteDoc(d, id) => 0 < id && id in Docs(db, d)
  }

  // Otherwise the request is refused: because a named row is missing,
  function Missing(db: Db, request: Request): Option<Error> {
    match request
    case DeleteEnvironment(id) => if 0 < id && id !in db.envs then Some(EnvironmentNotFound) else None
    case DeleteMicroservice(id) => if 0 < id && id !in db.services then Some(MicroserviceNotFound) else None
    case DeleteFlag(id) => if 0 < id && id !in db.flags then Some(FlagNotFound) else None
    case CreateFlagValue(flagId, env, value, enabled) =>
      if !(0 < flagId && 0 < env && GoodState(value, enabled)) then None
      else if env !in db.envs then Some(EnvironmentNotFound)
      else if flagId !in db.flags then Some(FlagNotFound)
      else None
    case UpdateFlagValue(id, value, enabled, _) =>
      if 0 < id && GoodState(value, enabled) && id !in db.values then Some(FlagNotFound) else None
    case DeleteFlagValue(id) => if 0 < id && id !in db.values then Some(FlagNotFound) else None
    case CreateDoc(d, input) => if GoodInput(d, input) then MissingRef(db, input) else None
    case UpdateDoc(d, input) =>
      if !(0 < input.id && GoodInput(d, input)) then None
      else if input.id !in Docs(db, d) then Some(DocumentNotFound)
      else MissingRef(db, input)
    case DeleteDoc(d, id) => if 0 < id && id !in Docs(db, d) then Some(DocumentNotFound) else None
    case _ => None
  }

  function MissingRef(db: Db, input: DocInput): Option<Error> {
    if input.ms !in db.services then Some(MicroserviceNotFound)
    else if input.env !in db.envs then Some(EnvironmentNotFound)
    else None
  }

  // because the row moved on from the version expected,
  ghost predicate Outdated(db: Db, request: Request) {
    match request
    case UpdateFlagValue(id, value, enabled, expected) =>
      0 < id && GoodState(value, enabled) && id in db.values && expected.Some? && db.values[id].updatedAt != expected.value
    case UpdateDoc(d, input) =>
      && 0 < input.id && GoodInput(d, input) && input.id in Docs(db, d) && MissingRef(db, input).None?
      && Free(Docs(db, d) - {input.id}, d, input)
      && input.expected.Some? && Docs(db, d)[input.id].updatedAt != input.expected.value
    case _ => false
  }

  // because its natural key is taken,
  ghost predicate Duplicates(db: Db, request: Request) {
    match request
    case CreateEnvironment(name) => GoodName(TrimSpace(name)) && exists id :: id in db.envs && db.envs[id] == TrimSpace(name)
    case CreateMicroservice(name) =>
      GoodName(TrimSpace(name)) && exists id :: id in db.services && db.services[id] == TrimSpace(name)
    case CreateFlag(flagKey, isActive) =>
      && GoodSegment(flagKey, 128) && (isActive == 0 || isActive == 1)
      && exists id :: id in db.flags && db.flags[id].flagKey == flagKey
    case CreateFlagValue(flagId, env, value, enabled) =>
      && 0 < flagId && 0 < env && GoodState(value, enabled) && env in db.envs && flagId in db.flags && !NewPair(db, env, flagId)
    case CreateDoc(d, input) => GoodInput(d, input) && MissingRef(db, input).None? && !Free(Docs(db, d), d, input)
    case UpdateDoc(d, input) =>
      && 0 < input.id && GoodInput(d, input) && input.id in Docs(db, d) && MissingRef(db, input).None?
      && !Free(Docs(db, d) - {input.id}, d, input)
    case _ => false
  }

  // or because it is still referred to.
  ghost predicate Referenced(db: Db, request: Request) {
    match request
    case DeleteEnvironment(id) => 0 < id && !Unreferenced(db, id)
    case DeleteMicroservice(id) => 0 < id && !Unused(db, id)
    case _ => false
  }

  predicate NotFound(e: Error) {
    e.EnvironmentNotFound? || e.MicroserviceNotFound? || e.FlagNotFound? || e.DocumentNotFound?
  }

  predicate Exists(e: Error) { e.NameExists? || e.FlagExists? || e.FlagValueExists? || e.DocumentExists? }

  // ---- What a granted request does ----

  function AskedDoc(d: Domain, input: DocInput, now: int): Doc {
    Doc(input.ms, input.env, if d.Settings? then "" else input.locale, input.body, now)
  }

  // Every table afterwards.
  function TablesAfter(db: Db, request: Request, newId: int, now: int): Db
    requires Holds(db) && Granted(db, request)
  {
    match request
    case CreateEnvironment(name) => db.(envs := db.envs[newId := TrimSpace(name)])
    case DeleteEnvironment(id) => db.(envs := db.envs - {id})
    case CreateMicroservice(name) => db.(services := db.services[newId := TrimSpace(name)])
    case DeleteMicroservice(id) => db.(services := db.services - {id})
    case CreateFlag(flagKey, isActive) => db.(flags := db.flags[newId := Flag(flagKey, isActive)])
    case DeleteFlag(id) =>
      db.(flags := db.flags - {id}, values := map v | v in db.values && db.values[v].flagId != id :: db.values[v])
    case CreateFlagValue(flagId, env, value, enabled) =>
      db.(values := db.values[newId := FlagValue(env, flagId, enabled, value, now)])
    case UpdateFlagValue(id, value, enabled, _) =>
      db.(values := db.values[id := FlagValue(db.values[id].env, db.values[id].flagId, enabled, value, now)])
    case DeleteFlagValue(id) => db.(values := db.values - {id})
    case CreateDoc(Settings, input) => db.(settings := db.settings[newId := AskedDoc(Settings, input, now)])
    case CreateDoc(Bundles, input) => db.(bundles := db.bundles[newId := AskedDoc(Bundles, input, now)])
    case UpdateDoc(Settings, input) => db.(settings := db.settings[input.id := AskedDoc(Settings, input, now)])
    case UpdateDoc(Bundles, input) => db.(bundles := db.bundles[input.id := AskedDoc(Bundles, input, now)])
    case DeleteDoc(Settings, id) => db.(settings := db.settings - {id})
    case DeleteDoc(Bundles, id) => db.(bundles := db.bundles - {id})
  }

  function KeyOfDoc(d: Domain, doc: Doc): string {
    if d.Settings? then ServiceSettingsKey(doc.env, doc.ms) else LocalizationKey(doc.env, doc.ms, doc.locale)
  }

  function FlagKeyOf(db: Db, id: int): string
    requires id in db.values && db.values[id].flagId in db.flags
  {
    FlagKey(db.values[id].env, db.flags[db.values[id].flagId].flagKey)
  }

  // What the bucket is owed: the written row, as the request gave it,
  function Published(db: Db, request: Request): Option<Item>
    requires Holds(db) && Granted(db, request)
  {
    match request
    case CreateFlagValue(flagId, env, value, enabled) => Some(FlagItem(env, db.flags[flagId].flagKey, enabled, value))
    case UpdateFlagValue(id, value, enabled, _) =>
      Some(FlagItem(db.values[id].env, db.flags[db.values[id].flagId].flagKey, enabled, value))
    case CreateDoc(Settings, input) => Some(SettingsItem(input.env, input.ms, input.body))
    case UpdateDoc(Settings, input) => Some(SettingsItem(input.env, input.ms, input.body))
    case CreateDoc(Bundles, input) => Some(BundleItem(input.env, input.ms, input.locale, input.body))
    case UpdateDoc(Bundles, input) => Some(BundleItem(input.env, input.ms, input.locale, input.body))
    case _ => None
  }

  // and a purge of every key a row left.
  function Purged(db: Db, request: Request): set<string>
    requires Holds(db) && Granted(db, request)
  {
    match request
    case DeleteFlag(id) => set v | v in db.values && db.values[v].flagId == id :: FlagKeyOf(db, v)
    case DeleteFlagValue(id) => {FlagKeyOf(db, id)}
    case UpdateDoc(d, input) => {KeyOfDoc(d, Docs(db, d)[input.id])} - {KeyOfDoc(d, AskedDoc(d, input, 0))}
    case DeleteDoc(d, id) => {KeyOfDoc(d, Docs(db, d)[id])}
    case _ => {}
  }

  // ---- Every request, granted or refused ----

  ghost predicate Answers(db: Db, request: Request, newId: int, now: int) {
    var out := Serve(db, request, newId, now);
    && (out.error.None? <==> Granted(db, request))
    && (Missing(db, request).Some? ==> out.error == Missing(db, request) || Referenced(db, request))
    && (out.error.Some? && NotFound(out.error.value) ==> out.error == Missing(db, request))
    && (out.error == Some(Conflict) <==> Outdated(db, request))
    && (out.error == Some(InUse) <==> Referenced(db, request))
    && (out.error.Some? && Exists(out.error.value) <==> Duplicates(db, request))
  }

  ghost predicate DoesIt(db: Db, request: Request, newId: int, now: int)
    requires Holds(db) && Granted(db, request)
  {
    var out := Serve(db, request, newId, now);
    && out.db == TablesAfter(db, request, newId, now)
    && out.publish == Published(db, request) && out.purges == Purged(db, request)
  }

  lemma ReferenceCreateAnswers(db: Db, request: Request, newId: int, now: int)
    requires Holds(db) && FreshId(db, request, newId)
    requires request.CreateEnvironment? || request.CreateMicroservice? || request.CreateFlag?
    ensures Answers(db, request, newId, now)
    ensures Granted(db, request) ==> DoesIt(db, request, newId, now)
  {
    hide TrimSpace, Utf8Size, KeyChar, DocsHold, GoodIds, ValuesHold, UniqueNames, UniqueFlagKeys;
  }

  lemma ReferenceDeleteAnswers(db: Db, request: Request, newId: int, now: int)
    requires Holds(db) && FreshId(db, request, newId)
    requires request.DeleteEnvironment? || request.DeleteMicroservice?
    ensures Answers(db, request, newId, now)
    ensures Granted(db, request) ==> DoesIt(db, request, newId, now)
  {
    hide DocsHold, GoodIds, ValuesHold, UniqueNames, UniqueFlagKeys;
  }

  lemma CreateValueAnswers(db: Db, request: Request, newId: int, now: int)
    requires Holds(db) && FreshId(db, request, newId) && request.CreateFlagValue?
    ensures Answers(db, request, newId, now)
    ensures Granted(db, request) ==> DoesIt(db, request, newId, now)
  {
    hide FlagKey, DocsHold, GoodIds, UniqueNames, UniqueFlagKeys;
  }

  lemma UpdateValueAnswers(db: Db, request: Request, newId: int, now: int)
    requires Holds(db) && FreshId(db, request, newId) && request.UpdateFlagValue?
    ensures Answers(db, request, newId, now)
    ensures Granted(db, request) ==> DoesIt(db, request, newId, now)
  {
    hide FlagKey, DocsHold, GoodIds, UniqueNames, UniqueFlagKeys;
  }

  lemma FlagDeleteAnswers(db: Db, request: Request, newId: int, now: int)
    requires Holds(db) && FreshId(db, request, newId)
    requires request.DeleteFlag? || request.DeleteFlagValue?
    ensures Answers(db, request, newId, now)
    ensures Granted(db, request) ==> DoesIt(db, request, newId, now)
  {
    hide FlagKey, DocsHold, GoodIds, UniqueNames, UniqueFlagKeys;
  }

  lemma CreateDocAnswers(db: Db, request: Request, newId: int, now: int)
    requires Holds(db) && FreshId(db, request, newId) && request.CreateDoc?
    ensures Answers(db, request, newId, now)
    ensures Granted(db, request) ==> DoesIt(db, request, newId, now)
  {
    hide CheckInput, GoodInput, ServiceSettingsKey, LocalizationKey, DocsHold, GoodIds, UniqueNames, UniqueFlagKeys, ValuesHold,
      Free, Taken, KeyStored;
    InputAccepted(request.d, request.input);
    FreeMeans(Docs(db, request.d), request.d, request.input);
  }

  lemma UpdateDocAnswers(db: Db, request: Request, newId: int, now: int)
    requires Holds(db) && FreshId(db, request, newId) && request.UpdateDoc?
    ensures Answers(db, request, newId, now)
    ensures Granted(db, request) ==> DoesIt(db, request, newId, now)
  {
    hide CheckInput, GoodInput, ServiceSettingsKey, LocalizationKey, DocsHold, GoodIds, UniqueNames, UniqueFlagKeys, ValuesHold,
      Free, Taken, KeyStored;
    InputAccepted(request.d, request.input);
    FreeMeans(Docs(db, request.d), request.d, request.input);
  }

  lemma DeleteDocAnswers(db: Db, request: Request, newId: int, now: int)
    requires Holds(db) && FreshId(db, request, newId) && request.DeleteDoc?
    ensures Answers(db, request, newId, now)
    ensures Granted(db, request) ==> DoesIt(db, request, newId, now)
  {
    hide CheckInput, GoodInput, ServiceSettingsKey, LocalizationKey, DocsHold, GoodIds, UniqueNames, UniqueFlagKeys, ValuesHold,
      Free, Taken, KeyStored;
  }

  lemma FreeMeans(docs: map<int, Doc>, d: Domain, input: DocInput)
    ensures Free(docs, d, input) <==> !KeyStored(docs, input.ms, input.env, LocaleOf(d, input))
    ensures Free(docs - {input.id}, d, input) <==> !Taken(docs, input.ms, input.env, LocaleOf(d, input), input.id)
    ensures Free(docs, d, input) ==> Free(docs - {input.id}, d, input)
  {
    var others := docs - {input.id};
    assert forall id :: id in others <==> id in docs && id != input.id;
  }

  lemma EveryAnswer(db: Db, request: Request, newId: int, now: int)
    requires Holds(db) && FreshId(db, request, newId)
    ensures Answers(db, request, newId, now)
    ensures Granted(db, request) ==> DoesIt(db, request, newId, now)
  {
    hide Answers, DoesIt, Holds, FreshId, Granted;
    match request
    case CreateEnvironment(_) => ReferenceCreateAnswers(db, request, newId, now);
    case CreateMicroservice(_) => ReferenceCreateAnswers(db, request, newId, now);
    case CreateFlag(_, _) => ReferenceCreateAnswers(db, request, newId, now);
    case DeleteEnvironment(_) => ReferenceDeleteAnswers(db, request, newId, now);
    case DeleteMicroservice(_) => ReferenceDeleteAnswers(db, request, newId, now);
    case DeleteFlag(_) => FlagDeleteAnswers(db, request, newId, now);
    case DeleteFlagValue(_) => FlagDeleteAnswers(db, request, newId, now);
    case CreateFlagValue(_, _, _, _) => CreateValueAnswers(db, request, newId, now);
    case UpdateFlagValue(_, _, _, _) => UpdateValueAnswers(db, request, newId, now);
    case CreateDoc(_, _) => CreateDocAnswers(db, request, newId, now);
    case UpdateDoc(_, _) => UpdateDocAnswers(db, request, newId, now);
    case DeleteDoc(_, _) => DeleteDocAnswers(db, request, newId, now);
  }

  // A request is granted exactly when its input passes, what it names is there at the version expected, its natural
  // key is free and nothing refers to what it deletes.
  lemma GrantedExactly(db: Db, request: Request, newId: int, now: int)
    requires Holds(db) && FreshId(db, request, newId)
    ensures Serve(db, request, newId, now).error.None? <==> Granted(db, request)
  {
    hide Holds, FreshId, Granted, Missing, Outdated, Referenced, Duplicates, Serve;
    EveryAnswer(db, request, newId, now);
  }

  // And the error of a refused one tells which of these failed.
  lemma RefusedBecause(db: Db, request: Request, newId: int, now: int)
    requires Holds(db) && FreshId(db, request, newId)
    ensures var e := Serve(db, request, newId, now).error;
            && (e.Some? && NotFound(e.value) ==> e == Missing(db, request))
            && (Missing(db, request).Some? && !Referenced(db, request) ==> e == Missing(db, request))
            && (e == Some(Conflict) <==> Outdated(db, request))
            && (e == Some(InUse) <==> Referenced(db, request))
            && (e.Some? && Exists(e.value) <==> Duplicates(db, request))
  {
    hide Holds, FreshId, Granted, Missing, Outdated, Referenced, Duplicates, Serve;
    EveryAnswer(db, request, newId, now);
  }

  // A granted request leaves exactly the tables it asks for, and owes its bucket exactly the row it wrote and the
  // keys that lost theirs.
  lemma GrantedIsDone(db: Db, request: Request, newId: int, now: int)
    requires Holds(db) && FreshId(db, request, newId) && Granted(db, request)
    ensures var out := Serve(db, request, newId, now);
            && out.db == TablesAfter(db, request, newId, now)
            && out.publish == Published(db, request) && out.purges == Purged(db, request)
  {
    hide Holds, FreshId, Granted, Answers, Serve, TablesAfter, Published, Purged;
    EveryAnswer(db, request, newId, now);
  }

  // A granted create or update of a flag value leaves under one id exactly the value and the state asked for, at the
  // request's time, for the environment and flag asked for or held before; no other value changes, none has that
  // pair, and that row is what is published.
  lemma GrantedFlagValueIsStored(db: Db, request: Request, newId: int, now: int)
    requires Holds(db) && FreshId(db, request, newId) && (request.CreateFlagValue? || request.UpdateFlagValue?)
    requires Serve(db, request, newId, now).error.None?
    ensures var out := Serve(db, request, newId, now);
            var after, id := out.db.values, if request.CreateFlagValue? then newId else request.id;
            && after.Keys == db.values.Keys + {id}
            && after[id].value == request.value && after[id].enabled == request.enabled && after[id].updatedAt == now
            && (request.CreateFlagValue? ==> after[id].env == request.env && after[id].flagId == request.flagId)
            && (request.UpdateFlagValue? ==>
                  id in db.values && after[id].env == db.values[id].env && after[id].flagId == db.values[id].flagId)
            && (forall k | k in after && k != id ::
                  after[k] == db.values[k] && !(after[k].env == after[id].env && after[k].flagId == after[id].flagId))
            && after[id].flagId in db.flags
            && out.publish == Some(FlagItem(after[id].env, db.flags[after[id].flagId].flagKey, request.enabled, request.value))
  {
    hide Serve, DocsHold, UniqueNames, UniqueFlagKeys, GoodIds;
    GrantedExactly(db, request, newId, now);
    GrantedIsDone(db, request, newId, now);
  }

  // A granted create or update of a document leaves exactly the document asked for under one id, the only row with
  // that natural key; no other row of the table changes, and that row is what is published.
  lemma GrantedDocumentIsStored(db: Db, request: Request, newId: int, now: int)
    requires Holds(db) && FreshId(db, request, newId) && (request.CreateDoc? || request.UpdateDoc?)
    requires Serve(db, request, newId, now).error.None?
    ensures var out, input := Serve(db, request, newId, now), request.input;
            var before, after := Docs(db, request.d), Docs(out.db, request.d);
            var id, asked := if request.CreateDoc? then newId else input.id, AskedDoc(request.d, input, now);
            && after.Keys == before.Keys + {id} && after[id] == asked
            && (forall k | k in after && k != id ::
                  after[k] == before[k] && !SameKey(after[k], asked.ms, asked.env, asked.locale))
            && out.publish == Some(if request.d.Settings? then SettingsItem(input.env, input.ms, input.body)
                                   else BundleItem(input.env, input.ms, input.locale, input.body))
  {
    hide Serve, Holds, GoodInput, Free;
    GrantedExactly(db, request, newId, now);
    GrantedIsDone(db, request, newId, now);
    FreeMeans(Docs(db, request.d), request.d, request.input);
  }
}
