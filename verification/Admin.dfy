/**
 What one admin request does: to the tables, and to the bucket behind them.
 */
module Admin {
  import opened Options
  import opened Keys
  import opened Kv
  import opened Items
  import opened Tables

  datatype Request =
    | CreateEnvironment(name: string)
    | DeleteEnvironment(id: int)
    | CreateMicroservice(name: string)
    | DeleteMicroservice(id: int)
    | CreateFlag(flagKey: string, isActive: int)
    | DeleteFlag(id: int)
    | CreateFlagValue(flagId: int, env: int, value: string, enabled: int)
    | UpdateFlagValue(id: int, value: string, enabled: int, expected: Option<int>)
    | DeleteFlagValue(id: int)
    | CreateDoc(d: Domain, input: DocInput)
    | UpdateDoc(d: Domain, input: DocInput)
    | DeleteDoc(d: Domain, id: int)

  // The tables after the request, and the writes it then owes the bucket: at most one publish, then the purges.
  datatype Outcome = Outcome(db: Db, error: Option<Error>, publish: Option<Item>, purges: set<string>)

  // ---- Validation ----

  predicate Blank(c: char) { c == ' ' || c == '\t' || c == '\n' || c == '\r' }

  // unicode.IsSpace
  predicate Space(c: char) {
    || Blank(c) || c == '\U{0B}' || c == '\U{0C}' || c == '\U{85}' || c == '\U{A0}' || c == '\U{1680}'
    || '\U{2000}' <= c <= '\U{200A}' || c == '\U{2028}' || c == '\U{2029}' || c == '\U{202F}' || c == '\U{205F}'
    || c == '\U{3000}'
  }

  // The length in bytes of a string's UTF-8 encoding.
  function Utf8Size(s: string): nat {
    if s == "" then 0
    else
      var c := s[|s| - 1] as int;
      Utf8Size(s[..|s| - 1]) + (if c < 0x80 then 1 else if c < 0x800 then 2 else if c < 0x1_0000 then 3 else 4)
  }

  function TrimLeft(s: string): string {
    if s != "" && Space(s[0]) then TrimLeft(s[1..]) else s
  }

  function TrimRight(s: string): string {
    if s != "" && Space(s[|s| - 1]) then TrimRight(s[..|s| - 1]) else s
  }

  function TrimSpace(s: string): string { TrimRight(TrimLeft(s)) }

  predicate ValidName(name: string) { name != "" && Utf8Size(name) <= MAX_NAME }

  predicate ValidFlagState(n: int) { n == 0 || n == 1 }

  function CheckValue(value: string): Option<Error> {
    if value == "" then Some(InvalidFlagValue) else if |value| > MAX_FLAG_VALUE then Some(FlagValueTooLarge) else None
  }

  function SkipBlanks(s: string): string {
    if s != "" && Blank(s[0]) then SkipBlanks(s[1..]) else s
  }

  // Only a JSON object, no larger than a bucket's values may be.
  function CheckDocument(body: Document): Option<Error> {
    if Utf8Size(body.text) > MAX_VALUE_SIZE then Some(DocumentTooLarge)
    else if body.text == "" || !body.wellFormed then Some(InvalidJson)
    else if SkipBlanks(body.text) == "" || SkipBlanks(body.text)[0] != '{' then Some(InvalidJson)
    else None
  }

  function CheckInput(d: Domain, input: DocInput): Option<Error> {
    if input.ms <= 0 then Some(InvalidMicroserviceId)
    else if input.env <= 0 then Some(InvalidEnvironmentId)
    else if d.Bundles? && !ValidLocale(input.locale) then Some(InvalidLocale)
    else CheckDocument(input.body)
  }

  // ---- Rows as the items they publish ----

  function FlagItemOf(db: Db, row: FlagValue): Item
    requires row.flagId in db.flags
  {
    FlagItem(row.env, db.flags[row.flagId].flagKey, row.enabled, row.value)
  }

  function DocItem(d: Domain, doc: Doc): Item {
    if d.Settings? then SettingsItem(doc.env, doc.ms, doc.body) else BundleItem(doc.env, doc.ms, doc.locale, doc.body)
  }

  function DocKey(d: Domain, doc: Doc): string { KeyOf(DocItem(d, doc)) }

  function BucketOf(d: Domain): BucketName { if d.Settings? then ServiceSettings else Localization }

  // The bucket a request may write to; a request about the reference tables writes to none.
  function BucketFor(request: Request): BucketName {
    match request
    case CreateDoc(d, _) => BucketOf(d)
    case UpdateDoc(d, _) => BucketOf(d)
    case DeleteDoc(d, _) => BucketOf(d)
    case _ => Flags
  }

  // ---- The requests ----

  function Refuse(db: Db, e: Error): Outcome { Outcome(db, Some(e), None, {}) }

  // A statement on the reference tables: nothing to publish.
  function Reference(db: Db, after: Db, e: Option<Error>): Outcome { Outcome(if e.None? then after else db, e, None, {}) }

  function CreateDocument(db: Db, d: Domain, input: DocInput, newId: int, now: int): Outcome {
    var invalid := CheckInput(d, input);
    if invalid.Some? then Refuse(db, invalid.value)
    else
      var (after, e) := InsertDoc(db, d, input, newId, now);
      if e.Some? then Refuse(db, e.value)
      else Outcome(after, None, Some(DocItem(d, DocOf(d, input, now))), {})
  }

  // A row that moved leaves a key behind, which is purged once the new one is published.
  function UpdateDocument(db: Db, d: Domain, input: DocInput, now: int): Outcome {
    if input.id <= 0 then Refuse(db, InvalidId)
    else
      var invalid := CheckInput(d, input);
      if invalid.Some? then Refuse(db, invalid.value)
      else if input.id !in Docs(db, d) then Refuse(db, DocumentNotFound)
      else
        var (after, e) := Tables.UpdateDoc(db, d, input, now);
        if e.Some? then Refuse(db, e.value)
        else
          var item, left := DocItem(d, DocOf(d, input, now)), DocKey(d, Docs(db, d)[input.id]);
          Outcome(after, None, Some(item), if left == KeyOf(item) then {} else {left})
  }

  function DeleteDocument(db: Db, d: Domain, id: int): Outcome {
    if id <= 0 then Refuse(db, InvalidId)
    else
      var (after, e) := Tables.DeleteDoc(db, d, id);
      if e.Some? then Refuse(db, e.value) else Outcome(after, None, None, {DocKey(d, Docs(db, d)[id])})
  }

  function CreateValue(db: Db, flagId: int, env: int, value: string, enabled: int, newId: int, now: int): Outcome {
    if flagId <= 0 then Refuse(db, InvalidId)
    else if env <= 0 then Refuse(db, InvalidEnvironmentId)
    else if CheckValue(value).Some? then Refuse(db, CheckValue(value).value)
    else if !ValidFlagState(enabled) then Refuse(db, InvalidFlagState)
    else
      var row := FlagValue(env, flagId, enabled, value, now);
      var (after, e) := InsertFlagValue(db, row, newId);
      if e.Some? then Refuse(db, e.value) else Outcome(after, None, Some(FlagItemOf(db, row)), {})
  }

  function UpdateValue(db: Db, id: int, value: string, enabled: int, expected: Option<int>, now: int): Outcome {
    if id <= 0 then Refuse(db, InvalidId)
    else if CheckValue(value).Some? then Refuse(db, CheckValue(value).value)
    else if !ValidFlagState(enabled) then Refuse(db, InvalidFlagState)
    else
      var (after, e) := Tables.UpdateFlagValue(db, id, value, enabled, expected, now);
      if e.Some? then Outcome(after, e, None, {}) else Outcome(after, None, Some(FlagItemOf(db, after.values[id])), {})
  }

  function DeleteValue(db: Db, id: int): Outcome {
    if id <= 0 then Refuse(db, InvalidId)
    else
      var (after, e) := Tables.DeleteFlagValue(db, id);
      if e.Some? then Refuse(db, e.value) else Outcome(after, None, None, {KeyOf(FlagItemOf(db, db.values[id]))})
  }

  function DeleteFlagAndValues(db: Db, id: int): Outcome {
    if id <= 0 then Refuse(db, InvalidId)
    else
      var (after, e) := Tables.DeleteFlag(db, id);
      if e.Some? then Refuse(db, e.value)
      else Outcome(after, None, None, set k | k in ValuesOf(db, id) :: FlagKey(db.values[k].env, db.flags[id].flagKey))
  }

  // newId is what the identity column hands out, now what the database's clock says.
  function Serve(db: Db, request: Request, newId: int, now: int): Outcome {
    match request
    case CreateEnvironment(name) =>
      if !ValidName(TrimSpace(name)) then Refuse(db, InvalidName)
      else var (envs, e) := InsertName(db.envs, TrimSpace(name), newId); Reference(db, db.(envs := envs), e)
    case DeleteEnvironment(id) =>
      if id <= 0 then Refuse(db, InvalidId)
      else var (after, e) := Tables.DeleteEnvironment(db, id); Reference(db, after, e)
    case CreateMicroservice(name) =>
      if !ValidName(TrimSpace(name)) then Refuse(db, InvalidName)
      else var (services, e) := InsertName(db.services, TrimSpace(name), newId); Reference(db, db.(services := services), e)
    case DeleteMicroservice(id) =>
      if id <= 0 then Refuse(db, InvalidId)
      else var (after, e) := DeleteService(db, id); Reference(db, after, e)
    case CreateFlag(flagKey, isActive) =>
      if !ValidFlagKey(flagKey) then Refuse(db, InvalidFlagKey)
      else if !ValidFlagState(isActive) then Refuse(db, InvalidFlagState)
      else var (after, e) := InsertFlag(db, Flag(flagKey, isActive), newId); Reference(db, after, e)
    case DeleteFlag(id) => DeleteFlagAndValues(db, id)
    case CreateFlagValue(flagId, env, value, enabled) => CreateValue(db, flagId, env, value, enabled, newId, now)
    case UpdateFlagValue(id, value, enabled, expected) => UpdateValue(db, id, value, enabled, expected, now)
    case DeleteFlagValue(id) => DeleteValue(db, id)
    case CreateDoc(d, input) => CreateDocument(db, d, input, newId, now)
    case UpdateDoc(d, input) => UpdateDocument(db, d, input, now)
    case DeleteDoc(d, id) => DeleteDocument(db, d, id)
  }

  // The reference tables and the flag definitions publish nothing.
  predicate Unpublished(request: Request) {
    || request.CreateEnvironment? || request.DeleteEnvironment? || request.CreateMicroservice? || request.DeleteMicroservice?
    || request.CreateFlag?
  }

  lemma UnpublishedOutcome(db: Db, request: Request, newId: int, now: int)
    requires Unpublished(request)
    ensures var out := Serve(db, request, newId, now);
            && out.publish.None? && out.purges == {}
            && out.db.values == db.values && out.db.settings == db.settings && out.db.bundles == db.bundles
  {
    hide TrimSpace, ValidFlagKey, EnvironmentInUse, ServiceInUse, InsertName;
  }

  // What passed the checks is never refused by the publisher.
  lemma AcceptedIsPublishable(db: Db, request: Request, newId: int, now: int)
    ensures var out := Serve(db, request, newId, now); out.publish.Some? ==> Publishable(out.publish.value)
  {
    hide InsertDoc, Tables.UpdateDoc, InsertFlagValue, Tables.UpdateFlagValue;
    if Unpublished(request) {
      UnpublishedOutcome(db, request, newId, now);
    }
  }
}
