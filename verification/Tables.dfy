/**
 The relational tables and the statements the repositories run on them. The two
 document tables, settings and bundles, have one shape and one set of statements.
 */
module Tables {
  import opened Options
  import opened Kv

  const MAX_NAME: nat := 100
  const MAX_FLAG_VALUE: nat := 4000
  const MAX_VALUE_SIZE: nat := 512 * 1024

  datatype Domain = Settings | Bundles

  // A document as a caller sends it: bytes, well-formed JSON or not.
  type Document = b: Bytes | b.Text? witness Text("{}", true, None)

  datatype Flag = Flag(flagKey: string, isActive: int)
  datatype FlagValue = FlagValue(env: int, flagId: int, enabled: int, value: string, updatedAt: int)
  datatype Doc = Doc(ms: int, env: int, locale: string, body: Document, updatedAt: int)

  datatype Db = Db(
    envs: map<int, string>,
    services: map<int, string>,
    flags: map<int, Flag>,
    values: map<int, FlagValue>,
    settings: map<int, Doc>,
    bundles: map<int, Doc>)

  datatype Error =
    | InvalidId | InvalidMicroserviceId | InvalidEnvironmentId | InvalidLocale | InvalidName
    | InvalidFlagKey | InvalidFlagState | InvalidFlagValue | FlagValueTooLarge | InvalidJson | DocumentTooLarge
    | EnvironmentNotFound | MicroserviceNotFound | FlagNotFound | DocumentNotFound
    | NameExists | FlagExists | FlagValueExists | DocumentExists
    | InUse | Conflict

  function Docs(db: Db, d: Domain): map<int, Doc> { if d.Settings? then db.settings else db.bundles }

  function WithDocs(db: Db, d: Domain, docs: map<int, Doc>): Db {
    if d.Settings? then db.(settings := docs) else db.(bundles := docs)
  }

  // A caller's document row: id is its own claim, expected the version it says it read.
  datatype DocInput = DocInput(id: int, ms: int, env: int, locale: string, body: Document, expected: Option<int>)

  // A settings row has no locale.
  function LocaleOf(d: Domain, input: DocInput): string { if d.Settings? then "" else input.locale }

  predicate SameKey(doc: Doc, ms: int, env: int, locale: string) { doc.ms == ms && doc.env == env && doc.locale == locale }

  predicate Taken(docs: map<int, Doc>, ms: int, env: int, locale: string, self: int) {
    exists id | id in docs :: id != self && SameKey(docs[id], ms, env, locale)
  }

  // The unique constraint on a document table's natural key.
  predicate KeyStored(docs: map<int, Doc>, ms: int, env: int, locale: string) {
    exists id | id in docs :: SameKey(docs[id], ms, env, locale)
  }

  function DocRefsError(db: Db, d: Domain, input: DocInput): Option<Error> {
    if input.ms !in db.services then Some(MicroserviceNotFound)
    else if input.env !in db.envs then Some(EnvironmentNotFound)
    else if Taken(Docs(db, d), input.ms, input.env, LocaleOf(d, input), input.id) then Some(DocumentExists)
    else None
  }

  function DocOf(d: Domain, input: DocInput, now: int): Doc {
    Doc(input.ms, input.env, LocaleOf(d, input), input.body, now)
  }

  function InsertDoc(db: Db, d: Domain, input: DocInput, newId: int, now: int): (Db, Option<Error>) {
    var refs := DocRefsError(db, d, input);
    if refs.Some? then (db, refs)
    else if KeyStored(Docs(db, d), input.ms, input.env, LocaleOf(d, input)) then (db, Some(DocumentExists))
    else (WithDocs(db, d, Docs(db, d)[newId := DocOf(d, input, now)]), None)
  }

  // A guarded update that matches no row is a conflict if the row is there, and not found if it is not.
  function UpdateDoc(db: Db, d: Domain, input: DocInput, now: int): (Db, Option<Error>) {
    var docs := Docs(db, d);
    var refs := DocRefsError(db, d, input);
    if refs.Some? then (db, refs)
    else if input.id !in docs then (db, Some(DocumentNotFound))
    else if input.expected.Some? && docs[input.id].updatedAt != input.expected.value then (db, Some(Conflict))
    else (WithDocs(db, d, docs[input.id := DocOf(d, input, now)]), None)
  }

  function DeleteDoc(db: Db, d: Domain, id: int): (Db, Option<Error>) {
    if id !in Docs(db, d) then (db, Some(DocumentNotFound))
    else (WithDocs(db, d, Docs(db, d) - {id}), None)
  }

  function FlagValueRefsError(db: Db, env: int, flagId: int): Option<Error> {
    if env !in db.envs then Some(EnvironmentNotFound)
    else if flagId !in db.flags then Some(FlagNotFound)
    else if exists id | id in db.values :: db.values[id].env == env && db.values[id].flagId == flagId then Some(FlagValueExists)
    else None
  }

  function InsertFlagValue(db: Db, row: FlagValue, newId: int): (Db, Option<Error>) {
    var refs := FlagValueRefsError(db, row.env, row.flagId);
    if refs.Some? then (db, refs) else (db.(values := db.values[newId := row]), None)
  }

  // The row is read back joined with its flag, which is missing only where a reference dangles.
  function UpdateFlagValue(db: Db, id: int, value: string, enabled: int, expected: Option<int>, now: int): (Db, Option<Error>) {
    if id !in db.values then (db, Some(FlagNotFound))
    else if expected.Some? && db.values[id].updatedAt != expected.value then (db, Some(Conflict))
    else
      (db.(values := db.values[id := db.values[id].(value := value, enabled := enabled, updatedAt := now)]),
       if db.values[id].flagId in db.flags then None else Some(FlagNotFound))
  }

  // Read with its flag, so a value without one reads as missing.
  function DeleteFlagValue(db: Db, id: int): (Db, Option<Error>) {
    if id !in db.values || db.values[id].flagId !in db.flags then (db, Some(FlagNotFound))
    else (db.(values := db.values - {id}), None)
  }

  function InsertFlag(db: Db, flag: Flag, newId: int): (Db, Option<Error>) {
    if exists id | id in db.flags :: db.flags[id].flagKey == flag.flagKey then (db, Some(FlagExists))
    else (db.(flags := db.flags[newId := flag]), None)
  }

  function ValuesOf(db: Db, flagId: int): set<int> { set id | id in db.values && db.values[id].flagId == flagId }

  // A flag goes with all its values.
  function DeleteFlag(db: Db, id: int): (Db, Option<Error>) {
    if id !in db.flags then (db, Some(FlagNotFound))
    else (db.(flags := db.flags - {id}, values := db.values - ValuesOf(db, id)), None)
  }

  function InsertName(names: map<int, string>, name: string, newId: int): (map<int, string>, Option<Error>) {
    if exists id | id in names :: names[id] == name then (names, Some(NameExists)) else (names[newId := name], None)
  }

  predicate ServiceInUse(db: Db, id: int) {
    || (exists k | k in db.settings :: db.settings[k].ms == id)
    || (exists k | k in db.bundles :: db.bundles[k].ms == id)
  }

  predicate EnvironmentInUse(db: Db, id: int) {
    || (exists k | k in db.values :: db.values[k].env == id)
    || (exists k | k in db.settings :: db.settings[k].env == id)
    || (exists k | k in db.bundles :: db.bundles[k].env == id)
  }

  function DeleteService(db: Db, id: int): (Db, Option<Error>) {
    if ServiceInUse(db, id) then (db, Some(InUse))
    else if id !in db.services then (db, Some(MicroserviceNotFound))
    else (db.(services := db.services - {id}), None)
  }

  function DeleteEnvironment(db: Db, id: int): (Db, Option<Error>) {
    if EnvironmentInUse(db, id) then (db, Some(InUse))
    else if id !in db.envs then (db, Some(EnvironmentNotFound))
    else (db.(envs := db.envs - {id}), None)
  }
}
