/**
 The write guard: which environments a request really touches, and whether the token's
 scope covers them, joined to what the handler behind it then does.
 */
module ScopeGuard {
  import opened Options
  import opened Keys
  import opened Kv
  import opened Items
  import opened Tables
  import opened Admin
  import opened Integrity
  import opened Grants
  import opened Coherence
  import opened Services

  datatype Class = Global | Neutral | EnvBody | EnvPath | RowFlagValue | RowDoc(d: Domain)

  datatype Route =
    | PostEnvironments | DeleteEnvironments
    | PostMicroservices | DeleteMicroservices
    | PostFlags | DeleteFlags
    | PostFlagValues | PutFlagValues | DeleteFlagValues
    | PostDocs(d: Domain) | PutDocs(d: Domain) | DeleteDocs(d: Domain)

  // Declared where the route is registered.
  function ClassOf(route: Route): Class {
    match route
    case PostEnvironments => Global
    case DeleteEnvironments => EnvPath
    case PostMicroservices => Neutral
    case DeleteMicroservices => Global
    case PostFlags => Neutral
    case DeleteFlags => Global
    case PostFlagValues => EnvBody
    case PutFlagValues => RowFlagValue
    case DeleteFlagValues => RowFlagValue
    case PostDocs(_) => EnvBody
    case PutDocs(d) => RowDoc(d)
    case DeleteDocs(d) => RowDoc(d)
  }

  predicate HasPathId(route: Route) {
    route.DeleteEnvironments? || route.DeleteMicroservices? || route.DeleteFlags? || route.DeleteFlagValues? || route.DeleteDocs?
  }

  // What a handler decodes from a body, each reading the fields its model has.
  datatype Body = Body(id: int, env: int, ms: int, flagId: int, name: string, flagKey: string, isActive: int,
                       value: string, enabled: int, locale: string, doc: Document, expected: Option<int>)

  datatype Fields = Fields(id: int, env: int)

  // decoded is None when the handler answers 400; peek is what the guard reads for itself.
  datatype Http = Http(route: Route, pathId: string, peek: Fields, decoded: Option<Body>)

  // The guard's peek is either nothing, for a body it cannot parse, or the very id and environment the handler decodes.
  predicate Honest(http: Http) {
    && IsInt64(http.peek.id)
    && (http.decoded.Some? ==>
          http.peek == Fields(0, 0) || http.peek == Fields(http.decoded.value.id, http.decoded.value.env))
  }

  function PathValue(http: Http): string { if HasPathId(http.route) then http.pathId else "" }

  function BodyRequest(route: Route, b: Body): Request
    requires !HasPathId(route)
  {
    match route
    case PostEnvironments => CreateEnvironment(b.name)
    case PostMicroservices => CreateMicroservice(b.name)
    case PostFlags => CreateFlag(b.flagKey, b.isActive)
    case PostFlagValues => CreateFlagValue(b.flagId, b.env, b.value, b.enabled)
    case PutFlagValues => UpdateFlagValue(b.id, b.value, b.enabled, b.expected)
    case PostDocs(d) => CreateDoc(d, DocInput(b.id, b.ms, b.env, b.locale, b.doc, b.expected))
    case PutDocs(d) => UpdateDoc(d, DocInput(b.id, b.ms, b.env, b.locale, b.doc, b.expected))
  }

  function PathRequest(route: Route, id: int): Request
    requires HasPathId(route)
  {
    match route
    case DeleteEnvironments => DeleteEnvironment(id)
    case DeleteMicroservices => DeleteMicroservice(id)
    case DeleteFlags => DeleteFlag(id)
    case DeleteFlagValues => DeleteFlagValue(id)
    case DeleteDocs(d) => DeleteDoc(d, id)
  }

  // The request the handler makes of its service, or None where it answers 400 instead.
  function HandlerRequest(http: Http): Option<Request> {
    if HasPathId(http.route) then
      var id := ParseInt(http.pathId);
      if id.Some? then Some(PathRequest(http.route, id.value)) else None
    else if http.decoded.Some? then Some(BodyRequest(http.route, http.decoded.value))
    else None
  }

  // rowId is for the audit record; isGlobal stands for every environment, or one that could not be determined.
  datatype Target = Target(rowId: string, envs: seq<int>, isGlobal: bool)

  // None is full scope.
  type Scope = Option<set<int>>

  predicate Allows(scope: Scope, target: Target) {
    scope.None? || (!target.isGlobal && forall env | env in target.envs :: env in scope.value)
  }

  predicate MovesEnvironment(class_: Class) { class_.RowDoc? }

  // The environment of the row, if it is there and the read did not fail.
  function RowEnvironment(db: Db, class_: Class, id: int, readFails: bool): Option<int> {
    if readFails then None
    else if class_.RowFlagValue? && id in db.values then Some(db.values[id].env)
    else if class_.RowDoc? && id in Docs(db, class_.d) then Some(Docs(db, class_.d)[id].env)
    else None
  }

  function RowIdOf(http: Http): string {
    if PathValue(http) == "" && http.peek.id > 0 then Decimal(http.peek.id) else PathValue(http)
  }

  function ResolveRow(db: Db, http: Http, class_: Class, readFails: bool): Target {
    var rowId := RowIdOf(http);
    var id := ParseInt(rowId);
    if id.None? || id.value <= 0 then Target(rowId, [], true)
    else
      var env := RowEnvironment(db, class_, id.value, readFails);
      if env.None? then Target(rowId, [], true)
      else
        var moved := MovesEnvironment(class_) && http.peek.env > 0 && http.peek.env != env.value;
        Target(rowId, [env.value] + if moved then [http.peek.env] else [], false)
  }

  function Resolve(db: Db, http: Http, class_: Class, readFails: bool): Target {
    match class_
    case Neutral => Target(PathValue(http), [], false)
    case Global => Target(PathValue(http), [], true)
    case EnvPath =>
      var id := ParseInt(PathValue(http));
      if id.None? || id.value <= 0 then Target(PathValue(http), [], true) else Target(PathValue(http), [id.value], false)
    case EnvBody =>
      if http.peek.env <= 0 then Target(PathValue(http), [], true) else Target(PathValue(http), [http.peek.env], false)
    case _ => ResolveRow(db, http, class_, readFails)
  }

  // ---- What one environment holds ----

  ghost predicate SameEnvironment(a: Db, b: Db, env: int) {
    && (env in a.envs <==> env in b.envs) && (env in a.envs ==> a.envs[env] == b.envs[env])
    && SameValues(a.values, b.values, env)
    && SameDocs(a.settings, b.settings, env)
    && SameDocs(a.bundles, b.bundles, env)
  }

  ghost predicate SameValues(a: map<int, FlagValue>, b: map<int, FlagValue>, env: int) {
    && (forall id | id in a && a[id].env == env :: id in b && b[id] == a[id])
    && (forall id | id in b && b[id].env == env :: id in a && a[id] == b[id])
  }

  ghost predicate SameDocs(a: map<int, Doc>, b: map<int, Doc>, env: int) {
    && (forall id | id in a && a[id].env == env :: id in b && b[id] == a[id])
    && (forall id | id in b && b[id].env == env :: id in a && a[id] == b[id])
  }

  ghost predicate NoKeyIn(keys: set<string>, env: int) { forall k | k in keys :: !InEnvironment(k, env) }

  // A request touches an environment when it can change a row of it, or a key.
  ghost predicate Spares(db: Db, out: Outcome, env: int) {
    SameEnvironment(db, out.db, env) && NoKeyIn(Addressed(out.publish, out.purges), env)
  }

  function EnvOf(item: Item): int {
    match item
    case FlagItem(env, _, _, _) => env
    case SettingsItem(env, _, _) => env
    case BundleItem(env, _, _, _) => env
  }

  lemma KeyIsInItsEnvironment(item: Item, env: int)
    ensures InEnvironment(KeyOf(item), env) <==> EnvOf(item) == env
  {
    var own := EnvOf(item);
    assert InEnvironment(KeyOf(item), own) by {
      if item.BundleItem? {
        LocalizationKeyIsNested(item.env, item.ms, item.locale);
      }
    }
    if InEnvironment(KeyOf(item), env) {
      EnvironmentOfKey(KeyOf(item), own, env);
    }
  }

  lemma RefusalSpares(db: Db, e: Error, env: int)
    ensures Spares(db, Refuse(db, e), env)
  {
  }

  lemma PutDocSpares(db: Db, d: Domain, id: int, doc: Doc, env: int)
    requires doc.env != env && (id in Docs(db, d) ==> Docs(db, d)[id].env != env)
    ensures SameEnvironment(db, WithDocs(db, d, Docs(db, d)[id := doc]), env)
  {
  }

  lemma DropDocSpares(db: Db, d: Domain, id: int, env: int)
    requires id in Docs(db, d) ==> Docs(db, d)[id].env != env
    ensures SameEnvironment(db, WithDocs(db, d, Docs(db, d) - {id}), env)
  {
  }

  lemma PutValueSpares(db: Db, id: int, row: FlagValue, env: int)
    requires row.env != env && (id in db.values ==> db.values[id].env != env)
    ensures SameEnvironment(db, db.(values := db.values[id := row]), env)
  {
  }

  lemma DropValueSpares(db: Db, id: int, env: int)
    requires id in db.values ==> db.values[id].env != env
    ensures SameEnvironment(db, db.(values := db.values - {id}), env)
  {
  }

  lemma CreateDocumentSpares(db: Db, d: Domain, input: DocInput, newId: int, now: int, env: int)
    requires newId !in Docs(db, d) && env != input.env
    ensures Spares(db, CreateDocument(db, d, input, newId, now), env)
  {
    hide CheckInput, DocRefsError, KeyStored, KeyOf, InEnvironment, SameEnvironment, Docs, WithDocs;
    var doc := DocOf(d, input, now);
    UntouchedSpares(db, env);
    PutDocSpares(db, d, newId, doc, env);
    KeyIsInItsEnvironment(DocItem(d, doc), env);
  }

  lemma UntouchedSpares(db: Db, env: int)
    ensures SameEnvironment(db, db, env)
  {
  }

  // An update spares every environment but the one its row leaves and the one it enters.
  lemma UpdateDocumentSpares(db: Db, d: Domain, input: DocInput, now: int, env: int)
    requires env != input.env && (input.id in Docs(db, d) ==> Docs(db, d)[input.id].env != env)
    ensures Spares(db, UpdateDocument(db, d, input, now), env)
  {
    hide CheckInput, DocRefsError, KeyOf, InEnvironment, SameEnvironment, Docs, WithDocs;
    var doc := DocOf(d, input, now);
    UntouchedSpares(db, env);
    PutDocSpares(db, d, input.id, doc, env);
    KeyIsInItsEnvironment(DocItem(d, doc), env);
    if input.id in Docs(db, d) {
      KeyIsInItsEnvironment(DocItem(d, Docs(db, d)[input.id]), env);
    }
  }

  lemma DeleteDocumentSpares(db: Db, d: Domain, id: int, env: int)
    requires id in Docs(db, d) ==> Docs(db, d)[id].env != env
    ensures Spares(db, DeleteDocument(db, d, id), env)
  {
    hide KeyOf, InEnvironment, SameEnvironment, Docs, WithDocs;
    UntouchedSpares(db, env);
    DropDocSpares(db, d, id, env);
    if id in Docs(db, d) {
      KeyIsInItsEnvironment(DocItem(d, Docs(db, d)[id]), env);
    }
  }

  lemma CreateValueSpares(db: Db, flagId: int, e: int, value: string, enabled: int, newId: int, now: int, env: int)
    requires newId !in db.values && env != e
    ensures Spares(db, CreateValue(db, flagId, e, value, enabled, newId, now), env)
  {
    hide CheckValue, KeyOf, InEnvironment, SameEnvironment;
    var row := FlagValue(e, flagId, enabled, value, now);
    UntouchedSpares(db, env);
    PutValueSpares(db, newId, row, env);
    if flagId in db.flags {
      KeyIsInItsEnvironment(FlagItemOf(db, row), env);
    }
  }

  lemma UpdateValueSpares(db: Db, id: int, value: string, enabled: int, expected: Option<int>, now: int, env: int)
    requires id in db.values ==> db.values[id].env != env
    ensures Spares(db, UpdateValue(db, id, value, enabled, expected, now), env)
  {
    hide CheckValue, KeyOf, InEnvironment, SameEnvironment;
    UntouchedSpares(db, env);
    if id in db.values {
      var row := db.values[id].(value := value, enabled := enabled, updatedAt := now);
      PutValueSpares(db, id, row, env);
      if row.flagId in db.flags {
        KeyIsInItsEnvironment(FlagItemOf(db, row), env);
      }
    }
  }

  lemma DeleteValueSpares(db: Db, id: int, env: int)
    requires id in db.values ==> db.values[id].env != env
    ensures Spares(db, DeleteValue(db, id), env)
  {
    hide KeyOf, InEnvironment, SameEnvironment;
    UntouchedSpares(db, env);
    DropValueSpares(db, id, env);
    if id in db.values && db.values[id].flagId in db.flags {
      KeyIsInItsEnvironment(FlagItemOf(db, db.values[id]), env);
    }
  }

  // The request names no row of this environment, and would make none.
  predicate Away(db: Db, request: Request, env: int) {
    match request
    case CreateEnvironment(_) => false
    case DeleteEnvironment(id) => id != env
    case CreateMicroservice(_) => true
    case DeleteMicroservice(_) => true
    case CreateFlag(_, _) => true
    case DeleteFlag(_) => false
    case CreateFlagValue(_, e, _, _) => e != env
    case UpdateFlagValue(id, _, _, _) => id in db.values ==> db.values[id].env != env
    case DeleteFlagValue(id) => id in db.values ==> db.values[id].env != env
    case CreateDoc(_, input) => input.env != env
    case UpdateDoc(d, input) =>
      (input.id in Docs(db, d) ==> Docs(db, d)[input.id].env != env) && (input.env <= 0 || input.env != env)
    case DeleteDoc(d, id) => id in Docs(db, d) ==> Docs(db, d)[id].env != env
  }

  lemma UnpublishedSpares(db: Db, request: Request, newId: int, now: int, env: int)
    requires Unpublished(request) && Away(db, request, env)
    ensures Spares(db, Serve(db, request, newId, now), env)
  {
    hide TrimSpace, ValidFlagKey, EnvironmentInUse, ServiceInUse, SameValues, SameDocs, InEnvironment;
    UnpublishedOutcome(db, request, newId, now);
    UntouchedSpares(db, env);
    var after := Serve(db, request, newId, now).db;
    assert env in db.envs <==> env in after.envs;
    assert SameValues(db.values, after.values, env) && SameDocs(db.settings, after.settings, env)
           && SameDocs(db.bundles, after.bundles, env);
  }

  lemma AwaySpares(db: Db, request: Request, newId: int, now: int, env: int)
    requires FreshId(db, request, newId) && Away(db, request, env)
    ensures Spares(db, Serve(db, request, newId, now), env)
  {
    hide Spares, CreateDocument, DeleteDocument, CreateValue, UpdateValue, DeleteValue;
    if Unpublished(request) {
      UnpublishedSpares(db, request, newId, now, env);
      return;
    }
    match request
    case CreateFlagValue(flagId, e, value, enabled) => CreateValueSpares(db, flagId, e, value, enabled, newId, now, env);
    case UpdateFlagValue(id, value, enabled, expected) => UpdateValueSpares(db, id, value, enabled, expected, now, env);
    case DeleteFlagValue(id) => DeleteValueSpares(db, id, env);
    case CreateDoc(d, input) => CreateDocumentSpares(db, d, input, newId, now, env);
    case UpdateDoc(d, input) => MoveSpares(db, d, input, now, env);
    case DeleteDoc(d, id) => DeleteDocumentSpares(db, d, id, env);
  }

  lemma MoveSpares(db: Db, d: Domain, input: DocInput, now: int, env: int)
    requires Away(db, UpdateDoc(d, input), env)
    ensures Spares(db, UpdateDocument(db, d, input, now), env)
  {
    if input.env <= 0 {
      hide UpdateDocument, Spares;
      NoSuchEnvironment(db, d, input, now);
      RefusalSpares(db, UpdateDocument(db, d, input, now).error.value, env);
    } else {
      UpdateDocumentSpares(db, d, input, now, env);
    }
  }

  lemma NoSuchEnvironment(db: Db, d: Domain, input: DocInput, now: int)
    requires input.env <= 0
    ensures var out := UpdateDocument(db, d, input, now); out.error.Some? && out == Refuse(db, out.error.value)
  {
  }

  // What the guard lets a scoped token do names no row outside the scope, whatever the body claims.
  lemma AllowedIsAway(db: Db, http: Http, scope: set<int>, readFails: bool, env: int)
    requires Honest(http) && env !in scope
    requires Allows(Some(scope), Resolve(db, http, ClassOf(http.route), readFails))
    requires HandlerRequest(http).Some?
    ensures Away(db, HandlerRequest(http).value, env)
  {
    hide ParseInt, Decimal;
    var target := Resolve(db, http, ClassOf(http.route), readFails);
    assert forall e | e in target.envs :: e in scope;
    if HasPathId(http.route) {
      AllowedPathIsAway(db, http, scope, readFails, env);
    } else {
      AllowedBodyIsAway(db, http, scope, readFails, env);
    }
  }

  lemma AllowedPathIsAway(db: Db, http: Http, scope: set<int>, readFails: bool, env: int)
    requires env !in scope && HasPathId(http.route)
    requires Allows(Some(scope), Resolve(db, http, ClassOf(http.route), readFails))
    requires HandlerRequest(http).Some?
    ensures Away(db, HandlerRequest(http).value, env)
  {
    hide ParseInt, Decimal;
    var target := Resolve(db, http, ClassOf(http.route), readFails);
    assert ParseInt("").None? by { EmptyIsNoInt(); }
    assert !target.isGlobal;
    assert target.envs[..] == target.envs;
    if ClassOf(http.route) != Neutral {
      assert target.envs != [] && target.envs[0] in target.envs;
    }
  }

  lemma EmptyIsNoInt()
    ensures ParseInt("").None?
  {
  }

  lemma AllowedBodyIsAway(db: Db, http: Http, scope: set<int>, readFails: bool, env: int)
    requires Honest(http) && env !in scope && !HasPathId(http.route)
    requires Allows(Some(scope), Resolve(db, http, ClassOf(http.route), readFails))
    requires HandlerRequest(http).Some?
    ensures Away(db, HandlerRequest(http).value, env)
  {
    hide ParseInt, Decimal;
    var target := Resolve(db, http, ClassOf(http.route), readFails);
    EmptyIsNoInt();
    DecimalRoundTrip(http.peek.id);
    assert forall i | 0 <= i < |target.envs| :: target.envs[i] in scope;
  }

  // A request that passes the guard for a scoped token changes no row and addresses no key of any environment
  // outside the scope.
  lemma ScopeConfines(db: Db, http: Http, scope: set<int>, readFails: bool, newId: int, now: int, env: int)
    requires Honest(http) && env !in scope
    requires Allows(Some(scope), Resolve(db, http, ClassOf(http.route), readFails))
    requires HandlerRequest(http).Some? && FreshId(db, HandlerRequest(http).value, newId)
    ensures Spares(db, Serve(db, HandlerRequest(http).value, newId, now), env)
  {
    hide Spares, Serve, Resolve, Allows, HandlerRequest, Honest, Away;
    AllowedIsAway(db, http, scope, readFails, env);
    AwaySpares(db, HandlerRequest(http).value, newId, now, env);
  }

  // ---- Exactly what passes ----

  // The id a row-addressed request names: the path's, or the body's where the path has none.
  function AddressedId(http: Http): Option<int> {
    if HasPathId(http.route) && http.pathId != "" then ParseInt(http.pathId) else Some(http.peek.id)
  }

  predicate ValueInScope(db: Db, id: Option<int>, scope: set<int>) {
    id.Some? && 0 < id.value && id.value in db.values && db.values[id.value].env in scope
  }

  // Where the body names an environment, the row may be about to move there.
  predicate DocInScope(docs: map<int, Doc>, id: Option<int>, env: int, scope: set<int>) {
    id.Some? && 0 < id.value && id.value in docs && docs[id.value].env in scope && (0 < env ==> env in scope)
  }

  // What a scoped token may do, route by route.
  predicate MayWrite(db: Db, http: Http, scope: set<int>, readFails: bool) {
    match http.route
    case PostMicroservices => true
    case PostFlags => true
    case PostEnvironments => false
    case DeleteMicroservices => false
    case DeleteFlags => false
    case DeleteEnvironments => var id := ParseInt(http.pathId); id.Some? && 0 < id.value && id.value in scope
    case PostFlagValues => 0 < http.peek.env && http.peek.env in scope
    case PostDocs(_) => 0 < http.peek.env && http.peek.env in scope
    case PutFlagValues => !readFails && ValueInScope(db, AddressedId(http), scope)
    case DeleteFlagValues => !readFails && ValueInScope(db, AddressedId(http), scope)
    case PutDocs(d) => !readFails && DocInScope(Docs(db, d), AddressedId(http), http.peek.env, scope)
    case DeleteDocs(d) => !readFails && DocInScope(Docs(db, d), AddressedId(http), http.peek.env, scope)
  }

  // Full scope passes always.
  predicate Passes(db: Db, http: Http, scope: Scope, readFails: bool) {
    scope.Some? ==> MayWrite(db, http, scope.value, readFails)
  }

  // The row the guard looks up is the addressed one, or none where the id is no positive number.
  lemma RowIdIsAddressed(http: Http)
    requires IsInt64(http.peek.id)
    ensures var id, addressed := ParseInt(RowIdOf(http)), AddressedId(http);
            && (id.Some? && 0 < id.value <==> addressed.Some? && 0 < addressed.value)
            && (id.Some? && 0 < id.value ==> id == addressed)
  {
    hide ParseInt, Decimal;
    EmptyIsNoInt();
    DecimalRoundTrip(http.peek.id);
  }

  // A row-addressed write is let through exactly when the row is there to be read, in an environment of the scope,
  // and any environment the body would move it to is in the scope as well.
  lemma RowWriteAllowed(db: Db, http: Http, scope: set<int>, readFails: bool)
    requires IsInt64(http.peek.id) && (ClassOf(http.route).RowDoc? || ClassOf(http.route).RowFlagValue?)
    ensures Allows(Some(scope), Resolve(db, http, ClassOf(http.route), readFails)) <==> MayWrite(db, http, scope, readFails)
  {
    hide ParseInt, RowIdOf, AddressedId;
    RowIdIsAddressed(http);
    var target := Resolve(db, http, ClassOf(http.route), readFails);
    if !target.isGlobal {
      assert target.envs[0] in target.envs;
      assert |target.envs| > 1 ==> target.envs[1] in target.envs;
    }
  }

  lemma OneEnvironment(env: int, scope: set<int>)
    ensures Allows(Some(scope), Target("", [env], false)) <==> env in scope
  {
    assert [env][0] in [env];
  }

  // A request passes the guard exactly when its token may write what its route, path and body say it writes.
  lemma PassesExactly(db: Db, http: Http, scope: Scope, readFails: bool)
    requires IsInt64(http.peek.id)
    ensures Allows(scope, Resolve(db, http, ClassOf(http.route), readFails)) <==> Passes(db, http, scope, readFails)
  {
    if scope.Some? {
      hide ParseInt, RowIdOf, AddressedId, ResolveRow;
      var class_ := ClassOf(http.route);
      if class_.RowDoc? || class_.RowFlagValue? {
        RowWriteAllowed(db, http, scope.value, readFails);
      } else if class_.EnvBody? {
        OneEnvironment(http.peek.env, scope.value);
      } else if class_.EnvPath? && ParseInt(http.pathId).Some? {
        OneEnvironment(ParseInt(http.pathId).value, scope.value);
      }
    }
  }

  // The request names what it writes within the scope.
  predicate Within(db: Db, request: Request, scope: set<int>) {
    match request
    case CreateEnvironment(_) => false
    case DeleteEnvironment(id) => 0 < id && id in scope
    case CreateMicroservice(_) => true
    case DeleteMicroservice(_) => false
    case CreateFlag(_, _) => true
    case DeleteFlag(_) => false
    case CreateFlagValue(_, env, _, _) => 0 < env && env in scope
    case UpdateFlagValue(id, _, _, _) => ValueInScope(db, Some(id), scope)
    case DeleteFlagValue(id) => ValueInScope(db, Some(id), scope)
    case CreateDoc(_, input) => 0 < input.env && input.env in scope
    case UpdateDoc(d, input) => DocInScope(Docs(db, d), Some(input.id), input.env, scope)
    case DeleteDoc(d, id) => DocInScope(Docs(db, d), Some(id), 0, scope)
  }

  // The guard reads the whole of a body it can parse, and a delete has none.
  predicate Plain(http: Http) {
    if HasPathId(http.route) then http.peek == Fields(0, 0)
    else http.decoded.Some? && http.peek == Fields(http.decoded.value.id, http.decoded.value.env)
  }

  // So the request the handler makes is let through exactly when it stays within the scope: nothing is let out, and
  // nothing within is turned away.
  lemma PassesWithin(db: Db, http: Http, scope: set<int>)
    requires IsInt64(http.peek.id) && Plain(http) && HandlerRequest(http).Some?
    ensures Allows(Some(scope), Resolve(db, http, ClassOf(http.route), false)) <==> Within(db, HandlerRequest(http).value, scope)
  {
    hide ParseInt, Resolve, Allows;
    EmptyIsNoInt();
    PassesExactly(db, http, Some(scope), false);
  }

  // ---- From the body to the row ----

  // What the tables hold of a body once its write is granted.
  ghost predicate HoldsValue(after: Db, http: Http, b: Body, newId: int, now: int) {
    && (http.route.PostFlagValues? ==>
          newId in after.values && after.values[newId] == FlagValue(b.env, b.flagId, b.enabled, b.value, now))
    && (http.route.PutFlagValues? ==>
          b.id in after.values && after.values[b.id].enabled == b.enabled && after.values[b.id].value == b.value)
  }

  ghost predicate HoldsDoc(after: Db, http: Http, b: Body, newId: int, now: int) {
    http.route.PostDocs? || http.route.PutDocs? ==>
      var id := if http.route.PostDocs? then newId else b.id;
      var docs := if http.route.d.Settings? then after.settings else after.bundles;
      id in docs && docs[id] == Doc(b.ms, b.env, if http.route.d.Settings? then "" else b.locale, b.doc, now)
  }

  ghost predicate HoldsReference(after: Db, http: Http, b: Body, newId: int) {
    && (http.route.PostFlags? ==> newId in after.flags && after.flags[newId] == Flag(b.flagKey, b.isActive))
    && (http.route.PostEnvironments? ==> newId in after.envs && Trims(b.name, after.envs[newId]))
    && (http.route.PostMicroservices? ==> newId in after.services && Trims(b.name, after.services[newId]))
  }

  lemma TablesHold(db: Db, http: Http, b: Body, newId: int, now: int)
    requires !HasPathId(http.route) && Holds(db) && Granted(db, BodyRequest(http.route, b))
    ensures var after := TablesAfter(db, BodyRequest(http.route, b), newId, now);
            HoldsValue(after, http, b, newId, now) && HoldsDoc(after, http, b, newId, now) && HoldsReference(after, http, b, newId)
  {
    hide Holds, GoodInput, GoodState, GoodName, GoodSegment, Free, NewPair, TrimSpace, Trims;
    TrimSpaceTrims(b.name, TrimSpace(b.name));
  }

  // A write that is granted stores what the body says, field for field.
  lemma StoredAsSent(db: Db, http: Http, newId: int, now: int)
    requires !HasPathId(http.route) && http.decoded.Some?
    requires Holds(db) && FreshId(db, HandlerRequest(http).value, newId)
    requires Serve(db, HandlerRequest(http).value, newId, now).error.None?
    ensures var after, b := Serve(db, HandlerRequest(http).value, newId, now).db, http.decoded.value;
            HoldsValue(after, http, b, newId, now) && HoldsDoc(after, http, b, newId, now) && HoldsReference(after, http, b, newId)
  {
    hide Serve, Holds, FreshId, Granted, HoldsValue, HoldsDoc, HoldsReference, BodyRequest, TablesAfter;
    var request := HandlerRequest(http).value;
    GrantedExactly(db, request, newId, now);
    GrantedIsDone(db, request, newId, now);
    TablesHold(db, http, http.decoded.value, newId, now);
  }

  ghost predicate NoOwnWriteIn(a: Log, b: Log, env: int) {
    a <= b && forall i | |a| <= i < |b| && b[i].own :: !InEnvironment(b[i].key, env)
  }

  lemma NothingWritten(db: Db)
    ensures forall log, env :: NoOwnWriteIn(log, log, env)
    ensures forall env :: SameEnvironment(db, db, env)
  {
  }

  lemma SparedBuckets(db: Db, out: Outcome, a: Log, b: Log, before: seq<Turn>, after: seq<Turn>, failed: set<string>, env: int)
    requires Spares(db, out, env) && Settled(a, b, before, after, out.publish, out.purges, failed)
    ensures SameEnvironment(db, out.db, env) && NoOwnWriteIn(a, b, env)
  {
    hide SameEnvironment, InEnvironment, WroteThrough, TookPlace, KeyOf;
  }

  datatype Status = Forbidden | BadRequest | Served(error: Option<Error>)

  class Security {
    const api: Api

    constructor (api: Api)
      ensures this.api == api
    {
      this.api := api;
    }

    // Nothing is read from the tables unless the class is addressed by row.
    method LookupRowEnvironment(class_: Class, id: int, readFails: bool) returns (env: Option<int>)
      ensures env == RowEnvironment(api.store.Snapshot(), class_, id, readFails)
    {
      env := None;
      if !readFails {
        if class_.RowFlagValue? && id in api.store.values {
          env := Some(api.store.values[id].env);
        }
        if class_.RowDoc? {
          var docs := if class_.d.Settings? then api.store.settings else api.store.bundles;
          if id in docs {
            env := Some(docs[id].env);
          }
        }
      }
    }

    // Fills the target in step by step; whatever cannot be determined counts as every environment.
    method ResolveTarget(http: Http, class_: Class, readFails: bool) returns (target: Target)
      ensures target == Resolve(api.store.Snapshot(), http, class_, readFails)
    {
      hide ParseInt, Decimal;
      target := Target(PathValue(http), [], false);
      match class_ {
        case Neutral => return;
        case Global => return target.(isGlobal := true);
        case EnvPath =>
          var id := ParseInt(target.rowId);
          if id.None? || id.value <= 0 {
            return target.(isGlobal := true);
          }
          return target.(envs := [id.value]);
        case EnvBody =>
          if http.peek.env <= 0 {
            return target.(isGlobal := true);
          }
          return target.(envs := [http.peek.env]);
        case _ =>
      }
      if target.rowId == "" && http.peek.id > 0 {
        target := target.(rowId := Decimal(http.peek.id));
      }
      var id := ParseInt(target.rowId);
      if id.None? || id.value <= 0 {
        return target.(isGlobal := true);
      }
      var env := LookupRowEnvironment(class_, id.value, readFails);
      if env.None? {
        return target.(isGlobal := true);
      }
      target := target.(envs := target.envs + [env.value]);
      if MovesEnvironment(class_) && http.peek.env > 0 && http.peek.env != env.value {
        target := target.(envs := target.envs + [http.peek.env]);
      }
    }

    // The guard and the handler behind it, as one request, refused exactly when the route does not let it through. A scoped token leaves every row and every key outside its
    // scope as they were, but for what other writers put there.
    method Guard(scope: Scope, http: Http, readFails: bool, newId: int, now: int, stamps: nat -> string) returns (status: Status)
      requires Honest(http)
      requires HandlerRequest(http).Some? ==> FreshId(api.store.Snapshot(), HandlerRequest(http).value, newId)
      modifies api.store, api.flagsKv, api.settingsKv, api.bundlesKv
      ensures status == Forbidden <==> !Passes(old(api.store.Snapshot()), http, scope, readFails)
      ensures status == BadRequest <==> Passes(old(api.store.Snapshot()), http, scope, readFails) && HandlerRequest(http).None?
      ensures status.Served? ==>
                var out := Serve(old(api.store.Snapshot()), HandlerRequest(http).value, newId, now);
                api.store.Snapshot() == out.db && status.error == out.error
      ensures status == Forbidden || status == BadRequest ==>
                && api.store.Snapshot() == old(api.store.Snapshot())
                && forall b: BucketName :: api.BucketNamed(b).log == old(api.BucketNamed(b).log)
      ensures scope.Some? ==> forall env | env !in scope.value ::
                SameEnvironment(old(api.store.Snapshot()), api.store.Snapshot(), env)
                && forall b: BucketName :: NoOwnWriteIn(old(api.BucketNamed(b).log), api.BucketNamed(b).log, env)
    {
      PassesExactly(api.store.Snapshot(), http, scope, readFails);
      hide Resolve, Allows, Passes, HandlerRequest, Honest, Settled, Serve, FreshId, Spares, SameEnvironment, NoOwnWriteIn;
      ghost var db := api.store.Snapshot();
      NothingWritten(db);
      var target := ResolveTarget(http, ClassOf(http.route), readFails);
      if !Allows(scope, target) {
        return Forbidden;
      }
      var request := HandlerRequest(http);
      if request.None? {
        return BadRequest;
      }
      var e;
      ghost var failed;
      label before:
      e, failed := api.Handle(request.value, newId, now, stamps);
      status := Served(e);
      if scope.Some? {
        forall env | env !in scope.value
          ensures SameEnvironment(db, api.store.Snapshot(), env)
          ensures forall b: BucketName :: NoOwnWriteIn(old@before(api.BucketNamed(b).log), api.BucketNamed(b).log, env)
        {
          ScopeConfines(db, http, scope.value, readFails, newId, now, env);
          ghost var out := Serve(db, request.value, newId, now);
          ghost var kv := api.BucketNamed(BucketFor(request.value));
          SparedBuckets(db, out, old@before(kv.log), kv.log, old@before(kv.schedule), kv.schedule, failed, env);
        }
      }
    }
  }
}
