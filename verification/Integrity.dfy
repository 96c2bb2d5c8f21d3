/**
 What every sequential run of admin requests keeps true of the tables.
 */
module Integrity {
  import opened Options
  import opened Keys
  import opened Tables
  import opened Admin

  ghost predicate UniqueNames(names: map<int, string>) {
    forall i, j | i in names && j in names && names[i] == names[j] :: i == j
  }

  ghost predicate UniqueFlagKeys(flags: map<int, Flag>) {
    forall i, j | i in flags && j in flags && flags[i].flagKey == flags[j].flagKey :: i == j
  }

  ghost predicate GoodIds<T>(rows: map<int, T>) { forall id | id in rows :: 0 < id && IsInt64(id) }

  // Every value's references resolve, and no environment has two values of one flag.
  ghost predicate ValuesHold(db: Db) {
    && (forall id | id in db.values :: db.values[id].env in db.envs && db.values[id].flagId in db.flags)
    && (forall i, j | i in db.values && j in db.values
                      && db.values[i].env == db.values[j].env && db.values[i].flagId == db.values[j].flagId :: i == j)
  }

  ghost predicate DocHolds(db: Db, d: Domain, doc: Doc) {
    && doc.ms in db.services && doc.env in db.envs
    && (if d.Settings? then doc.locale == "" else ValidLocale(doc.locale))
    && CheckDocument(doc.body).None?
  }

  // Every document's references resolve, its content passed the checks, and its natural key is its own.
  ghost predicate DocsHold(db: Db, d: Domain) {
    var docs := Docs(db, d);
    && (forall id | id in docs :: DocHolds(db, d, docs[id]))
    && (forall i, j | i in docs && j in docs && SameKey(docs[i], docs[j].ms, docs[j].env, docs[j].locale) :: i == j)
  }

  ghost predicate Holds(db: Db) {
    && UniqueNames(db.envs) && GoodIds(db.envs)
    && UniqueNames(db.services) && GoodIds(db.services)
    && UniqueFlagKeys(db.flags) && (forall id | id in db.flags :: ValidFlagKey(db.flags[id].flagKey))
    && ValuesHold(db)
    && (forall d: Domain :: DocsHold(db, d))
  }

  // Identity columns never hand out an id in use.
  predicate FreshId(db: Db, request: Request, newId: int) {
    && 0 < newId && IsInt64(newId)
    && match request
       case CreateEnvironment(_) => newId !in db.envs
       case CreateMicroservice(_) => newId !in db.services
       case CreateFlag(_, _) => newId !in db.flags
       case CreateFlagValue(_, _, _, _) => newId !in db.values
       case CreateDoc(d, _) => newId !in Docs(db, d)
       case _ => true
  }

  lemma InsertDocHolds(db: Db, d: Domain, input: DocInput, newId: int, now: int)
    requires Holds(db) && CheckInput(d, input).None? && newId !in Docs(db, d)
    ensures Holds(InsertDoc(db, d, input, newId, now).0)
  {
    hide CheckDocument, ValidLocale;
    var (after, e) := InsertDoc(db, d, input, newId, now);
    if e.None? {
      DocWritten(db, d, newId, DocOf(d, input, now));
    }
  }

  // Storing a document whose references resolve and whose natural key no other row has.
  lemma DocWritten(db: Db, d: Domain, id: int, doc: Doc)
    requires Holds(db) && DocHolds(db, d, doc) && !Taken(Docs(db, d), doc.ms, doc.env, doc.locale, id)
    ensures Holds(WithDocs(db, d, Docs(db, d)[id := doc]))
  {
    hide UniqueNames, GoodIds, UniqueFlagKeys, ValidFlagKey, ValidLocale, CheckDocument;
    var docs, written := Docs(db, d), Docs(db, d)[id := doc];
    var after := WithDocs(db, d, written);
    assert DocsHold(db, d);
    forall i, j | i in written && j in written && SameKey(written[i], written[j].ms, written[j].env, written[j].locale)
      ensures i == j
    {
      assert i != id ==> written[i] == docs[i];
      assert j != id ==> written[j] == docs[j];
    }
    DocsMean(db, d);
    assert DocsHold(after, d);
    OtherDocs(db, after, d);
  }

  lemma OtherDocs(db: Db, after: Db, d: Domain)
    requires Holds(db) && after == WithDocs(db, d, Docs(after, d)) && DocsHold(after, d)
    ensures Holds(after)
  {
    hide UniqueNames, GoodIds, UniqueFlagKeys, ValidFlagKey, ValidLocale, CheckDocument;
    forall e: Domain ensures DocsHold(after, e) {
      if e != d {
        DocsMean(db, e);
        DocsStillHold(db, after, e);
      }
    }
  }

  lemma UpdateDocHolds(db: Db, d: Domain, input: DocInput, now: int)
    requires Holds(db) && CheckInput(d, input).None?
    ensures Holds(Tables.UpdateDoc(db, d, input, now).0)
  {
    hide CheckDocument, ValidLocale;
    var (after, e) := Tables.UpdateDoc(db, d, input, now);
    if e.None? {
      DocWritten(db, d, input.id, DocOf(d, input, now));
    }
  }

  // Rows may always go; what they referred to stays.
  lemma FewerDocsHold(db: Db, d: Domain, ids: set<int>)
    requires Holds(db)
    ensures Holds(WithDocs(db, d, Docs(db, d) - ids))
  {
    hide UniqueNames, GoodIds, UniqueFlagKeys, ValidFlagKey, ValidLocale, CheckDocument;
    var after := WithDocs(db, d, Docs(db, d) - ids);
    assert DocsHold(db, d);
    DocsMean(db, d);
    assert DocsHold(after, d);
    OtherDocs(db, after, d);
  }

  // Adding to the reference tables, or deleting what nothing refers to, leaves every reference resolved.
  lemma DocsStillHold(db: Db, after: Db, d: Domain)
    requires DocsHold(db, d) && Docs(after, d) == Docs(db, d)
    requires forall id | id in Docs(db, d) :: Docs(db, d)[id].ms in after.services && Docs(db, d)[id].env in after.envs
    ensures DocsHold(after, d)
  {
    forall id | id in Docs(after, d) ensures DocHolds(after, d, Docs(after, d)[id]) {
      assert DocHolds(db, d, Docs(db, d)[id]);
    }
  }

  lemma EnvironmentHolds(db: Db, name: string, newId: int)
    requires Holds(db) && 0 < newId && IsInt64(newId) && newId !in db.envs
    ensures Holds(db.(envs := InsertName(db.envs, name, newId).0))
  {
    hide UniqueFlagKeys, ValidFlagKey, DocsHold;
    var after := db.(envs := InsertName(db.envs, name, newId).0);
    forall d: Domain ensures DocsHold(after, d) {
      assert DocsHold(db, d);
      assert forall id | id in Docs(db, d) :: DocHolds(db, d, Docs(db, d)[id]) by { DocsMean(db, d); }
      DocsStillHold(db, after, d);
    }
  }

  lemma DocsMean(db: Db, d: Domain)
    requires DocsHold(db, d)
    ensures forall id | id in Docs(db, d) :: DocHolds(db, d, Docs(db, d)[id])
  {
  }

  lemma MicroserviceHolds(db: Db, name: string, newId: int)
    requires Holds(db) && 0 < newId && IsInt64(newId) && newId !in db.services
    ensures Holds(db.(services := InsertName(db.services, name, newId).0))
  {
    hide UniqueFlagKeys, ValidFlagKey, DocsHold;
    var after := db.(services := InsertName(db.services, name, newId).0);
    forall d: Domain ensures DocsHold(after, d) {
      assert DocsHold(db, d);
      DocsMean(db, d);
      DocsStillHold(db, after, d);
    }
  }

  lemma DeleteServiceHolds(db: Db, id: int)
    requires Holds(db)
    ensures Holds(DeleteService(db, id).0)
  {
    hide UniqueFlagKeys, ValidFlagKey, DocsHold;
    var after := DeleteService(db, id).0;
    forall d: Domain ensures DocsHold(after, d) {
      assert DocsHold(db, d);
      DocsMean(db, d);
      DocsStillHold(db, after, d);
    }
  }

  lemma DeleteEnvironmentHolds(db: Db, id: int)
    requires Holds(db)
    ensures Holds(Tables.DeleteEnvironment(db, id).0)
  {
    hide UniqueFlagKeys, ValidFlagKey, DocsHold;
    var after := Tables.DeleteEnvironment(db, id).0;
    forall d: Domain ensures DocsHold(after, d) {
      assert DocsHold(db, d);
      DocsMean(db, d);
      DocsStillHold(db, after, d);
    }
  }

  // Changes to the flags and their values leave the documents' side alone.
  lemma FlagSideHolds(db: Db, after: Db)
    requires Holds(db) && after == db.(flags := after.flags, values := after.values)
    requires UniqueFlagKeys(after.flags) && (forall id | id in after.flags :: ValidFlagKey(after.flags[id].flagKey))
    requires ValuesHold(after)
    ensures Holds(after)
  {
    hide UniqueFlagKeys, ValidFlagKey, ValuesHold;
    DocsMean(db, Settings);
    DocsMean(db, Bundles);
    DocsStillHold(db, after, Settings);
    DocsStillHold(db, after, Bundles);
  }

  lemma FlagHolds(db: Db, flag: Flag, newId: int)
    requires Holds(db) && newId !in db.flags && ValidFlagKey(flag.flagKey)
    ensures Holds(InsertFlag(db, flag, newId).0)
  {
    hide ValidFlagKey, DocsHold, UniqueNames;
    FlagSideHolds(db, InsertFlag(db, flag, newId).0);
  }

  lemma DeleteFlagHolds(db: Db, id: int)
    requires Holds(db)
    ensures Holds(Tables.DeleteFlag(db, id).0)
  {
    hide ValidFlagKey, DocsHold, UniqueNames;
    FlagSideHolds(db, Tables.DeleteFlag(db, id).0);
  }

  lemma InsertValueHolds(db: Db, row: FlagValue, newId: int)
    requires Holds(db) && newId !in db.values
    ensures Holds(InsertFlagValue(db, row, newId).0)
  {
    hide ValidFlagKey, DocsHold, UniqueNames, UniqueFlagKeys;
    FlagSideHolds(db, InsertFlagValue(db, row, newId).0);
  }

  lemma UpdateValueHolds(db: Db, id: int, value: string, enabled: int, expected: Option<int>, now: int)
    requires Holds(db)
    ensures Holds(Tables.UpdateFlagValue(db, id, value, enabled, expected, now).0)
  {
    hide ValidFlagKey, DocsHold, UniqueNames, UniqueFlagKeys;
    FlagSideHolds(db, Tables.UpdateFlagValue(db, id, value, enabled, expected, now).0);
  }

  lemma DeleteValueHolds(db: Db, id: int)
    requires Holds(db)
    ensures Holds(Tables.DeleteFlagValue(db, id).0)
  {
    hide ValidFlagKey, DocsHold, UniqueNames, UniqueFlagKeys;
    FlagSideHolds(db, Tables.DeleteFlagValue(db, id).0);
  }

  // No request, granted or refused, breaks a natural key or leaves a reference dangling.
  lemma ServeKeepsIntegrity(db: Db, request: Request, newId: int, now: int)
    requires Holds(db) && FreshId(db, request, newId)
    ensures Holds(Serve(db, request, newId, now).db)
  {
    hide Holds, CheckInput, TrimSpace, ValidFlagKey, CheckValue, InsertDoc, Tables.UpdateDoc, InsertName, DeleteService,
      Tables.DeleteEnvironment, InsertFlag, InsertFlagValue, Tables.UpdateFlagValue;
    match request
    case CreateEnvironment(name) => EnvironmentHolds(db, TrimSpace(name), newId);
    case DeleteEnvironment(id) => DeleteEnvironmentHolds(db, id);
    case CreateMicroservice(name) => MicroserviceHolds(db, TrimSpace(name), newId);
    case DeleteMicroservice(id) => DeleteServiceHolds(db, id);
    case CreateFlag(flagKey, isActive) =>
      if ValidFlagKey(flagKey) {
        FlagHolds(db, Flag(flagKey, isActive), newId);
      }
    case DeleteFlag(id) => DeleteFlagHolds(db, id);
    case CreateFlagValue(flagId, env, value, enabled) => InsertValueHolds(db, FlagValue(env, flagId, enabled, value, now), newId);
    case UpdateFlagValue(id, value, enabled, expected) => UpdateValueHolds(db, id, value, enabled, expected, now);
    case DeleteFlagValue(id) => DeleteValueHolds(db, id);
    case CreateDoc(d, input) =>
      if CheckInput(d, input).None? {
        InsertDocHolds(db, d, input, newId, now);
      }
    case UpdateDoc(d, input) =>
      if CheckInput(d, input).None? {
        UpdateDocHolds(db, d, input, now);
      }
    case DeleteDoc(d, id) => FewerDocsHold(db, d, {id});
  }

  // ---- Runs ----

  datatype Event = Event(request: Request, newId: int, now: int)

  function After(db: Db, events: seq<Event>, n: nat): Db
    requires n <= |events|
  {
    if n == 0 then db
    else Serve(After(db, events, n - 1), events[n - 1].request, events[n - 1].newId, events[n - 1].now).db
  }

  predicate Feasible(db: Db, events: seq<Event>) {
    forall i | 0 <= i < |events| :: FreshId(After(db, events, i), events[i].request, events[i].newId)
  }

  const EMPTY: Db := Db(map[], map[], map[], map[], map[], map[])

  lemma {:induction false} RunKeepsIntegrity(db: Db, events: seq<Event>, n: nat)
    requires Holds(db) && Feasible(db, events) && n <= |events|
    ensures Holds(After(db, events, n))
  {
    hide Holds, Serve, FreshId;
    if n > 0 {
      RunKeepsIntegrity(db, events, n - 1);
      ServeKeepsIntegrity(After(db, events, n - 1), events[n - 1].request, events[n - 1].newId, events[n - 1].now);
    }
  }

  lemma EveryRunHolds(events: seq<Event>, n: nat)
    requires Feasible(EMPTY, events) && n <= |events|
    ensures Holds(After(EMPTY, events, n))
  {
    RunKeepsIntegrity(EMPTY, events, n);
  }

  // ---- Refused requests ----

  // A refused request leaves the tables as they were and owes the bucket nothing.
  lemma RefusedChangesNothing(db: Db, request: Request, newId: int, now: int)
    requires Holds(db) && Serve(db, request, newId, now).error.Some?
    ensures var out := Serve(db, request, newId, now); out.db == db && out.publish.None? && out.purges == {}
  {
    hide CheckInput, CheckValue, TrimSpace, ValidFlagKey, DocRefsError, FlagValueRefsError, InsertName, KeyStored,
      EnvironmentInUse, ServiceInUse, DocsHold, UniqueNames, UniqueFlagKeys;
    if Unpublished(request) {
      UnpublishedOutcome(db, request, newId, now);
    }
  }
}
