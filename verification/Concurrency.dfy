/**
 Optimistic concurrency: what an update guarded by the time its caller read protects,
 over whole runs of requests.
 */
module Concurrency {
  import opened Options
  import opened Kv
  import opened Tables
  import opened Admin
  import opened Integrity

  // A row that carries a version: a flag value or a document.
  datatype Place = ValueAt(id: int) | DocAt(d: Domain, id: int)

  datatype Version = ValueVersion(row: FlagValue) | DocVersion(doc: Doc)

  function At(db: Db, p: Place): Option<Version> {
    match p
    case ValueAt(id) => if id in db.values then Some(ValueVersion(db.values[id])) else None
    case DocAt(d, id) => if id in Docs(db, d) then Some(DocVersion(Docs(db, d)[id])) else None
  }

  function StampOf(v: Version): int {
    match v
    case ValueVersion(row) => row.updatedAt
    case DocVersion(doc) => doc.updatedAt
  }

  // The request stores a version at this place: a granted create or update of it.
  predicate Writes(db: Db, e: Event, p: Place) {
    match e.request
    case CreateFlagValue(_, _, _, _) => p == ValueAt(e.newId) && Serve(db, e.request, e.newId, e.now).error.None?
    case UpdateFlagValue(id, value, enabled, expected) =>
      && p == ValueAt(id) && id > 0 && CheckValue(value).None? && ValidFlagState(enabled)
      && id in db.values && (expected.Some? ==> db.values[id].updatedAt == expected.value)
    case CreateDoc(d, _) => p == DocAt(d, e.newId) && Serve(db, e.request, e.newId, e.now).error.None?
    case UpdateDoc(d, input) => p == DocAt(d, input.id) && Serve(db, e.request, e.newId, e.now).error.None?
    case _ => false
  }

  function StateAt(events: seq<Event>, n: nat, p: Place): Option<Version>
    requires n <= |events|
  {
    At(After(EMPTY, events, n), p)
  }

  predicate WritesAt(events: seq<Event>, m: nat, p: Place)
    requires m < |events|
  {
    Writes(After(EMPTY, events, m), events[m], p)
  }

  // ---- One request ----

  lemma PutDocAt(db: Db, d: Domain, id: int, doc: Doc, p: Place)
    ensures At(WithDocs(db, d, Docs(db, d)[id := doc]), p) == if p == DocAt(d, id) then Some(DocVersion(doc)) else At(db, p)
    ensures At(WithDocs(db, d, Docs(db, d) - {id}), p) == if p == DocAt(d, id) then None else At(db, p)
  {
  }

  lemma CreateDocumentAt(db: Db, d: Domain, input: DocInput, newId: int, now: int, p: Place)
    ensures var out := CreateDocument(db, d, input, newId, now);
            At(out.db, p) == if out.error.None? && p == DocAt(d, newId) then Some(DocVersion(DocOf(d, input, now))) else At(db, p)
  {
    hide CheckInput, DocRefsError, KeyStored, Docs, WithDocs, At, DocOf;
    PutDocAt(db, d, newId, DocOf(d, input, now), p);
  }

  lemma UpdateDocumentAt(db: Db, d: Domain, input: DocInput, now: int, p: Place)
    ensures var out := UpdateDocument(db, d, input, now);
            At(out.db, p) == if out.error.None? && p == DocAt(d, input.id) then Some(DocVersion(DocOf(d, input, now))) else At(db, p)
  {
    hide CheckInput, DocRefsError, Docs, WithDocs, At, DocOf;
    PutDocAt(db, d, input.id, DocOf(d, input, now), p);
  }

  lemma DeleteDocumentAt(db: Db, d: Domain, id: int, p: Place)
    ensures var out := DeleteDocument(db, d, id);
            At(out.db, p) == if out.error.None? && p == DocAt(d, id) then None else At(db, p)
  {
    hide Docs, WithDocs, At;
    PutDocAt(db, d, id, Doc(0, 0, "", Text("", true, None), 0), p);
  }

  // A place holds what it held before, unless the request wrote it, and then it carries the request's time.
  ghost predicate Stores(db: Db, e: Event, p: Place) {
    var after := Serve(db, e.request, e.newId, e.now).db;
    if Writes(db, e, p) then At(after, p).Some? && StampOf(At(after, p).value) == e.now
    else At(after, p).Some? ==> At(after, p) == At(db, p)
  }

  lemma DocRequestStores(db: Db, e: Event, p: Place)
    requires e.request.CreateDoc? || e.request.UpdateDoc? || e.request.DeleteDoc?
    ensures Stores(db, e, p)
  {
    hide CreateDocument, UpdateDocument, DeleteDocument, At;
    match e.request
    case CreateDoc(d, input) => CreateDocumentAt(db, d, input, e.newId, e.now, p);
    case UpdateDoc(d, input) => UpdateDocumentAt(db, d, input, e.now, p);
    case DeleteDoc(d, id) => DeleteDocumentAt(db, d, id, p);
  }

  lemma CreateValueAt(db: Db, flagId: int, env: int, value: string, enabled: int, newId: int, now: int, p: Place)
    ensures var out := CreateValue(db, flagId, env, value, enabled, newId, now);
            At(out.db, p) == if out.error.None? && p == ValueAt(newId)
                             then Some(ValueVersion(FlagValue(env, flagId, enabled, value, now))) else At(db, p)
  {
    hide CheckValue, FlagValueRefsError;
  }

  lemma UpdateValueAt(db: Db, id: int, value: string, enabled: int, expected: Option<int>, newId: int, now: int, p: Place)
    ensures var e := Event(UpdateFlagValue(id, value, enabled, expected), newId, now);
            var after := UpdateValue(db, id, value, enabled, expected, now).db;
            if Writes(db, e, p) then At(after, p).Some? && StampOf(At(after, p).value) == now else At(after, p) == At(db, p)
  {
    hide CheckValue;
  }

  lemma DeleteValuesAt(db: Db, id: int, p: Place)
    ensures At(DeleteValue(db, id).db, p).Some? ==> At(DeleteValue(db, id).db, p) == At(db, p)
    ensures At(DeleteFlagAndValues(db, id).db, p).Some? ==> At(DeleteFlagAndValues(db, id).db, p) == At(db, p)
  {
    hide ValuesOf;
  }

  lemma ValueRequestStores(db: Db, e: Event, p: Place)
    requires e.request.CreateFlagValue? || e.request.UpdateFlagValue? || e.request.DeleteFlagValue? || e.request.DeleteFlag?
    ensures Stores(db, e, p)
  {
    hide CreateValue, UpdateValue, DeleteValue, DeleteFlagAndValues, At, CheckValue, ValidFlagState;
    match e.request
    case CreateFlagValue(flagId, env, value, enabled) => CreateValueAt(db, flagId, env, value, enabled, e.newId, e.now, p);
    case UpdateFlagValue(id, value, enabled, expected) => UpdateValueAt(db, id, value, enabled, expected, e.newId, e.now, p);
    case DeleteFlagValue(id) => DeleteValuesAt(db, id, p);
    case DeleteFlag(id) => DeleteValuesAt(db, id, p);
  }

  lemma OnlyWritesChange(db: Db, e: Event, p: Place)
    ensures Stores(db, e, p)
  {
    if Unpublished(e.request) {
      hide Serve;
      UnpublishedOutcome(db, e.request, e.newId, e.now);
    } else if e.request.CreateDoc? || e.request.UpdateDoc? || e.request.DeleteDoc? {
      hide Stores;
      DocRequestStores(db, e, p);
    } else {
      hide Stores;
      ValueRequestStores(db, e, p);
    }
  }

  // ---- Runs ----

  // What a place holds was stored by its last writer, and has stood since.
  lemma {:induction false} LastWriter(events: seq<Event>, n: nat, p: Place) returns (m: nat)
    requires n <= |events| && StateAt(events, n, p).Some?
    ensures m < n && WritesAt(events, m, p)
    ensures StateAt(events, m + 1, p) == StateAt(events, n, p)
    ensures StampOf(StateAt(events, n, p).value) == events[m].now
    ensures forall k | m < k < n :: !WritesAt(events, k, p)
    ensures forall k | m < k <= n :: StateAt(events, k, p) == StateAt(events, n, p)
  {
    hide Serve, At, Writes, StampOf;
    assert n > 0 by { EmptyHoldsNothing(p); }
    OnlyWritesChange(After(EMPTY, events, n - 1), events[n - 1], p);
    if WritesAt(events, n - 1, p) {
      m := n - 1;
    } else {
      m := LastWriter(events, n - 1, p);
    }
  }

  lemma EmptyHoldsNothing(p: Place)
    ensures At(EMPTY, p).None?
  {
  }

  // Between two states of a run a row is untouched, or carries the time of a request in between that wrote it.
  lemma VersionsAdvance(events: seq<Event>, i: nat, j: nat, p: Place)
    requires i <= j <= |events| && StateAt(events, j, p).Some?
    ensures StateAt(events, i, p) == StateAt(events, j, p)
            || exists m | i <= m < j :: WritesAt(events, m, p) && StampOf(StateAt(events, j, p).value) == events[m].now
  {
    hide At, Writes, StampOf, After;
    var m := LastWriter(events, j, p);
  }

  // Whatever a caller reads in one state of the run, in any later state the same time at the same place means the
  // same row: an update guarded by the time it read can overwrite that row only.
  ghost predicate GuardSound(events: seq<Event>) {
    forall i, j, p | 0 <= i <= j <= |events| && SameStamp(StateAt(events, i, p), StateAt(events, j, p)) ::
      StateAt(events, i, p) == StateAt(events, j, p)
  }

  predicate SameStamp(a: Option<Version>, b: Option<Version>) {
    a.Some? && b.Some? && StampOf(a.value) == StampOf(b.value)
  }

  // No two writes of one place at one tick of the database's clock store different rows.
  ghost predicate NoTiedWrites(events: seq<Event>) {
    forall m, n, p | 0 <= m < n < |events| && WritesAt(events, m, p) && WritesAt(events, n, p) && events[m].now == events[n].now ::
      StateAt(events, m + 1, p) == StateAt(events, n + 1, p)
  }

  // The guard protects the version its caller read, throughout a run, if and only if the run has no tied writes.
  lemma GuardIsExact(events: seq<Event>)
    ensures GuardSound(events) <==> NoTiedWrites(events)
  {
    hide At, Writes, StampOf, After;
    if NoTiedWrites(events) {
      forall i, j, p | 0 <= i <= j <= |events| && SameStamp(StateAt(events, i, p), StateAt(events, j, p))
        ensures StateAt(events, i, p) == StateAt(events, j, p)
      {
        var m := LastWriter(events, i, p);
        var n := LastWriter(events, j, p);
        assert m < n || m == n || n < m;
      }
    }
    if GuardSound(events) {
      forall m, n, p | 0 <= m < n < |events| && WritesAt(events, m, p) && WritesAt(events, n, p) && events[m].now == events[n].now
        ensures StateAt(events, m + 1, p) == StateAt(events, n + 1, p)
      {
        Written(events, m, p);
        Written(events, n, p);
        assert SameStamp(StateAt(events, m + 1, p), StateAt(events, n + 1, p));
      }
    }
  }

  lemma Written(events: seq<Event>, m: nat, p: Place)
    requires m < |events| && WritesAt(events, m, p)
    ensures StateAt(events, m + 1, p).Some? && StampOf(StateAt(events, m + 1, p).value) == events[m].now
  {
    hide Serve, At, Writes, StampOf;
    OnlyWritesChange(After(EMPTY, events, m), events[m], p);
  }

  // Distinct times are enough, and a clock that strictly advances gives them.
  lemma DistinctTimesAreUntied(events: seq<Event>)
    requires forall i, j | 0 <= i < j < |events| :: events[i].now != events[j].now
    ensures NoTiedWrites(events)
  {
    hide At, Writes;
  }

  ghost predicate Applied(events: seq<Event>, j: nat)
    requires j < |events|
  {
    Serve(After(EMPTY, events, j), events[j].request, events[j].newId, events[j].now).error.None?
  }

  // A guarded document update that is applied overwrites exactly the version its caller read, however many
  // requests ago that was, and whatever came and went under that id since.
  lemma GuardedDocUpdate(events: seq<Event>, i: nat, j: nat, d: Domain, input: DocInput)
    requires i <= j < |events| && NoTiedWrites(events) && events[j].request == UpdateDoc(d, input)
    requires input.id in Docs(After(EMPTY, events, i), d)
    requires input.expected == Some(Docs(After(EMPTY, events, i), d)[input.id].updatedAt)
    requires Applied(events, j)
    ensures input.id in Docs(After(EMPTY, events, j), d)
    ensures Docs(After(EMPTY, events, j), d)[input.id] == Docs(After(EMPTY, events, i), d)[input.id]
  {
    hide CheckInput, DocRefsError, After, NoTiedWrites;
    GuardIsExact(events);
    var p := DocAt(d, input.id);
    assert SameStamp(StateAt(events, i, p), StateAt(events, j, p));
  }

  // The same of a guarded flag value update.
  lemma GuardedFlagUpdate(events: seq<Event>, i: nat, j: nat, id: int, value: string, enabled: int, expected: int)
    requires i <= j < |events| && NoTiedWrites(events)
    requires events[j].request == UpdateFlagValue(id, value, enabled, Some(expected))
    requires id in After(EMPTY, events, i).values && After(EMPTY, events, i).values[id].updatedAt == expected
    requires Applied(events, j)
    ensures id in After(EMPTY, events, j).values
    ensures After(EMPTY, events, j).values[id] == After(EMPTY, events, i).values[id]
  {
    hide CheckValue, After, NoTiedWrites;
    GuardIsExact(events);
    var p := ValueAt(id);
    assert SameStamp(StateAt(events, i, p), StateAt(events, j, p));
  }

  // ---- A run with tied writes ----

  // A flag value is created and updated within one tick, and then updated under the guard of that tick.
  function TiedRun(): seq<Event> {
    [Event(CreateEnvironment("e"), 1, 0), Event(CreateFlag("f", 1), 1, 0), Event(CreateFlagValue(1, 1, "a", 0), 1, 0),
     Event(UpdateFlagValue(1, "b", 1, None), 2, 0), Event(UpdateFlagValue(1, "c", 1, Some(0)), 2, 1)]
  }

  function FlagOnly(): Db { EMPTY.(envs := map[1 := "e"], flags := map[1 := Flag("f", 1)]) }

  function TiedDb(value: string, enabled: int): Db {
    FlagOnly().(values := map[1 := FlagValue(1, 1, enabled, value, 0)])
  }

  // From the empty tables: the guarded update goes through although its caller read "a" and it overwrites "b".
  lemma TiedRunLosesAnUpdate()
    ensures Feasible(EMPTY, TiedRun()) && Applied(TiedRun(), 4)
    ensures StateAt(TiedRun(), 3, ValueAt(1)) == Some(ValueVersion(FlagValue(1, 1, 0, "a", 0)))
    ensures StateAt(TiedRun(), 4, ValueAt(1)) == Some(ValueVersion(FlagValue(1, 1, 1, "b", 0)))
    ensures !NoTiedWrites(TiedRun()) && !GuardSound(TiedRun())
  {
    hide GuardSound, NoTiedWrites, After, Serve, FreshId;
    TiedStates();
    TiedStepsFeasible();
    TiedIsTied();
    GuardIsExact(TiedRun());
  }

  lemma FirstRows()
    ensures Serve(EMPTY, CreateEnvironment("e"), 1, 0).db == EMPTY.(envs := map[1 := "e"])
    ensures Serve(EMPTY.(envs := map[1 := "e"]), CreateFlag("f", 1), 1, 0).db == FlagOnly()
  {
    assert TrimLeft("e") == "e" && TrimRight("e") == "e";
    assert "e"[..0] == "" && Utf8Size("") == 0 && Utf8Size("e") == 1;
  }

  lemma TiedSteps()
    ensures var out := Serve(FlagOnly(), CreateFlagValue(1, 1, "a", 0), 1, 0); out.db == TiedDb("a", 0) && out.error.None?
    ensures Serve(TiedDb("a", 0), UpdateFlagValue(1, "b", 1, None), 2, 0).db == TiedDb("b", 1)
    ensures Serve(TiedDb("b", 1), UpdateFlagValue(1, "c", 1, Some(0)), 2, 1).error.None?
  {
  }

  lemma TiedStates()
    ensures var events := TiedRun();
            && After(EMPTY, events, 0) == EMPTY
            && After(EMPTY, events, 1) == EMPTY.(envs := map[1 := "e"])
            && After(EMPTY, events, 2) == FlagOnly()
            && After(EMPTY, events, 3) == TiedDb("a", 0)
            && After(EMPTY, events, 4) == TiedDb("b", 1)
    ensures Applied(TiedRun(), 4)
  {
    hide Serve;
    var events := TiedRun();
    FirstRows();
    TiedSteps();
    assert After(EMPTY, events, 0) == EMPTY;
    assert After(EMPTY, events, 1) == EMPTY.(envs := map[1 := "e"]);
    assert After(EMPTY, events, 2) == FlagOnly();
    assert After(EMPTY, events, 3) == TiedDb("a", 0);
  }

  lemma TiedStepsFeasible()
    ensures Feasible(EMPTY, TiedRun())
  {
    hide Serve, After;
    TiedStates();
    var events := TiedRun();
    forall i | 0 <= i < |events| ensures FreshId(After(EMPTY, events, i), events[i].request, events[i].newId) {
      assert i == 0 || i == 1 || i == 2 || i == 3 || i == 4;
    }
  }

  lemma TiedIsTied()
    ensures !NoTiedWrites(TiedRun())
  {
    hide After, Serve;
    TiedStates();
    TiedSteps();
    var events, p := TiedRun(), ValueAt(1);
    assert WritesAt(events, 2, p) && WritesAt(events, 3, p);
    assert events[2].now == events[3].now;
    assert StateAt(events, 2 + 1, p) != StateAt(events, 3 + 1, p);
  }

  // Any two updates of one tick defeat the guard in the same way, whatever the tables held.
  lemma TiedTimestampsDefeatTheGuard(db: Db, id: int, first: string, second: string)
    requires Holds(db) && 0 < id && id in db.values && first != db.values[id].value
    requires CheckValue(first).None? && CheckValue(second).None?
    ensures var tick := db.values[id].updatedAt;
            var between := Serve(db, UpdateFlagValue(id, first, 1, None), 0, tick).db;
            && Serve(between, UpdateFlagValue(id, second, 1, Some(tick)), 0, tick + 1).error.None?
            && between.values[id] != db.values[id]
  {
    hide CheckValue, DocsHold, UniqueNames, UniqueFlagKeys;
  }
}
