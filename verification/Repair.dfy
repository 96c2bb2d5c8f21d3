/**
 One bucket through requests and reconcile cycles in any order: what a failed
 write-through leaves behind, and how long.
 */
module Repair {
  import opened Options
  import opened Keys
  import opened Kv
  import opened Items
  import opened Tables
  import opened Admin
  import opened Integrity
  import opened Coherence
  import opened Concurrency
  import opened Reconciler
  import opened Healing
  import opened Adapters

  // The tables, the bucket, where the reconciler stands, and the keys whose last write failed with no cycle having
  // repaired them since.
  datatype State = State(clock: int, runs: nat, lastRun: Option<int>, db: Db, log: Log, dirty: set<string>)

  // `rows` is the table as a full listing would give it, `log` what the bucket became and `failed` the keys whose
  // write failed. A cycle that sweeps this source is clean unless another source failed; one that cannot read this
  // table leaves the bucket alone.
  datatype Step =
    | Request(at: int, event: Event, log: Log, failed: set<string>)
    | Cycle(at: int, rows: seq<Row>, clock: Clock, clean: bool)
    | Unread(at: int)

  // Nobody but the services and the reconciler writes the bucket, and a row's UPDATED_AT lags the moment of its
  // request by at most `lag`.
  ghost predicate Enabled(s: State, step: Step, b: BucketName, lag: int) {
    && step.at >= s.clock
    && match step
       case Request(at, e, log, failed) =>
         var out := Serve(s.db, e.request, e.newId, e.now);
         && FreshId(s.db, e.request, e.newId) && e.now >= at - lag
         && if BucketFor(e.request) == b then WroteThrough(s.log, log, out.publish, out.purges, failed) else log == s.log
       case Cycle(_, rows, _, _) => IsListing(rows, s.db, b, None)
       case Unread(_) => true
  }

  function Since(s: State): Option<int> { NextSince(s.runs, s.lastRun) }

  function Left(s: State, rows: seq<Row>, fraction: real): set<string> {
    if Since(s).None? && Healable(s.log, rows, fraction) then {} else s.dirty - KeySet(Window(rows, Since(s)))
  }

  function Next(s: State, step: Step, b: BucketName, fraction: real): State {
    match step
    case Request(at, e, log, failed) =>
      var out := Serve(s.db, e.request, e.newId, e.now);
      s.(clock := at, db := out.db, log := log,
         dirty := if BucketFor(e.request) == b then s.dirty - Addressed(out.publish, out.purges) + failed else s.dirty)
    case Cycle(at, rows, clock, clean) =>
      s.(clock := at, runs := s.runs + 1, lastRun := if clean then Some(at) else s.lastRun,
         log := SweepQuietly(s.log, Window(rows, Since(s)), Since(s).None?, clock, fraction),
         dirty := Left(s, rows, fraction))
    case Unread(at) => s.(clock := at, runs := s.runs + 1)
  }

  ghost predicate ValidSteps(s: State, steps: seq<Step>, b: BucketName, lag: int, fraction: real)
    decreases |steps|
  {
    steps == [] || (Enabled(s, steps[0], b, lag) && ValidSteps(Next(s, steps[0], b, fraction), steps[1..], b, lag, fraction))
  }

  function StateAfter(s: State, steps: seq<Step>, b: BucketName, fraction: real): State
    decreases |steps|
  {
    if steps == [] then s else StateAfter(Next(s, steps[0], b, fraction), steps[1..], b, fraction)
  }

  function Fresh(clock: int): State { State(clock, 0, None, EMPTY, [], {}) }

  // A row whose last publish failed is still within the next cycle's reach.
  ghost predicate Reachable(s: State, b: BucketName) {
    forall id | id in ItemsOf(s.db, b) && KeyOf(ItemsOf(s.db, b)[id]) in s.dirty ::
      s.lastRun.None? || UpdatedAt(s.db, b, id) >= s.lastRun.value - OVERLAP
  }

  ghost predicate Inv(s: State, b: BucketName) {
    && (s.lastRun.Some? ==> s.lastRun.value <= s.clock)
    && Holds(s.db) && Coherent(s.log, ItemsOf(s.db, b), s.dirty) && Reachable(s, b)
  }

  // ---- A request ----

  function PlaceOf(b: BucketName, id: int): Place {
    match b
    case Flags => ValueAt(id)
    case ServiceSettings => DocAt(Settings, id)
    case Localization => DocAt(Bundles, id)
  }

  lemma StampedPlace(db: Db, b: BucketName, id: int)
    requires id in ItemsOf(db, b)
    ensures At(db, PlaceOf(b, id)).Some? && StampOf(At(db, PlaceOf(b, id)).value) == UpdatedAt(db, b, id)
  {
  }

  // A row keeps its time through a request, or takes the request's.
  lemma KeptOrStamped(db: Db, e: Event, b: BucketName, id: int)
    requires id in ItemsOf(Serve(db, e.request, e.newId, e.now).db, b)
    ensures var after := Serve(db, e.request, e.newId, e.now).db;
            UpdatedAt(after, b, id) == e.now || (id in ItemsOf(db, b) ==> UpdatedAt(after, b, id) == UpdatedAt(db, b, id))
  {
    hide Serve, ItemsOf, UpdatedAt, At, StampOf, Writes;
    StampedPlace(Serve(db, e.request, e.newId, e.now).db, b, id);
    OnlyWritesChange(db, e, PlaceOf(b, id));
    if id in ItemsOf(db, b) {
      StampedPlace(db, b, id);
    }
  }

  ghost predicate StampedAs(db: Db, b: BucketName, item: Item, now: int) {
    exists id :: id in ItemsOf(db, b) && ItemsOf(db, b)[id] == item && UpdatedAt(db, b, id) == now
  }

  lemma DocStamped(db: Db, d: Domain, id: int, doc: Doc)
    ensures StampedAs(WithDocs(db, d, Docs(db, d)[id := doc]), BucketOf(d), DocItem(d, doc), doc.updatedAt)
  {
    var after := WithDocs(db, d, Docs(db, d)[id := doc]);
    DocPutItems(db, d, id, doc);
    assert id in ItemsOf(after, BucketOf(d));
  }

  lemma ValueStamped(db: Db, id: int, row: FlagValue)
    requires ValuesHold(db) && row.flagId in db.flags
    ensures StampedAs(db.(values := db.values[id := row]), Flags, FlagItemOf(db, row), row.updatedAt)
  {
    var after := db.(values := db.values[id := row]);
    ValuePutItems(db, id, row);
    assert id in ItemsOf(after, Flags);
  }

  // What a request publishes is a row that carries the request's time.
  lemma PublishedIsStamped(db: Db, e: Event)
    requires Holds(db)
    ensures var out := Serve(db, e.request, e.newId, e.now);
            out.publish.Some? ==> StampedAs(out.db, BucketFor(e.request), out.publish.value, e.now)
  {
    hide CheckInput, CheckValue, DocRefsError, KeyStored, StampedAs, UniqueNames, UniqueFlagKeys, DocsHold, FlagItemOf, WithDocs,
      Docs;
    var out := Serve(db, e.request, e.newId, e.now);
    if Unpublished(e.request) {
      UnpublishedOutcome(db, e.request, e.newId, e.now);
    } else if out.publish.Some? {
      match e.request
      case CreateDoc(d, input) => DocStamped(db, d, e.newId, DocOf(d, input, e.now));
      case UpdateDoc(d, input) => DocStamped(db, d, input.id, DocOf(d, input, e.now));
      case CreateFlagValue(flagId, env, value, enabled) => ValueStamped(db, e.newId, FlagValue(env, flagId, enabled, value, e.now));
      case UpdateFlagValue(id, value, enabled, _) =>
        ValueStamped(db, id, db.values[id].(value := value, enabled := enabled, updatedAt := e.now));
      case _ =>
    }
  }

  lemma RequestKeepsReach(s: State, step: Step, b: BucketName, lag: int, fraction: real)
    requires step.Request? && Inv(s, b) && Enabled(s, step, b, lag) && lag <= OVERLAP
    ensures Reachable(Next(s, step, b, fraction), b)
  {
    hide Serve, ItemsOf, UpdatedAt, KeyOf, Holds, FreshId, Coherent, StampedAs;
    var e, t := step.event, Next(s, step, b, fraction);
    var out := Serve(s.db, e.request, e.newId, e.now);
    ServeAccounted(s.db, e.request, e.newId, e.now);
    ServeKeepsIntegrity(s.db, e.request, e.newId, e.now);
    RowsHaveDistinctKeys(t.db, b);
    PublishedIsStamped(s.db, e);
    forall id | id in ItemsOf(t.db, b) && KeyOf(ItemsOf(t.db, b)[id]) in t.dirty
      ensures t.lastRun.None? || UpdatedAt(t.db, b, id) >= t.lastRun.value - OVERLAP
    {
      KeptOrStamped(s.db, e, b, id);
      var k := KeyOf(ItemsOf(t.db, b)[id]);
      if b == BucketFor(e.request) && k in Addressed(out.publish, out.purges) {
        TheStampedRow(t.db, b, id, out.publish.value, e.now);
      }
    }
  }

  lemma TheStampedRow(db: Db, b: BucketName, id: int, item: Item, now: int)
    requires DistinctKeys(ItemsOf(db, b)) && StampedAs(db, b, item, now)
    requires id in ItemsOf(db, b) && KeyOf(ItemsOf(db, b)[id]) == KeyOf(item)
    ensures UpdatedAt(db, b, id) == now
  {
    hide ItemsOf, UpdatedAt, KeyOf;
  }

  lemma RequestKeepsInv(s: State, step: Step, b: BucketName, lag: int, fraction: real)
    requires step.Request? && Inv(s, b) && Enabled(s, step, b, lag) && lag <= OVERLAP
    ensures Inv(Next(s, step, b, fraction), b)
  {
    hide Serve, ItemsOf, Holds, FreshId, Coherent, Reachable, WroteThrough, Covers;
    var e := step.event;
    var out := Serve(s.db, e.request, e.newId, e.now);
    RequestKeepsReach(s, step, b, lag, fraction);
    ServeAccounted(s.db, e.request, e.newId, e.now);
    ServeKeepsIntegrity(s.db, e.request, e.newId, e.now);
    if b == BucketFor(e.request) {
      WritesKeepCoherence(s.log, step.log, ItemsOf(s.db, b), ItemsOf(out.db, b), out.publish, out.purges, step.failed, s.dirty);
    }
  }

  // ---- A cycle ----

  // Whatever a sweep shows and leaves stale is coherent outside what it left.
  lemma SweptCoherent(log: Log, swept: Log, rows: seq<Row>, db: Db, b: BucketName, dirty: set<string>, left: set<string>)
    requires IsListing(rows, db, b, None) && Coherent(log, ItemsOf(db, b), dirty)
    requires forall r | r in rows && KeyOf(r.item) !in left :: ShownIn(swept, r.item)
    requires StaleSet(swept, rows) == {} || (StaleSet(swept, rows) == StaleSet(log, rows) && dirty - KeySet(rows) <= left)
    ensures Coherent(swept, ItemsOf(db, b), left)
  {
    hide ItemsOf, UpdatedAt, KeyOf, Live, ShownIn;
    var items := ItemsOf(db, b);
    forall id | id in items && KeyOf(items[id]) !in left ensures ShownIn(swept, items[id]) {
      assert Listed(db, b, None, id) && RowOf(db, b, id) in rows;
    }
    forall k | k !in left && Live(swept, k).Some? ensures KeyIn(items, k) {
      ContentsAt(swept, k);
      ContentsAt(log, k);
      ListedKeys(rows, db, b, k);
      assert k in KeySet(rows) || k in StaleSet(swept, rows);
      assert k in KeySet(rows) || k in StaleSet(log, rows);
    }
  }

  // Every row of the table is in the cycle's window or already shown.
  lemma RowsInReach(s: State, rows: seq<Row>, b: BucketName)
    requires Inv(s, b) && IsListing(rows, s.db, b, None)
    ensures forall r | r in rows :: InWindow(r.updatedAt, Since(s)) || (KeyOf(r.item) !in s.dirty && ShownIn(s.log, r.item))
  {
    hide ItemsOf, UpdatedAt, KeyOf, Holds, ShownIn, Live;
    forall r | r in rows ensures InWindow(r.updatedAt, Since(s)) || (KeyOf(r.item) !in s.dirty && ShownIn(s.log, r.item)) {
      assert r == RowOf(s.db, b, r.id);
    }
  }

  lemma CycleShows(s: State, rows: seq<Row>, b: BucketName, clock: Clock, fraction: real)
    requires Inv(s, b) && IsListing(rows, s.db, b, None)
    ensures var swept := SweepQuietly(s.log, Window(rows, Since(s)), Since(s).None?, clock, fraction);
            && AllShown(swept, rows)
            && StaleSet(swept, rows) == (if Since(s).None? && Healable(s.log, rows, fraction) then {} else StaleSet(s.log, rows))
            && (forall r | r in rows :: KeyOf(r.item) !in Left(s, rows, fraction))
  {
    hide ItemsOf, KeyOf, Holds, ShownIn, SweepQuietly, StaleSet, Healable, IsListing, Coherent, Reachable, NextSince;
    ListingHasUniqueKeys(rows, s.db, b, None);
    ListingIsPublishable(rows, s.db, b, None);
    RowsInReach(s, rows, b);
    OneCycle(s.log, rows, Since(s), clock, fraction);
    if Since(s).Some? {
      IncrementalSweep(s.log, rows, Since(s), clock, fraction);
    }
    forall r | r in rows ensures KeyOf(r.item) !in Left(s, rows, fraction) {
      WindowMember(rows, Since(s), r);
    }
  }

  lemma CycleKeepsInv(s: State, step: Step, b: BucketName, lag: int, fraction: real)
    requires step.Cycle? && Inv(s, b) && Enabled(s, step, b, lag)
    ensures Inv(Next(s, step, b, fraction), b)
  {
    hide ItemsOf, UpdatedAt, KeyOf, Holds, ShownIn, SweepQuietly, StaleSet, Healable, Coherent, NextSince;
    var t, rows := Next(s, step, b, fraction), step.rows;
    CycleShows(s, rows, b, step.clock, fraction);
    forall k | k in KeySet(Window(rows, Since(s))) ensures k in KeySet(rows) {
      var r :| r in Window(rows, Since(s)) && KeyOf(r.item) == k;
      WindowMember(rows, Since(s), r);
    }
    SweptCoherent(s.log, t.log, rows, s.db, b, s.dirty, t.dirty);
    forall id | id in ItemsOf(t.db, b) ensures KeyOf(ItemsOf(t.db, b)[id]) !in t.dirty {
      assert Listed(s.db, b, None, id) && RowOf(s.db, b, id) in rows;
    }
  }

  // ---- Runs ----

  lemma StepKeepsInv(s: State, step: Step, b: BucketName, lag: int, fraction: real)
    requires Inv(s, b) && Enabled(s, step, b, lag) && lag <= OVERLAP
    ensures Inv(Next(s, step, b, fraction), b)
  {
    match step
    case Request(_, _, _, _) =>
      hide Inv, Enabled, Next;
      RequestKeepsInv(s, step, b, lag, fraction);
    case Cycle(_, _, _, _) =>
      hide Inv, Enabled, Next;
      CycleKeepsInv(s, step, b, lag, fraction);
    case Unread(_) =>
  }

  // Through every run of requests and cycles, the bucket is the image of its table outside the keys left dirty, and
  // every dirty row is within reach of the next cycle.
  lemma {:induction false} RunKeepsInv(s: State, steps: seq<Step>, b: BucketName, lag: int, fraction: real)
    requires Inv(s, b) && ValidSteps(s, steps, b, lag, fraction) && lag <= OVERLAP
    ensures Inv(StateAfter(s, steps, b, fraction), b)
    decreases |steps|
  {
    hide Inv, Enabled, Next;
    if steps != [] {
      StepKeepsInv(s, steps[0], b, lag, fraction);
      RunKeepsInv(Next(s, steps[0], b, fraction), steps[1..], b, lag, fraction);
    }
  }

  lemma FreshHolds(clock: int, b: BucketName)
    ensures Inv(Fresh(clock), b)
  {
    hide Holds, KeyOf, Shows;
    EveryRunHolds([], 0);
    assert ItemsOf(EMPTY, b) == map[];
  }

  // However many publishes failed and cycles could not read the table, the next cycle that sweeps it, full or
  // incremental, leaves every row shown. The bucket is then the exact image of the table if and only if the cycle
  // found no stale key, or was full and its prune guard passed.
  lemma EveryCycleRepairs(clock: int, steps: seq<Step>, step: Step, b: BucketName, lag: int, fraction: real)
    requires ValidSteps(Fresh(clock), steps, b, lag, fraction) && lag <= OVERLAP
    requires step.Cycle? && Enabled(StateAfter(Fresh(clock), steps, b, fraction), step, b, lag)
    ensures var s := StateAfter(Fresh(clock), steps, b, fraction);
            var t := Next(s, step, b, fraction);
            && AllShown(t.log, step.rows)
            && (Coherent(t.log, ItemsOf(t.db, b), {})
                <==> StaleSet(s.log, step.rows) == {} || (Since(s).None? && Healable(s.log, step.rows, fraction)))
  {
    hide ItemsOf, Inv, ValidSteps, StateAfter, SweepQuietly, StaleSet, Healable, Coherent, NextSince, AllShown, IsListing, Converged;
    var s := StateAfter(Fresh(clock), steps, b, fraction);
    FreshHolds(clock, b);
    RunKeepsInv(Fresh(clock), steps, b, lag, fraction);
    CycleShows(s, step.rows, b, step.clock, fraction);
    ConvergedIs(Next(s, step, b, fraction).log, step.rows);
    ConvergedIsCoherent(Next(s, step, b, fraction).log, step.rows, s.db, b);
  }

  // ---- What the overlap is for ----

  ghost predicate Repairs(s: State, steps: seq<Step>, step: Step, b: BucketName, lag: int, fraction: real) {
    var t := StateAfter(s, steps, b, fraction);
    ValidSteps(s, steps, b, lag, fraction) && step.Cycle? && Enabled(t, step, b, lag) ==>
      AllShown(Next(t, step, b, fraction).log, step.rows)
  }

  // Every cycle repairs, in every run and every bucket, exactly when the overlap covers the lag.
  lemma RepairIsExact(lag: int, fraction: real)
    ensures (forall clock, steps, step, b: BucketName :: Repairs(Fresh(clock), steps, step, b, lag, fraction)) <==> lag <= OVERLAP
  {
    hide ValidSteps, StateAfter, Enabled, Next, AllShown;
    if lag <= OVERLAP {
      forall clock, steps, step, b: BucketName ensures Repairs(Fresh(clock), steps, step, b, lag, fraction) {
        if ValidSteps(Fresh(clock), steps, b, lag, fraction) && step.Cycle?
           && Enabled(StateAfter(Fresh(clock), steps, b, fraction), step, b, lag) {
          EveryCycleRepairs(clock, steps, step, b, lag, fraction);
        }
      }
    } else {
      LateRequestIsMissed(lag, fraction);
    }
  }

  // A flag value is created just after a cycle, stamped before the reach of the next one, and its publish fails.
  function LateSteps(lag: int): seq<Step> {
    [Request(0, Event(CreateEnvironment("e"), 1, 0), [], {}), Request(0, Event(CreateFlag("f", 1), 1, 0), [], {}),
     Step.Cycle(lag, [], i => j => "", true), Request(lag, Event(CreateFlagValue(1, 1, "a", 0), 1, 0), [], {FlagKey(1, "f")})]
  }

  function NextCycle(lag: int): Step { Step.Cycle(lag, [LateRow()], i => j => "", true) }

  function Missed(lag: int): State { State(lag, 1, Some(lag), TiedDb("a", 0), [], {FlagKey(1, "f")}) }

  // The next cycle does not repair it.
  lemma LateRequestIsMissed(lag: int, fraction: real)
    requires lag > OVERLAP
    ensures !Repairs(Fresh(0), LateSteps(lag), NextCycle(lag), Flags, lag, fraction)
  {
    hide Enabled, Next, ValidSteps, StateAfter, AllShown, LateRow, TiedDb, FlagOnly, FlagKey;
    var withEnv := EMPTY.(envs := map[1 := "e"]);
    FirstSteps(lag, fraction);
    EmptyCycle(lag, fraction);
    LateStep(lag, fraction);
    StepByStep(Fresh(0), LateSteps(lag), Fresh(0).(db := withEnv), Fresh(0).(db := FlagOnly()),
               State(lag, 1, Some(lag), FlagOnly(), [], {}), Missed(lag), lag, fraction);
    MissedCycle(lag, fraction);
  }

  lemma FirstSteps(lag: int, fraction: real)
    requires lag > OVERLAP
    ensures var s1, s2 := Fresh(0).(db := EMPTY.(envs := map[1 := "e"])), Fresh(0).(db := FlagOnly());
            && Enabled(Fresh(0), LateSteps(lag)[0], Flags, lag) && Next(Fresh(0), LateSteps(lag)[0], Flags, fraction) == s1
            && Enabled(s1, LateSteps(lag)[1], Flags, lag) && Next(s1, LateSteps(lag)[1], Flags, fraction) == s2
  {
    hide Serve, FreshId, WroteThrough, FlagKey, SweepQuietly, Left;
    FirstRows();
    FirstRequests();
  }

  lemma EmptyCycle(lag: int, fraction: real)
    requires lag > OVERLAP
    ensures var s2, s3 := Fresh(0).(db := FlagOnly()), State(lag, 1, Some(lag), FlagOnly(), [], {});
            Enabled(s2, LateSteps(lag)[2], Flags, lag) && Next(s2, LateSteps(lag)[2], Flags, fraction) == s3
  {
    hide Serve, FreshId, WroteThrough, FlagKey, FlagOnly, SweepQuietly, KeyOf;
    FirstRequests();
    QuietOverNothing(i => j => "", fraction);
  }

  lemma LateStep(lag: int, fraction: real)
    requires lag > OVERLAP
    ensures var s3 := State(lag, 1, Some(lag), FlagOnly(), [], {});
            Enabled(s3, LateSteps(lag)[3], Flags, lag) && Next(s3, LateSteps(lag)[3], Flags, fraction) == Missed(lag)
  {
    hide Serve, FreshId, WroteThrough, FlagKey, FlagOnly, TiedDb, SweepQuietly, Left;
    LateRequest();
  }

  lemma MissedCycle(lag: int, fraction: real)
    requires lag > OVERLAP
    ensures Enabled(Missed(lag), NextCycle(lag), Flags, lag)
    ensures !AllShown(Next(Missed(lag), NextCycle(lag), Flags, fraction).log, [LateRow()])
  {
    hide Serve, FlagKey, LateRow, TiedDb, IsListing, SweepQuietly, AllShown, Left;
    LateRequest();
    MissedRow(i => j => "", lag, fraction);
  }

  lemma StepByStep(s0: State, steps: seq<Step>, s1: State, s2: State, s3: State, s4: State, lag: int, fraction: real)
    requires |steps| == 4
    requires Enabled(s0, steps[0], Flags, lag) && s1 == Next(s0, steps[0], Flags, fraction)
    requires Enabled(s1, steps[1], Flags, lag) && s2 == Next(s1, steps[1], Flags, fraction)
    requires Enabled(s2, steps[2], Flags, lag) && s3 == Next(s2, steps[2], Flags, fraction)
    requires Enabled(s3, steps[3], Flags, lag) && s4 == Next(s3, steps[3], Flags, fraction)
    ensures ValidSteps(s0, steps, Flags, lag, fraction) && StateAfter(s0, steps, Flags, fraction) == s4
  {
    hide Enabled, Next;
    var t1, t2, t3 := steps[1..], steps[2..], steps[3..];
    assert t1[1..] == t2 && t2[1..] == t3 && t3[1..] == [];
    assert ValidSteps(s3, t3, Flags, lag, fraction) && StateAfter(s3, t3, Flags, fraction) == s4;
    assert ValidSteps(s2, t2, Flags, lag, fraction) && StateAfter(s2, t2, Flags, fraction) == s4;
    assert ValidSteps(s1, t1, Flags, lag, fraction) && StateAfter(s1, t1, Flags, fraction) == s4;
  }

  function LateRow(): Row { Row(1, 0, FlagItem(1, "f", 0, "a")) }

  lemma FirstRequests()
    ensures FreshId(EMPTY, CreateEnvironment("e"), 1) && FreshId(EMPTY.(envs := map[1 := "e"]), CreateFlag("f", 1), 1)
    ensures WroteThrough([], [], None, {}, {})
    ensures var out := Serve(EMPTY, CreateEnvironment("e"), 1, 0); out.publish.None? && out.purges == {}
    ensures var out := Serve(EMPTY.(envs := map[1 := "e"]), CreateFlag("f", 1), 1, 0); out.publish.None? && out.purges == {}
    ensures IsListing([], FlagOnly(), Flags, None)
  {
    hide Serve;
    UnpublishedOutcome(EMPTY, CreateEnvironment("e"), 1, 0);
    UnpublishedOutcome(EMPTY.(envs := map[1 := "e"]), CreateFlag("f", 1), 1, 0);
  }

  lemma LateRequest()
    ensures var out := Serve(FlagOnly(), CreateFlagValue(1, 1, "a", 0), 1, 0);
            && FreshId(FlagOnly(), CreateFlagValue(1, 1, "a", 0), 1)
            && out.db == TiedDb("a", 0) && Addressed(out.publish, out.purges) == {FlagKey(1, "f")}
            && WroteThrough([], [], out.publish, out.purges, {FlagKey(1, "f")})
    ensures IsListing([LateRow()], TiedDb("a", 0), Flags, None)
  {
    hide FlagKey;
    var db := TiedDb("a", 0);
    FlagItemAt(db.flags, db.values, 1);
    assert RowOf(db, Flags, 1) == LateRow();
  }

  lemma QuietOverNothing(clock: Clock, fraction: real)
    ensures Window([], None) == [] && SweepQuietly([], [], true, clock, fraction) == []
  {
    assert Contents([]) == map[];
    assert StaleSet([], []) == {};
    NothingLeftToSweep([], [], true, clock, fraction);
  }

  lemma MissedRow(clock: Clock, lag: int, fraction: real)
    requires lag > OVERLAP
    ensures !AllShown(SweepQuietly([], Window([LateRow()], Some(lag - OVERLAP)), false, clock, fraction), [LateRow()])
  {
    hide SweepQuietly, KeyOf;
    IncrementalSweep([], [LateRow()], Some(lag - OVERLAP), clock, fraction);
    assert LateRow() in [LateRow()];
  }
}
