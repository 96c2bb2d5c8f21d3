/**
 The incremental window over whole runs: commits land at any moment before, between and
 inside the cycles, others write the bucket, and a cycle may fail or be cancelled.
 */
module Windows {
  import opened Options
  import opened Kv
  import opened Items
  import opened Reconciler

  // One state of a row: the UPDATED_AT it carries, what it publishes, which of the table's commits made it, and how
  // far the bucket's stream had got by then.
  datatype Version = Version(updatedAt: int, item: Item, serial: nat, committed: nat)

  // What a cycle's query answered, and where the bucket stood when it did.
  datatype Reading = Reading(versions: set<Version>, from: Log)

  // A cycle under way.
  datatype Sweep = Sweep(started: int, since: Option<int>, reading: Option<Reading>)

  // One table and its bucket. `commits` counts the table's commits; `published` are the versions read by clean cycles.
  datatype World = World(
    clock: int,
    runs: nat,
    lastRun: Option<int>,
    rows: map<int, Version>,
    commits: nat,
    log: Log,
    published: set<Version>,
    sweep: Option<Sweep>)

  // What a commit leaves in a row.
  datatype RowState = RowState(updatedAt: int, item: Item)

  // Write is anybody's, the cycle's own publishes included. Finish(clean) ends a cycle; a cancelled one is not even
  // counted.
  datatype Event =
    | Commit(at: int, id: int, stored: Option<RowState>)
    | Write(at: int, log: Log)
    | Start(at: int)
    | Read(at: int)
    | Finish(at: int, clean: bool)
    | Cancel(at: int)

  // Every version a cycle read was shown in the bucket at some moment since the read.
  ghost predicate AllShown(s: Sweep, log: Log) {
    s.reading.Some? && forall v | v in s.reading.value.versions :: ShownWithin(s.reading.value.from, log, v.item)
  }

  // A commit's UPDATED_AT lags its visibility by at most `lag`: clock skew, and the statement's
  // own transaction time.
  ghost predicate Enabled(w: World, e: Event, lag: int) {
    && e.at >= w.clock
    && match e
       case Commit(at, _, stored) => stored.Some? ==> stored.value.updatedAt >= at - lag
       case Write(_, log) => w.log <= log
       case Start(_) => w.sweep.None?
       case Read(_) => w.sweep.Some? && w.sweep.value.reading.None?
       case Finish(_, clean) => w.sweep.Some? && (clean ==> AllShown(w.sweep.value, w.log))
       case Cancel(_) => w.sweep.Some?
  }

  function Answer(rows: map<int, Version>, since: Option<int>): set<Version> {
    set id | id in rows && InWindow(rows[id].updatedAt, since) :: rows[id]
  }

  function Next(w: World, e: Event): World {
    var w := w.(clock := e.at);
    match e
    case Commit(_, id, stored) =>
      var rows := if stored.Some? then w.rows[id := Version(stored.value.updatedAt, stored.value.item, w.commits, |w.log|)]
                  else w.rows - {id};
      w.(rows := rows, commits := w.commits + 1)
    case Write(_, log) => w.(log := log)
    case Start(at) => w.(sweep := Some(Sweep(at, NextSince(w.runs, w.lastRun), None)))
    case Read(_) =>
      if w.sweep.None? then w
      else w.(sweep := Some(w.sweep.value.(reading := Some(Reading(Answer(w.rows, w.sweep.value.since), w.log)))))
    case Finish(_, clean) =>
      if w.sweep.None? then w
      else if clean && w.sweep.value.reading.Some? then
        w.(runs := w.runs + 1, lastRun := Some(w.sweep.value.started),
           published := w.published + w.sweep.value.reading.value.versions, sweep := None)
      else w.(runs := w.runs + 1, sweep := None)
    case Cancel(_) => w.(sweep := None)
  }

  ghost predicate ValidRun(w: World, events: seq<Event>, lag: int)
    decreases |events|
  {
    events == [] || (Enabled(w, events[0], lag) && ValidRun(Next(w, events[0]), events[1..], lag))
  }

  function Run(w: World, events: seq<Event>): World
    decreases |events|
  {
    if events == [] then w else Run(Next(w, events[0]), events[1..])
  }

  function Initial(clock: int, log: Log): World { World(clock, 0, None, map[], 0, log, {}, None) }

  // The bucket showed this version at some moment since its commit.
  ghost predicate ShownSince(log: Log, v: Version) {
    v.committed <= |log| && ShownWithin(log[..v.committed], log, v.item)
  }

  // Every current row version was published by a clean cycle that read it, the bucket having shown it since its
  // commit, or lies inside the window of the next cycle.
  ghost predicate NothingFellBetween(w: World) {
    forall id | id in w.rows ::
      || (w.rows[id] in w.published && ShownSince(w.log, w.rows[id]))
      || InWindow(w.rows[id].updatedAt, NextSince(w.runs, w.lastRun))
  }

  // ---- The cycle's own account ----

  // A cycle that did not fail has shown, since its snapshot, every row it read, so it may finish clean.
  lemma CleanCycleShows(a: Log, b: Log, snap: Log, listed: Log, table: Option<seq<Row>>, since: Option<int>,
                        published: seq<bool>, fraction: real)
    requires Accounted(a, b, snap, listed, table, since, published, fraction) && !SourceFailed(table, published)
    ensures forall r | r in Answered(table, since) :: ShownWithin(snap, b, r.item)
  {
    hide ShownWithin, Answered;
    var rows := Answered(table, since);
    forall r | r in rows ensures ShownWithin(snap, b, r.item) {
      var j :| 0 <= j < |rows| && rows[j] == r;
      assert published[j] in published;
    }
  }

  // ---- The invariant ----

  predicate Recent(v: Version, bound: Option<int>) { bound.None? || v.updatedAt >= bound.value - OVERLAP }

  ghost predicate Inv(w: World) {
    && (w.lastRun.Some? ==> w.lastRun.value <= w.clock)
    && (forall id | id in w.rows :: w.rows[id].committed <= |w.log| && w.rows[id].serial < w.commits)
    && (forall v | v in w.published :: ShownSince(w.log, v))
    && (forall id | id in w.rows :: w.rows[id] in w.published || Recent(w.rows[id], w.lastRun))
    && (w.sweep.Some? ==> SweepInv(w, w.sweep.value))
  }

  ghost predicate SweepInv(w: World, s: Sweep) {
    && s.started <= w.clock
    && (s.since.Some? ==> w.lastRun.Some? && s.since.value == w.lastRun.value - OVERLAP)
    && (s.reading.Some? ==>
          && s.reading.value.from <= w.log
          && (forall v | v in s.reading.value.versions :: v.committed <= |s.reading.value.from|)
          && (forall id | id in w.rows ::
                w.rows[id] in s.reading.value.versions || w.rows[id] in w.published || Recent(w.rows[id], Some(s.started))))
  }

  lemma ShownStaysShown(a: Log, b: Log, v: Version)
    requires a <= b && ShownSince(a, v)
    ensures ShownSince(b, v)
  {
    hide ShownIn;
    assert b[..v.committed] == a[..v.committed];
    ShownStays(a[..v.committed], a, b, v.item);
  }

  // Shown since the read is shown since the commit.
  lemma ReadIsShown(w: World, s: Sweep, v: Version)
    requires AllShown(s, w.log) && SweepInv(w, s) && v in s.reading.value.versions
    ensures ShownSince(w.log, v)
  {
    hide ShownIn;
    var from := s.reading.value.from;
    var n :| |from| <= n <= |w.log| && ShownIn(w.log[..n], v.item);
    assert |w.log[..v.committed]| <= n;
  }

  lemma StepKeepsInv(w: World, e: Event, lag: int)
    requires Inv(w) && Enabled(w, e, lag) && lag <= OVERLAP
    ensures Inv(Next(w, e))
  {
    hide ShownSince, ShownWithin;
    match e
    case Write(_, log) =>
      forall v | v in w.published ensures ShownSince(log, v) {
        ShownStaysShown(w.log, log, v);
      }
    case Finish(_, clean) =>
      if clean {
        forall v | v in w.sweep.value.reading.value.versions ensures ShownSince(w.log, v) {
          ReadIsShown(w, w.sweep.value, v);
        }
      }
    case _ =>
  }

  lemma {:induction false} RunKeepsInv(w: World, events: seq<Event>, lag: int)
    requires Inv(w) && ValidRun(w, events, lag) && lag <= OVERLAP
    ensures Inv(Run(w, events))
    decreases |events|
  {
    hide Inv, Enabled, Next;
    if events != [] {
      StepKeepsInv(w, events[0], lag);
      RunKeepsInv(Next(w, events[0]), events[1..], lag);
    }
  }

  // A commit that lags by more than the overlap can land between two sweeps, read by neither, from any bucket
  // contents; a change back to a value the bucket showed before is lost like any other.
  lemma LateCommitFallsBetween(clock: int, log: Log, lag: int, item: Item) returns (events: seq<Event>)
    requires lag > OVERLAP
    ensures ValidRun(Initial(clock, log), events, lag) && !NothingFellBetween(Run(Initial(clock, log), events))
  {
    hide ShownWithin;
    var late := Version(clock - lag, item, 0, |log|);
    events := [Start(clock), Read(clock), Commit(clock, 1, Some(RowState(clock - lag, item))), Finish(clock, true)];
    var w0 := Initial(clock, log);
    var w1 := Next(w0, events[0]);
    var w2 := Next(w1, events[1]);
    var w3 := Next(w2, events[2]);
    var w4 := Next(w3, events[3]);
    var e1, e2, e3 := events[1..], events[2..], events[3..];
    assert e1[1..] == e2 && e2[1..] == e3 && e3[1..] == [];
    assert w2.sweep.value.reading.value.versions == {};
    assert Run(w3, e3) == w4 && ValidRun(w3, e3, lag);
    assert Run(w2, e2) == w4 && ValidRun(w2, e2, lag);
    assert Run(w1, e1) == w4 && ValidRun(w1, e1, lag);
    assert 1 in w4.rows && w4.rows[1] == late && w4.published == {};
  }

  // Over every run of commits, foreign writes and clean, failed or cancelled cycles, from any bucket contents,
  // nothing falls between sweeps, exactly when the overlap covers the lag.
  lemma OverlapIsExact(clock: int, lag: int)
    ensures (forall log, events :: ValidRun(Initial(clock, log), events, lag) ==> NothingFellBetween(Run(Initial(clock, log), events)))
            <==> lag <= OVERLAP
  {
    hide ValidRun, Run, NothingFellBetween;
    if lag <= OVERLAP {
      forall log, events | ValidRun(Initial(clock, log), events, lag)
        ensures NothingFellBetween(Run(Initial(clock, log), events))
      {
        RunKeepsInv(Initial(clock, log), events, lag);
        InvMeans(Run(Initial(clock, log), events));
      }
    } else {
      var events := LateCommitFallsBetween(clock, [], lag, FlagItem(1, "f", 1, "on"));
    }
  }

  lemma InvMeans(w: World)
    requires Inv(w)
    ensures NothingFellBetween(w)
  {
    hide ShownSince;
  }
}
