/**
 A JetStream KV bucket as the publisher relies on it: one append-only stream of
 puts and purges. An entry's revision is its position in the stream, counted
 from one, so revisions rise strictly and a key's revision moves exactly when
 somebody writes the key.
 */
module Kv {
  import opened Options

  datatype BucketName = Flags | ServiceSettings | Localization

  datatype FlagPayload = FlagPayload(enabled: bool, value: string, updatedAt: string)

  // A value's bytes. Payload is what json.Marshal writes for a flag payload; Text is any
  // other byte string, with what json.Valid and json.Unmarshal make of it.
  datatype Bytes =
    | Payload(flag: FlagPayload)
    | Text(text: string, wellFormed: bool, asFlag: Option<FlagPayload>)

  function Decode(b: Bytes): Option<FlagPayload> {
    match b
    case Payload(p) => Some(p)
    case Text(_, _, asFlag) => asFlag
  }

  datatype Op = Put(value: Bytes) | Purge

  // own tells the entries written through this bucket handle from everybody else's.
  datatype Entry = Entry(key: string, op: Op, own: bool)

  type Log = seq<Entry>

  // The position, counted from one, of the last of the first n entries under key; 0 without one.
  function LastBefore(log: Log, n: nat, key: string): (r: nat)
    requires n <= |log|
    ensures r <= n && (r > 0 ==> log[r - 1].key == key)
    ensures forall i | r <= i < n :: log[i].key != key
  {
    if n == 0 then 0 else if log[n - 1].key == key then n else LastBefore(log, n - 1, key)
  }

  // A key's revision: its last entry's, a purge marker included; 0 if it was never written.
  function Revision(log: Log, key: string): (r: nat)
    ensures r <= |log|
  {
    LastBefore(log, |log|, key)
  }

  function Live(log: Log, key: string): Option<Bytes> {
    var r := Revision(log, key);
    if r > 0 && log[r - 1].op.Put? then Some(log[r - 1].op.value) else None
  }

  function Contents(log: Log): map<string, Bytes> {
    map e | e in log && Live(log, e.key).Some? :: e.key := Live(log, e.key).value
  }

  lemma ContentsAt(log: Log, key: string)
    ensures key in Contents(log) <==> Live(log, key).Some?
    ensures key in Contents(log) ==> Contents(log)[key] == Live(log, key).value
  {
    var r := Revision(log, key);
    if r > 0 {
      assert log[r - 1] in log;
    }
  }

  lemma Appended(log: Log, e: Entry, key: string)
    ensures Revision(log + [e], key) == if e.key == key then |log| + 1 else Revision(log, key)
    ensures Live(log + [e], key) ==
            if e.key != key then Live(log, key) else if e.op.Put? then Some(e.op.value) else None
  {
    var r, s := Revision(log, key), Revision(log + [e], key);
    assert s > 0 ==> (log + [e])[s - 1].key == key;
    assert r > 0 ==> (log + [e])[r - 1] == log[r - 1];
  }

  // A key whose revision stood still holds what it held.
  lemma Untouched(a: Log, b: Log, key: string)
    requires a <= b
    ensures Revision(b, key) == Revision(a, key) || Revision(b, key) > |a|
    ensures Revision(b, key) == Revision(a, key) ==> Live(b, key) == Live(a, key)
  {
    var r, s := Revision(a, key), Revision(b, key);
    assert s > 0 && s <= |a| ==> a[s - 1] == b[s - 1];
    assert r > 0 ==> a[r - 1] == b[r - 1];
  }

  // How many of the entries at positions from..upto are under key.
  function Touches(log: Log, from: nat, upto: nat, key: string): nat
    requires from <= upto <= |log|
  {
    if upto == from then 0 else Touches(log, from, upto - 1, key) + (if log[upto - 1].key == key then 1 else 0)
  }

  lemma {:induction false} TouchesSplit(a: Log, b: Log, from: nat, upto: nat, key: string)
    requires a <= b && from <= |a| <= upto <= |b|
    ensures Touches(b, from, upto, key) == Touches(a, from, |a|, key) + Touches(b, |a|, upto, key)
    ensures LastBefore(b, upto, key) > |a| ==> Touches(b, |a|, upto, key) > 0
    decreases upto
  {
    if upto > |a| {
      TouchesSplit(a, b, from, upto - 1, key);
    } else {
      SameTouches(a, b, from, upto, key);
    }
  }

  lemma {:induction false} SameTouches(a: Log, b: Log, from: nat, upto: nat, key: string)
    requires a <= b && from <= upto <= |a|
    ensures Touches(b, from, upto, key) == Touches(a, from, upto, key)
    decreases upto
  {
    if from < upto {
      SameTouches(a, b, from, upto - 1, key);
    }
  }

  // ---- What the rest of the world may do around one call ----

  // Before a call takes effect the others write `foreign`; then the call may fail outright.
  datatype Turn = Turn(foreign: seq<(string, Op)>, fails: bool)

  predicate Uncontended(schedule: seq<Turn>) { forall t | t in schedule :: t.foreign == [] }

  predicate Reliable(schedule: seq<Turn>) { forall t | t in schedule :: !t.fails }

  // How many calls the schedule still disturbs.
  function Rough(schedule: seq<Turn>): nat {
    if schedule == [] then 0
    else (if schedule[0].fails || schedule[0].foreign != [] then 1 else 0) + Rough(schedule[1..])
  }

  // The next call will fail.
  predicate FailsNext(schedule: seq<Turn>) { schedule != [] && schedule[0].fails }

  // A schedule only gets shorter, so a calm one stays calm.
  ghost predicate AsCalm(before: seq<Turn>, after: seq<Turn>) {
    && (Uncontended(before) ==> Uncontended(after))
    && (Reliable(before) ==> Reliable(after))
    && Rough(after) <= Rough(before)
  }

  ghost predicate OnlyForeign(a: Log, b: Log) {
    a <= b && forall i | |a| <= i < |b| :: !b[i].own
  }

  datatype Stored = Stored(value: Option<Bytes>, revision: nat)

  // What a read reports: revision 0 for a key that is absent or purged.
  function Current(log: Log, key: string): Stored {
    if Live(log, key).Some? then Stored(Live(log, key), Revision(log, key)) else Stored(None, 0)
  }

  datatype WriteResult = Done | KeyExists | Broken

  // A write that took effect added its entry, last, to whatever the others had left.
  ghost predicate Wrote(r: WriteResult, a: Log, b: Log, e: Entry) {
    if r == Done then b != [] && b[|b| - 1] == e && OnlyForeign(a, b[..|b| - 1]) else OnlyForeign(a, b)
  }

  datatype KeyRevision = KeyRevision(key: string, revision: nat)

  // Entry n, counted from one, is still its key's value.
  predicate StillLive(log: Log, n: nat)
    requires 0 < n <= |log|
  {
    Revision(log, log[n - 1].key) == n && log[n - 1].op.Put?
  }

  // The live keys of the first n entries with their revisions, in stream order.
  function Listing(log: Log, n: nat): seq<KeyRevision>
    requires n <= |log|
  {
    if n == 0 then []
    else if StillLive(log, n) then Listing(log, n - 1) + [KeyRevision(log[n - 1].key, n)]
    else Listing(log, n - 1)
  }

  lemma {:induction false} ListingByPosition(log: Log, n: nat, e: KeyRevision)
    requires n <= |log|
    ensures e in Listing(log, n) <==>
            0 < e.revision <= n && StillLive(log, e.revision) && e.key == log[e.revision - 1].key
  {
    if n > 0 {
      ListingByPosition(log, n - 1, e);
      var prior, here := Listing(log, n - 1), KeyRevision(log[n - 1].key, n);
      if !StillLive(log, n) {
        assert Listing(log, n) == prior;
      } else if e == here {
        assert Listing(log, n)[|prior|] == e;
      } else {
        assert Listing(log, n) == prior + [here];
        assert e in [here] <==> e == here;
      }
    }
  }

  // A listing names every live key once, at the revision it is at.
  lemma ListingExact(log: Log, e: KeyRevision)
    ensures e in Listing(log, |log|) <==> Live(log, e.key).Some? && e.revision == Revision(log, e.key)
  {
    ListingByPosition(log, |log|, e);
  }

  lemma {:induction false} ListingOrdered(log: Log, n: nat)
    requires n <= |log|
    ensures forall i | 0 <= i < |Listing(log, n)| :: Listing(log, n)[i].revision <= n
    ensures forall i, j | 0 <= i < j < |Listing(log, n)| :: Listing(log, n)[i].key != Listing(log, n)[j].key
  {
    if n > 0 {
      ListingOrdered(log, n - 1);
      var prior := Listing(log, n - 1);
      forall i | 0 <= i < |prior| && StillLive(log, n)
        ensures prior[i].key != log[n - 1].key
      {
        ListingByPosition(log, n - 1, prior[i]);
      }
    }
  }

  class Bucket {
    var log: Log
    // The adversary: consumed one turn a call, and calm once it has run out.
    var schedule: seq<Turn>

    constructor (log: Log, schedule: seq<Turn>)
      ensures this.log == log && this.schedule == schedule
    {
      this.log, this.schedule := log, schedule;
    }

    method Others() returns (fails: bool)
      modifies this
      ensures OnlyForeign(old(log), log) && AsCalm(old(schedule), schedule)
      ensures Uncontended(old(schedule)) ==> log == old(log)
      ensures Reliable(old(schedule)) ==> !fails
      ensures fails <==> FailsNext(old(schedule))
      ensures fails || log != old(log) ==> Rough(schedule) < Rough(old(schedule))
    {
      fails := false;
      if schedule != [] {
        var turn := schedule[0];
        assert turn in schedule;
        log := log + seq(|turn.foreign|, i requires 0 <= i < |turn.foreign| =>
                                           Entry(turn.foreign[i].0, turn.foreign[i].1, false));
        schedule := schedule[1..];
        fails := turn.fails;
      }
    }

    method Get(key: string) returns (failed: bool, cur: Stored)
      modifies this
      ensures OnlyForeign(old(log), log) && AsCalm(old(schedule), schedule)
      ensures Uncontended(old(schedule)) ==> log == old(log)
      ensures Reliable(old(schedule)) ==> !failed
      ensures failed ==> Rough(schedule) < Rough(old(schedule))
      ensures !failed ==> cur == Current(log, key)
      ensures !failed ==> cur.value == Live(log, key) && cur.revision == if Live(log, key).Some? then Revision(log, key) else 0
    {
      failed := Others();
      cur := Current(log, key);
    }

    // Writes only where no live value stands.
    method Create(key: string, value: Bytes) returns (r: WriteResult)
      modifies this
      ensures Wrote(r, old(log), log, Entry(key, Put(value), true)) && AsCalm(old(schedule), schedule)
      ensures Uncontended(old(schedule)) ==> |log| == |old(log)| + if r == Done then 1 else 0
      ensures Reliable(old(schedule)) ==> r != Broken
      ensures r == Broken || (r == KeyExists && log != old(log)) ==> Rough(schedule) < Rough(old(schedule))
      ensures r == Done ==> Live(log[..|log| - 1], key).None?
      ensures r == KeyExists ==> Live(log, key).Some?
    {
      var failed := Others();
      ghost var before := log;
      if failed {
        r := Broken;
      } else if Live(log, key).Some? {
        r := KeyExists;
      } else {
        log := log + [Entry(key, Put(value), true)];
        assert log[..|log| - 1] == before;
        r := Done;
      }
    }

    // Writes only over the very entry the caller read.
    method Update(key: string, value: Bytes, revision: nat) returns (r: WriteResult)
      modifies this
      ensures Wrote(r, old(log), log, Entry(key, Put(value), true)) && AsCalm(old(schedule), schedule)
      ensures Uncontended(old(schedule)) ==> |log| == |old(log)| + if r == Done then 1 else 0
      ensures Reliable(old(schedule)) ==> r != Broken
      ensures r == Broken || (r == KeyExists && log != old(log)) ==> Rough(schedule) < Rough(old(schedule))
      ensures r == Done ==> Revision(log[..|log| - 1], key) == revision
      ensures r == KeyExists ==> Revision(log, key) != revision
    {
      var failed := Others();
      ghost var before := log;
      if failed {
        r := Broken;
      } else if Revision(log, key) != revision {
        r := KeyExists;
      } else {
        log := log + [Entry(key, Put(value), true)];
        assert log[..|log| - 1] == before;
        r := Done;
      }
    }

    // Purging is unconditional and leaves a marker, whether or not the key was live.
    method PurgeKey(key: string) returns (ok: bool)
      modifies this
      ensures Wrote(if ok then Done else Broken, old(log), log, Entry(key, Purge, true)) && AsCalm(old(schedule), schedule)
      ensures Uncontended(old(schedule)) ==> |log| == |old(log)| + if ok then 1 else 0
      ensures Reliable(old(schedule)) ==> ok
      ensures !ok ==> Rough(schedule) < Rough(old(schedule))
    {
      var failed := Others();
      ghost var before := log;
      ok := !failed;
      if ok {
        log := log + [Entry(key, Purge, true)];
        assert log[..|log| - 1] == before;
      }
    }

    // One pass over the stream, keeping the entries that are still their key's value.
    method ListRevisions() returns (ok: bool, out: seq<KeyRevision>)
      modifies this
      ensures OnlyForeign(old(log), log) && AsCalm(old(schedule), schedule)
      ensures Uncontended(old(schedule)) ==> log == old(log)
      ensures Reliable(old(schedule)) ==> ok
      ensures ok <==> !FailsNext(old(schedule))
      ensures ok ==> out == Listing(log, |log|)
    {
      var failed := Others();
      ok, out := !failed, [];
      for i := 0 to |log|
        invariant out == Listing(log, i)
      {
        if StillLive(log, i + 1) {
          out := out + [KeyRevision(log[i].key, i + 1)];
        }
      }
    }
  }
}
