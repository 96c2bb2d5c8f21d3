/**
 The revision-checked, skip-identical write every published value goes through.
 */
module Publisher {
  import opened Options
  import opened Kv

  const PUBLISH_ATTEMPTS: nat := 3

  // How the bytes to write follow from the bytes the bucket holds.
  datatype Build = Verbatim(value: Bytes) | FlagState(payload: FlagPayload)

  datatype Derived = Derived(write: Bytes, compare: Bytes)

  function Derive(build: Build, stamp: string, cur: Option<Bytes>): Derived {
    match build
    case Verbatim(v) => Derived(v, v)
    case FlagState(p) =>
      if p.updatedAt != "" then Derived(Payload(p), Payload(p))
      else
        var carried := if cur.Some? && Decode(cur.value).Some? then Decode(cur.value).value.updatedAt else "";
        Derived(Payload(p.(updatedAt := stamp)), Payload(p.(updatedAt := carried)))
  }

  predicate Identical(build: Build, stamp: string, cur: Option<Bytes>) {
    cur.Some? && cur.value == Derive(build, stamp, cur).compare
  }

  // The entry a write adds to the stream it finds.
  function NewEntry(log: Log, key: string, build: Build, stamp: string): Entry {
    Entry(key, Put(Derive(build, stamp, Live(log, key)).write), true)
  }

  // One uncontended publish.
  function PublishQuietly(log: Log, key: string, build: Build, stamp: string): Log {
    if Identical(build, stamp, Live(log, key)) then log else log + [NewEntry(log, key, build, stamp)]
  }

  datatype Outcome = Written | Skipped | Contended | Failed

  // The call's one own entry ends the stream, and was built from exactly the value it replaces.
  ghost predicate WroteOver(a: Log, b: Log, key: string, build: Build, stamp: string) {
    && b != []
    && var before := b[..|b| - 1];
       && OnlyForeign(a, before)
       && !Identical(build, stamp, Live(before, key))
       && b[|b| - 1] == NewEntry(before, key, build, stamp)
  }

  // What each outcome says about the stream before and after the call.
  ghost predicate Explains(out: Outcome, a: Log, b: Log, key: string, build: Build, stamp: string) {
    match out
    case Written => WroteOver(a, b, key, build, stamp)
    case Skipped => OnlyForeign(a, b) && Identical(build, stamp, Live(b, key))
    case Contended => OnlyForeign(a, b) && Touches(b, |a|, |b|, key) > 0
    case Failed => OnlyForeign(a, b)
  }

  // A create where the read found nothing, an update of the very revision it found otherwise;
  // refused when somebody wrote the key since the read.
  method WriteIfUnchanged(kv: Bucket, key: string, value: Bytes, cur: Stored) returns (r: WriteResult)
    requires cur == Current(kv.log, key)
    modifies kv
    ensures Wrote(r, old(kv.log), kv.log, Entry(key, Put(value), true)) && AsCalm(old(kv.schedule), kv.schedule)
    ensures Uncontended(old(kv.schedule)) ==>
              r != KeyExists && |kv.log| == |old(kv.log)| + if r == Done then 1 else 0
    ensures Reliable(old(kv.schedule)) ==> r != Broken
    ensures r == Done ==> Live(kv.log[..|kv.log| - 1], key) == cur.value
    ensures r == KeyExists ==> Revision(kv.log, key) > |old(kv.log)|
    ensures r != Done ==> Rough(kv.schedule) < Rough(old(kv.schedule))
  {
    ghost var read := kv.log;
    if cur.revision == 0 {
      r := kv.Create(key, value);
    } else {
      r := kv.Update(key, value, cur.revision);
    }
    if r == Done {
      Untouched(read, kv.log[..|kv.log| - 1], key);
    } else {
      Untouched(read, kv.log, key);
    }
  }

  // One round: read, build, write on the condition that nobody wrote since the read. Contended
  // is a write refused because somebody did.
  method Attempt(kv: Bucket, key: string, build: Build, stamp: string) returns (out: Outcome)
    modifies kv
    ensures AsCalm(old(kv.schedule), kv.schedule)
    ensures Explains(out, old(kv.log), kv.log, key, build, stamp)
    ensures Reliable(old(kv.schedule)) ==> out != Failed
    ensures out == Failed || out == Contended ==> Rough(kv.schedule) < Rough(old(kv.schedule))
    ensures Uncontended(old(kv.schedule)) ==>
              out != Contended && |kv.log| == |old(kv.log)| + if out == Written then 1 else 0
  {
    ghost var start := kv.log;
    var failed, cur := kv.Get(key);
    if failed {
      return Failed;
    }
    var derived := Derive(build, stamp, cur.value);
    if cur.value.Some? && cur.value.value == derived.compare {
      return Skipped;
    }
    ghost var read := kv.log;
    var r := WriteIfUnchanged(kv, key, derived.write, cur);
    out := match r case Done => Written case KeyExists => Contended case Broken => Failed;
    RoundExplained(r, start, read, kv.log, key, build, stamp);
  }

  lemma RoundExplained(r: WriteResult, a: Log, read: Log, b: Log, key: string, build: Build, stamp: string)
    requires OnlyForeign(a, read) && !Identical(build, stamp, Live(read, key))
    requires Wrote(r, read, b, NewEntry(read, key, build, stamp))
    requires r == Done ==> Live(b[..|b| - 1], key) == Live(read, key)
    requires r == KeyExists ==> Revision(b, key) > |read|
    ensures Explains(match r case Done => Written case KeyExists => Contended case Broken => Failed, a, b, key, build, stamp)
  {
    match r
    case Done =>
      assert OnlyForeign(a, b[..|b| - 1]);
    case KeyExists =>
      TouchesSplit(a, read, |a|, |read|, key);
      TouchesSplit(read, b, |read|, |b|, key);
      TouchesSplit(read, b, |a|, |b|, key);
    case Broken =>
  }

  // `stamps` are the clock's readings, one an attempt.
  method Publish(kv: Bucket, key: string, build: Build, stamps: nat -> string)
    returns (out: Outcome, ghost attempt: nat)
    modifies kv
    ensures AsCalm(old(kv.schedule), kv.schedule)
    ensures Explains(out, old(kv.log), kv.log, key, build, stamps(attempt))
    ensures out == Contended ==> Touches(kv.log, |old(kv.log)|, |kv.log|, key) >= 3
    ensures Reliable(old(kv.schedule)) ==> out != Failed
    ensures out == Failed || out == Contended ==> Rough(kv.schedule) < Rough(old(kv.schedule))
    ensures Uncontended(old(kv.schedule)) ==>
              && out != Contended
              && kv.log == if out == Failed then old(kv.log) else PublishQuietly(old(kv.log), key, build, stamps(0))
  {
    ghost var start := kv.log;
    attempt := 0;
    var n := 0;
    while n < PUBLISH_ATTEMPTS
      invariant n <= PUBLISH_ATTEMPTS && AsCalm(old(kv.schedule), kv.schedule)
      invariant OnlyForeign(start, kv.log) && Touches(kv.log, |start|, |kv.log|, key) >= n
      invariant Uncontended(old(kv.schedule)) ==> n == 0 && kv.log == start
      invariant n > 0 ==> Rough(kv.schedule) < Rough(old(kv.schedule))
    {
      ghost var entered := kv.log;
      attempt := n;
      out := Attempt(kv, key, build, stamps(n));
      if out != Contended {
        if Uncontended(old(kv.schedule)) {
          Undisturbed(out, start, kv.log, key, build, stamps(n));
        }
        return;
      }
      TouchesSplit(entered, kv.log, |start|, |kv.log|, key);
      n := n + 1;
    }
    out := Contended;
  }

  // A call that added nothing but its own write did what an uncontended publish does.
  lemma Undisturbed(out: Outcome, a: Log, b: Log, key: string, build: Build, stamp: string)
    requires Explains(out, a, b, key, build, stamp)
    requires out != Contended && |b| == |a| + if out == Written then 1 else 0
    ensures b == if out == Failed then a else PublishQuietly(a, key, build, stamp)
  {
    if out == Written {
      assert b[..|b| - 1] == a && b == a + [b[|b| - 1]];
    } else {
      assert b == a;
    }
  }

  // A flag that is written carries its own state and the reading of the clock its attempt took, unless the caller
  // brought a time of its own.
  lemma WrittenFlag(a: Log, b: Log, key: string, p: FlagPayload, stamp: string)
    requires Explains(Written, a, b, key, FlagState(p), stamp)
    ensures b[|b| - 1]
            == Entry(key, Put(Payload(FlagPayload(p.enabled, p.value, if p.updatedAt != "" then p.updatedAt else stamp))), true)
  {
  }

  // A flag is rewritten, and its stored timestamp moves, exactly when what is stored is not a
  // published payload with the same state. A caller's own timestamp is compared as written.
  lemma FlagIsRewrittenExactly(log: Log, key: string, p: FlagPayload, stamp: string)
    ensures PublishQuietly(log, key, FlagState(p), stamp) == log <==>
            match Live(log, key)
            case Some(Payload(q)) => q.enabled == p.enabled && q.value == p.value && (p.updatedAt == "" || q.updatedAt == p.updatedAt)
            case _ => false
  {
    assert |log + [NewEntry(log, key, FlagState(p), stamp)]| != |log|;
  }
}
