/**
 What a database row publishes: its key, its value and when the publisher refuses it.
 */
module Items {
  import opened Keys
  import opened Kv
  import opened Publisher

  datatype Item =
    | FlagItem(env: int, flagKey: string, enabled: int, value: string)
    | SettingsItem(env: int, ms: int, body: Bytes)
    | BundleItem(env: int, ms: int, locale: string, body: Bytes)

  function KeyOf(item: Item): string {
    match item
    case FlagItem(env, flagKey, _, _) => FlagKey(env, flagKey)
    case SettingsItem(env, ms, _) => ServiceSettingsKey(env, ms)
    case BundleItem(env, ms, locale, _) => LocalizationKey(env, ms, locale)
  }

  function BuildOf(item: Item): Build {
    match item
    case FlagItem(_, _, enabled, value) => FlagState(FlagPayload(enabled != 0, value, ""))
    case SettingsItem(_, _, body) => Verbatim(body)
    case BundleItem(_, _, _, body) => Verbatim(body)
  }

  predicate Empty(b: Bytes) { b.Text? && b.text == "" }

  // An empty document, or a bundle without a locale, never reaches the bucket.
  predicate Publishable(item: Item) {
    match item
    case FlagItem(_, _, _, _) => true
    case SettingsItem(_, _, body) => !Empty(body)
    case BundleItem(_, _, locale, body) => locale != "" && !Empty(body)
  }

  // The bucket holds what the row says; a flag's timestamp is the publisher's own.
  predicate Shows(item: Item, value: Bytes) {
    match item
    case FlagItem(_, _, enabled, v) => value.Payload? && value.flag.enabled == (enabled != 0) && value.flag.value == v
    case SettingsItem(_, _, body) => value == body
    case BundleItem(_, _, _, body) => value == body
  }

  predicate ShownIn(log: Log, item: Item) {
    var v := Live(log, KeyOf(item));
    v.Some? && Shows(item, v.value)
  }

  function PublishItemQuietly(log: Log, item: Item, stamp: string): Log {
    PublishQuietly(log, KeyOf(item), BuildOf(item), stamp)
  }

  // A write leaves the row shown, and it is skipped exactly when the row was shown already.
  lemma PublishShows(log: Log, item: Item, stamp: string)
    ensures Identical(BuildOf(item), stamp, Live(log, KeyOf(item))) <==> ShownIn(log, item)
    ensures ShownIn(PublishItemQuietly(log, item, stamp), item)
    ensures ShownIn(log, item) <==> PublishItemQuietly(log, item, stamp) == log
  {
    Appended(log, NewEntry(log, KeyOf(item), BuildOf(item), stamp), KeyOf(item));
    assert |log + [NewEntry(log, KeyOf(item), BuildOf(item), stamp)]| != |log|;
  }

  // Between the two logs this side did nothing but put values under these keys.
  ghost predicate OwnPuts(a: Log, b: Log, keys: set<string>) {
    a <= b && forall i | |a| <= i < |b| && b[i].own :: b[i].op.Put? && b[i].key in keys
  }

  lemma OutcomeShows(out: Outcome, a: Log, b: Log, item: Item, stamp: string)
    requires Explains(out, a, b, KeyOf(item), BuildOf(item), stamp)
    ensures OwnPuts(a, b, {KeyOf(item)})
    ensures out == Written || out == Skipped ==> ShownIn(b, item)
  {
    if out == Written {
      var before := b[..|b| - 1];
      PublishShows(before, item, stamp);
      assert b == before + [b[|b| - 1]];
      assert forall i | |a| <= i < |before| :: b[i] == before[i];
    } else if out == Skipped {
      PublishShows(b, item, stamp);
    }
  }

  method PublishItem(kv: Bucket, item: Item, stamps: nat -> string) returns (ok: bool)
    modifies kv
    ensures AsCalm(old(kv.schedule), kv.schedule)
    ensures OwnPuts(old(kv.log), kv.log, {KeyOf(item)})
    ensures ok ==> Publishable(item) && ShownIn(kv.log, item)
    ensures ok && !item.FlagItem? ==> !(item.body.Text? && item.body.text == "")
    ensures ok && item.BundleItem? ==> item.locale != ""
    ensures !ok && Publishable(item) ==> Rough(kv.schedule) < Rough(old(kv.schedule))
    ensures Uncontended(old(kv.schedule)) ==>
              kv.log == if ok then PublishItemQuietly(old(kv.log), item, stamps(0)) else old(kv.log)
    ensures Uncontended(old(kv.schedule)) && Reliable(old(kv.schedule)) ==> ok == Publishable(item)
  {
    if !Publishable(item) {
      return false;
    }
    var out;
    ghost var attempt;
    ghost var start := kv.log;
    out, attempt := Publish(kv, KeyOf(item), BuildOf(item), stamps);
    OutcomeShows(out, start, kv.log, item, stamps(attempt));
    ok := out == Written || out == Skipped;
  }
}
