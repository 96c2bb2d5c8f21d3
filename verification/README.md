# Central config stream: the distribution plane, verified

A Dafny model of how Central-Config-Stream carries a database row to a key in a
NATS JetStream KV bucket and on to a consumer's memory, with the two guards in
front of the admin API. `dafny verify dfyconfig.toml` checks the whole project.

## What is modelled

**The dual write.** `Tables` holds the six tables as maps and each SQL statement
as a function on them; `Database.Store` runs the same statements in place, after
the reference counts the repositories make. `Admin` says what one admin request
does to the tables and which publish and purges it then owes its bucket;
`Services.Api` performs them in order, where a failed KV call is logged and the
request still succeeds. `Integrity` is what every run keeps true of the tables,
`Grants` when each request is granted and what it then stores and owes,
`Concurrency` what the optimistic guard protects, `Coherence` what tables and
buckets then have in common. Settings and bundles have one shape and one set of
statements, so one document table with a `Domain` stands for both packages.

**The bucket.** `Kv.Bucket` is one append-only stream of puts and purges. A key's
revision is the position of its last entry. Every call first lets an adversary
append whatever it likes (`Turn.foreign`) and then may fail (`Turn.fails`), so a
contract without an assumption on the schedule holds under every interleaving.
`Uncontended` and `Reliable` name the schedules without other writers and
without failures.

**Publishing and healing.** `Publisher` is the revision-checked, skip-identical
retry loop. `Reconciler` is the periodic cycle: window, snapshot, resync, prune,
the two fields that drive the next window. `Healing` proves what undisturbed
cycles converge to, as a function and for the reconciler's own repeated cycles,
`Windows` what the incremental window misses over whole runs of commits and
cycles, `Adapters` which rows a sweep lists and how a full sweep repairs failed
write-throughs, `Repair` how every cycle does while requests go on changing the
tables.

**The consumer.** `Client.Client` folds watched updates into its three maps.
`EndToEnd` and `Aliases` relate its lookups to the rows, and `Pipeline` joins
everything: requests with failing publishes, one full sweep, a consumer's answer,
all in terms of the tables.

**The guards and the reports.** `RateLimit` is the token-bucket limiter over
reals, `ScopeGuard` the environment-scope guard joined to what each request
changes, `Drift` the console's database-versus-cache comparison and `Inventory`
the scoped pager.

## Main results

- An undisturbed full sweep converges a bucket if and only if it has no stale
  key, or the table has a row and the stale keys are at most five or at most the
  configured fraction of stale keys and rows together; twelve clean cycles contain
  one, and no number of cycles helps otherwise.
- Every admin request is granted exactly on a condition read off its input and the
  tables, its refusal tells which part failed, and what it stores, publishes and
  purges is stated table by table.
- However publishes and purges fail, bucket and table differ only at keys whose
  last addressed write failed, over every sequential run of requests.
- A purge by the reconciler hits only a live key without a row that nobody wrote
  between the snapshot and the prune's listing, however others interleave.
- Nothing falls between sweeps if and only if commits lag by at most the overlap:
  each current row version was published by a clean cycle that read it, and shown
  since its own commit, or is in the next window.
- Over any run of requests and cycles, each cycle that sweeps a table, full or
  incremental, leaves every row of it shown, however many publishes failed before,
  if and only if rows are stamped at most the overlap before their request.
- While no more than 8192 keys call, sweeping and sharing the limiter's map cannot
  be told from one never-expired bucket per key, and the bound is tight; any stretch
  of calls takes at most one burst plus the refill from any bucket, the overflow
  bucket included.
- A scoped token's request changes no row and writes no key of an environment
  outside its scope, whatever its body claims; and route by route it is let through
  exactly when what it names is in scope.
- A failed write stops no other: a sweep loses no more rows, and a request or a
  prune no more keys, than calls to the bucket were disturbed.

Four properties one might expect are false of the code. Each has its exact
condition and a concrete run that fails:

- A fleet-wide consumer reads `1.07` and `1.7` as one service. Redelivering the
  latest entries in another order can drop live settings
  (`Client.AliasDropsLiveSettings`), and is harmless exactly when the aliases
  agree (`Client.DocsSurviveRedelivery`). Even consuming the whole watch in order
  can miss them (`Aliases.OutsiderHidesLiveSettings`); it leaves exactly the rows
  exactly when no alias was written after a live key
  (`Aliases.WholeWatchExactly`).
- A bucket is not always healed (`Healing.NeverHealed`): the prune guard decides
  (`Healing.BoundedHealing`).
- A commit that lags by more than the overlap can be missed
  (`Windows.LateCommitFallsBetween`, `Windows.OverlapIsExact`), and with it a
  failed publish (`Repair.LateRequestIsMissed`, `Repair.RepairIsExact`).
- A guarded update can overwrite a version its caller never saw
  (`Concurrency.TiedRunLosesAnUpdate`), exactly in runs where two writes of one
  row at one clock tick store different rows (`Concurrency.GuardIsExact`).

## Where the code and its comments differ

The model follows the code.

- `internal/servicesettings/repository.go:271-273` says a create's id is zero and
  excludes nothing from the uniqueness count. The handler passes the body's id
  through, so it can exclude a row; the unique constraint then refuses the insert
  with the same error (`Database.Store.CreateDoc`).
- `internal/messaging/publisher.go:105-108` calls the other writer's value the
  newer one. The retry re-reads and then writes this caller's own value over it.
- `internal/messaging/reconciler.go:96` calls `lastRun` the start of the previous
  cycle. Only a clean cycle moves it.
- `internal/servicesettings/service.go:228-232` bounds a name by its column of 100
  characters. The code counts bytes.

## Model

| member | source | states |
|---|---|---|
| Keys.DecimalRoundTrip | pkg/configclient/configclient.go:344-348 | ParseInt undoes the builders' decimal on every 64-bit id, sign and width limits included |
| Keys.ParseIntReads | pkg/configclient/configclient.go:344-348 | with a sign and leading zeros a decimal reads as the same number, and as none beyond 64 bits |
| Keys.ParseIntRefuses | pkg/configclient/configclient.go:344-348 | only digits behind an optional sign are a number |
| Keys.FlagKeyInjective | internal/messaging/keys.go:22-24 | two flag keys are equal exactly when environment and flag key are, for any strings |
| Keys.ServiceSettingsKeyInjective | internal/messaging/keys.go:28-30 | two settings keys are equal exactly when both ids are |
| Keys.LocalizationKeyInjective | internal/messaging/keys.go:35-37 | two bundle keys are equal exactly when both ids and the locale are |
| Keys.EnvironmentOfKey | internal/messaging/keys.go:41-43 | no key lies in two environments |
| Keys.FlagIdentityRecovered | pkg/configclient/configclient.go:323-328 | trimming the environment off a built flag key gives the flag key back |
| Keys.SettingsIdentityRecovered | pkg/configclient/configclient.go:344-348 | a consumer parses a built settings key back to its service |
| Keys.BundleIdentityRecovered | pkg/configclient/configclient.go:358-369 | a consumer splits a built bundle key back into service and locale |
| Keys.EnvironmentWatch | pkg/configclient/configclient.go:222-226 | "{env}.>" matches a built key of any of the three buckets exactly when it is of that environment |
| Keys.SettingsWatch | pkg/configclient/configclient.go:227-228 | "{env}.{ms}" matches a built settings key exactly when environment and service agree |
| Keys.BundleWatch | pkg/configclient/configclient.go:227-229 | "{env}.{ms}.>" matches a built bundle key exactly when environment and service agree |
| Keys.WatchedIsInEnvironment | pkg/configclient/configclient.go:222-226 | over all strings, "{env}.>" matches exactly the keys with that environment's prefix |
| Keys.WatchedIsTheSetting | pkg/configclient/configclient.go:227-228 | over all strings, "{env}.{ms}" matches one key only |
| Keys.WatchedIsABundle | pkg/configclient/configclient.go:227-229 | whatever "{env}.{ms}.>" matches lies under that service's own prefix |
| Keys.ValidSegmentsAreTokens | internal/flagsconfig/service.go:226-242 | a flag key or locale that passes the services' checks adds exactly one token to its key |
| Kv.Bucket.Get | internal/messaging/publisher.go:49-58 | a read reports the live value and its revision, and revision zero for an absent or purged key |
| Kv.Bucket.Create | internal/messaging/publisher.go:97-98 | a create takes effect only where no live value stands, as the stream's last entry |
| Kv.Bucket.Update | internal/messaging/publisher.go:99-100 | an update takes effect only over the very revision given, and is refused exactly because it moved |
| Kv.Bucket.PurgeKey | internal/messaging/publisher.go:302-324 | a purge is unconditional and leaves a marker; a failed one leaves this side's entries as they were |
| Kv.Bucket.ListRevisions | internal/messaging/publisher.go:269-300 | the loop returns the stream's live keys with their revisions |
| Kv.ListingExact | internal/messaging/publisher.go:267-300 | a listing holds a key and revision exactly when the key is live at that revision |
| Kv.ListingOrdered | internal/messaging/publisher.go:286-299 | a listing names no key twice |
| Kv.Untouched | internal/messaging/publisher.go:124-126 | a key whose revision did not move between two readings still holds the same value |
| Publisher.WriteIfUnchanged | internal/messaging/publisher.go:97-111 | a write that succeeds replaces exactly the value read; one that conflicts means somebody wrote the key since |
| Publisher.Attempt | internal/messaging/publisher.go:83-113 | one round writes over the value it was built from, skips a value held at that moment, or writes nothing |
| Publisher.Publish | internal/messaging/publisher.go:81-115 | under every interleaving the one own entry was built from exactly the value it replaces; a skip means KV held the value inside the call; a contention failure writes nothing and implies three foreign writes to the key |
| Publisher.FlagIsRewrittenExactly | internal/messaging/publisher.go:172-206 | a flag is left alone, timestamp included, exactly when a published payload with the same state is stored |
| Publisher.WrittenFlag | internal/messaging/publisher.go:172-206 | under every interleaving the entry a flag publish adds carries the flag's state and its own attempt's time, unless the caller brought one |
| Items.PublishItem | internal/messaging/publisher.go:167-241 | a row's publish puts only under the row's key, shows the row when it succeeds, and refuses empty documents and locales |
| Items.PublishShows | internal/messaging/publisher.go:66-80 | a publish leaves the row shown, and writes nothing exactly when it was shown already |
| Reconciler.Resync | internal/app/app.go:361-411 | a failing row is recorded and the rows behind it still go out: no more publishable rows are lost than calls were disturbed; the keys reported are exactly the published rows' keys in order, each shown at a moment of the sweep, and the result is partial exactly when some row was not published |
| Reconciler.Prune | internal/messaging/reconciler.go:277-345 | purges only stale keys of its own listing, none after an empty sweep, and at most five or the fraction's share of the listed keys; unless the listing fails or the guard refuses, no more stale keys are missed than calls failed |
| Reconciler.PurgeAll | internal/messaging/reconciler.go:330-340 | one purge a stale key, a failed one skipped: no more keys are missed than calls failed, and nothing else is written |
| Reconciler.StaleExactly | internal/messaging/reconciler.go:291-311 | a key is stale exactly when it is live, no row published it and its revision stands where the snapshot found it |
| Reconciler.PurgesAreSafe | internal/messaging/reconciler.go:267-311 | every purged key had no row at the read and was untouched from snapshot to listing, under any foreign writes |
| Reconciler.SweepSource | internal/messaging/reconciler.go:188-231 | under every interleaving one source's purges are safe and happen only on a full sweep that read rows and published every one of them; it fails exactly for an unread table or an unpublished row, never for a failed snapshot, a refused prune or a failed purge, and loses no more rows than calls were disturbed |
| Reconciler.Reconciler.constructor | internal/messaging/reconciler.go:99-109 | no cycle run and no window yet |
| Reconciler.Reconciler.RunOnce | internal/messaging/reconciler.go:162-245 | the window advances on a clean cycle only, a cancelled cycle is not counted, prunes nothing at the source it stops at and leaves later ones alone, a cycle fails exactly when a source did, every source's purges are safe and follow a complete full sweep only, an undisturbed source ends as the quiet sweep says, and a calm one stays calm |
| Healing.PruneRefusedExactly | internal/messaging/reconciler.go:312-328 | an undisturbed prune does nothing exactly when there is no stale key or the guard refuses them all |
| Healing.FullSweep | internal/messaging/reconciler.go:188-231 | a full sweep of publishable rows shows every row; the stale keys are all gone if the guard passes and all still there if not |
| Healing.FullSweepConverges | internal/messaging/reconciler.go:267-345 | a full sweep makes the bucket the image of the rows if and only if no key is stale, or there is a row and the stale keys are at most five or at most the fraction's share of stale keys and rows together |
| Healing.IncrementalSweep | internal/messaging/reconciler.go:224-230 | after an incremental sweep a row is shown exactly when it lies in the window or was shown before, and no key is pruned |
| Healing.IncrementalConverges | internal/messaging/reconciler.go:162-231 | an incremental sweep leaves the bucket the image of the rows if and only if there was no stale key and every row not yet shown lies in its window |
| Healing.RunInvariant | internal/messaging/reconciler.go:162-245 | after any number of clean cycles, every row is shown once a full sweep has run, and the stale keys are gone or exactly as at the start |
| Healing.Cadence | internal/messaging/reconciler.go:162-168 | of clean cycles exactly the first ever and every twelfth are full; any other looks back to one minute before the start of the one before it |
| Healing.BoundedHealing | internal/messaging/reconciler.go:66-73 | from any contents and any cycle count, twelve or more clean cycles leave the bucket the image of the rows if and only if that numeric condition holds of the contents at the start |
| Healing.NeverHealed | internal/messaging/reconciler.go:316-328 | a concrete bucket, one key over an empty table, that no number of cycles heals |
| Healing.RefusedWithRows | internal/messaging/reconciler.go:318-328 | six or more stale keys beside one row are refused at any fraction up to four fifths, and all of them are still there after any number of cycles |
| Healing.CleanCycle | internal/messaging/reconciler.go:162-245 | one cycle over sources nobody disturbs is clean and sweeps every bucket quietly |
| Healing.RunCycles | internal/messaging/reconciler.go:131-155 | repeated cycles over any sources nobody disturbs take every bucket through its quiet run, so after twelve each is the image of its rows exactly when its own guard passed at the start |
| Healing.RepeatIsQuiet | internal/messaging/publisher.go:73-80 | repeating a sweep over the same rows appends nothing, so no revision and no flag timestamp moves |
| Windows.CleanCycleShows | internal/messaging/reconciler.go:198-241 | a cycle that did not fail has shown in the bucket every row it read, at a moment since the snapshot it read the table right after |
| Windows.RunKeepsInv | internal/messaging/reconciler.go:165-168 | over every run of commits, foreign writes and clean, failed or cancelled cycles each row version was published by a clean cycle that read it, and shown since its own commit, or is recent enough for the next window |
| Windows.LateCommitFallsBetween | internal/messaging/reconciler.go:71-73 | from any bucket contents, a run in which a commit lagging by more than the overlap is read by no sweep, even if its value was shown before the commit |
| Windows.OverlapIsExact | internal/messaging/reconciler.go:71-73 | every current row version was published by a clean cycle that read it, the bucket having shown it since its commit, or is read by the next cycle, over all runs from any bucket contents, if and only if commits lag by no more than the overlap |
| Adapters.ListAllForReconcile | internal/flagsconfig/repository.go:499-535 | the listing holds every row of the window once, by ascending id, joined with its flag key |
| Adapters.WindowOfListing | internal/servicesettings/repository.go:132-170 | the incremental listing is the full one cut down to the window |
| Adapters.ListingHasUniqueKeys | internal/localization/repository.go:273-304 | in every state the API reaches, a listing's rows publish under distinct keys |
| Adapters.ListingIsPublishable | internal/messaging/publisher.go:213-235 | and the publisher refuses none of them |
| Adapters.ConvergedIsCoherent | internal/app/app.go:361-411 | what the sweeps converge to is exactly the image of the table |
| Adapters.OutageHeals | internal/messaging/reconciler.go:267-345 | after any run with any failed write-throughs, one quiet full sweep restores the image exactly when the guard passes, and always when the table has a row and at most five keys are dirty |
| Repair.KeptOrStamped | internal/servicesettings/repository.go:80-98 | through any request a row that stays keeps its UPDATED_AT or takes the request's |
| Repair.PublishedIsStamped | internal/localization/service.go:73-86 | the row a request publishes carries the request's time |
| Repair.RunKeepsInv | internal/messaging/reconciler.go:162-245 | through every run of requests and cycles the bucket is the image of its table outside the dirty keys, and every dirty row lies in the next cycle's window |
| Repair.EveryCycleRepairs | internal/messaging/reconciler.go:162-231 | however many publishes failed and however the tables changed, the next cycle that sweeps a table, full or incremental, leaves every row shown; the bucket is the exact image if and only if no key was stale, or the cycle was full and its guard passed |
| Repair.RepairIsExact | internal/messaging/reconciler.go:71-73 | every cycle repairs, over all runs and buckets, if and only if rows are stamped no more than the overlap before their request |
| Repair.LateRequestIsMissed | internal/messaging/reconciler.go:165-168 | a concrete run from the empty tables in which a late-stamped row with a failed publish is still missing after the next cycle |
| RateLimit.NewRateLimiter | internal/app/ratelimit.go:57-69 | a limiter exists exactly for a positive rate, and starts empty |
| RateLimit.Allow | internal/app/ratelimit.go:86-88 | no limiter allows everything; otherwise one token is charged |
| RateLimit.AllowAnonymous | internal/app/ratelimit.go:90-100 | an anonymous write costs four tokens, or the whole budget where that is less |
| RateLimit.RateLimiter.Sweep | internal/app/ratelimit.go:137-147 | exactly the buckets idle beyond ten minutes go |
| RateLimit.RateLimiter.AllowCost | internal/app/ratelimit.go:102-135 | the in-place code computes the step, map, sweep time and verdict, that StepExactly states in numbers |
| RateLimit.StepExactly | internal/app/ratelimit.go:102-147 | one call in numbers: which buckets stay, which one is charged, what it held, whether that covers the cost and what is left |
| RateLimit.ChargedExactly | internal/app/ratelimit.go:114-124 | a call goes to the overflow bucket exactly when its key has no bucket and the ceiling's number are left after the sweep that was due |
| RateLimit.FewCallersNeverShare | internal/app/ratelimit.go:114-124 | while no more than 8192 different keys have called, every call is charged to its own key |
| RateLimit.CrowdShares | internal/app/ratelimit.go:114-124 | of different keys at one moment exactly the first 8192 have their own bucket and all later ones share one |
| RateLimit.SweepKeepsLevels | internal/app/ratelimit.go:137-147 | sweeping changes no bucket's level, because an idle one is full |
| RateLimit.StepLevels | internal/app/ratelimit.go:102-135 | a granted call takes its cost from the one bucket it is charged to, a refused one nothing, and no other level moves |
| RateLimit.MapIsBounded | internal/app/ratelimit.go:23-28 | after any calls at any times the map holds at most the ceiling plus the overflow bucket |
| RateLimit.RateBound | internal/app/ratelimit.go:49-69 | what any stretch of calls took from a bucket plus what is left is at most capacity + refill * elapsed, sweeps and the overflow bucket included, with 0 <= level <= capacity |
| RateLimit.ExpiryIsUnobservable | internal/app/ratelimit.go:12-28 | while no more than 8192 different keys have called, every call gets the verdict of one independent never-expired bucket for its key |
| RateLimit.RoomHidesExpiry | internal/app/ratelimit.go:12-28 | so it is of any number of keys, as long as each call finds its bucket or room for one |
| RateLimit.KeysAreIndependent | internal/app/ratelimit.go:41-47 | two such runs that agree on one key's calls answer that key alike, whatever the other keys do |
| RateLimit.RoomSeparatesKeys | internal/app/ratelimit.go:41-47 | and so it is as long as there is room |
| RateLimit.RetryAfterIsExact | internal/app/ratelimit.go:126-135 | after a refusal with r, 1 <= r <= 60; with nothing granted from the bucket since, the same cost is admitted from r seconds on and refused up to r - 1, whatever is called, swept or refused between |
| Client.Client.constructor | pkg/configclient/configclient.go:157-170 | a new client caches nothing |
| Client.Client.ApplyFlag | pkg/configclient/configclient.go:327-342 | a removal drops the flag, a decodable put sets it, a malformed one leaves it |
| Client.Client.ApplyServiceSettings | pkg/configclient/configclient.go:344-356 | a key that does not parse is ignored; otherwise the service is set or dropped |
| Client.Client.ApplyLoc | pkg/configclient/configclient.go:358-381 | over both map levels, exactly the one service and locale is set or dropped |
| Client.Client.StartWatch | pkg/configclient/configclient.go:265-321 | the loop folds every update into the cache of its own bucket and leaves the other two |
| Client.Open | pkg/configclient/configclient.go:139-246 | a non-positive environment or negative service opens nothing; otherwise the client holds the three folds of what its watches delivered |
| Client.Client.ServiceSettings | pkg/configclient/configclient.go:404-413 | another service's read answers nothing and is counted |
| Client.Client.Translate | pkg/configclient/configclient.go:418-435 | a text comes from the cached bundle of a service in scope, if the bundle parses and has it; another service's read answers nothing and is counted |
| Client.CacheRefinesLog | pkg/configclient/configclient.go:265-381 | a key is cached with a value exactly when some update set it and no later one set or dropped it |
| Client.FlagIsLastDecodablePut | pkg/configclient/configclient.go:327-342 | a flag is its last decodable put since its last removal, malformed payloads in between ignored |
| Client.FlagsSurviveRedelivery | pkg/configclient/configclient.go:93-101 | redelivering latest entries in any order and number never changes the flag cache |
| Client.DocsSurviveRedelivery | pkg/configclient/configclient.go:344-381 | for any way of reading identities off keys, redelivery leaves the cache unchanged in every order if and only if keys read as one identity last said the same |
| Client.SettingsSurviveRedelivery | pkg/configclient/configclient.go:344-356 | so for settings, where ParseInt reads several keys as one service |
| Client.BundlesSurviveRedelivery | pkg/configclient/configclient.go:358-381 | the same of the bundle cache |
| Client.BuiltSettingsKeysAgree | internal/messaging/keys.go:28-30 | keys made by the settings builder never alias |
| Client.BuiltBundleKeysAgree | internal/messaging/keys.go:35-37 | keys made by the bundle builder never alias |
| Client.AliasDropsLiveSettings | pkg/configclient/configclient.go:344-352 | a concrete redelivery under "1.07" that takes service 7's live settings out of the cache |
| EndToEnd.WholeWatchIsDelivered | pkg/configclient/configclient.go:265-321 | a consumer that consumes all a watch ever delivers is up to date with the bucket |
| EndToEnd.FlagsEndToEnd | pkg/configclient/configclient.go:386-398 | over a converged bucket a flag is cached exactly when its environment has the row, on exactly when the row's integer is non-zero, with the row's value |
| EndToEnd.DocsEndToEnd | pkg/configclient/configclient.go:265-321 | over a converged bucket whose aliases agree, an up-to-date consumer caches exactly what the rows under its watch say |
| EndToEnd.SettingsEndToEnd | pkg/configclient/configclient.go:404-413 | the settings cached are exactly those of the rows in scope, scoped or fleet-wide |
| EndToEnd.BundlesEndToEnd | pkg/configclient/configclient.go:418-435 | the bundles cached are exactly those of the rows in scope |
| Aliases.WholeWatchExactly | pkg/configclient/configclient.go:265-321 | consuming a converged bucket's whole watch leaves exactly the rows cached if and only if no alias was written after a live key |
| Aliases.SettingsWatchExactly | pkg/configclient/configclient.go:344-356 | so for settings, of a scoped or a fleet-wide client |
| Aliases.BundlesWatchExactly | pkg/configclient/configclient.go:358-381 | and for bundles |
| Aliases.OutsiderHidesLiveSettings | pkg/configclient/configclient.go:344-352 | a concrete converged bucket, in which a key "1.07" was written and purged after "1.7", that leaves a fleet-wide consumer without service 7's live settings |
| Pipeline.FlagReachesConsumer | internal/flagsconfig/service.go:58-69 | after any run with failing publishes and one full sweep the guard lets through, FlagEnabled and FlagValue answer the tables' row and no other flag is known |
| Pipeline.SettingsReachConsumer | internal/servicesettings/service.go:52-66 | the same of ServiceSettings and the settings table |
| Pipeline.BundlesReachConsumer | internal/localization/service.go:73-86 | the same of the bundle lookups and the bundle table |
| Pipeline.SettingsReachConsumerExactly | pkg/configclient/configclient.go:344-356 | a client of the whole watch, scoped or fleet-wide, answers exactly the settings table if and only if no alias was written after a live key |
| Pipeline.BundlesReachConsumerExactly | pkg/configclient/configclient.go:358-381 | the same of the bundle table |
| Pipeline.AskFlag | pkg/configclient/configclient.go:385-398 | a client opened on what its watches delivered says a flag is on exactly when its environment has an enabled row for it, and gives exactly that row's value |
| Pipeline.AskSettings | pkg/configclient/configclient.go:400-413 | it answers settings exactly for the services in scope that have a row, with the row's document |
| Pipeline.AskText | pkg/configclient/configclient.go:415-435 | it translates to a text exactly when the bundle row of a service in scope parses and maps the key to that text |
| Database.Store.CheckDocRefs | internal/servicesettings/repository.go:254-285 | missing service, then missing environment, then a natural key held by another row |
| Database.Store.CreateDoc | internal/servicesettings/repository.go:226-252 | inserts under a new id after the reference check, and leaves a taken natural key to the unique constraint |
| Database.Store.UpdateDoc | internal/servicesettings/repository.go:72-128 | rewrites the row, natural key included, only at the expected version; a miss is a conflict if the row is there and not found if not |
| Database.Store.DeleteDoc | internal/servicesettings/repository.go:314-335 | hands back exactly the row it removes |
| Database.Store.CreateFlagValue | internal/flagsconfig/repository.go:310-362 | missing environment, missing flag and taken pair are refused in that order; the flag's key comes back for publishing |
| Database.Store.UpdateFlagValue | internal/flagsconfig/repository.go:96-142 | changes value, state and time to the ones given and nothing else, at the expected version only |
| Database.Store.DeleteFlagValue | internal/flagsconfig/repository.go:392-424 | hands back the key coordinates of the row it removes |
| Database.Store.CreateFlag | internal/flagsconfig/repository.go:194-221 | refuses a key another flag has |
| Database.Store.DeleteFlag | internal/flagsconfig/repository.go:241-276 | removes the flag with all its values and reports the environment of every one |
| Database.Store.CreateEnvironment | internal/servicesettings/repository.go:428-452 | refuses a name another environment has |
| Database.Store.DeleteEnvironment | internal/servicesettings/repository.go:454-484 | refuses while any value, settings row or bundle refers to it |
| Database.Store.CreateMicroservice | internal/servicesettings/repository.go:354-378 | refuses a name another service has |
| Database.Store.DeleteMicroservice | internal/servicesettings/repository.go:380-409 | refuses while any settings row or bundle refers to it |
| Admin.AcceptedIsPublishable | internal/servicesettings/service.go:206-226 | nothing the services' checks accept is refused by the publisher |
| Admin.UnpublishedOutcome | internal/servicesettings/service.go:142-151 | requests on reference tables and flag definitions owe the buckets nothing and touch no published row |
| Integrity.ServeKeepsIntegrity | internal/servicesettings/repository.go:250-285 | no request, granted or refused, breaks a unique key, leaves a reference dangling or stores content the checks refuse |
| Integrity.EveryRunHolds | internal/flagsconfig/repository.go:331-362 | so every state of every sequential run has unique natural keys and resolved references |
| Integrity.RefusedChangesNothing | internal/servicesettings/service.go:26-136 | a refused request leaves every table as it was and owes the bucket nothing |
| Grants.DocumentAccepted | internal/servicesettings/service.go:206-226 | a document passes exactly if it is well-formed, at most 512 KiB in UTF-8 and its first character behind blanks opens an object |
| Grants.TrimSpaceTrims | internal/servicesettings/service.go:165-172 | trimming yields the one stretch of a name without the spaces around it |
| Grants.Utf8SizeAdds | internal/servicesettings/service.go:228-232 | a string's length in bytes is the sum of its parts' |
| Grants.Utf8SizeOfOne | internal/servicesettings/service.go:228-232 | and a character takes one to four bytes by its code point |
| Grants.GrantedExactly | internal/servicesettings/repository.go:72-484 | for every request: granted exactly when its input passes, what it names is there at the version expected, its natural key is free and nothing refers to what it deletes |
| Grants.RefusedBecause | internal/servicesettings/repository.go:105-128 | the error tells why: a missing row and which, a version that moved on, a taken key or a remaining reference, in the code's order |
| Grants.GrantedIsDone | internal/flagsconfig/repository.go:96-424 | for every granted request: all six tables afterwards, the row published and the keys purged, read off the request |
| Grants.GrantedFlagValueIsStored | internal/flagsconfig/repository.go:96-142 | a granted create or update leaves exactly the value, state and time asked for under one id, for the environment and flag asked for or held before, changes no other value and publishes that row |
| Grants.GrantedDocumentIsStored | internal/localization/repository.go:75-191 | a granted create or update stores exactly what was asked under one id, the only row with that natural key, changes no other row and publishes that row |
| Concurrency.LastWriter | internal/servicesettings/repository.go:80-98 | what a flag value or document holds was stored by the last request that wrote it, with that request's time, and has stood since |
| Concurrency.VersionsAdvance | internal/servicesettings/repository.go:80-98 | between two states of a run a row is untouched or carries the time of a request in between that wrote it |
| Concurrency.GuardIsExact | internal/servicesettings/repository.go:92-128 | for flag values and documents: throughout a run a guard on the time read protects the version read if and only if no two writes of one row at one clock tick store different rows |
| Concurrency.DistinctTimesAreUntied | internal/servicesettings/repository.go:84-98 | distinct request times, strictly advancing or not, are enough |
| Concurrency.GuardedDocUpdate | internal/servicesettings/repository.go:92-128 | without tied writes an applied guarded update overwrites exactly the version its caller read, however long ago and whatever came and went under the id |
| Concurrency.GuardedFlagUpdate | internal/flagsconfig/repository.go:106-142 | the same of a flag value |
| Concurrency.TiedRunLosesAnUpdate | internal/flagsconfig/repository.go:96-142 | a concrete run from the empty tables in which a guarded update overwrites a value its caller never saw |
| Concurrency.TiedTimestampsDefeatTheGuard | internal/flagsconfig/repository.go:106-111 | any two updates of one tick do the same, whatever the tables hold |
| Coherence.RowsHaveDistinctKeys | internal/messaging/keys.go:20-37 | no two rows of a table publish under one key |
| Coherence.ServeAccounted | internal/servicesettings/service.go:26-136 | every request's publish and purges cover exactly the rows it changed, moves and the flag cascade included |
| Coherence.PurgesAreLostKeys | internal/servicesettings/service.go:40-63 | the keys a request purges are exactly those that had a row before it and have none after, the key read from the previous row of a move included |
| Coherence.WritesKeepCoherence | internal/localization/service.go:73-86 | after a request's writes, bucket and table agree outside the dirty keys less those repaired plus those that failed |
| Coherence.CoherentThroughout | internal/flagsconfig/service.go:58-69 | through every run each bucket is the image of its table except at keys whose last write failed |
| Coherence.DirtyOnlyByFailure | internal/servicesettings/service.go:182-190 | a key is dirty only if some call that addressed it failed |
| Coherence.CoherentWhenNothingFails | internal/servicesettings/service.go:46-66 | when every publish and purge succeeds the bucket is the table's image, key for key |
| Services.Api.Publish | internal/flagsconfig/service.go:153-166 | writes only under the row's key, and reports no error to the request |
| Services.Api.PurgeAfter | internal/servicesettings/service.go:192-205 | writes only a purge of that key, and reports no error to the request |
| Services.Api.CreateDocument | internal/localization/service.go:93-117 | checks, insert and publish in order; a refusal changes neither tables nor bucket |
| Services.Api.UpdateDocument | internal/localization/service.go:45-86 | checks, guarded update, publish of the new key, and purge of the old key exactly when the row moved |
| Services.Api.DeleteDocument | internal/servicesettings/service.go:119-136 | removes the row and purges its key |
| Services.Api.CreateFlagValue | internal/flagsconfig/service.go:113-137 | checks, insert and publish under the flag's own key |
| Services.Api.UpdateFlagValue | internal/flagsconfig/service.go:40-69 | checks, guarded update and publish; a granted one leaves the row with the value, state and time asked for |
| Services.Api.DeleteFlagValue | internal/flagsconfig/service.go:139-151 | removes the value and purges its key |
| Services.Api.DeleteFlag | internal/flagsconfig/service.go:97-111 | removes flag and values and purges the key of each value, a failed purge not stopping the rest |
| Services.Api.CreateFlag | internal/flagsconfig/service.go:81-92 | stores a valid definition and publishes nothing |
| Services.Api.CreateEnvironment | internal/servicesettings/service.go:165-172 | stores the trimmed name if it is not blank and fits |
| Services.Api.DeleteEnvironment | internal/servicesettings/service.go:174-180 | refuses a non-positive id before the tables are asked |
| Services.Api.CreateMicroservice | internal/servicesettings/service.go:142-151 | stores the trimmed name if it is not blank and fits |
| Services.Api.DeleteMicroservice | internal/servicesettings/service.go:153-159 | refuses a non-positive id before the tables are asked |
| Services.Api.Handle | internal/app/config.go:176-214 | every route's request does to the tables exactly what it says; with any other writers about it puts only its row and purges only its keys, and each of those that did not fail took place; with none about its bucket ends as owed |
| Services.Api.HandleAlone | internal/app/config.go:176-214 | with only the services writing, a request's own bucket takes the writes that did not fail and the other two buckets stay as they are |
| Services.Api.ServeAll | internal/app/config.go:176-214 | a list of requests served in order over empty tables is a run: each bucket ends as its table's image except at keys whose last write failed, and exactly as the image when the buckets work throughout |
| ScopeGuard.Security.LookupRowEnvironment | internal/app/middleware.go:701-732 | the row's environment, or nothing for a missing row or a failed read |
| ScopeGuard.Security.ResolveTarget | internal/app/middleware.go:647-700 | the target is what the class says, and everything that cannot be determined counts as every environment |
| ScopeGuard.RowWriteAllowed | internal/app/middleware.go:676-700 | a scoped token may write the row its path or body id names exactly when that row can be read, its environment is in scope and so is any environment the body moves it to |
| ScopeGuard.PassesExactly | internal/app/middleware.go:647-700 | route by route, exactly which requests a scoped token may make, in terms of the path id, the body's id and environment and the tables; full scope may make any |
| ScopeGuard.PassesWithin | internal/app/middleware.go:647-700 | a request that is plainly sent is let through exactly when every row and environment it names is in scope |
| ScopeGuard.StoredAsSent | internal/flagsconfig/handler.go:128-208 | a granted write stores what the body says, field for field |
| ScopeGuard.AllowedIsAway | internal/app/middleware.go:39-54 | a request let through names no row and no new home outside the scope |
| ScopeGuard.AwaySpares | internal/servicesettings/repository.go:72-118 | a request that names nothing of an environment changes no row and addresses no key of it |
| ScopeGuard.ScopeConfines | internal/app/middleware.go:647-732 | whatever the body claims, a request that passes the guard for scope S changes no row and no key of any environment outside S |
| ScopeGuard.Security.Guard | internal/app/middleware.go:268-304 | forbidden exactly when the route, path and body name something outside the scope or nothing that can be determined, and then nothing changes; otherwise the handler runs, and under any interleaving no own write lands outside the scope |
| Drift.Index | webui/src/drift.js:19-25 | the watched environment's rows by key, the rest counted |
| Drift.CompareRows | webui/src/drift.js:26-41 | exactly the rows missing from the cache or differing there are reported, each key once |
| Drift.CompareCache | webui/src/drift.js:42-47 | exactly the cached keys without a row are reported, each once |
| Drift.JustifiedMeans | webui/src/drift.js:19-47 | an issue is one of the rows themselves: no cached entry, no row, or a last row for the key whose value differs |
| Drift.TableCounts | webui/src/drift.js:19-28 | compared are the different keys of the environment's rows, out of scope the rows elsewhere |
| Drift.EveryRowIsAccountedFor | webui/src/drift.js:14-29 | every row is compared or out of scope exactly when the environment's natural keys are unique |
| Drift.NoIssueIffMirrored | webui/src/drift.js:14-47 | with unique keys there is no issue exactly when the cache mirrors the rows |
| Drift.ComputeDrift | webui/src/drift.js:14-100 | the report lists exactly the differing keys with kind and row, each once across the three sections, compares exactly the environment's natural keys, counts exactly the rows elsewhere, and with unique keys is empty exactly when all three caches equal the environment's rows, flag for flag and document for document |
| Inventory.Pager.Take | internal/app/inventory.go:160-171 | the n-th visible row is on the page exactly when offset <= n < offset + limit |
| Inventory.Pager.Reset | internal/app/inventory.go:157-157 | a fresh pager over the same page |
| Inventory.Collect | internal/app/inventory.go:89-101 | a page is the visible rows' slice at offset..offset+limit |
| Inventory.SliceExactly | internal/app/inventory.go:160-171 | a page has the limit's number of rows or all that remain, those at the offset and on |
| Inventory.ServeInventory | internal/app/inventory.go:67-143 | the three collections are paged independently |
| Inventory.VisibleExactly | internal/app/middleware.go:494-502 | the visible rows are exactly the listed ones whose environment is in the caller's set, in order |
| Inventory.PagesPartition | internal/app/inventory.go:145-171 | walking offsets 0, limit, 2 * limit and on yields each visible row once, in order, and a short page is the last with anything on it |

## Left out

- The NATS client, SQL drivers, SQL text, contexts and timeouts. Errors are the
  ones the services name; a driver error that changes nothing is not a case.
- The SQLite repositories, HTTP status mapping, JSON decoding, TLS, logging,
  metrics, health endpoints, the audit trail, the read routes' response
  narrowing, the test console and the React views: plumbing, or easy members.
- Goroutines, mutexes and atomics. A locked section is one step.
- Floating point: token counts, the prune fraction and their products are reals.
- JSON bytes are values: what a flag payload marshals to, or any other text with
  whether it is well formed and how it reads as a flag payload. A document whose
  bytes happen to be a marshalled flag payload is not told apart from its text.
- An entry with an empty value, which the source may see as absent, does not
  occur: every publish refuses one.
- Kv.Bucket.ListRevisions: one reading of the stream at one moment, where the
  source drains a watcher's initial snapshot.
- Kv.Bucket.PurgeKey: always leaves a marker, where the source also accepts a
  not-found answer as success.
- Reconciler.Reconciler.constructor: takes the prune fraction; reading it from the
  environment, and the default for one outside its range, are not modelled.
- Reconciler.Reconciler.RunOnce: buckets exist throughout; re-provisioning them
  is not modelled, and cancellation is noticed only where the source checks it
  after a source's read.
- Healing.BoundedHealing: stated for cycles with no other writer and no failure,
  over rows that do not change and that the publisher accepts, as it does every row
  the API stores (Adapters.ListingIsPublishable); it is not claimed for busy buckets, where a late
  publisher may overwrite a newer value until the next sweep.
- Windows.OverlapIsExact: one table and its bucket, whose own and foreign writes
  are any growth of the stream; a clean cycle is one that showed every row it read
  at a moment since the read.
- Repair.EveryCycleRepairs: between and during the cycles nobody but the services
  and the reconciler writes the bucket, and a cycle that sweeps it meets no
  failing call; a request and a cycle are not interleaved.
- Database.Store.CreateDoc: the generated id is a parameter, fresh for its table,
  and the row is not read back by its natural key.
- Concurrency.GuardIsExact: requests are served one at a time; two transactions
  racing between check and statement are left to the unique constraints.
- Tables carry UPDATED_AT only where a guard or a listing reads it, on flag
  values and documents.
- Services.Api.Handle: the bucket's final contents are stated for a bucket without
  other writers, since anybody may write the same keys afterwards.
- ScopeGuard.Security.Guard: takes the matched token's scope as given, does not
  charge the write budget, and assumes that the guard's and the handler's JSON
  decoder read the same id and environment from one body or the guard reads none.
- Client.Client.Translate: what a bundle's JSON parses to is a parameter. Observers,
  status counters other than the out-of-scope one and the HTTP cold-start fallback
  are left out.
- EndToEnd.SettingsEndToEnd: fleet-wide it asks that aliases agree; the exact
  condition for a consumer of the whole watch is Aliases.SettingsWatchExactly.
- Pipeline.SettingsReachConsumer: the same, with Pipeline.SettingsReachConsumerExactly.
- Pipeline.BundlesReachConsumer: the same, with Pipeline.BundlesReachConsumerExactly.
- Pipeline.AskSettings: the same.
- Pipeline.AskText: the same.
- EndToEnd.BundlesEndToEnd: the same, with Aliases.BundlesWatchExactly.
- RateLimit.RateLimiter.AllowCost: callers' keys are plain strings; the prefixes
  that keep addresses, tokens and inventory apart are not modelled.
- Drift.ComputeDrift: the three sections of the source are one helper called
  three times, issue texts are dropped, documents are compared as their
  JSON.stringify text, and a key that names a property every JavaScript object
  inherits gets its issue under the kind the comparison means, not the one the
  lookup happens to give.
