/**
 The repositories: statements that insert, update and delete table rows in place.
 */
module Database {
  import opened Options
  import opened Tables

  lemma NonEmpty(ids: set<int>)
    requires ids != {}
    ensures exists k: int :: k in ids
  {
    assert (forall k: int :: k !in ids) ==> ids == {};
  }

  class Store {
    var envs: map<int, string>
    var services: map<int, string>
    var flags: map<int, Flag>
    var values: map<int, FlagValue>
    var settings: map<int, Doc>
    var bundles: map<int, Doc>

    constructor ()
      ensures Snapshot() == Db(map[], map[], map[], map[], map[], map[])
    {
      envs, services, flags, values, settings, bundles := map[], map[], map[], map[], map[], map[];
    }

    function Snapshot(): Db reads this { Db(envs, services, flags, values, settings, bundles) }

    method GetDoc(d: Domain, id: int) returns (r: Option<Doc>)
      ensures r == if id in Docs(Snapshot(), d) then Some(Docs(Snapshot(), d)[id]) else None
    {
      var docs := if d.Settings? then settings else bundles;
      r := if id in docs then Some(docs[id]) else None;
    }

    method CheckDocRefs(d: Domain, input: DocInput) returns (e: Option<Error>)
      ensures e == DocRefsError(Snapshot(), d, input)
    {
      if input.ms !in services {
        return Some(MicroserviceNotFound);
      }
      if input.env !in envs {
        return Some(EnvironmentNotFound);
      }
      var docs := if d.Settings? then settings else bundles;
      var taken := exists id | id in docs :: id != input.id && SameKey(docs[id], input.ms, input.env, LocaleOf(d, input));
      e := if taken then Some(DocumentExists) else None;
    }

    method CreateDoc(d: Domain, input: DocInput, newId: int, now: int) returns (e: Option<Error>)
      modifies this
      ensures (Snapshot(), e) == InsertDoc(old(Snapshot()), d, input, newId, now)
    {
      e := CheckDocRefs(d, input);
      if e.Some? {
        return;
      }
      var docs := if d.Settings? then settings else bundles;
      var violation := exists id | id in docs :: SameKey(docs[id], input.ms, input.env, LocaleOf(d, input));
      if violation {
        return Some(DocumentExists);
      }
      docs := docs[newId := Doc(input.ms, input.env, LocaleOf(d, input), input.body, now)];
      if d.Settings? {
        settings := docs;
      } else {
        bundles := docs;
      }
    }

    method UpdateDoc(d: Domain, input: DocInput, now: int) returns (e: Option<Error>)
      modifies this
      ensures (Snapshot(), e) == Tables.UpdateDoc(old(Snapshot()), d, input, now)
    {
      e := CheckDocRefs(d, input);
      if e.Some? {
        return;
      }
      var docs := if d.Settings? then settings else bundles;
      var matched := input.id in docs && (input.expected.Some? ==> docs[input.id].updatedAt == input.expected.value);
      if !matched {
        return if input.expected.None? || input.id !in docs then Some(DocumentNotFound) else Some(Conflict);
      }
      docs := docs[input.id := Doc(input.ms, input.env, LocaleOf(d, input), input.body, now)];
      if d.Settings? {
        settings := docs;
      } else {
        bundles := docs;
      }
    }

    // Hands back the row it removed.
    method DeleteDoc(d: Domain, id: int) returns (e: Option<Error>, removed: Option<Doc>)
      modifies this
      ensures (Snapshot(), e) == Tables.DeleteDoc(old(Snapshot()), d, id)
      ensures removed == if e.None? then Some(Docs(old(Snapshot()), d)[id]) else None
    {
      var docs := if d.Settings? then settings else bundles;
      if id !in docs {
        return Some(DocumentNotFound), None;
      }
      e, removed := None, Some(docs[id]);
      if d.Settings? {
        settings := settings - {id};
      } else {
        bundles := bundles - {id};
      }
    }

    // Hands back the key of the flag, for publishing.
    method CreateFlagValue(row: FlagValue, newId: int) returns (e: Option<Error>, flagKey: string)
      modifies this
      ensures (Snapshot(), e) == InsertFlagValue(old(Snapshot()), row, newId)
      ensures e.None? ==> row.flagId in flags && flagKey == flags[row.flagId].flagKey
    {
      flagKey := "";
      if row.env !in envs {
        return Some(EnvironmentNotFound), "";
      }
      if row.flagId !in flags {
        return Some(FlagNotFound), "";
      }
      if exists id | id in values :: values[id].env == row.env && values[id].flagId == row.flagId {
        return Some(FlagValueExists), "";
      }
      values := values[newId := row];
      e, flagKey := None, flags[row.flagId].flagKey;
    }

    // Hands back the flag's key, reading the stored row joined with its flag.
    method UpdateFlagValue(id: int, value: string, enabled: int, expected: Option<int>, now: int)
      returns (e: Option<Error>, flagKey: string)
      modifies this
      ensures (Snapshot(), e) == Tables.UpdateFlagValue(old(Snapshot()), id, value, enabled, expected, now)
      ensures e.None? ==> id in old(values) &&
                          values == old(values)[id := FlagValue(old(values)[id].env, old(values)[id].flagId, enabled, value, now)]
      ensures e.None? ==> values[id].flagId in flags && flagKey == flags[values[id].flagId].flagKey
    {
      var matched := id in values && (expected.Some? ==> values[id].updatedAt == expected.value);
      if !matched {
        return if expected.None? || id !in values then Some(FlagNotFound) else Some(Conflict), "";
      }
      values := values[id := values[id].(value := value, enabled := enabled, updatedAt := now)];
      if values[id].flagId !in flags {
        return Some(FlagNotFound), "";
      }
      e, flagKey := None, flags[values[id].flagId].flagKey;
    }

    method DeleteFlagValue(id: int) returns (e: Option<Error>, env: int, flagKey: string)
      modifies this
      ensures (Snapshot(), e) == Tables.DeleteFlagValue(old(Snapshot()), id)
      ensures e.None? ==> env == old(values)[id].env && flagKey == old(flags)[old(values)[id].flagId].flagKey
    {
      if id !in values || values[id].flagId !in flags {
        return Some(FlagNotFound), 0, "";
      }
      e, env, flagKey := None, values[id].env, flags[values[id].flagId].flagKey;
      values := values - {id};
    }

    method CreateFlag(flag: Flag, newId: int) returns (e: Option<Error>)
      modifies this
      ensures (Snapshot(), e) == InsertFlag(old(Snapshot()), flag, newId)
    {
      if exists id | id in flags :: flags[id].flagKey == flag.flagKey {
        return Some(FlagExists);
      }
      flags := flags[newId := flag];
      e := None;
    }

    // The environments of the removed values are drained before anything is deleted.
    method DeleteFlag(id: int) returns (e: Option<Error>, flagKey: string, removed: seq<int>)
      modifies this
      ensures (Snapshot(), e) == Tables.DeleteFlag(old(Snapshot()), id)
      ensures e.Some? ==> removed == []
      ensures e.None? ==> flagKey == old(flags)[id].flagKey
      ensures e.None? ==> forall env :: env in removed <==>
                            exists k :: k in ValuesOf(old(Snapshot()), id) && old(values)[k].env == env
    {
      removed := [];
      if id !in flags {
        return Some(FlagNotFound), "", [];
      }
      e, flagKey := None, flags[id].flagKey;
      var hanging := set k | k in values && values[k].flagId == id;
      var pending := hanging;
      while pending != {}
        invariant Snapshot() == old(Snapshot()) && pending <= hanging
        invariant forall env :: env in removed <==> exists k :: k in hanging - pending && values[k].env == env
        decreases |pending|
      {
        NonEmpty(pending);
        var k: int :| k in pending;
        removed, pending := removed + [values[k].env], pending - {k};
      }
      values := values - hanging;
      flags := flags - {id};
    }

    method CreateEnvironment(name: string, newId: int) returns (e: Option<Error>)
      modifies this
      ensures (envs, e) == InsertName(old(envs), name, newId) && Snapshot() == old(Snapshot()).(envs := envs)
    {
      if exists id | id in envs :: envs[id] == name {
        return Some(NameExists);
      }
      envs := envs[newId := name];
      e := None;
    }

    method CreateMicroservice(name: string, newId: int) returns (e: Option<Error>)
      modifies this
      ensures (services, e) == InsertName(old(services), name, newId) && Snapshot() == old(Snapshot()).(services := services)
    {
      if exists id | id in services :: services[id] == name {
        return Some(NameExists);
      }
      services := services[newId := name];
      e := None;
    }

    method DeleteMicroservice(id: int) returns (e: Option<Error>)
      modifies this
      ensures (Snapshot(), e) == DeleteService(old(Snapshot()), id)
    {
      var inUse := (exists k | k in settings :: settings[k].ms == id) || (exists k | k in bundles :: bundles[k].ms == id);
      if inUse {
        return Some(InUse);
      }
      if id !in services {
        return Some(MicroserviceNotFound);
      }
      services := services - {id};
      e := None;
    }

    method DeleteEnvironment(id: int) returns (e: Option<Error>)
      modifies this
      ensures (Snapshot(), e) == Tables.DeleteEnvironment(old(Snapshot()), id)
    {
      var inUse := (exists k | k in values :: values[k].env == id)
                   || (exists k | k in settings :: settings[k].env == id)
                   || (exists k | k in bundles :: bundles[k].env == id);
      if inUse {
        return Some(InUse);
      }
      if id !in envs {
        return Some(EnvironmentNotFound);
      }
      envs := envs - {id};
      e := None;
    }
  }
}
