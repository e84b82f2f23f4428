/**
 The cache of profile schemas in front of the registry. It forgets everything when the registry's generation moves on,
 and an answer is always the schema one would build from the registry as it is now.
*/
module DescriptorCache {
  import opened FixedWidth
  import opened Options
  import opened ProfileRegistry

  datatype Descriptor = Descriptor(id: uint16, key: string, description: string)

  datatype Schema = Schema(telemetry: seq<Descriptor>, settings: seq<Descriptor>)

  const NO_SCHEMA := Schema([], [])

  function Described(s: Spec): Descriptor {
    Descriptor(s.id, s.key, "profile-schema")
  }

  /** The named items of a list. */
  function Descriptors(specs: seq<Spec>): seq<Descriptor> {
    if specs == [] then []
    else
      var n := |specs| - 1;
      Descriptors(specs[..n]) + if specs[n].key == "" then [] else [Described(specs[n])]
  }

  /** The schema of a profile id, built afresh. */
  function SchemaOf(profiles: seq<Profile>, pid: uint16): Schema {
    if pid == UNKNOWN_PROFILE then NO_SCHEMA
    else
      match FindById(profiles, pid)
      case None => NO_SCHEMA
      case Some(p) => Schema(Descriptors(p.telemetry), Descriptors(p.settings))
  }

  /** Every cached schema is the one of the registrations the cache has seen. */
  ghost predicate CacheAgrees(schemas: map<uint16, Schema>, generation: nat, profiles: seq<Profile>) {
    generation <= |profiles| && forall pid :: pid in schemas ==> schemas[pid] == SchemaOf(profiles[..generation], pid)
  }

  /** Later registrations do not disturb what a cache of an earlier generation holds. */
  lemma {:induction false} AgreesWithMore(schemas: map<uint16, Schema>, generation: nat, profiles: seq<Profile>,
                                          more: seq<Profile>)
    requires CacheAgrees(schemas, generation, profiles)
    ensures CacheAgrees(schemas, generation, profiles + more)
  {
    assert (profiles + more)[..generation] == profiles[..generation];
  }

  /** The schema of a registered profile lists all its items, in order, each under its number and its name. */
  lemma {:induction false} SchemaIsWhole(profiles: seq<Profile>, i: nat)
    requires Unambiguous(profiles) && i < |profiles|
    ensures var schema := SchemaOf(profiles, profiles[i].id);
            && |schema.telemetry| == |profiles[i].telemetry| && |schema.settings| == |profiles[i].settings|
            && (forall k :: 0 <= k < |schema.telemetry| ==>
                  schema.telemetry[k].id == profiles[i].telemetry[k].id
                  && schema.telemetry[k].key == profiles[i].telemetry[k].key)
            && (forall k :: 0 <= k < |schema.settings| ==>
                  schema.settings[k].id == profiles[i].settings[k].id
                  && schema.settings[k].key == profiles[i].settings[k].key)
  {
    hide FindById;
    var p := profiles[i];
    assert Acceptable(p);
    assert FindById(profiles, p.id) == Some(p) by {
      assert forall j :: 0 <= j < |profiles| && profiles[j].id == p.id ==> j == i;
    }
    AllDescribed(p.telemetry);
    AllDescribed(p.settings);
  }

  lemma {:induction false} AllDescribed(specs: seq<Spec>)
    requires forall i :: 0 <= i < |specs| ==> specs[i].key != ""
    ensures |Descriptors(specs)| == |specs| && forall k :: 0 <= k < |specs| ==>
        Descriptors(specs)[k] == Described(specs[k])
    decreases |specs|
  {
    if specs != [] {
      AllDescribed(specs[..|specs| - 1]);
    }
  }

  /** A profile whose id nobody registered has an empty schema. */
  lemma {:induction false} UnregisteredHasNone(profiles: seq<Profile>, pid: uint16)
    requires forall i :: 0 <= i < |profiles| ==> profiles[i].id != pid
    ensures SchemaOf(profiles, pid) == NO_SCHEMA
  {
    assert FindById(profiles, pid).None?;
  }

  class DescriptorCache {
    const registry: ProfileRegistry
    var generation: nat
    var schemas: map<uint16, Schema>

    /** Holds whatever the registry does between two lookups. */
    ghost predicate Valid()
      reads this, registry
    {
      registry.Valid() && CacheAgrees(schemas, generation, registry.profiles)
    }

    constructor (r: ProfileRegistry)
      requires r.Valid()
      ensures Valid() && registry == r
    {
      registry, generation, schemas := r, 0, map[];
    }

    method DescribeAll(specs: seq<Spec>) returns (ds: seq<Descriptor>)
      ensures ds == Descriptors(specs)
    {
      ds := [];
      var n := 0;
      while n < |specs|
        invariant 0 <= n <= |specs| && ds == Descriptors(specs[..n])
      {
        assert specs[..n + 1][..n] == specs[..n];
        if specs[n].key != "" {
          ds := ds + [Described(specs[n])];
        }
        n := n + 1;
      }
      assert specs[..n] == specs;
    }

    method BuildAndCacheByProfileId(pid: uint16) returns (schema: Schema)
      requires Valid()
      modifies this, registry`cache, registry`cacheValid
      ensures Valid() && schema == SchemaOf(registry.profiles, pid)
    {
      hide Unambiguous, FindById, Descriptors, TableAgrees;
      if generation != registry.generation {
        schemas := map[];
        generation := registry.generation;
      }
      assert registry.profiles[..generation] == registry.profiles;
      if pid in schemas {
        return schemas[pid];
      }
      schema := NO_SCHEMA;
      if pid != UNKNOWN_PROFILE {
        var snap := registry.CurrentSnapshot();
        assert Lookup(snap.byId, pid) == FindById(registry.profiles, pid);
        if pid in snap.byId {
          var p := snap.byId[pid];
          var telemetry := DescribeAll(p.telemetry);
          var settings := DescribeAll(p.settings);
          schema := Schema(telemetry, settings);
        }
      }
      schemas := schemas[pid := schema];
    }

    /** The schema goes by the definition's id: what is registered under it, not what the definition itself lists. */
    method TelemetrySchemaForProfile(profile: Option<Profile>) returns (ds: seq<Descriptor>)
      requires Valid()
      modifies this, registry`cache, registry`cacheValid
      ensures Valid()
      ensures ds == if profile.None? then [] else SchemaOf(registry.profiles, profile.value.id).telemetry
    {
      if profile.None? {
        return [];
      }
      var schema := BuildAndCacheByProfileId(profile.value.id);
      return schema.telemetry;
    }

    method SettingsSchemaForProfile(profile: Option<Profile>) returns (ds: seq<Descriptor>)
      requires Valid()
      modifies this, registry`cache, registry`cacheValid
      ensures Valid()
      ensures ds == if profile.None? then [] else SchemaOf(registry.profiles, profile.value.id).settings
    {
      if profile.None? {
        return [];
      }
      var schema := BuildAndCacheByProfileId(profile.value.id);
      return schema.settings;
    }
  }

  /** Registrations and lookups behind the cache's back leave it valid: a registry only ever grows. */
  twostate lemma {:induction false} StaysValid(c: DescriptorCache)
    requires old(c.Valid()) && c.registry.Valid() && old(c.registry.profiles) <= c.registry.profiles
    requires c.generation == old(c.generation) && c.schemas == old(c.schemas)
    ensures c.Valid()
  {
    var before, now := old(c.registry.profiles), c.registry.profiles;
    assert now == before + now[|before|..];
    AgreesWithMore(c.schemas, c.generation, before, now[|before|..]);
  }
}
