/**
 The registry of device profiles and the lookup tables it derives from them. Registrations come and go unnoticed by
 the tables until the next lookup; a lookup always answers as a scan of the registered profiles would.
*/
module ProfileRegistry {
  import opened FixedWidth
  import opened Options

  /** A numbered and named item of a profile. A missing name is an empty one. */
  datatype Spec = Spec(id: uint16, key: string)

  datatype Kind = Telemetry | Settings | Events

  /** `handle` is the definition's identity: two definitions may have equal contents. */
  datatype Profile = Profile(handle: nat, id: uint16, name: string, supportsDefaultCodec: bool,
                             telemetry: seq<Spec>, settings: seq<Spec>, events: seq<Spec>)
  {
    function Specs(kind: Kind): seq<Spec> {
      match kind
      case Telemetry => telemetry
      case Settings => settings
      case Events => events
    }
  }

  /** No profile has this id. */
  const UNKNOWN_PROFILE: uint16 := 0

  // ---------------------------------------------------------------- scanning

  function FindById(profiles: seq<Profile>, pid: uint16): (r: Option<Profile>)
    ensures r.Some? ==> r.value in profiles && r.value.id == pid
    ensures r.None? ==> forall i :: 0 <= i < |profiles| ==> profiles[i].id != pid
  {
    if profiles == [] then None
    else
      var rest := FindById(profiles[..|profiles| - 1], pid);
      if rest.Some? then rest else if profiles[|profiles| - 1].id == pid then Some(profiles[|profiles| - 1]) else None
  }

  function FindByName(profiles: seq<Profile>, name: string): (r: Option<Profile>)
    ensures r.Some? ==> r.value in profiles && r.value.name == name
    ensures r.None? ==> forall i :: 0 <= i < |profiles| ==> profiles[i].name != name
  {
    if profiles == [] then None
    else
      var rest := FindByName(profiles[..|profiles| - 1], name);
      if rest.Some? then rest else if profiles[|profiles| - 1].name == name then Some(profiles[|profiles| - 1])
          else None
  }

  function SpecWithId(specs: seq<Spec>, id: uint16): (r: Option<Spec>)
    ensures r.Some? ==> r.value in specs && r.value.id == id
    ensures r.None? ==> forall i :: 0 <= i < |specs| ==> specs[i].id != id
  {
    if specs == [] then None
    else
      var rest := SpecWithId(specs[..|specs| - 1], id);
      if rest.Some? then rest else if specs[|specs| - 1].id == id then Some(specs[|specs| - 1]) else None
  }

  function SpecWithKey(specs: seq<Spec>, key: string): (r: Option<Spec>)
    ensures r.Some? ==> r.value in specs && r.value.key == key
    ensures r.None? ==> forall i :: 0 <= i < |specs| ==> specs[i].key != key
  {
    if specs == [] then None
    else
      var rest := SpecWithKey(specs[..|specs| - 1], key);
      if rest.Some? then rest else if specs[|specs| - 1].key == key then Some(specs[|specs| - 1]) else None
  }

  /** What a lookup should answer: a scan of the registered profiles, then of the profile's own list. */
  function ScanById(profiles: seq<Profile>, kind: Kind, pid: uint16, id: uint16): Option<Spec> {
    if pid == UNKNOWN_PROFILE || id == 0 then None
    else
      match FindById(profiles, pid)
      case None => None
      case Some(p) => SpecWithId(p.Specs(kind), id)
  }

  function ScanByKey(profiles: seq<Profile>, kind: Kind, pid: uint16, key: string): Option<Spec> {
    if pid == UNKNOWN_PROFILE || key == "" then None
    else
      match FindById(profiles, pid)
      case None => None
      case Some(p) => SpecWithKey(p.Specs(kind), key)
  }

  // ---------------------------------------------------------------- acceptable profiles

  /** Every item is numbered and named, and no two share a number or a name. */
  predicate ValidSpecSet(specs: seq<Spec>) {
    && (forall i :: 0 <= i < |specs| ==> specs[i].id != 0 && specs[i].key != "")
    && (forall i, j :: 0 <= i < j < |specs| ==> specs[i].id != specs[j].id && specs[i].key != specs[j].key)
  }

  predicate Acceptable(p: Profile) {
    && p.id != UNKNOWN_PROFILE && p.name != "" && p.supportsDefaultCodec
    && ValidSpecSet(p.telemetry) && ValidSpecSet(p.settings) && ValidSpecSet(p.events)
  }

  /** No two profiles share an id or a name. */
  predicate Unambiguous(profiles: seq<Profile>) {
    && (forall i :: 0 <= i < |profiles| ==> Acceptable(profiles[i]))
    && (forall i, j :: 0 <= i < j < |profiles| ==>
        profiles[i].id != profiles[j].id && profiles[i].name != profiles[j].name)
  }

  /** A definition already registered does not clash with itself. */
  predicate NoClash(p: Profile, profiles: seq<Profile>) {
    p in profiles || (FindById(profiles, p.id) == None && FindByName(profiles, p.name) == None)
  }

  /** Who clashes with no one: a registered definition, or one that shares neither its id nor its name. */
  lemma NoClashExactly(p: Profile, profiles: seq<Profile>)
    ensures NoClash(p, profiles)
       <==> p in profiles || forall i :: 0 <= i < |profiles| ==> profiles[i].id != p.id && profiles[i].name != p.name
  {
  }

  /** Id 0 means no profile: it is never registered, and nothing is found under it. */
  lemma ZeroIsNoProfile(p: Profile, profiles: seq<Profile>, kind: Kind, id: uint16, key: string)
    ensures Acceptable(p) ==> p.id != 0
    ensures ScanById(profiles, kind, 0, id) == None && ScanByKey(profiles, kind, 0, key) == None
  {
  }

  method ValidateSpecSet(specs: seq<Spec>) returns (ok: bool)
    ensures ok <==> ValidSpecSet(specs)
  {
    var ids: set<uint16>, keys: set<string> := {}, {};
    var n := 0;
    while n < |specs|
      invariant 0 <= n <= |specs|
      invariant ValidSpecSet(specs[..n])
      invariant forall x :: x in ids <==> exists i :: 0 <= i < n && specs[i].id == x
      invariant forall x :: x in keys <==> exists i :: 0 <= i < n && specs[i].key == x
    {
      var spec := specs[n];
      assert ValidSpecSet(specs) ==> spec.id !in ids && spec.key !in keys;
      if spec.id == 0 || spec.key == "" || spec.id in ids || spec.key in keys {
        return false;
      }
      ids, keys := ids + {spec.id}, keys + {spec.key};
      n := n + 1;
    }
    assert specs[..n] == specs;
    return true;
  }

  /** In an acceptable profile looking up by number and by name are inverse to one another. */
  lemma {:induction false} LookupsInverse(profiles: seq<Profile>, kind: Kind, pid: uint16, s: Spec)
    requires Unambiguous(profiles)
    ensures ScanById(profiles, kind, pid, s.id) == Some(s) <==> ScanByKey(profiles, kind, pid, s.key) == Some(s)
    ensures ScanById(profiles, kind, pid, s.id) == Some(s)
       <==> exists i :: 0 <= i < |profiles| && profiles[i].id == pid && s in profiles[i].Specs(kind)
  {
    match FindById(profiles, pid)
    case None =>
    case Some(p) =>
      var i :| 0 <= i < |profiles| && profiles[i] == p;
      SpecsInverse(p.Specs(kind), s);
      assert forall j :: 0 <= j < |profiles| && profiles[j].id == pid ==> j == i;
  }

  lemma {:induction false} SpecsInverse(specs: seq<Spec>, s: Spec)
    requires ValidSpecSet(specs)
    ensures SpecWithId(specs, s.id) == Some(s) <==> s in specs
    ensures SpecWithKey(specs, s.key) == Some(s) <==> s in specs
    ensures s in specs ==> s.id != 0 && s.key != ""
  {
    hide SpecWithId, SpecWithKey;
    if s in specs {
      var i :| 0 <= i < |specs| && specs[i] == s;
      assert SpecWithId(specs, s.id) != None && SpecWithKey(specs, s.key) != None;
      assert forall j :: 0 <= j < |specs| && (specs[j].id == s.id || specs[j].key == s.key) ==> j == i;
    }
  }

  // ---------------------------------------------------------------- lookup tables

  function Lookup<K, V>(m: map<K, V>, k: K): Option<V> {
    if k in m then Some(m[k]) else None
  }

  /** An entry already there stays. */
  function Emplace<K, V>(m: map<K, V>, k: K, v: V): map<K, V> {
    if k in m then m else m[k := v]
  }

  datatype Table = Table(byId: map<uint16, map<uint16, Spec>>, byKey: map<uint16, map<string, Spec>>)

  datatype Snapshot = Snapshot(generation: nat, byId: map<uint16, Profile>, byName: map<string, Profile>,
                               telemetry: Table, settings: Table, events: Table)
  {
    function TableOf(kind: Kind): Table {
      match kind
      case Telemetry => telemetry
      case Settings => settings
      case Events => events
    }
  }

  const EMPTY_TABLE := Table(map[], map[])
  const EMPTY_SNAPSHOT := Snapshot(0, map[], map[], EMPTY_TABLE, EMPTY_TABLE, EMPTY_TABLE)

  ghost predicate Indexes(ids: map<uint16, Spec>, keys: map<string, Spec>, specs: seq<Spec>) {
    && (forall id :: Lookup(ids, id) == SpecWithId(specs, id))
    && (forall key :: key != "" ==> Lookup(keys, key) == SpecWithKey(specs, key))
  }

  ghost predicate TableAgrees(table: Table, profiles: seq<Profile>, kind: Kind) {
    forall pid ::
      match FindById(profiles, pid)
      case None => pid !in table.byId && pid !in table.byKey
      case Some(p) =>
        && pid in table.byId && pid in table.byKey
        && Indexes(table.byId[pid], table.byKey[pid], p.Specs(kind))
  }

  ghost predicate MapsAgree(byId: map<uint16, Profile>, byName: map<string, Profile>, profiles: seq<Profile>) {
    && (forall pid :: Lookup(byId, pid) == FindById(profiles, pid))
    && (forall name :: Lookup(byName, name) == FindByName(profiles, name))
  }

  ghost predicate SnapshotAgrees(snap: Snapshot, profiles: seq<Profile>) {
    && MapsAgree(snap.byId, snap.byName, profiles)
    && TableAgrees(snap.telemetry, profiles, Telemetry)
    && TableAgrees(snap.settings, profiles, Settings)
    && TableAgrees(snap.events, profiles, Events)
  }

  method IndexSpecs(specs: seq<Spec>) returns (ids: map<uint16, Spec>, keys: map<string, Spec>)
    ensures Indexes(ids, keys, specs)
  {
    ids, keys := map[], map[];
    var n := 0;
    assert specs[..0] == [];
    while n < |specs|
      invariant 0 <= n <= |specs|
      invariant Indexes(ids, keys, specs[..n])
    {
      assert specs[..n + 1][..n] == specs[..n];
      ids := Emplace(ids, specs[n].id, specs[n]);
      if specs[n].key != "" {
        keys := Emplace(keys, specs[n].key, specs[n]);
      }
      n := n + 1;
    }
    assert specs[..n] == specs;
  }

  /** A new profile with a new id gets its own row. */
  lemma {:induction false} RowAdded(table: Table, profiles: seq<Profile>, kind: Kind, n: nat,
                                    ids: map<uint16, Spec>, keys: map<string, Spec>)
    requires n < |profiles| && Unambiguous(profiles) && TableAgrees(table, profiles[..n], kind)
    requires Indexes(ids, keys, profiles[n].Specs(kind))
    ensures TableAgrees(Table(table.byId[profiles[n].id := ids], table.byKey[profiles[n].id := keys]),
                        profiles[..n + 1], kind)
  {
    hide Indexes, Unambiguous, FindById, FindByName;
    FindMore(profiles, n);
  }

  lemma {:induction false} FindMore(profiles: seq<Profile>, n: nat)
    requires n < |profiles| && Unambiguous(profiles)
    ensures FindById(profiles[..n], profiles[n].id) == None && FindByName(profiles[..n], profiles[n].name) == None
    ensures forall pid ::
              FindById(profiles[..n + 1], pid)
                == if pid == profiles[n].id then Some(profiles[n]) else FindById(profiles[..n], pid)
    ensures forall name ::
              FindByName(profiles[..n + 1], name)
                  == if name == profiles[n].name then Some(profiles[n]) else FindByName(profiles[..n], name)
  {
    assert profiles[..n + 1][..n] == profiles[..n];
    assert forall i :: 0 <= i < n ==> profiles[..n][i] == profiles[i];
    assert FindById(profiles[..n], profiles[n].id).None?;
    assert FindByName(profiles[..n], profiles[n].name).None?;
  }

  lemma {:induction false} ProfileAdded(byId: map<uint16, Profile>, byName: map<string, Profile>,
                                        profiles: seq<Profile>, n: nat)
    requires n < |profiles| && Unambiguous(profiles) && MapsAgree(byId, byName, profiles[..n])
    ensures profiles[n].id !in byId && profiles[n].name !in byName
    ensures MapsAgree(byId[profiles[n].id := profiles[n]], byName[profiles[n].name := profiles[n]], profiles[..n + 1])
  {
    hide Unambiguous, FindById, FindByName;
    FindMore(profiles, n);
    var p := profiles[n];
    assert Lookup(byId, p.id) == None && Lookup(byName, p.name) == None;
    var more, ids, names := profiles[..n + 1], byId[p.id := p], byName[p.name := p];
    forall pid: uint16 ensures Lookup(ids, pid) == FindById(more, pid) {
      assert Lookup(byId, pid) == FindById(profiles[..n], pid);
    }
    forall name: string ensures Lookup(names, name) == FindByName(more, name) {
      assert Lookup(byName, name) == FindByName(profiles[..n], name);
    }
  }

  lemma NothingAgrees()
    ensures MapsAgree(map[], map[], [])
    ensures forall kind :: TableAgrees(EMPTY_TABLE, [], kind)
  {
  }

  // ---------------------------------------------------------------- the registry

  class ProfileRegistry {
    var profiles: seq<Profile>
    var profilesById: map<uint16, Profile>
    var profilesByName: map<string, Profile>
    var generation: nat
    var cache: Snapshot
    var cacheValid: bool

    /** The generation counts the registrations, and a cache of the current generation is the current tables. */
    ghost predicate Valid()
      reads this
    {
      && Unambiguous(profiles)
      && MapsAgree(profilesById, profilesByName, profiles)
      && generation == |profiles|
      && (cacheValid && cache.generation == generation ==> SnapshotAgrees(cache, profiles))
    }

    constructor ()
      ensures Valid() && profiles == []
    {
      profiles, profilesById, profilesByName, generation := [], map[], map[], 0;
      cache, cacheValid := EMPTY_SNAPSHOT, false;
      NothingAgrees();
    }

    method ValidateProfileDefinition(p: Profile) returns (ok: bool)
      ensures ok <==>
                && p.supportsDefaultCodec
                && ValidSpecSet(p.telemetry) && ValidSpecSet(p.settings) && ValidSpecSet(p.events)
    {
      if !p.supportsDefaultCodec {
        return false;
      }
      ok := ValidateSpecSet(p.telemetry);
      if ok {
        ok := ValidateSpecSet(p.settings);
      }
      if ok {
        ok := ValidateSpecSet(p.events);
      }
    }

    /** A definition is taken if it is acceptable and clashes with no other; registering it again changes nothing. */
    method RegisterProfile(profile: Option<Profile>) returns (ok: bool)
      requires Valid()
      modifies `profiles, `profilesById, `profilesByName, `generation, `cacheValid
      ensures Valid()
      ensures ok <==> profile.Some? && Acceptable(profile.value) && NoClash(profile.value, old(profiles))
      ensures profiles == if ok && profile.value !in old(profiles) then old(profiles) + [profile.value]
          else old(profiles)
    {
      hide ValidSpecSet, FindById, FindByName, SnapshotAgrees;
      if profile.None? || profile.value.id == UNKNOWN_PROFILE || profile.value.name == "" {
        return false;
      }
      var p := profile.value;
      var valid := ValidateProfileDefinition(p);
      if !valid {
        return false;
      }
      if p in profiles {
        return true;
      }
      assert Lookup(profilesById, p.id) == FindById(profiles, p.id);
      assert Lookup(profilesByName, p.name) == FindByName(profiles, p.name);
      if p.id in profilesById && profilesById[p.id] != p {
        return false;
      }
      if p.name in profilesByName && profilesByName[p.name] != p {
        return false;
      }
      ghost var more := profiles + [p];
      assert more[..|profiles|] == profiles && more[..|more|] == more;
      ProfileAdded(profilesById, profilesByName, more, |profiles|);
      profiles := profiles + [p];
      profilesById := profilesById[p.id := p];
      profilesByName := profilesByName[p.name := p];
      generation := generation + 1;
      cacheValid := false;
      return true;
    }

    method Find(pid: uint16) returns (r: Option<Profile>)
      requires Valid()
      ensures r == FindById(profiles, pid)
    {
      assert Lookup(profilesById, pid) == FindById(profiles, pid);
      return if pid in profilesById then Some(profilesById[pid]) else None;
    }

    method FindByProfileName(name: string) returns (r: Option<Profile>)
      requires Valid()
      ensures r == FindByName(profiles, name)
    {
      assert Lookup(profilesByName, name) == FindByName(profiles, name);
      return if name in profilesByName then Some(profilesByName[name]) else None;
    }

    method RebuildSnapshotCache()
      requires Valid()
      modifies `cache, `cacheValid
      ensures Valid() && cacheValid && cache.generation == generation && SnapshotAgrees(cache, profiles)
    {
      hide Unambiguous, FindById, FindByName, Indexes, MapsAgree, TableAgrees;
      var byId: map<uint16, Profile>, byName: map<string, Profile> := map[], map[];
      var telemetry, settings, events := EMPTY_TABLE, EMPTY_TABLE, EMPTY_TABLE;
      var n := 0;
      NothingAgrees();
      assert profiles[..0] == [];
      while n < |profiles|
        invariant 0 <= n <= |profiles|
        invariant MapsAgree(byId, byName, profiles[..n])
        invariant TableAgrees(telemetry, profiles[..n], Telemetry)
        invariant TableAgrees(settings, profiles[..n], Settings)
        invariant TableAgrees(events, profiles[..n], Events)
      {
        var p := profiles[n];
        ProfileAdded(byId, byName, profiles, n);
        byId := Emplace(byId, p.id, p);
        byName := Emplace(byName, p.name, p);
        var ids, keys := IndexSpecs(p.telemetry);
        RowAdded(telemetry, profiles, Telemetry, n, ids, keys);
        telemetry := Table(telemetry.byId[p.id := ids], telemetry.byKey[p.id := keys]);
        ids, keys := IndexSpecs(p.settings);
        RowAdded(settings, profiles, Settings, n, ids, keys);
        settings := Table(settings.byId[p.id := ids], settings.byKey[p.id := keys]);
        ids, keys := IndexSpecs(p.events);
        RowAdded(events, profiles, Events, n, ids, keys);
        events := Table(events.byId[p.id := ids], events.byKey[p.id := keys]);
        n := n + 1;
      }
      assert profiles[..n] == profiles;
      cache := Snapshot(generation, byId, byName, telemetry, settings, events);
      cacheValid := true;
    }

    method CurrentSnapshot() returns (snap: Snapshot)
      requires Valid()
      modifies `cache, `cacheValid
      ensures Valid() && SnapshotAgrees(snap, profiles)
    {
      if !cacheValid || cache.generation != generation {
        RebuildSnapshotCache();
      }
      return cache;
    }

    method ResolveById(kind: Kind, pid: uint16, id: uint16) returns (r: Option<Spec>)
      requires Valid()
      modifies `cache, `cacheValid
      ensures Valid() && r == ScanById(profiles, kind, pid, id)
    {
      hide Unambiguous, MapsAgree, FindById, SpecWithId, SpecWithKey;
      if pid == UNKNOWN_PROFILE || id == 0 {
        return None;
      }
      var snap := CurrentSnapshot();
      var table := snap.TableOf(kind).byId;
      assert TableAgrees(snap.TableOf(kind), profiles, kind);
      if pid !in table {
        return None;
      }
      assert Lookup(table[pid], id) == SpecWithId(FindById(profiles, pid).value.Specs(kind), id);
      return if id in table[pid] then Some(table[pid][id]) else None;
    }

    method ResolveByKey(kind: Kind, pid: uint16, key: string) returns (r: Option<Spec>)
      requires Valid()
      modifies `cache, `cacheValid
      ensures Valid() && r == ScanByKey(profiles, kind, pid, key)
    {
      hide Unambiguous, MapsAgree, FindById, SpecWithId, SpecWithKey;
      if pid == UNKNOWN_PROFILE || key == "" {
        return None;
      }
      var snap := CurrentSnapshot();
      var table := snap.TableOf(kind).byKey;
      assert TableAgrees(snap.TableOf(kind), profiles, kind);
      if pid !in table {
        return None;
      }
      assert Lookup(table[pid], key) == SpecWithKey(FindById(profiles, pid).value.Specs(kind), key);
      return if key in table[pid] then Some(table[pid][key]) else None;
    }
  }
}
