/** resolver.py's DeviceResolver over a DeviceRepository, and run_cycle's
    ordering of transaction and memory. */
module DeviceResolvers {
  import opened Orders
  import opened Features
  import opened Fusion
  import opened Tables
  import opened DeviceRepositories
  import opened Resolutions

  function Then<T, E>(r: Result<(), E>, value: T): Result<T, E> {
    match r
    case Ok(_) => Ok(value)
    case Err(e) => Err(e)
  }

  const DEFAULT_MIN_SCORE := 55
  const DEFAULT_RECENT_WINDOW := 512

  class DeviceResolver {
    const devices: DeviceRepository
    const minScore: int
    const recentWindow: nat
    var keyCache: map<Key, int>
    var aliasKeys: set<Key>
    var recent: seq<Candidate>
    var pendingKeys: map<Key, int>
    var pendingAliasKeys: set<Key>
    var pendingRecent: seq<Candidate>

    ghost function Mem(): Memory
      reads this
    {
      Memory(keyCache, aliasKeys, recent, pendingKeys, pendingAliasKeys, pendingRecent)
    }

    ghost function State(): Site
      reads this, devices
    {
      Site(devices.State(), Mem())
    }

    constructor (devices: DeviceRepository, minScore: int := DEFAULT_MIN_SCORE,
                 recentWindow: nat := DEFAULT_RECENT_WINDOW)
      requires Consistent(devices.State())
      ensures State() == Site(devices.State(), EMPTY_MEMORY) && Agrees(State())
      ensures this.devices == devices && this.minScore == minScore && this.recentWindow == recentWindow
    {
      this.devices, this.minScore, this.recentWindow := devices, minScore, recentWindow;
      keyCache, aliasKeys, recent, pendingKeys, pendingAliasKeys, pendingRecent := map[], {}, [], map[], {}, [];
    }

    method Stage(c: Candidate, isAlias: bool)
      modifies this
      ensures Mem() == Staged(old(Mem()), c, isAlias)
    {
      pendingKeys := pendingKeys[c.key := c.id];
      if isAlias { pendingAliasKeys := pendingAliasKeys + {c.key}; }
      pendingRecent := pendingRecent + [c];
    }

    /** No sighting ever trips a conflict in the store. */
    method Resolve(ad: Sighting) returns (r: Result<int, StoreError>)
      requires Agrees(State())
      modifies this, devices
      ensures r == Ok(Identified(old(State()), ad, minScore))
      ensures State() == Resolved(old(State()), ad, minScore) && Agrees(State())
    {
      hide Agrees, Best, FusionScore, Consistent, Binds, MoveToEnd, Bound, Created, Founds, Aliased, Touched;
      ghost var s := State();
      AgreesIsConsistent(s);
      ResolveAgrees(s, ad, minScore);
      var f := FromAdvertisement(ad);
      var key := Canonical(f);
      if key in keyCache || key in pendingKeys {
        var id := if key in keyCache then keyCache[key] else pendingKeys[key];
        recent := MoveToEnd(recent, key);
        if ad.address != "" && (key in aliasKeys || key in pendingAliasKeys) { devices.TouchAddress(id, ad.address); }
        return Ok(id);
      }
      var stored := devices.GetByFingerprint(key);
      if stored.Some? {
        Stage(Candidate(key, f, ad.addressType, stored.value), false);
        return Ok(stored.value);
      }
      var aliased := devices.GetByAlias(key);
      if aliased.Some? {
        if ad.address != "" { devices.TouchAddress(aliased.value, ad.address); }
        Stage(Candidate(key, f, ad.addressType, aliased.value), true);
        return Ok(aliased.value);
      }
      var fused := BestMatch(f, ad.addressType, recent + pendingRecent, minScore);
      if fused.Some? {
        FusedExists(s, ad, minScore);
        TouchedKeepsKeys(s.db, key, fused.value, ad.address);
        if ad.address != "" { devices.TouchAddress(fused.value, ad.address); }
        var recorded := devices.RecordAlias(key, fused.value);
        if recorded.Ok? { Stage(Candidate(key, f, ad.addressType, fused.value), true); }
        return Then(recorded, fused.value);
      }
      var created := devices.Upsert(key, Some(ad.address));
      if created.Ok? { Stage(Candidate(key, f, ad.addressType, created.value), false); }
      r := created;
    }

    method Commit()
      modifies this
      ensures Mem() == Committed(old(Mem()), recentWindow)
    {
      if |keyCache| + |pendingKeys| > MAX_KEY_CACHE {
        keyCache := map[];
        aliasKeys := {};
      }
      keyCache := keyCache + pendingKeys;
      aliasKeys := aliasKeys + pendingAliasKeys;
      ghost var q := recent;
      for k := 0 to |pendingRecent|
        invariant pendingRecent == old(pendingRecent)
        invariant recent == PutAll(q, pendingRecent[..k])
        invariant Mem() == old(Mem()).(cache := keyCache, aliasKeys := aliasKeys, recent := recent)
        invariant keyCache == Committed(old(Mem()), recentWindow).cache
        invariant aliasKeys == Committed(old(Mem()), recentWindow).aliasKeys
      {
        assert Front(pendingRecent[..k + 1]) == pendingRecent[..k];
        recent := Put(recent, pendingRecent[k]);
      }
      assert pendingRecent[..|pendingRecent|] == pendingRecent;
      recent := Tail(recent, recentWindow);
      pendingKeys, pendingAliasKeys, pendingRecent := map[], {}, [];
    }

    method Abort()
      modifies this
      ensures Mem() == Aborted(old(Mem()))
    {
      pendingKeys, pendingAliasKeys, pendingRecent := map[], {}, [];
    }

    /** `rows` and `listing` are what list_recent and list_aliases_for_devices
        return after the sweep; both orders follow the clock. */
    method Seed(rows: seq<int>, listing: seq<AliasRow>)
      requires Agrees(State()) && Idle(Mem()) && Listed(Swept(State().db), rows, listing, recentWindow)
      modifies this, devices
      ensures State() == Seeded(old(State()), rows, listing, recentWindow)
      ensures Agrees(State()) && Idle(Mem()) && WithinCap(State().db)
    {
      hide Agrees, Idle, WithinCap, Swept, AliasSeeded, FounderSeeded;
      SeedAgrees(State(), rows, listing, recentWindow);
      var _ := devices.PruneExcessAliases();
      ghost var db, mem := devices.State(), Mem();
      var seeds: seq<Candidate> := [];
      for k := |rows| downto 0
        invariant devices.State() == db
        invariant Mem() == FoundersSeeded(db, mem, rows[k..]) && seeds == AliasSeeds(db, rows[k..], listing)
      {
        assert rows[k..][1..] == rows[k + 1..];
        seeds := SeedFounder(rows[k], listing, seeds);
      }
      for k := |seeds| downto 0
        invariant devices.State() == db
        invariant Mem() == AliasesSeeded(FoundersSeeded(db, mem, rows), seeds[k..], recentWindow)
      {
        assert seeds[k..][1..] == seeds[k + 1..];
        SeedAlias(seeds[k]);
      }
      assert seeds[0..] == seeds;
    }

    method SeedFounder(id: int, listing: seq<AliasRow>, seeds0: seq<Candidate>) returns (seeds: seq<Candidate>)
      requires id in devices.devices
      modifies this
      ensures Mem() == FounderSeeded(devices.State(), old(Mem()), id)
      ensures seeds == seeds0 + if FromStored(devices.devices[id].key).Some? then SeedsOf(listing, id) else []
    {
      seeds := seeds0;
      var d := devices.devices[id];
      var f := FromStored(d.key, d.address);
      if f.None? { return; }
      if |keyCache| < MAX_KEY_CACHE { keyCache := keyCache[d.key := id]; }
      recent := Assign(recent, Candidate(d.key, f.value, None, id));
      seeds := seeds + SeedsOf(listing, id);
    }

    method SeedAlias(c: Candidate)
      modifies this
      ensures Mem() == AliasSeeded(old(Mem()), c, recentWindow)
    {
      if c.key !in keyCache && |keyCache| < MAX_KEY_CACHE {
        keyCache := keyCache[c.key := c.id];
        aliasKeys := aliasKeys + {c.key};
      }
      if |recent| >= recentWindow { return; }
      if HasKey(recent, c.key) { return; }
      recent := recent + [c];
    }

    /** A cycle fails after any number of sightings, or commits. The rolled-back
        tables are the ones the transaction began with. */
    method RunCycle(ads: seq<Sighting>, fails: bool) returns (ids: seq<int>)
      requires Agrees(State()) && Idle(Mem())
      modifies this, devices
      ensures State() == Cycled(old(State()), ads, !fails, minScore, recentWindow)
      ensures Agrees(State()) && Idle(Mem())
      ensures |ids| == |ads| && forall k | 0 <= k < |ads| ::
                ids[k] == Identified(ResolvedAll(old(State()), ads[..k], minScore), ads[k], minScore)
    {
      hide Agrees, Idle, Resolved, Identified, Committed, Aborted;
      ghost var s := State();
      CycleAgrees(s, ads, !fails, minScore, recentWindow);
      var savedDevices, savedAliases, savedId := devices.devices, devices.aliases, devices.nextId;
      ids := [];
      for k := 0 to |ads|
        invariant State() == ResolvedAll(s, ads[..k], minScore) && Agrees(State())
        invariant |ids| == k && forall j | 0 <= j < k ::
                    ids[j] == Identified(ResolvedAll(s, ads[..j], minScore), ads[j], minScore)
      {
        assert Front(ads[..k + 1]) == ads[..k];
        var id := Resolve(ads[k]);
        ids := ids + [id.value];
      }
      assert ads[..|ads|] == ads;
      if fails {
        devices.devices, devices.aliases, devices.nextId := savedDevices, savedAliases, savedId;
        Abort();
      } else {
        Commit();
      }
    }
  }

  lemma TouchedKeepsKeys(db: Store, key: Key, id: int, address: string)
    ensures FounderOf(TouchedIf(db, id, address), key).None? <==> FounderOf(db, key).None?
    ensures AliasOwner(TouchedIf(db, id, address), key).None? <==> AliasOwner(db, key).None?
    ensures TouchedIf(db, id, address).devices.Keys == db.devices.Keys
    ensures Consistent(db) ==> Consistent(TouchedIf(db, id, address))
  {
    assert forall o :: Founds(TouchedIf(db, id, address), o, key) <==> Founds(db, o, key);
    assert forall o :: Aliased(TouchedIf(db, id, address), key, o) <==> Aliased(db, key, o);
    if Consistent(db) && id in db.devices { TouchedGrows(db, key, id, address); }
  }
}
