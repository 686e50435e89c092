/** storage/repository.py's DeviceRepository, the half the resolver uses. */
module DeviceRepositories {
  import opened Orders
  import opened Fusion
  import opened Tables

  class DeviceRepository {
    var devices: map<int, Device>
    var aliases: seq<AliasRow>
    var nextId: int

    ghost function State(): Store
      reads this
    {
      Store(devices, aliases, nextId)
    }

    constructor (devices: map<int, Device>, aliases: seq<AliasRow>, nextId: int)
      ensures State() == Store(devices, aliases, nextId)
    {
      this.devices, this.aliases, this.nextId := devices, aliases, nextId;
    }

    method GetByFingerprint(key: Key) returns (r: Option<int>)
      requires Consistent(State())
      ensures r == FounderOf(State(), key)
      ensures r.Some? ==> Founds(State(), r.value, key)
    {
      if id :| id in devices && devices[id].key == key {
        assert Founds(State(), id, key);
        r := Some(id);
      } else {
        r := None;
      }
    }

    method AliasRowOwner(key: Key) returns (r: Option<int>)
      requires Consistent(State())
      ensures r == AliasOwner(State(), key)
      ensures r.Some? ==> Aliased(State(), key, r.value)
    {
      r := None;
      for k := 0 to |aliases|
        invariant r.Some? ==> Aliased(State(), key, r.value)
        invariant r.None? ==> forall j | 0 <= j < k :: aliases[j].key != key
      {
        if aliases[k].key == key {
          assert aliases[k] == AliasRow(key, aliases[k].owner);
          r := Some(aliases[k].owner);
        }
      }
      if r.Some? {
        forall o | Aliased(State(), key, o) ensures o == r.value { OneOwner(State(), key, o, r.value); }
      }
    }

    /** The join: an alias whose owner row is missing is not found. */
    method GetByAlias(key: Key) returns (r: Option<int>)
      requires Consistent(State())
      ensures r == AliasOwner(State(), key)
      ensures r.Some? ==> Aliased(State(), key, r.value) && r.value in devices
    {
      var owner := AliasRowOwner(key);
      r := if owner.Some? && owner.value in devices then owner else None;
    }

    method TouchAddress(id: int, address: string)
      modifies this
      ensures State() == Touched(old(State()), id, address)
    {
      if id in devices && devices[id].address != Some(address) {
        devices := devices[id := devices[id].(address := Some(address))];
      }
    }

    method Upsert(key: Key, address: Option<string> := None, name: Option<string> := None,
                  description: Option<string> := None)
      returns (r: Result<int, StoreError>)
      requires Consistent(State())
      modifies this
      ensures AliasOwner(old(State()), key).Some? ==> r == Err(AlreadyAnAlias) && State() == old(State())
      ensures AliasOwner(old(State()), key).None? && FounderOf(old(State()), key).None? ==>
                r == Ok(old(nextId)) && State() == Created(old(State()), Device(key, address, name, description))
      ensures AliasOwner(old(State()), key).None? && FounderOf(old(State()), key).Some? ==>
                r.Ok? && Founds(old(State()), r.value, key) &&
                State() == Merged(old(State()), r.value, Device(key, address, name, description))
      ensures r.Ok? ==> r.value in devices && devices[r.value].key == key
      ensures r.Ok? ==> (address.Some? ==> devices[r.value].address == address) &&
                        (name.Some? ==> devices[r.value].name == name) &&
                        (description.Some? ==> devices[r.value].description == description)
      ensures r.Ok? && r.value in old(devices) ==>
                (address.None? ==> devices[r.value].address == old(devices)[r.value].address) &&
                (name.None? ==> devices[r.value].name == old(devices)[r.value].name) &&
                (description.None? ==> devices[r.value].description == old(devices)[r.value].description)
      ensures aliases == old(aliases)
      ensures r.Ok? ==> devices.Keys == old(devices.Keys) + {r.value}
      ensures r.Ok? ==> forall o | o in old(devices) && o != r.value :: devices[o] == old(devices)[o]
    {
      var taken := AliasRowOwner(key);
      if taken.Some? { return Err(AlreadyAnAlias); }
      var existing := GetByFingerprint(key);
      if existing.Some? {
        var d := devices[existing.value];
        devices := devices[existing.value := Device(key, OrKept(address, d.address), OrKept(name, d.name),
                                                    OrKept(description, d.description))];
        return Ok(existing.value);
      }
      devices := devices[nextId := Device(key, address, name, description)];
      r := Ok(nextId);
      nextId := nextId + 1;
    }

    method RecordAlias(key: Key, id: int) returns (r: Result<(), StoreError>)
      requires Consistent(State())
      modifies this
      ensures r.Ok? <==>
              id in old(devices) && FounderOf(old(State()), key).None? &&
              (AliasOwner(old(State()), key).Some? ==> AliasOwner(old(State()), key).value == id)
      ensures State() == if r.Ok? && AliasOwner(old(State()), key).None?
                         then Bound(old(State()), key, id) else old(State())
      ensures r.Err? ==> r.error == if id !in old(devices) then DeviceNotFound
                                    else if FounderOf(old(State()), key).Some? then IsFoundingKey
                                    else BoundToAnother
    {
      if id !in devices { return Err(DeviceNotFound); }
      var founding := GetByFingerprint(key);
      if founding.Some? { return Err(IsFoundingKey); }
      var existing := AliasRowOwner(key);
      if existing.Some? { return if existing.value != id then Err(BoundToAnother) else Ok(()); }
      aliases := aliases + [AliasRow(key, id)];
      var _ := PruneOldestAliases(id);
      r := Ok(());
    }

    method CountAliases(id: int) returns (n: nat)
      ensures n == Count(aliases, id)
    {
      n := 0;
      for k := |aliases| downto 0
        invariant n == Count(aliases[k..], id)
      {
        assert aliases[k..][1..] == aliases[k + 1..];
        if aliases[k].owner == id { n := n + 1; }
      }
    }

    method PruneOldestAliases(id: int) returns (deleted: int)
      modifies this
      ensures State() == old(State()).(aliases := Capped(old(aliases), {id}))
      ensures deleted == Max(0, Count(old(aliases), id) - 32) == |old(aliases)| - |aliases|
    {
      var count := CountAliases(id);
      DropOldestCaps(aliases, id);
      CappedLength(aliases, id);
      aliases := DropOldest(aliases, id, count - MAX_ALIASES_PER_DEVICE);
      deleted := Max(0, count - MAX_ALIASES_PER_DEVICE);
    }

    method OverCap() returns (over: set<int>)
      ensures over <= Owners(State())
      ensures forall o | o in Owners(State()) - over :: Count(aliases, o) <= MAX_ALIASES_PER_DEVICE
    {
      over := {};
      for k := 0 to |aliases|
        invariant over <= Owners(State())
        invariant forall j | 0 <= j < k ::
                    aliases[j].owner in over || Count(aliases, aliases[j].owner) <= MAX_ALIASES_PER_DEVICE
      {
        assert aliases[k] in aliases;
        var n := CountAliases(aliases[k].owner);
        if n > MAX_ALIASES_PER_DEVICE { over := over + {aliases[k].owner}; }
      }
    }

    method PruneExcessAliases() returns (deleted: int)
      modifies this
      ensures State() == Swept(old(State())) && deleted == |old(aliases)| - |aliases|
    {
      hide Count, Capped;
      ghost var rows := aliases;
      var over := OverCap();
      ghost var all := over;
      CappedNobody(rows);
      assert all - over == {};
      deleted := 0;
      while over != {}
        invariant over <= all && devices == old(devices) && nextId == old(nextId)
        invariant deleted == |rows| - |aliases|
        invariant aliases == Capped(rows, all - over)
      {
        var id :| id in over;
        var gone := PruneOldestAliases(id);
        deleted := deleted + gone;
        CappedTwice(rows, all - over, id);
        assert all - over + {id} == all - (over - {id});
        over := over - {id};
      }
      assert all - over == all;
      CappedEnough(rows, all, Owners(old(State())));
    }
  }
}
