/** The devices and device_aliases tables of one site, and the repository
    operations the resolver uses, as values. Alias rows stand in id order. */
module Tables {
  import opened Orders
  import opened Fusion

  const MAX_ALIASES_PER_DEVICE := 32

  /** `name` is the label the operator gave it. */
  datatype Device = Device(key: Key, address: Option<string>, name: Option<string>, description: Option<string>)

  datatype AliasRow = AliasRow(key: Key, owner: int)

  datatype Store = Store(devices: map<int, Device>, aliases: seq<AliasRow>, nextId: int)

  datatype StoreError = AlreadyAnAlias | DeviceNotFound | IsFoundingKey | BoundToAnother

  ghost predicate Founds(db: Store, id: int, key: Key) { id in db.devices && db.devices[id].key == key }

  ghost predicate Aliased(db: Store, key: Key, owner: int) { AliasRow(key, owner) in db.aliases }

  /** The tables bind this key, as a founding key or as an alias, to this device. */
  ghost predicate Binds(db: Store, key: Key, id: int) { Founds(db, id, key) || Aliased(db, key, id) }

  /** Founding keys and alias keys are unique and disjoint, and every alias has
      an existing owner. */
  ghost predicate Consistent(db: Store) {
    && (forall id | id in db.devices :: id < db.nextId)
    && (forall i, j | i in db.devices && j in db.devices && db.devices[i].key == db.devices[j].key :: i == j)
    && (forall i, j | 0 <= i < j < |db.aliases| :: db.aliases[i].key != db.aliases[j].key)
    && (forall a | a in db.aliases ::
          a.owner in db.devices && forall id | id in db.devices :: db.devices[id].key != a.key)
  }

  lemma OneOwner(db: Store, key: Key, a: int, b: int)
    requires Consistent(db) && Binds(db, key, a) && Binds(db, key, b)
    ensures a == b
  {}

  ghost function FounderOf(db: Store, key: Key): Option<int> {
    if exists id :: Founds(db, id, key) then var id :| Founds(db, id, key); Some(id) else None
  }

  ghost function AliasOwner(db: Store, key: Key): Option<int> {
    if exists id :: Aliased(db, key, id) then var id :| Aliased(db, key, id); Some(id) else None
  }

  ghost function Touched(db: Store, id: int, address: string): Store {
    if id in db.devices then db.(devices := db.devices[id := db.devices[id].(address := Some(address))]) else db
  }

  ghost function Created(db: Store, device: Device): Store {
    db.(devices := db.devices[db.nextId := device], nextId := db.nextId + 1)
  }

  /** COALESCE: what is given replaces, what is not given is kept. */
  function OrKept<T>(given: Option<T>, kept: Option<T>): Option<T> { if given.Some? then given else kept }

  ghost function Merged(db: Store, id: int, given: Device): Store
    requires id in db.devices
  {
    var d := db.devices[id];
    db.(devices := db.devices[id := Device(d.key, OrKept(given.address, d.address), OrKept(given.name, d.name),
                                           OrKept(given.description, d.description))])
  }

  /** A device as the resolver creates it. */
  function NewDevice(key: Key, address: string): Device { Device(key, Some(address), None, None) }

  ghost function Count(aliases: seq<AliasRow>, owner: int): nat {
    if aliases == [] then 0 else (if aliases[0].owner == owner then 1 else 0) + Count(aliases[1..], owner)
  }

  /** For each of these owners only its newest aliases, up to the cap. */
  ghost function Capped(aliases: seq<AliasRow>, owners: set<int>): seq<AliasRow> {
    if aliases == [] then []
    else
      var rest := Capped(aliases[1..], owners);
      var owner := aliases[0].owner;
      if owner in owners && Count(aliases[1..], owner) >= MAX_ALIASES_PER_DEVICE then rest else [aliases[0]] + rest
  }

  /** The first n rows of this owner dropped. */
  function DropOldest(aliases: seq<AliasRow>, owner: int, n: int): seq<AliasRow> {
    if n <= 0 || aliases == [] then aliases
    else if aliases[0].owner == owner then DropOldest(aliases[1..], owner, n - 1)
    else [aliases[0]] + DropOldest(aliases[1..], owner, n)
  }

  ghost function Bound(db: Store, key: Key, id: int): Store {
    db.(aliases := Capped(db.aliases + [AliasRow(key, id)], {id}))
  }

  lemma {:induction false} CappedCount(aliases: seq<AliasRow>, owners: set<int>, owner: int)
    ensures Count(Capped(aliases, owners), owner)
         == if owner in owners then Min(Count(aliases, owner), 32) else Count(aliases, owner)
  {
    if aliases == [] {
    } else {
      CappedCount(aliases[1..], owners, owner);
      var rest := Capped(aliases[1..], owners);
      assert ([aliases[0]] + rest)[1..] == rest;
    }
  }

  /** Deleting the `count - cap` lowest ids keeps exactly the newest `cap`. */
  lemma {:induction false} DropOldestCaps(aliases: seq<AliasRow>, owner: int)
    ensures DropOldest(aliases, owner, Count(aliases, owner) - MAX_ALIASES_PER_DEVICE) == Capped(aliases, {owner})
  {
    if aliases == [] {
    } else {
      DropOldestCaps(aliases[1..], owner);
      if Count(aliases, owner) <= MAX_ALIASES_PER_DEVICE {
        assert aliases == [aliases[0]] + aliases[1..];
      }
    }
  }

  lemma {:induction false} CappedLength(aliases: seq<AliasRow>, owner: int)
    ensures |Capped(aliases, {owner})| == |aliases| - Max(0, Count(aliases, owner) - MAX_ALIASES_PER_DEVICE)
  {
    if aliases == [] {
    } else {
      CappedLength(aliases[1..], owner);
    }
  }

  lemma {:induction false} CappedTwice(aliases: seq<AliasRow>, owners: set<int>, owner: int)
    requires owner !in owners
    ensures Capped(Capped(aliases, owners), {owner}) == Capped(aliases, owners + {owner})
  {
    if aliases == [] {
    } else {
      CappedTwice(aliases[1..], owners, owner);
      CappedCount(aliases[1..], owners, owner);
      var rest := Capped(aliases[1..], owners);
      assert ([aliases[0]] + rest)[1..] == rest;
    }
  }

  lemma {:induction false} CappedNobody(aliases: seq<AliasRow>)
    ensures Capped(aliases, {}) == aliases
  {
    if aliases == [] {
    } else {
      CappedNobody(aliases[1..]);
    }
  }

  /** Capping the owners above the cap caps everybody. */
  lemma {:induction false} CappedEnough(aliases: seq<AliasRow>, owners: set<int>, everyone: set<int>)
    requires owners <= everyone && forall o | o in everyone - owners :: Count(aliases, o) <= MAX_ALIASES_PER_DEVICE
    ensures Capped(aliases, owners) == Capped(aliases, everyone)
  {
    if aliases == [] {
    } else {
      assert Count(aliases, aliases[0].owner) > Count(aliases[1..], aliases[0].owner);
      forall o | o in everyone - owners ensures Count(aliases[1..], o) <= MAX_ALIASES_PER_DEVICE {
        assert Count(aliases, o) >= Count(aliases[1..], o);
      }
      CappedEnough(aliases[1..], owners, everyone);
    }
  }

  /** A subsequence: whatever held between the rows still holds. */
  ghost predicate DistinctKeys(aliases: seq<AliasRow>) {
    forall i, j | 0 <= i < j < |aliases| :: aliases[i].key != aliases[j].key
  }

  lemma {:induction false} CappedKeeps(aliases: seq<AliasRow>, owners: set<int>)
    requires DistinctKeys(aliases)
    ensures DistinctKeys(Capped(aliases, owners))
    ensures forall a | a in Capped(aliases, owners) :: a in aliases
    ensures aliases != [] ==> Last(aliases) in Capped(aliases, owners)
  {
    if aliases == [] {
    } else {
      assert aliases == [aliases[0]] + aliases[1..];
      CappedKeeps(aliases[1..], owners);
      var rest := Capped(aliases[1..], owners);
      forall j | 0 <= j < |rest| ensures rest[j].key != aliases[0].key {
        assert rest[j] in aliases[1..];
      }
      if |aliases| > 1 { assert Last(aliases) == Last(aliases[1..]); }
    }
  }

  /** What every operation of one sighting does to the tables: no device is
      lost and at most the sighted key is newly bound, to the resolved device. */
  ghost predicate Grows(db: Store, after: Store, key: Key, id: int) {
    && db.devices.Keys <= after.devices.Keys
    && id in after.devices
    && (forall k, o | Binds(after, k, o) :: Binds(db, k, o) || (k == key && o == id))
  }

  lemma TouchedGrows(db: Store, key: Key, id: int, address: string)
    requires Consistent(db) && id in db.devices
    ensures Consistent(Touched(db, id, address)) && Grows(db, Touched(db, id, address), key, id)
  {
    forall k, o | Binds(Touched(db, id, address), k, o) ensures Binds(db, k, o) {}
  }

  lemma CreatedGrows(db: Store, device: Device)
    requires Consistent(db) && forall id :: !Binds(db, device.key, id)
    ensures Consistent(Created(db, device)) && Grows(db, Created(db, device), device.key, db.nextId)
  {
    var key, after := device.key, Created(db, device);
    forall a | a in db.aliases ensures a.key != key { assert !Binds(db, key, a.owner); }
    forall id | id in db.devices ensures db.devices[id].key != key { assert !Binds(db, key, id); }
    forall k, o | Binds(after, k, o) ensures Binds(db, k, o) || (k == key && o == db.nextId) {}
  }

  lemma BoundGrows(db: Store, key: Key, id: int)
    requires Consistent(db) && id in db.devices && forall o :: !Binds(db, key, o)
    ensures Consistent(Bound(db, key, id)) && Grows(db, Bound(db, key, id), key, id)
    ensures Binds(Bound(db, key, id), key, id)
  {
    var rows, after := db.aliases + [AliasRow(key, id)], Bound(db, key, id);
    forall i | 0 <= i < |db.aliases| ensures db.aliases[i].key != key {
      assert db.aliases[i] in db.aliases && !Binds(db, key, db.aliases[i].owner);
    }
    forall o | o in db.devices ensures db.devices[o].key != key { assert !Binds(db, key, o); }
    CappedKeeps(rows, {id});
    forall k, o | Binds(after, k, o) ensures Binds(db, k, o) || (k == key && o == id) {}
  }

  lemma ChainGrows(a: Store, b: Store, c: Store, key: Key, id: int)
    requires Grows(a, b, key, id) && Grows(b, c, key, id)
    ensures Grows(a, c, key, id)
  {}

  ghost predicate WithinCap(db: Store) { forall owner :: Count(db.aliases, owner) <= 32 }

  lemma {:induction false} CountAppend(aliases: seq<AliasRow>, row: AliasRow, owner: int)
    ensures Count(aliases + [row], owner) == Count(aliases, owner) + if row.owner == owner then 1 else 0
  {
    if aliases == [] {
    } else {
      CountAppend(aliases[1..], row, owner);
      assert (aliases + [row])[1..] == aliases[1..] + [row];
    }
  }

  /** No binding lets a device exceed the alias cap. */
  lemma BoundWithinCap(db: Store, key: Key, id: int)
    requires WithinCap(db)
    ensures WithinCap(Bound(db, key, id))
  {
    forall owner ensures Count(Bound(db, key, id).aliases, owner) <= MAX_ALIASES_PER_DEVICE {
      CappedCount(db.aliases + [AliasRow(key, id)], {id}, owner);
      CountAppend(db.aliases, AliasRow(key, id), owner);
    }
  }

  /** The seed-time sweep. */
  ghost function Owners(db: Store): set<int> { set a | a in db.aliases :: a.owner }

  ghost function Swept(db: Store): Store { db.(aliases := Capped(db.aliases, Owners(db))) }

  lemma SweptIsCapped(db: Store)
    requires Consistent(db)
    ensures Consistent(Swept(db)) && WithinCap(Swept(db))
    ensures forall k, id | Binds(Swept(db), k, id) :: Binds(db, k, id)
  {
    CappedKeeps(db.aliases, Owners(db));
    forall owner ensures Count(Swept(db).aliases, owner) <= MAX_ALIASES_PER_DEVICE {
      CappedCount(db.aliases, Owners(db), owner);
      if owner !in Owners(db) { NotAnOwner(db.aliases, owner); }
    }
  }

  lemma {:induction false} NotAnOwner(aliases: seq<AliasRow>, owner: int)
    requires forall a | a in aliases :: a.owner != owner
    ensures Count(aliases, owner) == 0
  {
    if aliases == [] {
    } else {
      assert aliases[0] in aliases;
      NotAnOwner(aliases[1..], owner);
    }
  }
}
