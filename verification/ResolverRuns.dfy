/** The resolver over whole runs of seedings and of committed and rolled-back
    cycles. */
module ResolverRuns {
  import opened Orders
  import opened Fusion
  import opened Tables
  import opened Resolutions

  datatype Op = Seed(rows: seq<int>, listing: seq<AliasRow>) | Cycle(ads: seq<Sighting>, commits: bool)

  /** A listing the tables could not have returned is no step. */
  ghost function Step(s: Site, op: Op, minScore: int, window: nat): Site {
    match op
    case Seed(rows, listing) =>
      if Listed(Swept(s.db), rows, listing, window) then Seeded(s, rows, listing, window) else s
    case Cycle(ads, commits) => Cycled(s, ads, commits, minScore, window)
  }

  ghost function After(db: Store, ops: seq<Op>, minScore: int, window: nat): Site {
    if ops == [] then Site(db, EMPTY_MEMORY)
    else Step(After(db, Front(ops), minScore, window), Last(ops), minScore, window)
  }

  lemma {:induction false} AlwaysAgrees(db: Store, ops: seq<Op>, minScore: int, window: nat)
    requires Consistent(db)
    ensures var s := After(db, ops, minScore, window); Agrees(s) && Idle(s.mem)
  {
    hide Agrees, Idle, Seeded, Cycled, Listed;
    if ops == [] {
      BootAgrees(db);
    } else {
      AlwaysAgrees(db, Front(ops), minScore, window);
      var s := After(db, Front(ops), minScore, window);
      match Last(ops)
      case Seed(rows, listing) =>
        if Listed(Swept(s.db), rows, listing, window) { SeedAgrees(s, rows, listing, window); }
      case Cycle(ads, commits) => CycleAgrees(s, ads, commits, minScore, window);
    }
  }

  lemma BootAgrees(db: Store)
    requires Consistent(db)
    ensures Agrees(Site(db, EMPTY_MEMORY)) && Idle(EMPTY_MEMORY)
  {}

  /** Resolver memory agrees with the store: after any run every remembered id
      is a committed device, a key held in both maps has one id, and a key that
      the committed tables still bind is held under its owner. */
  lemma {:induction false} MemoryAgreesWithStore(db: Store, ops: seq<Op>, minScore: int, window: nat,
                                                 key: Key, owner: int)
    requires Consistent(db)
    ensures var s := After(db, ops, minScore, window);
            && (key in s.mem.cache ==> s.mem.cache[key] in s.db.devices)
            && (key in s.mem.cache && Binds(s.db, key, owner) ==> s.mem.cache[key] == owner)
            && (forall c | c in s.mem.recent ::
                  && c.id in s.db.devices
                  && (Binds(s.db, c.key, owner) ==> c.id == owner)
                  && (c.key in s.mem.cache ==> s.mem.cache[c.key] == c.id))
  {
    hide After, Binds, Consistent, PendingAgrees;
    AlwaysAgrees(db, ops, minScore, window);
    var s := After(db, ops, minScore, window);
    forall c | c in s.mem.recent
      ensures c.id in s.db.devices && (Binds(s.db, c.key, owner) ==> c.id == owner) &&
              (c.key in s.mem.cache ==> s.mem.cache[c.key] == c.id)
    {
      assert RecentFits(s, c);
    }
  }

  /** A key the tables bind resolves to its owner at any point of any cycle of
      any run, and neither creates a device nor changes a binding. */
  lemma {:induction false} BoundKeyResolvesToOwner(db: Store, ops: seq<Op>, ads: seq<Sighting>, ad: Sighting,
                                                   minScore: int, window: nat, owner: int)
    requires Consistent(db)
    requires Binds(ResolvedAll(After(db, ops, minScore, window), ads, minScore).db, KeyOf(ad), owner)
    ensures var s := ResolvedAll(After(db, ops, minScore, window), ads, minScore);
            && Identified(s, ad, minScore) == owner
            && Resolved(s, ad, minScore).db.aliases == s.db.aliases
            && Resolved(s, ad, minScore).db.devices.Keys == s.db.devices.Keys
  {
    hide After, Agrees, Binds, ResolvedAll;
    AlwaysAgrees(db, ops, minScore, window);
    ResolveAllAgrees(After(db, ops, minScore, window), ads, minScore);
    BoundResolves(ResolvedAll(After(db, ops, minScore, window), ads, minScore), ad, minScore, owner);
  }

  lemma BoundResolves(s: Site, ad: Sighting, minScore: int, owner: int)
    requires Agrees(s) && Binds(s.db, KeyOf(ad), owner)
    ensures Identified(s, ad, minScore) == owner
    ensures Resolved(s, ad, minScore).db.aliases == s.db.aliases
    ensures Resolved(s, ad, minScore).db.devices.Keys == s.db.devices.Keys
  {
    hide Fused, KeyOf, RecentFits;
    var key := KeyOf(ad);
    if Known(s.mem, key).Some? {
      assert Fits(s.db, key, Known(s.mem, key).value);
    } else if FounderOf(s.db, key).Some? {
      OneOwner(s.db, key, FounderOf(s.db, key).value, owner);
    } else {
      assert Aliased(s.db, key, owner);
      OneOwner(s.db, key, AliasOwner(s.db, key).value, owner);
    }
  }

  lemma TouchedTwice(db: Store, id: int, address: string)
    ensures TouchedIf(TouchedIf(db, id, address), id, address) == TouchedIf(db, id, address)
  {}

  /** Resolving the same sighting again gives the same device and writes nothing. */
  lemma ResolveIsIdempotent(s: Site, ad: Sighting, minScore: int)
    requires Agrees(s)
    ensures var t := Resolved(s, ad, minScore);
            Identified(t, ad, minScore) == Identified(s, ad, minScore) && Resolved(t, ad, minScore).db == t.db
  {
    hide Agrees, Fused, KeyOf, MoveToEnd, Bound, Created;
    var key, id := KeyOf(ad), Identified(s, ad, minScore);
    ResolveAgrees(s, ad, minScore);
    UnknownIsNoAlias(s, key);
    TouchedTwice(s.db, id, ad.address);
    BoundTouchedTwice(s.db, key, id, ad.address);
  }

  lemma UnknownIsNoAlias(s: Site, key: Key)
    requires Agrees(s)
    ensures Known(s.mem, key).None? ==> key !in s.mem.aliasKeys && key !in s.mem.pendingAliases
  {}

  lemma BoundTouchedTwice(db: Store, key: Key, id: int, address: string)
    ensures var b := Bound(TouchedIf(db, id, address), key, id); TouchedIf(b, id, address) == b
  {}

  lemma KnownStays(s: Site, ad: Sighting, minScore: int, key: Key)
    requires Known(s.mem, key).Some?
    ensures Known(Resolved(s, ad, minScore).mem, key) == Known(s.mem, key)
  {
    hide Fused, KeyOf, MoveToEnd, Bound, Created, TouchedIf;
  }

  /** Within a cycle a key keeps the device it was first resolved to. */
  lemma {:induction false} KnownAtTheEnd(s: Site, ads: seq<Sighting>, minScore: int, k: nat)
    requires Agrees(s) && k < |ads|
    ensures Known(ResolvedAll(s, ads, minScore).mem, KeyOf(ads[k]))
         == Some(Identified(ResolvedAll(s, ads[..k], minScore), ads[k], minScore))
  {
    hide Agrees, Known, Resolved, Identified, KeyOf;
    var p := Front(ads);
    if k == |p| {
      assert ads[..k] == p;
      ResolveAllAgrees(s, p, minScore);
      ResolveAgrees(ResolvedAll(s, p, minScore), ads[k], minScore);
    } else {
      assert p[..k] == ads[..k];
      KnownAtTheEnd(s, p, minScore, k);
      KnownStays(ResolvedAll(s, p, minScore), Last(ads), minScore, KeyOf(ads[k]));
    }
  }

  /** What a committed cycle resolved stays resolved: the key is in the cache
      under the same device, unless it was an old entry of a cleared cache. */
  lemma IdentityIsRemembered(s: Site, ads: seq<Sighting>, minScore: int, window: nat, k: nat)
    requires Agrees(s) && k < |ads|
    ensures var t, key := ResolvedAll(s, ads, minScore), KeyOf(ads[k]);
            var cache := Cycled(s, ads, true, minScore, window).mem.cache;
            var id := Identified(ResolvedAll(s, ads[..k], minScore), ads[k], minScore);
            if key in cache then cache[key] == id
            else key in s.mem.cache && |t.mem.cache| + |t.mem.pending| > 100_000
  {
    hide Consistent, Fits, RecentFits, ResolvedAll, Identified, KeyOf, PutAll;
    KnownAtTheEnd(s, ads, minScore, k);
    ResolveAllAgrees(s, ads, minScore);
  }

  /** The boot memory after the founding keys of these rows. */
  lemma {:induction false} FoundersAreWarm(db: Store, rows: seq<int>, id: int)
    requires Consistent(db) && |rows| <= MAX_KEY_CACHE && forall i | 0 <= i < |rows| :: rows[i] in db.devices
    ensures var m := FoundersSeeded(db, EMPTY_MEMORY, rows);
            && |m.cache| <= |rows| && |m.recent| <= |rows|
            && (id in rows && db.devices[id].key.Canonical? ==>
                  db.devices[id].key in m.cache && HasKey(m.recent, db.devices[id].key))
  {
    hide Consistent, Assign, HasKey;
    if rows == [] {
    } else {
      FoundersAreWarm(db, rows[1..], id);
      var m := FoundersSeeded(db, EMPTY_MEMORY, rows[1..]);
      assert rows == [rows[0]] + rows[1..];
      var d := db.devices[rows[0]];
      CacheAddsOne(m.cache, d.key, rows[0]);
      if d.key.Canonical? {
        var c := Candidate(d.key, FromStored(d.key, d.address).value, None, rows[0]);
        AssignKeepsKeys(m.recent, c, c.key);
        if id in db.devices { AssignKeepsKeys(m.recent, c, db.devices[id].key); }
      }
    }
  }

  lemma CacheAddsOne(cache: map<Key, int>, key: Key, id: int)
    ensures |cache[key := id]| <= |cache| + 1
  {
    MapCount(cache);
    MapCount(cache[key := id]);
    assert cache[key := id].Keys == cache.Keys + {key};
  }

  lemma AssignKeepsKeys(q: seq<Candidate>, c: Candidate, key: Key)
    ensures key == c.key || HasKey(q, key) ==> HasKey(Assign(q, c), key)
    ensures |Assign(q, c)| <= |q| + 1
  {
    if i :| 0 <= i < |q| && q[i].key == key { assert Assign(q, c)[i].key == key; }
    if !HasKey(q, c.key) { assert Assign(q, c)[|q|] == c; }
  }

  lemma {:induction false} AliasesOnlyAdd(mem: Memory, seeds: seq<Candidate>, window: nat)
    ensures var m := AliasesSeeded(mem, seeds, window);
            && (forall k | k in mem.cache :: k in m.cache && m.cache[k] == mem.cache[k])
            && mem.recent <= m.recent
            && (|mem.recent| <= window ==> |m.recent| <= window)
  {
    if seeds == [] {
    } else {
      AliasesOnlyAdd(mem, seeds[1..], window);
    }
  }

  /** A restart keeps continuity: after seeding a fresh memory every listed
      device's founding key is in the cache and in the window, which is within
      its bound, whatever its own aliases and those of other devices. */
  lemma SeedWarmsFounders(db: Store, rows: seq<int>, listing: seq<AliasRow>, window: nat, id: int)
    requires Consistent(db) && Listed(Swept(db), rows, listing, window) && window <= MAX_KEY_CACHE
    requires id in rows && db.devices[id].key.Canonical?
    ensures var m, key := Seeded(Site(db, EMPTY_MEMORY), rows, listing, window).mem, db.devices[id].key;
            key in m.cache && m.cache[key] == id && HasKey(m.recent, key) && |m.recent| <= window
  {
    hide Consistent, AliasSeeds, Agrees, RecentFits;
    var swept := Swept(db);
    SweptIsCapped(db);
    BootAgrees(db);
    FoundersAreWarm(swept, rows, id);
    AliasesOnlyAdd(FoundersSeeded(swept, EMPTY_MEMORY, rows), AliasSeeds(swept, rows, listing), window);
    PrefixKeepsKeys(FoundersSeeded(swept, EMPTY_MEMORY, rows).recent,
                    Seeded(Site(db, EMPTY_MEMORY), rows, listing, window).mem.recent, db.devices[id].key);
    SeedAgrees(Site(db, EMPTY_MEMORY), rows, listing, window);
    CachedIsOwner(Seeded(Site(db, EMPTY_MEMORY), rows, listing, window), db.devices[id].key, id);
  }

  lemma PrefixKeepsKeys(p: seq<Candidate>, q: seq<Candidate>, key: Key)
    requires p <= q && HasKey(p, key)
    ensures HasKey(q, key)
  {
    var i :| 0 <= i < |p| && p[i].key == key;
    assert q[i] == p[i];
  }

  lemma CachedIsOwner(s: Site, key: Key, id: int)
    requires Agrees(s) && Founds(s.db, id, key) && key in s.mem.cache
    ensures s.mem.cache[key] == id
  {
    assert Binds(s.db, key, id);
  }

  // ------------------------------------------------------------------ bounds

  lemma ResolvedWithinCap(s: Site, ad: Sighting, minScore: int)
    requires WithinCap(s.db)
    ensures WithinCap(Resolved(s, ad, minScore).db)
  {
    hide Fused, KeyOf, Count, Bound, Known, FounderOf, AliasOwner;
    var key, id := KeyOf(ad), Identified(s, ad, minScore);
    BoundWithinCap(TouchedIf(s.db, id, ad.address), key, id);
  }

  lemma {:induction false} ResolvedAllWithinCap(s: Site, ads: seq<Sighting>, minScore: int)
    requires WithinCap(s.db)
    ensures WithinCap(ResolvedAll(s, ads, minScore).db)
  {
    hide WithinCap, Resolved;
    if ads == [] {
    } else {
      ResolvedAllWithinCap(s, Front(ads), minScore);
      ResolvedWithinCap(ResolvedAll(s, Front(ads), minScore), Last(ads), minScore);
    }
  }

  /** Once a seeding has swept the table, or if it never was over the cap, no
      device ever holds more than the cap of aliases again. */
  lemma {:induction false} AliasCapHolds(db: Store, ops: seq<Op>, minScore: int, window: nat, k: nat)
    requires Consistent(db) && k <= |ops| && WithinCap(After(db, ops[..k], minScore, window).db)
    ensures WithinCap(After(db, ops, minScore, window).db)
  {
    hide WithinCap, Consistent, Seeded, Listed, Swept;
    if k == |ops| {
      assert ops[..k] == ops;
    } else {
      assert Front(ops)[..k] == ops[..k];
      AliasCapHolds(db, Front(ops), minScore, window, k);
      AlwaysAgrees(db, Front(ops), minScore, window);
      var s := After(db, Front(ops), minScore, window);
      match Last(ops)
      case Seed(rows, listing) =>
        if Listed(Swept(s.db), rows, listing, window) { SeedAgrees(s, rows, listing, window); }
      case Cycle(ads, commits) => ResolvedAllWithinCap(s, ads, minScore);
    }
  }

  /** Every committed cycle leaves the window within its bound and the cache
      within its own, unless one cycle alone staged more. */
  lemma CommitBoundsMemory(s: Site, ads: seq<Sighting>, minScore: int, window: nat)
    requires Agrees(s)
    ensures var t, m := ResolvedAll(s, ads, minScore), Cycled(s, ads, true, minScore, window).mem;
            && |m.recent| <= window
            && |m.cache| <= Max(100_000, |t.mem.pending|)
  {}
}
