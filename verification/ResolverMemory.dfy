/** How the resolver decides at its default threshold, which address a sighting
    leaves on its device, and what the recency window holds. */
module ResolverMemory {
  import opened Orders
  import opened Features
  import opened Fusion
  import opened Tables
  import opened Resolutions
  import opened ResolverRuns
  import DeviceResolvers

  // ----------------------------------------------------------------- decisions

  /** Two sightings have one key exactly when address, name, payloads and the set of
      services are the same; the address type and the order of services do not
      matter. A stored key gives the fingerprint back. */
  lemma KeyExactly(a: Sighting, b: Sighting)
    ensures KeyOf(a) == KeyOf(b) <==>
            && a.address == b.address && a.localName == b.localName && a.manufacturerData == b.manufacturerData
            && forall u :: u in a.serviceUuids <==> u in b.serviceUuids
    ensures FromStored(KeyOf(a)) == Some(FromAdvertisement(a))
  {
    var x, y := FromAdvertisement(a).serviceUuids, FromAdvertisement(b).serviceUuids;
    assert forall u :: u in x <==> u in a.serviceUuids;
    assert forall u :: u in y <==> u in b.serviceUuids;
  }

  /** Neither the memory nor the tables know the key. */
  ghost predicate Unseen(s: Site, key: Key) {
    Known(s.mem, key).None? && FounderOf(s.db, key).None? && AliasOwner(s.db, key).None?
  }

  /** Some candidate shares enough with the sighting to fuse by default. */
  ghost predicate SomeCorroborated(ad: Sighting, q: seq<Candidate>) {
    exists i | 0 <= i < |q| :: Corroborated(FromAdvertisement(ad), q[i].fingerprint, ad.addressType, q[i].addressType)
  }

  /** At the default threshold an unseen sighting makes a new device exactly when no
      candidate corroborates it. */
  lemma NewDeviceExactly(s: Site, ad: Sighting)
    requires Agrees(s) && Unseen(s, KeyOf(ad))
    ensures Identified(s, ad, DeviceResolvers.DEFAULT_MIN_SCORE) !in s.db.devices <==>
            !SomeCorroborated(ad, s.mem.recent + s.mem.pendingRecent)
  {
    hide FusionScore, Corroborated, Agrees, Best, Consistent;
    var f, q := FromAdvertisement(ad), s.mem.recent + s.mem.pendingRecent;
    MatchesExactly(f, ad.addressType, q, 55);
    forall i | 0 <= i < |q|
      ensures FusionScore(f, q[i].fingerprint, ad.addressType, q[i].addressType) >= 55 <==>
              Corroborated(f, q[i].fingerprint, ad.addressType, q[i].addressType) {
      ReachesDefaultExactly(f, q[i].fingerprint, ad.addressType, q[i].addressType);
    }
    if Fused(s.mem, ad, 55).Some? { FusedExists(s, ad, 55); } else { NextIsNew(s); }
  }

  lemma NextIsNew(s: Site)
    requires Agrees(s)
    ensures s.db.nextId !in s.db.devices
  {}

  /** With one candidate, the sighting joins its device or founds a new one. */
  lemma FusesWithOneExactly(s: Site, ad: Sighting, c: Candidate)
    requires Agrees(s) && Unseen(s, KeyOf(ad)) && s.mem.recent + s.mem.pendingRecent == [c]
    ensures Identified(s, ad, DeviceResolvers.DEFAULT_MIN_SCORE) ==
            if Corroborated(FromAdvertisement(ad), c.fingerprint, ad.addressType, c.addressType)
            then c.id else s.db.nextId
  {
    hide FusionScore, Corroborated, Agrees, Best, Consistent;
    var f := FromAdvertisement(ad);
    MatchesExactly(f, ad.addressType, [c], 55);
    assert [c][0] == c;
    ReachesDefaultExactly(f, c.fingerprint, ad.addressType, c.addressType);
    if Fused(s.mem, ad, 55).Some? {
      BestIsCandidate(f, ad.addressType, [c], 55);
    }
  }

  /** Otherwise it joins the device of the highest score, of the earliest of equals,
      the committed candidates coming before this cycle's. */
  lemma FusesWithBest(s: Site, ad: Sighting)
    requires Agrees(s) && Unseen(s, KeyOf(ad)) && SomeCorroborated(ad, s.mem.recent + s.mem.pendingRecent)
    ensures exists i :: FirstOfBest(ad, s.mem.recent + s.mem.pendingRecent, i) &&
              Identified(s, ad, DeviceResolvers.DEFAULT_MIN_SCORE) == (s.mem.recent + s.mem.pendingRecent)[i].id
  {
    hide FusionScore, Corroborated, Agrees, Consistent, SomeCorroborated;
    var f, q := FromAdvertisement(ad), s.mem.recent + s.mem.pendingRecent;
    NewDeviceExactly(s, ad);
    if Fused(s.mem, ad, 55).Some? {
      BestIsCandidate(f, ad.addressType, q, 55);
      var i :| Wins(f, ad.addressType, q, 55, i) && 0 <= i < |q| && q[i].id == Fused(s.mem, ad, 55).value;
      ReachesDefaultExactly(f, q[i].fingerprint, ad.addressType, q[i].addressType);
      var scores := Scores(f, ad.addressType, q);
      assert forall j | 0 <= j < |q| :: scores[j] == ScoreAt(ad, q, j);
      assert FirstOfBest(ad, q, i);
    } else {
      NextIsNew(s);
    }
  }

  ghost function ScoreAt(ad: Sighting, q: seq<Candidate>, i: int): int
    requires 0 <= i < |q|
  {
    FusionScore(FromAdvertisement(ad), q[i].fingerprint, ad.addressType, q[i].addressType)
  }

  ghost predicate FirstOfBest(ad: Sighting, q: seq<Candidate>, i: int) {
    && 0 <= i < |q|
    && Corroborated(FromAdvertisement(ad), q[i].fingerprint, ad.addressType, q[i].addressType)
    && (forall j | 0 <= j < |q| :: ScoreAt(ad, q, j) <= ScoreAt(ad, q, i))
    && (forall j | 0 <= j < i :: ScoreAt(ad, q, j) < ScoreAt(ad, q, i))
  }

  // ----------------------------------------------------------------- addresses

  ghost predicate Founded(db: Store, key: Key) { exists id :: Founds(db, id, key) }

  /** A known key is marked as an alias exactly when it founds no device. */
  ghost predicate Marked(s: Site) {
    && (forall k | k in s.mem.cache :: k in s.mem.aliasKeys <==> !Founded(s.db, k))
    && (forall k | k in s.mem.pending :: k in s.mem.pendingAliases <==> !Founded(s.db, k))
  }

  ghost predicate SameFounders(db: Store, after: Store) { forall k :: Founded(db, k) <==> Founded(after, k) }

  lemma SameKeysFound(db: Store, after: Store)
    requires db.devices.Keys == after.devices.Keys
    requires forall i | i in db.devices :: after.devices[i].key == db.devices[i].key
    ensures SameFounders(db, after)
  {
    forall k ensures Founded(db, k) <==> Founded(after, k) {
      if i :| Founds(db, i, k) { assert Founds(after, i, k); }
      if i :| Founds(after, i, k) { assert Founds(db, i, k); }
    }
  }

  lemma FoundersCreated(db: Store, device: Device)
    requires db.nextId !in db.devices
    ensures forall k :: Founded(Created(db, device), k) <==> Founded(db, k) || k == device.key
  {
    var after := Created(db, device);
    assert Founds(after, db.nextId, device.key);
    forall k ensures Founded(after, k) <==> Founded(db, k) || k == device.key {
      if i :| Founds(db, i, k) { assert Founds(after, i, k); }
      if i :| Founds(after, i, k) && i != db.nextId { assert Founds(db, i, k); }
    }
  }

  lemma WritesKeepKeys(db: Store, key: Key, id: int, address: string)
    ensures SameFounders(db, TouchedIf(db, id, address)) && SameFounders(db, Bound(TouchedIf(db, id, address), key, id))
  {
    hide Capped, SameFounders;
    SameKeysFound(db, TouchedIf(db, id, address));
    SameKeysFound(db, Bound(TouchedIf(db, id, address), key, id));
  }

  /** Staging marks the new key by whether it founds a device, and no other changes. */
  lemma StagedMarked(s: Site, after: Store, c: Candidate, isAlias: bool)
    requires Marked(s) && Known(s.mem, c.key).None? && (isAlias <==> !Founded(after, c.key))
    requires forall k | k != c.key :: Founded(after, k) <==> Founded(s.db, k)
    requires c.key !in s.mem.pendingAliases
    ensures Marked(Site(after, Staged(s.mem, c, isAlias)))
  {
    hide Founded;
  }

  lemma ResolvedMarked(s: Site, ad: Sighting, minScore: int)
    requires Agrees(s) && Marked(s)
    ensures Marked(Resolved(s, ad, minScore))
  {
    hide Agrees, Marked, Fused, KeyOf, MoveToEnd, Bound, Created, TouchedIf, Founded;
    var key, id := KeyOf(ad), Identified(s, ad, minScore);
    var c := CandidateOf(ad, id);
    UnknownIsNoAlias(s, key);
    WritesKeepKeys(s.db, key, id, ad.address);
    FoundersCreatedHere(s, key, ad.address);
    FounderOfMeans(s.db, key);
    if Known(s.mem, key).Some? {
      HitMarked(s, Resolved(s, ad, minScore));
    } else if FounderOf(s.db, key).Some? {
      StagedMarked(s, s.db, c, false);
    } else if AliasOwner(s.db, key).Some? {
      StagedMarked(s, TouchedIf(s.db, id, ad.address), c, true);
    } else if Fused(s.mem, ad, minScore).Some? {
      StagedMarked(s, Bound(TouchedIf(s.db, id, ad.address), key, id), c, true);
    } else {
      StagedMarked(s, Created(s.db, NewDevice(key, ad.address)), c, false);
    }
  }

  lemma FoundersCreatedHere(s: Site, key: Key, address: string)
    requires Agrees(s)
    ensures forall k :: Founded(Created(s.db, NewDevice(key, address)), k) <==> Founded(s.db, k) || k == key
  {
    hide Founded, Created;
    NextIsNew(s);
    FoundersCreated(s.db, NewDevice(key, address));
  }

  lemma FounderOfMeans(db: Store, key: Key)
    ensures Founded(db, key) <==> FounderOf(db, key).Some?
  {}

  lemma HitMarked(s: Site, t: Site)
    requires Marked(s) && SameFounders(s.db, t.db)
    requires t.mem == s.mem.(recent := t.mem.recent)
    ensures Marked(t)
  {
    hide Founded;
  }

  lemma {:induction false} ResolvedAllMarked(s: Site, ads: seq<Sighting>, minScore: int)
    requires Agrees(s) && Marked(s)
    ensures Marked(ResolvedAll(s, ads, minScore))
  {
    hide Agrees, Marked, Resolved;
    if ads == [] {
    } else {
      ResolvedAllMarked(s, Front(ads), minScore);
      ResolveAllAgrees(s, Front(ads), minScore);
      ResolvedMarked(ResolvedAll(s, Front(ads), minScore), Last(ads), minScore);
    }
  }

  lemma CycleMarked(s: Site, ads: seq<Sighting>, commits: bool, minScore: int, window: nat)
    requires Agrees(s) && Idle(s.mem) && Marked(s)
    ensures Marked(Cycled(s, ads, commits, minScore, window))
  {
    hide Agrees, ResolvedAll, Founded, PutAll, Tail;
    ResolvedAllMarked(s, ads, minScore);
    ResolveAllAgrees(s, ads, minScore);
    MarksAreCached(ResolvedAll(s, ads, minScore));
  }

  lemma MarksAreCached(s: Site)
    requires Agrees(s)
    ensures s.mem.aliasKeys <= s.mem.cache.Keys && s.mem.pendingAliases <= s.mem.pending.Keys
    ensures s.mem.cache.Keys !! s.mem.pending.Keys
  {}

  lemma FounderSeedMarked(db: Store, mem: Memory, id: int)
    requires Agrees(Site(db, mem)) && Marked(Site(db, mem)) && id in db.devices
    ensures Marked(Site(db, FounderSeeded(db, mem, id)))
  {
    hide Assign, Consistent, RecentFits, Fits, PendingAgrees, OneEntryAKey;
    assert Founds(db, id, db.devices[id].key);
  }

  lemma {:induction false} FounderSeedsMarked(db: Store, mem: Memory, rows: seq<int>)
    requires Agrees(Site(db, mem)) && Idle(mem) && Marked(Site(db, mem))
    requires forall i | 0 <= i < |rows| :: rows[i] in db.devices
    ensures Marked(Site(db, FoundersSeeded(db, mem, rows)))
  {
    hide Agrees, Idle, Marked, FounderSeeded;
    if rows == [] {
    } else {
      FounderSeedsMarked(db, mem, rows[1..]);
      FounderSeedsAgree(db, mem, rows[1..]);
      FounderSeedMarked(db, FoundersSeeded(db, mem, rows[1..]), rows[0]);
    }
  }

  lemma AliasIsNoFounder(db: Store, key: Key, owner: int)
    requires Consistent(db) && Aliased(db, key, owner)
    ensures !Founded(db, key)
  {}

  lemma AliasSeedMarked(db: Store, mem: Memory, c: Candidate, window: nat)
    requires Agrees(Site(db, mem)) && Marked(Site(db, mem)) && Aliased(db, c.key, c.id)
    ensures Marked(Site(db, AliasSeeded(mem, c, window)))
  {
    hide Founded, Consistent, RecentFits, Fits, PendingAgrees, OneEntryAKey;
    AliasIsNoFounder(db, c.key, c.id);
    MarksAreCached(Site(db, mem));
  }

  lemma {:induction false} AliasSeedsMarked(db: Store, mem: Memory, seeds: seq<Candidate>, window: nat)
    requires Agrees(Site(db, mem)) && Idle(mem) && Marked(Site(db, mem))
    requires forall c | c in seeds :: Aliased(db, c.key, c.id)
    ensures Marked(Site(db, AliasesSeeded(mem, seeds, window)))
  {
    hide Agrees, Idle, Marked, AliasSeeded, Aliased;
    if seeds == [] {
    } else {
      assert seeds[0] in seeds;
      AliasSeedsMarked(db, mem, seeds[1..], window);
      AliasSeedsAgree(db, mem, seeds[1..], window);
      AliasSeedMarked(db, AliasesSeeded(mem, seeds[1..], window), seeds[0], window);
    }
  }

  lemma SeedMarked(s: Site, rows: seq<int>, listing: seq<AliasRow>, window: nat)
    requires Agrees(s) && Idle(s.mem) && Marked(s) && Listed(Swept(s.db), rows, listing, window)
    ensures Marked(Seeded(s, rows, listing, window))
  {
    hide Agrees, Idle, Consistent, Capped, Founded, AliasSeeds, Owners;
    var db := Swept(s.db);
    SweepAgrees(s);
    SameKeysFound(s.db, db);
    FounderSeedsAgree(db, s.mem, rows);
    FounderSeedsMarked(db, s.mem, rows);
    AliasSeedsAreListed(db, rows, listing);
    AliasSeedsMarked(db, FoundersSeeded(db, s.mem, rows), AliasSeeds(db, rows, listing), window);
  }

  /** On every run the keys marked as aliases are exactly the known ones that found
      no device, whatever was pruned, cleared or rolled back. */
  lemma {:induction false} AlwaysMarked(db: Store, ops: seq<Op>, minScore: int, window: nat)
    requires Consistent(db)
    ensures Marked(After(db, ops, minScore, window))
  {
    hide Agrees, Idle, Marked, Seeded, Cycled, Listed;
    if ops == [] {
      BootMarked(db);
    } else {
      AlwaysMarked(db, Front(ops), minScore, window);
      AlwaysAgrees(db, Front(ops), minScore, window);
      var s := After(db, Front(ops), minScore, window);
      match Last(ops)
      case Seed(rows, listing) =>
        if Listed(Swept(s.db), rows, listing, window) { SeedMarked(s, rows, listing, window); }
      case Cycle(ads, commits) => CycleMarked(s, ads, commits, minScore, window);
    }
  }

  lemma BootMarked(db: Store)
    ensures Marked(Site(db, EMPTY_MEMORY))
  {}

  /** The tables after a sighting of this device: a new one has the sighted address;
      a known one gets it unless the key founds the device or no address is given;
      and nothing else of it, nor of any other device, changes. */
  ghost predicate Addressed(db: Store, after: Store, id: int, ad: Sighting) {
    && id in after.devices
    && (if id !in db.devices then after.devices[id] == NewDevice(KeyOf(ad), ad.address)
        else
          var d := db.devices[id];
          after.devices[id] == if ad.address != "" && d.key != KeyOf(ad) then d.(address := Some(ad.address)) else d)
    && (forall o | o in db.devices && o != id :: o in after.devices && after.devices[o] == db.devices[o])
    && (forall o | o in after.devices && o != id :: o in db.devices)
  }

  lemma SightingAddresses(s: Site, ad: Sighting, minScore: int)
    requires Agrees(s) && Marked(s)
    ensures Addressed(s.db, Resolved(s, ad, minScore).db, Identified(s, ad, minScore), ad)
  {
    hide Agrees, Fused, KeyOf, Capped, MoveToEnd, Aliased;
    var key, id := KeyOf(ad), Identified(s, ad, minScore);
    FounderOfMeans(s.db, key);
    NextIsNew(s);
    UnknownIsNoAlias(s, key);
    if !Unseen(s, key) || Fused(s.mem, ad, minScore).Some? { OwnerExists(s, ad, minScore); }
    if Known(s.mem, key).Some? {
      KnownFounds(s, key);
      MarksAreCached(s);
    } else if FounderOf(s.db, key).Some? {
      assert Founds(s.db, id, key);
    } else {
      forall o | o in s.db.devices ensures s.db.devices[o].key != key { assert !Founds(s.db, o, key); }
    }
  }

  /** Whoever is identified exists, unless it is about to be created. */
  lemma OwnerExists(s: Site, ad: Sighting, minScore: int)
    requires Agrees(s)
    requires !Unseen(s, KeyOf(ad)) || Fused(s.mem, ad, minScore).Some?
    ensures Identified(s, ad, minScore) in s.db.devices
  {
    hide Fused, KeyOf, RecentFits, Agrees, Consistent;
    AgreesIsConsistent(s);
    if Known(s.mem, KeyOf(ad)).Some? {
      KnownFounds(s, KeyOf(ad));
    } else if FounderOf(s.db, KeyOf(ad)).Some? {
    } else if AliasOwner(s.db, KeyOf(ad)).Some? {
      AliasOwnerExists(s.db, KeyOf(ad), AliasOwner(s.db, KeyOf(ad)).value);
    } else if Fused(s.mem, ad, minScore).Some? {
      FusedExists(s, ad, minScore);
    }
  }

  /** A known key's device exists, and is the only one it can found. */
  lemma KnownFounds(s: Site, key: Key)
    requires Agrees(s) && Known(s.mem, key).Some?
    ensures var id := Known(s.mem, key).value; id in s.db.devices && (Founded(s.db, key) <==> Founds(s.db, id, key))
  {
    hide Consistent, RecentFits, PendingAgrees, OneEntryAKey;
    var id := Known(s.mem, key).value;
    assert Fits(s.db, key, id);
    if o :| Founds(s.db, o, key) { assert Binds(s.db, key, o); }
  }

  /** At any point of any run a sighting leaves its address on its device exactly
      when it is not the device's own founding sighting. */
  lemma AddressExactly(db: Store, ops: seq<Op>, ads: seq<Sighting>, ad: Sighting, minScore: int, window: nat)
    requires Consistent(db)
    ensures var s := ResolvedAll(After(db, ops, minScore, window), ads, minScore);
            Addressed(s.db, Resolved(s, ad, minScore).db, Identified(s, ad, minScore), ad)
  {
    hide Agrees, Marked, After, ResolvedAll, Resolved, Addressed, Identified;
    var s := After(db, ops, minScore, window);
    AlwaysAgrees(db, ops, minScore, window);
    AlwaysMarked(db, ops, minScore, window);
    ResolveAllAgrees(s, ads, minScore);
    ResolvedAllMarked(s, ads, minScore);
    SightingAddresses(ResolvedAll(s, ads, minScore), ad, minScore);
  }

  // ------------------------------------------------------------------- recency

  /** Each key's last entry, in the order of those last entries. */
  ghost function Latest(q: seq<Candidate>): seq<Candidate> {
    if q == [] then []
    else (if HasKey(q[1..], q[0].key) then [] else [q[0]]) + Latest(q[1..])
  }

  lemma {:induction false} WithoutFirst(c: Candidate, q: seq<Candidate>, key: Key)
    ensures Without([c] + q, key) == (if c.key == key then [] else [c]) + Without(q, key)
  {
    if q == [] {
      assert Front([c]) == [] && [c] + [] == [c];
    } else {
      WithoutFirst(c, Front(q), key);
      assert Front([c] + q) == [c] + Front(q) && Last([c] + q) == Last(q);
    }
  }

  lemma HasKeyOneMore(q: seq<Candidate>, c: Candidate, key: Key)
    ensures HasKey(q + [c], key) <==> HasKey(q, key) || c.key == key
  {
    HasKeyStep(q + [c], key);
    assert Front(q + [c]) == q;
  }

  lemma {:induction false} LatestOneMore(q: seq<Candidate>, c: Candidate)
    ensures Latest(q + [c]) == Put(Latest(q), c)
  {
    hide HasKey, Without;
    if q == [] {
      LatestOfOne(c);
    } else {
      var rest, first := q[1..], if HasKey(q[1..], q[0].key) then [] else [q[0]];
      assert (q + [c])[1..] == rest + [c];
      LatestOneMore(rest, c);
      HasKeyOneMore(rest, c, q[0].key);
      WithoutFirst(q[0], Latest(rest), c.key);
      assert [] + Latest(rest) == Latest(rest);
      if HasKey(rest, q[0].key) {
      } else {
        assert Latest(q) == [q[0]] + Latest(rest);
      }
    }
  }

  lemma LatestOfOne(c: Candidate)
    ensures Latest([] + [c]) == Put(Latest([]), c)
  {
    assert [] + [c] == [c] && [c][1..] == [];
  }

  lemma {:induction false} LatestOfUnique(q: seq<Candidate>)
    requires OneEntryAKey(q)
    ensures Latest(q) == q
  {
    if q == [] {
    } else {
      LatestOfUnique(q[1..]);
      assert q == [q[0]] + q[1..];
    }
  }

  lemma {:induction false} PutAllIsLatest(q: seq<Candidate>, more: seq<Candidate>)
    requires OneEntryAKey(q)
    ensures PutAll(q, more) == Latest(q + more)
  {
    hide OneEntryAKey, Put, Latest;
    if more == [] {
      LatestOfUnique(q);
      assert q + more == q;
    } else {
      PutAllIsLatest(q, Front(more));
      LatestOneMore(q + Front(more), Last(more));
      assert q + Front(more) + [Last(more)] == q + more;
    }
  }

  /** After a commit the window holds each key's last sighting, of the window before
      and the cycle's, in order of sighting, and only the newest of them. */
  lemma WindowIsLatest(s: Site, window: nat)
    requires Agrees(s)
    ensures var used := Latest(s.mem.recent + s.mem.pendingRecent);
            Committed(s.mem, window).recent == if |used| <= window then used else used[|used| - window..]
  {
    hide Latest, PutAll;
    PutAllIsLatest(s.mem.recent, s.mem.pendingRecent);
  }

  /** A hit is a sighting too: it moves its key's entry to the newest end. */
  lemma HitIsLatest(s: Site, ad: Sighting, minScore: int, i: nat)
    requires Agrees(s) && Known(s.mem, KeyOf(ad)).Some?
    requires i < |s.mem.recent| && s.mem.recent[i].key == KeyOf(ad)
    ensures Resolved(s, ad, minScore).mem.recent == Latest(s.mem.recent + [s.mem.recent[i]])
  {
    hide Latest, Without, Matching, Fused, KeyOf, TouchedIf, Created, Bound;
    var q := s.mem.recent;
    LatestOfUnique(q);
    LatestOneMore(q, q[i]);
    WithoutMembers(q, q[i].key);
    MatchingUnique(q, q[i].key);
    assert q[i] in Matching(q, q[i].key);
    assert Matching(q, q[i].key) == [q[i]];
  }

  // ------------------------------------------------------------------- seeding

  /** A founder as a candidate: its stored fingerprint, at its current address. */
  ghost predicate SeededFrom(c: Candidate, db: Store, id: int) {
    && id in db.devices && c.id == id && c.key == db.devices[id].key && c.addressType.None?
    && c.key.Canonical?
    && c.fingerprint == (if db.devices[id].address in {None, Some("")} then c.key.fingerprint
                         else c.key.fingerprint.(address := db.devices[id].address))
  }

  /** At boot the window lists the founders oldest first, so that the newest are
      the last to be trimmed. */
  lemma {:induction false} FoundersInOrder(db: Store, rows: seq<int>)
    requires Consistent(db) && Distinct(rows)
    requires forall i | 0 <= i < |rows| :: rows[i] in db.devices && db.devices[rows[i]].key.Canonical?
    ensures var q := FoundersSeeded(db, EMPTY_MEMORY, rows).recent;
            |q| == |rows| && forall k | 0 <= k < |rows| :: SeededFrom(q[k], db, rows[|rows| - 1 - k])
  {
    if rows == [] {
    } else {
      FoundersInOrder(db, rows[1..]);
      var q := FoundersSeeded(db, EMPTY_MEMORY, rows[1..]).recent;
      forall k | 0 <= k < |q| ensures SeededFrom(q[k], db, rows[|rows| - 1 - k]) {
        assert SeededFrom(q[k], db, rows[1..][|rows| - 2 - k]);
      }
      OneMoreFounder(db, FoundersSeeded(db, EMPTY_MEMORY, rows[1..]), rows[0], rows[1..]);
    }
  }

  lemma OneMoreFounder(db: Store, mem: Memory, id: int, rows: seq<int>)
    requires Consistent(db) && id in db.devices && db.devices[id].key.Canonical? && id !in rows
    requires |mem.recent| == |rows| &&
             forall k | 0 <= k < |rows| :: SeededFrom(mem.recent[k], db, rows[|rows| - 1 - k])
    ensures var q := FounderSeeded(db, mem, id).recent;
            |q| == |rows| + 1 && q[..|rows|] == mem.recent && SeededFrom(q[|rows|], db, id)
  {
    forall k | 0 <= k < |rows| ensures mem.recent[k].key != db.devices[id].key {
      assert SeededFrom(mem.recent[k], db, rows[|rows| - 1 - k]);
      assert rows[|rows| - 1 - k] in rows;
    }
  }

  /** The aliases seeded are those from some place in the list on: the window stops
      taking them exactly when it is full. */
  lemma {:induction false} LeftoverIsFilled(mem: Memory, seeds: seq<Candidate>, window: nat) returns (from: nat)
    ensures from <= |seeds|
    ensures var q := AliasesSeeded(mem, seeds, window).recent;
            && mem.recent <= q
            && (forall i | from <= i < |seeds| :: HasKey(q, seeds[i].key))
            && (forall j | |mem.recent| <= j < |q| :: q[j] in seeds[from..])
            && (from > 0 ==> |q| >= window)
  {
    if seeds == [] {
      from := 0;
    } else {
      var before := AliasesSeeded(mem, seeds[1..], window);
      var q := AliasesSeeded(mem, seeds, window).recent;
      var tail := LeftoverIsFilled(mem, seeds[1..], window);
      if |before.recent| >= window {
        from := tail + 1;
        assert seeds[from..] == seeds[1..][tail..];
      } else {
        from := 0;
        assert seeds[0..] == seeds && seeds == [seeds[0]] + seeds[1..] && seeds[1..][0..] == seeds[1..];
        if !HasKey(before.recent, seeds[0].key) { assert q[|before.recent|] == seeds[0]; }
        forall i | 0 <= i < |seeds| ensures HasKey(q, seeds[i].key) {
          if i > 0 {
            assert seeds[i] == seeds[1..][i - 1];
            PrefixKeepsKeys(before.recent, q, seeds[i].key);
          }
        }
      }
    }
  }

  /** c is one of the listed aliases of this device, at its own stored fingerprint. */
  ghost predicate AliasOf(c: Candidate, listing: seq<AliasRow>, owner: int) {
    && AliasRow(c.key, c.id) in listing && c.id == owner
    && c.key.Canonical? && c.fingerprint == c.key.fingerprint && c.addressType.None?
  }

  lemma {:induction false} SeedsOfExactly(listing: seq<AliasRow>, owner: int)
    ensures forall c :: c in SeedsOf(listing, owner) <==> AliasOf(c, listing, owner)
  {
    if listing == [] {
    } else {
      SeedsOfExactly(Front(listing), owner);
      assert listing == Front(listing) + [Last(listing)];
    }
  }

  /** The aliases seeded are exactly the readable ones listed for a device whose own
      founding key is readable. */
  lemma {:induction false} AliasSeedsExactly(db: Store, rows: seq<int>, listing: seq<AliasRow>, c: Candidate)
    requires forall i | 0 <= i < |rows| :: rows[i] in db.devices
    ensures c in AliasSeeds(db, rows, listing) <==>
            c.id in rows && db.devices[c.id].key.Canonical? && AliasOf(c, listing, c.id)
  {
    hide AliasOf, SeedsOf;
    if rows == [] {
    } else {
      AliasSeedsExactly(db, rows[1..], listing, c);
      SeedsOfExactly(listing, rows[0]);
      AliasOfOwner(c, listing, rows[0]);
      assert c.id in rows <==> c.id == rows[0] || c.id in rows[1..];
    }
  }

  lemma AliasOfOwner(c: Candidate, listing: seq<AliasRow>, owner: int)
    ensures AliasOf(c, listing, owner) ==> c.id == owner
  {}

  /** Every seeded alias is cached unless the cache is full. */
  lemma {:induction false} AliasesAreCached(mem: Memory, seeds: seq<Candidate>, window: nat)
    ensures var m := AliasesSeeded(mem, seeds, window);
            && |mem.cache| <= |m.cache|
            && (|m.cache| >= 100_000 || forall i | 0 <= i < |seeds| :: seeds[i].key in m.cache)
  {
    if seeds == [] {
    } else {
      AliasesAreCached(mem, seeds[1..], window);
      var before, m := AliasesSeeded(mem, seeds[1..], window), AliasesSeeded(mem, seeds, window);
      forall i | 0 <= i < |seeds| && seeds[1..] != [] && i > 0 ensures seeds[i] == seeds[1..][i - 1] {}
    }
  }
}
