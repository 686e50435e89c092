/** Why the keys of one device belong together: every key the resolver fused was
    justified against an earlier key of the same device. */
module ResolverKinship {
  import opened Orders
  import opened Features
  import opened Fusion
  import opened Tables
  import opened Resolutions
  import opened ResolverRuns

  /** One fusion: a sighting, and the candidate that won it. */
  datatype Link = Link(sighting: Sighting, against: Candidate)
  {
    function Key(): Key { KeyOf(sighting) }

    ghost predicate IsJustified() {
      Justified(FromAdvertisement(sighting), against.fingerprint, sighting.addressType, against.addressType)
    }
  }

  ghost function Candidates(mem: Memory): seq<Candidate> { mem.recent + mem.pendingRecent }

  /** No key, no alias, but a winning candidate. */
  ghost predicate Fuses(s: Site, ad: Sighting, minScore: int) {
    Known(s.mem, KeyOf(ad)).None? && FounderOf(s.db, KeyOf(ad)).None? && AliasOwner(s.db, KeyOf(ad)).None? &&
    Fused(s.mem, ad, minScore).Some?
  }

  ghost predicate WinsFor(s: Site, ad: Sighting, minScore: int, i: int) {
    Wins(FromAdvertisement(ad), ad.addressType, Candidates(s.mem), minScore, i)
  }

  lemma SomebodyWins(s: Site, ad: Sighting, minScore: int)
    requires Fused(s.mem, ad, minScore).Some?
    ensures exists i :: WinsFor(s, ad, minScore, i)
  {
    hide Wins;
    var f, q := FromAdvertisement(ad), Candidates(s.mem);
    BestIsCandidate(f, ad.addressType, q, minScore);
    var i :| Wins(f, ad.addressType, q, minScore, i);
    assert WinsFor(s, ad, minScore, i);
  }

  ghost function LinksOf(s: Site, ad: Sighting, minScore: int): seq<Link> {
    if Fuses(s, ad, minScore) then
      SomebodyWins(s, ad, minScore);
      var i :| WinsFor(s, ad, minScore, i);
      [Link(ad, Candidates(s.mem)[i])]
    else []
  }

  ghost function LinksOfAll(s: Site, ads: seq<Sighting>, minScore: int): seq<Link> {
    if ads == [] then []
    else LinksOfAll(s, Front(ads), minScore) + LinksOf(ResolvedAll(s, Front(ads), minScore), Last(ads), minScore)
  }

  /** The fusions of a run's committed cycles, oldest first. */
  ghost function Links(db: Store, ops: seq<Op>, minScore: int, window: nat): seq<Link> {
    if ops == [] then []
    else
      Links(db, Front(ops), minScore, window) +
      match Last(ops)
      case Seed(_, _) => []
      case Cycle(ads, commits) =>
        if commits then LinksOfAll(After(db, Front(ops), minScore, window), ads, minScore) else []
  }

  /** Link i fused this key to this device. */
  ghost predicate Fusing(links: seq<Link>, i: int, key: Key, id: int) {
    0 <= i < |links| && links[i].Key() == key && links[i].against.id == id
  }

  /** The key founded the device, was its alias from the start, or was fused to it. */
  ghost predicate Traced(base: Store, db: Store, links: seq<Link>, key: Key, id: int) {
    Founds(db, id, key) || Aliased(base, key, id) || exists i :: Fusing(links, i, key, id)
  }

  /** Every fusion was justified against a key already traced to the same device. */
  ghost predicate Rooted(base: Store, db: Store, links: seq<Link>) {
    forall i | 0 <= i < |links| :: RootedAt(base, db, links, i)
  }

  ghost predicate RootedAt(base: Store, db: Store, links: seq<Link>, i: nat)
    requires i < |links|
  {
    links[i].IsJustified() && Traced(base, db, links[..i], links[i].against.key, links[i].against.id)
  }

  ghost predicate Lists(q: seq<Candidate>, key: Key, id: int) { exists c :: c in q && c.key == key && c.id == id }

  /** The memory or the tables connect this key to this device. */
  ghost predicate Holds(s: Site, key: Key, id: int) {
    || (key in s.mem.cache && s.mem.cache[key] == id)
    || (key in s.mem.pending && s.mem.pending[key] == id)
    || Lists(s.mem.recent, key, id) || Lists(s.mem.pendingRecent, key, id)
    || Binds(s.db, key, id)
  }

  ghost predicate Kin(base: Store, s: Site, links: seq<Link>) {
    && Rooted(base, s.db, links)
    && forall key, id | Holds(s, key, id) :: Traced(base, s.db, links, key, id)
  }

  // ------------------------------------------------------------- one sighting

  ghost predicate FoundsKept(db: Store, after: Store) {
    forall id, key | Founds(db, id, key) :: Founds(after, id, key)
  }

  lemma TracedOn(base: Store, db: Store, after: Store, links: seq<Link>, more: seq<Link>, key: Key, id: int)
    requires FoundsKept(db, after) && Traced(base, db, links, key, id)
    ensures Traced(base, after, links + more, key, id)
  {
    if i :| Fusing(links, i, key, id) { assert Fusing(links + more, i, key, id); }
  }

  lemma RootedOn(base: Store, db: Store, after: Store, links: seq<Link>)
    requires FoundsKept(db, after) && Rooted(base, db, links)
    ensures Rooted(base, after, links)
  {
    hide Traced, FoundsKept;
    forall i | 0 <= i < |links| ensures RootedAt(base, after, links, i) {
      assert RootedAt(base, db, links, i);
      TracedOn(base, db, after, links[..i], [], links[i].against.key, links[i].against.id);
      assert links[..i] + [] == links[..i];
    }
  }

  lemma RootedStep(base: Store, db: Store, links: seq<Link>, link: Link)
    requires Rooted(base, db, links) && link.IsJustified()
    requires Traced(base, db, links, link.against.key, link.against.id)
    ensures Rooted(base, db, links + [link])
  {
    hide Traced;
    var all := links + [link];
    forall i | 0 <= i < |all| ensures RootedAt(base, db, all, i) {
      if i < |links| {
        assert RootedAt(base, db, links, i) && all[..i] == links[..i];
      } else {
        assert all[..i] == links;
      }
    }
  }

  /** A sighting founds or binds nothing but its own key, and unfounds none. */
  lemma ResolvedGrows(s: Site, ad: Sighting, minScore: int)
    requires Agrees(s)
    ensures var after := Resolved(s, ad, minScore).db;
            && FoundsKept(s.db, after)
            && forall k, o | Binds(after, k, o) ::
                 Binds(s.db, k, o) || (k == KeyOf(ad) && o == Identified(s, ad, minScore))
  {
    hide Agrees, Consistent, KeyOf, Fused, Known, FounderOf, AliasOwner, Bound, TouchedIf, Created, Binds, FoundsKept;
    AgreesIsConsistent(s);
    var key, id := KeyOf(ad), Identified(s, ad, minScore);
    TouchedBinds(s.db, id, ad.address);
    TouchedFounds(s.db, id, ad.address);
    BoundFounds(TouchedIf(s.db, id, ad.address), key, id);
    CreatedFounds(s.db, NewDevice(key, ad.address));
    SameFounds(s.db);
    KeptChain(s.db, TouchedIf(s.db, id, ad.address), Bound(TouchedIf(s.db, id, ad.address), key, id));
  }

  lemma SameFounds(db: Store)
    ensures FoundsKept(db, db)
  {}

  lemma KeptChain(a: Store, b: Store, c: Store)
    requires FoundsKept(a, b) && FoundsKept(b, c)
    ensures FoundsKept(a, c)
  {}

  lemma TouchedFounds(db: Store, id: int, address: string)
    ensures FoundsKept(db, TouchedIf(db, id, address))
  {}

  lemma BoundFounds(db: Store, key: Key, id: int)
    ensures FoundsKept(db, Bound(db, key, id))
    ensures forall k, o | Binds(Bound(db, key, id), k, o) :: Binds(db, k, o) || (k == key && o == id)
  {
    CappedWithin(db.aliases + [AliasRow(key, id)], {id});
  }

  lemma {:induction false} CappedWithin(aliases: seq<AliasRow>, owners: set<int>)
    ensures forall a | a in Capped(aliases, owners) :: a in aliases
  {
    if aliases == [] {
    } else {
      CappedWithin(aliases[1..], owners);
    }
  }

  lemma CreatedFounds(db: Store, device: Device)
    requires Consistent(db)
    ensures FoundsKept(db, Created(db, device))
    ensures forall k, o | Binds(Created(db, device), k, o) :: Binds(db, k, o) || (k == device.key && o == db.nextId)
  {}

  /** A sighting connects nothing anew but its own key, to the device it resolves to. */
  lemma ResolvedHolds(s: Site, ad: Sighting, minScore: int, k: Key, o: int)
    requires Agrees(s) && Holds(Resolved(s, ad, minScore), k, o)
    ensures Holds(s, k, o) || (k == KeyOf(ad) && o == Identified(s, ad, minScore))
  {
    hide Agrees, Consistent, KeyOf, Fused, FounderOf, AliasOwner;
    hide Bound, TouchedIf, Created, Binds, FoundsKept, MoveToEnd;
    ResolvedGrows(s, ad, minScore);
    AgreesIsUnique(s);
    MoveToEndKeeps(s.mem.recent, KeyOf(ad));
  }

  lemma AgreesIsUnique(s: Site)
    requires Agrees(s)
    ensures OneEntryAKey(s.mem.recent)
  {}

  /** The sighting's own key is traced to that device afterwards. */
  lemma OwnKeyTraced(base: Store, s: Site, ad: Sighting, minScore: int, links: seq<Link>)
    requires Agrees(s) && Kin(base, s, links)
    ensures var t := Resolved(s, ad, minScore);
            Traced(base, t.db, links + LinksOf(s, ad, minScore), KeyOf(ad), Identified(s, ad, minScore))
  {
    hide Agrees, Consistent, KeyOf, Fused, Bound, TouchedIf, FoundsKept, Rooted, WinsFor, MoveToEnd, Traced;
    var t, key, id := Resolved(s, ad, minScore), KeyOf(ad), Identified(s, ad, minScore);
    var more := LinksOf(s, ad, minScore);
    ResolvedGrows(s, ad, minScore);
    if Fuses(s, ad, minScore) {
      LinkFuses(s, ad, minScore);
      assert Fusing(links + more, |links|, key, id);
      FusedIsTraced(base, t.db, links + more, |links|, key, id);
    } else if Holds(s, key, id) {
      TracedOn(base, s.db, t.db, links, more, key, id);
    } else {
      FounderIsTraced(base, t.db, links + more, key, id);
    }
  }

  lemma FusedIsTraced(base: Store, db: Store, links: seq<Link>, i: int, key: Key, id: int)
    requires Fusing(links, i, key, id)
    ensures Traced(base, db, links, key, id)
  {}

  lemma FounderIsTraced(base: Store, db: Store, links: seq<Link>, key: Key, id: int)
    requires Founds(db, id, key)
    ensures Traced(base, db, links, key, id)
  {}

  /** The link of a fusing sighting is justified and its candidate was listed. */
  lemma LinkFuses(s: Site, ad: Sighting, minScore: int)
    requires Fuses(s, ad, minScore)
    ensures var more := LinksOf(s, ad, minScore);
            && |more| == 1 && more[0].sighting == ad && more[0].against in Candidates(s.mem)
            && more[0].against.id == Identified(s, ad, minScore)
            && (minScore > COMPANY_ONLY_WEIGHT ==> more[0].IsJustified())
  {
    hide FusionScore, Justified, Known, FounderOf, AliasOwner;
    var more := LinksOf(s, ad, minScore);
    SomebodyWins(s, ad, minScore);
    var i :| WinsFor(s, ad, minScore, i) && more == [Link(ad, Candidates(s.mem)[i])];
    if minScore > COMPANY_ONLY_WEIGHT {
      WinnerIsJustified(FromAdvertisement(ad), ad.addressType, Candidates(s.mem), minScore, i);
    }
  }

  lemma CandidateHeld(s: Site, c: Candidate)
    requires c in Candidates(s.mem)
    ensures Holds(s, c.key, c.id)
  {
    assert c in s.mem.recent || c in s.mem.pendingRecent;
  }

  /** One sighting keeps the kinship, with its link if it fused. */
  lemma ResolvedKin(base: Store, s: Site, ad: Sighting, minScore: int, links: seq<Link>)
    requires Agrees(s) && Kin(base, s, links) && minScore > COMPANY_ONLY_WEIGHT
    ensures Kin(base, Resolved(s, ad, minScore), links + LinksOf(s, ad, minScore))
  {
    hide Agrees, Holds, Traced, Rooted, Resolved, LinksOf, Identified, FoundsKept, Fuses, Justified, Candidates;
    var t, more := Resolved(s, ad, minScore), LinksOf(s, ad, minScore);
    ResolvedGrows(s, ad, minScore);
    RootedOn(base, s.db, t.db, links);
    if Fuses(s, ad, minScore) {
      LinkFuses(s, ad, minScore);
      CandidateHeld(s, more[0].against);
      TracedOn(base, s.db, t.db, links, [], more[0].against.key, more[0].against.id);
      assert links + [] == links;
      RootedStep(base, t.db, links, more[0]);
      assert more == [more[0]];
    } else {
      NoLinks(s, ad, minScore);
      assert links + more == links;
    }
    OwnKeyTraced(base, s, ad, minScore, links);
    forall k, o | Holds(t, k, o) ensures Traced(base, t.db, links + more, k, o) {
      ResolvedHolds(s, ad, minScore, k, o);
      if Holds(s, k, o) { TracedOn(base, s.db, t.db, links, more, k, o); }
    }
  }

  lemma NoLinks(s: Site, ad: Sighting, minScore: int)
    requires !Fuses(s, ad, minScore)
    ensures LinksOf(s, ad, minScore) == []
  {}

  // ---------------------------------------------------------------- whole runs

  lemma {:induction false} ResolvedAllKin(base: Store, s: Site, ads: seq<Sighting>, minScore: int, links: seq<Link>)
    requires Agrees(s) && Kin(base, s, links) && minScore > COMPANY_ONLY_WEIGHT
    ensures Kin(base, ResolvedAll(s, ads, minScore), links + LinksOfAll(s, ads, minScore))
  {
    hide Agrees, Kin, Resolved, LinksOf;
    if ads == [] {
      assert links + LinksOfAll(s, ads, minScore) == links;
    } else {
      var p := Front(ads);
      ResolvedAllKin(base, s, p, minScore, links);
      ResolveAllAgrees(s, p, minScore);
      var t, more := ResolvedAll(s, p, minScore), LinksOf(ResolvedAll(s, p, minScore), Last(ads), minScore);
      ResolvedKin(base, t, Last(ads), minScore, links + LinksOfAll(s, p, minScore));
      assert links + LinksOfAll(s, p, minScore) + more == links + LinksOfAll(s, ads, minScore);
    }
  }

  /** A site that holds no more over the same founding keys has the same kinship. */
  lemma FewerKin(base: Store, s: Site, t: Site, links: seq<Link>)
    requires Kin(base, s, links) && FoundsKept(s.db, t.db)
    requires forall k, o | Holds(t, k, o) :: Holds(s, k, o)
    ensures Kin(base, t, links)
  {
    hide Holds, Traced, Rooted, FoundsKept;
    RootedOn(base, s.db, t.db, links);
    forall k, o | Holds(t, k, o) ensures Traced(base, t.db, links, k, o) {
      TracedOn(base, s.db, t.db, links, [], k, o);
      assert links + [] == links;
    }
  }

  lemma CommittedHolds(s: Site, window: nat, k: Key, o: int)
    requires Agrees(s) && Holds(Site(s.db, Committed(s.mem, window)), k, o)
    ensures Holds(s, k, o)
  {
    hide Consistent, Binds, Fits, RecentFits, PutAll, Tail;
    PutAllMembers(s.mem.recent, s.mem.pendingRecent);
    TailUnique(PutAll(s.mem.recent, s.mem.pendingRecent), window);
  }

  lemma AbortedHolds(s: Site, m: Memory, k: Key, o: int)
    requires SameMemory(s.mem, m) && Holds(Site(s.db, Aborted(m)), k, o)
    ensures Holds(s, k, o)
  {
    hide Binds;
  }

  lemma CycleKin(base: Store, s: Site, ads: seq<Sighting>, commits: bool, minScore: int, window: nat, links: seq<Link>)
    requires Agrees(s) && Kin(base, s, links) && minScore > COMPANY_ONLY_WEIGHT
    ensures Kin(base, Cycled(s, ads, commits, minScore, window),
                links + if commits then LinksOfAll(s, ads, minScore) else [])
  {
    hide Agrees, Kin, Holds, Committed, Aborted, SameMemory, LinksOfAll, FoundsKept;
    var t := ResolvedAll(s, ads, minScore);
    ResolveAllAgrees(s, ads, minScore);
    var after := Cycled(s, ads, commits, minScore, window);
    if commits {
      ResolvedAllKin(base, s, ads, minScore, links);
      forall k, o | Holds(after, k, o) ensures Holds(t, k, o) { CommittedHolds(t, window, k, o); }
      SameFounds(t.db);
      FewerKin(base, t, after, links + LinksOfAll(s, ads, minScore));
    } else {
      forall k, o | Holds(after, k, o) ensures Holds(s, k, o) { AbortedHolds(s, t.mem, k, o); }
      SameFounds(s.db);
      FewerKin(base, s, after, links);
      assert links + [] == links;
    }
  }

  lemma AssignWithin(q: seq<Candidate>, c: Candidate)
    ensures forall e | e in Assign(q, c) :: e == c || e in q
  {}

  lemma FounderSeedHolds(db: Store, mem: Memory, id: int, k: Key, o: int)
    requires id in db.devices && Holds(Site(db, FounderSeeded(db, mem, id)), k, o)
    ensures Holds(Site(db, mem), k, o)
  {
    hide Assign;
    var d := db.devices[id];
    var f := FromStored(d.key, d.address);
    if f.Some? { AssignWithin(mem.recent, Candidate(d.key, f.value, None, id)); }
    assert Founds(db, id, d.key);
  }

  lemma {:induction false} FounderSeedsHold(db: Store, mem: Memory, rows: seq<int>, k: Key, o: int)
    requires forall i | 0 <= i < |rows| :: rows[i] in db.devices
    requires Holds(Site(db, FoundersSeeded(db, mem, rows)), k, o)
    ensures Holds(Site(db, mem), k, o)
  {
    hide Holds, FounderSeeded;
    if rows == [] {
    } else {
      FounderSeedHolds(db, FoundersSeeded(db, mem, rows[1..]), rows[0], k, o);
      FounderSeedsHold(db, mem, rows[1..], k, o);
    }
  }

  lemma AliasSeedHolds(db: Store, mem: Memory, c: Candidate, window: nat, k: Key, o: int)
    requires Aliased(db, c.key, c.id) && Holds(Site(db, AliasSeeded(mem, c, window)), k, o)
    ensures Holds(Site(db, mem), k, o)
  {
    hide Founds, Aliased;
    assert Binds(db, c.key, c.id);
  }

  lemma {:induction false} AliasSeedsHold(db: Store, mem: Memory, seeds: seq<Candidate>, window: nat, k: Key, o: int)
    requires forall i | 0 <= i < |seeds| :: Aliased(db, seeds[i].key, seeds[i].id)
    requires Holds(Site(db, AliasesSeeded(mem, seeds, window)), k, o)
    ensures Holds(Site(db, mem), k, o)
  {
    hide Holds, AliasSeeded;
    if seeds == [] {
    } else {
      AliasSeedHolds(db, AliasesSeeded(mem, seeds[1..], window), seeds[0], window, k, o);
      AliasSeedsHold(db, mem, seeds[1..], window, k, o);
    }
  }

  lemma SweptHolds(s: Site, k: Key, o: int)
    requires Consistent(s.db) && Holds(Site(Swept(s.db), s.mem), k, o)
    ensures Holds(s, k, o)
  {
    hide Binds, Consistent;
    SweptIsCapped(s.db);
  }

  lemma SweptFounds(db: Store)
    ensures FoundsKept(db, Swept(db))
  {}

  lemma SeedKin(base: Store, s: Site, rows: seq<int>, listing: seq<AliasRow>, window: nat, links: seq<Link>)
    requires Agrees(s) && Kin(base, s, links) && Listed(Swept(s.db), rows, listing, window)
    ensures Kin(base, Seeded(s, rows, listing, window), links)
  {
    hide Agrees, Kin, Holds, Consistent, Swept, AliasSeeds, FoundsKept, FoundersSeeded, AliasesSeeded;
    AgreesIsConsistent(s);
    var db, after := Swept(s.db), Seeded(s, rows, listing, window);
    AliasSeedsAreListed(db, rows, listing);
    var seeds := AliasSeeds(db, rows, listing);
    forall i | 0 <= i < |seeds| ensures Aliased(db, seeds[i].key, seeds[i].id) { assert seeds[i] in seeds; }
    forall k, o | Holds(after, k, o) ensures Holds(s, k, o) {
      AliasSeedsHold(db, FoundersSeeded(db, s.mem, rows), seeds, window, k, o);
      FounderSeedsHold(db, s.mem, rows, k, o);
      SweptHolds(s, k, o);
    }
    SweptFounds(s.db);
    FewerKin(base, s, after, links);
  }

  lemma {:induction false} AlwaysKin(db: Store, ops: seq<Op>, minScore: int, window: nat)
    requires Consistent(db) && minScore > COMPANY_ONLY_WEIGHT
    ensures Kin(db, After(db, ops, minScore, window), Links(db, ops, minScore, window))
  {
    hide Kin, Seeded, Cycled, Listed, LinksOfAll, Consistent, Agrees;
    if ops == [] {
      KinAtBoot(db);
    } else {
      var p := Front(ops);
      AlwaysKin(db, p, minScore, window);
      AlwaysAgrees(db, p, minScore, window);
      var s, links := After(db, p, minScore, window), Links(db, p, minScore, window);
      assert links + [] == links;
      match Last(ops)
      case Seed(rows, listing) =>
        if Listed(Swept(s.db), rows, listing, window) { SeedKin(db, s, rows, listing, window, links); }
      case Cycle(ads, commits) => CycleKin(db, s, ads, commits, minScore, window, links);
    }
  }

  lemma KinAtBoot(db: Store)
    ensures Kin(db, Site(db, EMPTY_MEMORY), [])
  {}

  /** Every alias a run has bound was justified, when it was bound, against a key
      of the same device; and every fusion of the run was. */
  lemma AliasesAreJustified(db: Store, ops: seq<Op>, minScore: int, window: nat, key: Key, owner: int)
    requires Consistent(db) && minScore > COMPANY_ONLY_WEIGHT
    requires Aliased(After(db, ops, minScore, window).db, key, owner)
    ensures var s, links := After(db, ops, minScore, window), Links(db, ops, minScore, window);
            && Rooted(db, s.db, links)
            && (Aliased(db, key, owner) || exists i :: Fusing(links, i, key, owner))
  {
    hide After, Links, Rooted, Agrees;
    AlwaysKin(db, ops, minScore, window);
    AlwaysAgrees(db, ops, minScore, window);
    var s := After(db, ops, minScore, window);
    assert Holds(s, key, owner);
    AliasIsNoFounder(s, key, owner);
  }

  lemma AliasIsNoFounder(s: Site, key: Key, owner: int)
    requires Agrees(s) && Aliased(s.db, key, owner)
    ensures !Founds(s.db, owner, key)
  {}

  /** From link path[0] down to a root: each link was justified against the key of
      the next, all of one device, and the last against a founding key or an
      alias that was there from the start. */
  ghost predicate Chain(base: Store, db: Store, links: seq<Link>, path: seq<nat>) {
    && path != []
    && (forall j | 0 <= j < |path| :: path[j] < |links| && links[path[j]].IsJustified())
    && (forall j | 0 < j < |path| ::
          path[j] < path[j - 1] &&
          Fusing(links, path[j], links[path[j - 1]].against.key, links[path[j - 1]].against.id))
    && var root := links[Last(path)].against;
       Founds(db, root.id, root.key) || Aliased(base, root.key, root.id)
  }

  /** Every fused key is linked to a root of its device by a chain of justified
      pairs, none of them vetoed: stable twins meet only across such links. */
  lemma {:induction false} ChainToRoot(base: Store, db: Store, links: seq<Link>, i: nat) returns (path: seq<nat>)
    requires Rooted(base, db, links) && i < |links|
    ensures Chain(base, db, links, path) && path[0] == i
    decreases i
  {
    hide Justified;
    assert RootedAt(base, db, links, i);
    var c := links[i].against;
    if Founds(db, c.id, c.key) || Aliased(base, c.key, c.id) {
      path := [i];
    } else {
      var k :| Fusing(links[..i], k, c.key, c.id);
      assert Fusing(links, k, c.key, c.id);
      var rest := ChainToRoot(base, db, links, k);
      path := [i] + rest;
      assert Last(path) == Last(rest);
      forall j | 0 < j < |path|
        ensures path[j] < path[j - 1]
        ensures Fusing(links, path[j], links[path[j - 1]].against.key, links[path[j - 1]].against.id)
      {
        assert path[j] == rest[j - 1] && (j > 1 ==> path[j - 1] == rest[j - 2]);
      }
    }
  }

  // -------------------------------------------------------------- twins that meet

  /** A product with one service and one payload, at some address. */
  function Sensor(address: string, addressType: Option<string>): Sighting {
    Sighting(address, addressType, None, ["u"], map["1" := "00"])
  }

  const TWIN_A: Sighting := Sensor("A", Some("public"))

  const TWIN_B: Sighting := Sensor("B", Some("public"))

  const ROTATED: Sighting := Sensor("R", None)

  const EMPTY_STORE := Store(map[], [], 1)

  lemma SensorScores()
    ensures var a, b, r := FromAdvertisement(TWIN_A), FromAdvertisement(TWIN_B), FromAdvertisement(ROTATED);
            && FusionScore(r, a, None, Some("public")) == 75
            && FusionScore(b, a, Some("public"), Some("public")) == 0
            && FusionScore(b, r, Some("public"), None) == 75
    ensures KeyOf(TWIN_A) != KeyOf(TWIN_B) && KeyOf(TWIN_A) != KeyOf(ROTATED) && KeyOf(TWIN_B) != KeyOf(ROTATED)
  {
    assert "A"[0] != "B"[0] && "A"[0] != "R"[0] && "B"[0] != "R"[0];
    assert |"1"| != |APPLE_COMPANY|;
    SensorShape("A", Some("public"));
    SensorShape("B", Some("public"));
    SensorShape("R", None);
  }

  lemma SensorShape(address: string, addressType: Option<string>)
    ensures var f := FromAdvertisement(Sensor(address, addressType));
            && f == Fingerprint(Some(address), {"u"}, map["1" := "00"], None)
            && f.serviceUuids != {} && f.manufacturerData != map[] && HapDeviceId(f).None?
  {
    assert "u" in {"u"} && "1" in map["1" := "00"];
    assert |"1"| != |APPLE_COMPANY|;
  }

  lemma WinnerIs(f: Fingerprint, aType: Option<string>, q: seq<Candidate>, minScore: int, i: int)
    requires Wins(f, aType, q, minScore, i)
    ensures Best(f, aType, q, minScore) == Some(q[i].id)
  {
    hide FusionScore;
  }

  /** The first twin founds device 1. */
  lemma FirstTwin()
    ensures var s := Site(EMPTY_STORE, EMPTY_MEMORY);
            && Identified(s, TWIN_A, 55) == 1
            && Resolved(s, TWIN_A, 55) == OneTwin()
  {
    hide KeyOf, FusionScore;
  }

  ghost function OneTwin(): Site {
    Site(Created(EMPTY_STORE, NewDevice(KeyOf(TWIN_A), "A")), Staged(EMPTY_MEMORY, CandidateOf(TWIN_A, 1), false))
  }

  ghost function TwinAndRotation(): Site {
    Site(Bound(Touched(OneTwin().db, 1, "R"), KeyOf(ROTATED), 1), Staged(OneTwin().mem, CandidateOf(ROTATED, 1), true))
  }

  /** The rotated sighting fuses with it. */
  lemma RotationFuses()
    ensures Identified(OneTwin(), ROTATED, 55) == 1 && Resolved(OneTwin(), ROTATED, 55) == TwinAndRotation()
  {
    hide FusionScore, KeyOf, FromAdvertisement, Bound;
    SensorScores();
    var q := Candidates(OneTwin().mem);
    assert q == [CandidateOf(TWIN_A, 1)];
    assert Wins(FromAdvertisement(ROTATED), None, q, 55, 0);
    WinnerIs(FromAdvertisement(ROTATED), None, q, 55, 0);
  }

  lemma RotationBinds()
    ensures var db := TwinAndRotation().db;
            forall k, o | Binds(db, k, o) :: k == KeyOf(TWIN_A) || k == KeyOf(ROTATED)
  {
    hide KeyOf;
    CappedWithin([AliasRow(KeyOf(ROTATED), 1)], {1});
    assert [] + [AliasRow(KeyOf(ROTATED), 1)] == [AliasRow(KeyOf(ROTATED), 1)];
  }

  /** And the second twin, vetoed by the first, fuses with the rotated sighting. */
  lemma SecondTwinFuses()
    ensures Identified(TwinAndRotation(), TWIN_B, 55) == 1
  {
    hide FusionScore, KeyOf, FromAdvertisement, Bound, Binds;
    SensorScores();
    RotationBinds();
    var q := Candidates(TwinAndRotation().mem);
    assert q == [CandidateOf(TWIN_A, 1), CandidateOf(ROTATED, 1)];
    assert Wins(FromAdvertisement(TWIN_B), Some("public"), q, 55, 1);
    WinnerIs(FromAdvertisement(TWIN_B), Some("public"), q, 55, 1);
    NobodyBound(TwinAndRotation().db, KeyOf(TWIN_B));
  }

  lemma NobodyBound(db: Store, key: Key)
    requires forall o :: !Binds(db, key, o)
    ensures FounderOf(db, key).None? && AliasOwner(db, key).None?
  {
    forall o ensures !Founds(db, o, key) && !Aliased(db, key, o) { assert !Binds(db, key, o); }
  }

  /** So two stable twins can meet in one cycle through one sighting of unknown
      provenance: all three resolve to one device. */
  lemma TwinsMeet()
    ensures var s, ads := Site(EMPTY_STORE, EMPTY_MEMORY), [TWIN_A, ROTATED, TWIN_B];
            forall k | 0 <= k < 3 :: Identified(ResolvedAll(s, ads[..k], 55), ads[k], 55) == 1
  {
    hide Identified, Resolved;
    FirstTwin();
    RotationFuses();
    SecondTwinFuses();
    var s, ads := Site(EMPTY_STORE, EMPTY_MEMORY), [TWIN_A, ROTATED, TWIN_B];
    assert Front(ads[..1]) == [] && Front(ads[..2]) == ads[..1];
    assert ResolvedAll(s, ads[..0], 55) == s && ResolvedAll(s, ads[..1], 55) == OneTwin();
    assert ResolvedAll(s, ads[..2], 55) == TwinAndRotation();
    forall k | 0 <= k < 3 ensures Identified(ResolvedAll(s, ads[..k], 55), ads[k], 55) == 1 {
      assert k == 0 || k == 1 || k == 2;
    }
  }
}
