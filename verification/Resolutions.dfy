/** resolver.py: the resolver's memory beside the tables, as values. */
module Resolutions {
  import opened Orders
  import opened Features
  import opened Fusion
  import opened Tables

  const MAX_KEY_CACHE := 100_000

  /** `recent` is the ordered window, oldest first, one entry a key. */
  datatype Memory = Memory(
    cache: map<Key, int>, aliasKeys: set<Key>, recent: seq<Candidate>,
    pending: map<Key, int>, pendingAliases: set<Key>, pendingRecent: seq<Candidate>)

  datatype Site = Site(db: Store, mem: Memory)

  const EMPTY_MEMORY := Memory(map[], {}, [], map[], {}, [])

  predicate HasKey(q: seq<Candidate>, key: Key) { exists i | 0 <= i < |q| :: q[i].key == key }

  function Without(q: seq<Candidate>, key: Key): seq<Candidate> {
    if q == [] then [] else Without(Front(q), key) + if Last(q).key == key then [] else [Last(q)]
  }

  function Matching(q: seq<Candidate>, key: Key): seq<Candidate> {
    if q == [] then [] else Matching(Front(q), key) + if Last(q).key == key then [Last(q)] else []
  }

  function MoveToEnd(q: seq<Candidate>, key: Key): seq<Candidate> { Without(q, key) + Matching(q, key) }

  /** q[key] = c, at the key's own place or else at the end. */
  function Assign(q: seq<Candidate>, c: Candidate): seq<Candidate> {
    if HasKey(q, c.key)
    then seq(|q|, i requires 0 <= i < |q| => if q[i].key == c.key then c else q[i])
    else q + [c]
  }

  /** q[key] = c; q.move_to_end(key). */
  function Put(q: seq<Candidate>, c: Candidate): seq<Candidate> { Without(q, c.key) + [c] }

  function PutAll(q: seq<Candidate>, more: seq<Candidate>): seq<Candidate> {
    if more == [] then q else Put(PutAll(q, Front(more)), Last(more))
  }

  ghost function Known(mem: Memory, key: Key): Option<int> {
    if key in mem.cache then Some(mem.cache[key])
    else if key in mem.pending then Some(mem.pending[key])
    else None
  }

  ghost function TouchedIf(db: Store, id: int, address: string): Store {
    if address != "" then Touched(db, id, address) else db
  }

  ghost function Staged(mem: Memory, c: Candidate, isAlias: bool): Memory {
    mem.(pending := mem.pending[c.key := c.id],
         pendingAliases := if isAlias then mem.pendingAliases + {c.key} else mem.pendingAliases,
         pendingRecent := mem.pendingRecent + [c])
  }

  function KeyOf(ad: Sighting): Key { Canonical(FromAdvertisement(ad)) }

  function CandidateOf(ad: Sighting, id: int): Candidate {
    Candidate(KeyOf(ad), FromAdvertisement(ad), ad.addressType, id)
  }

  ghost function Fused(mem: Memory, ad: Sighting, minScore: int): Option<int> {
    Best(FromAdvertisement(ad), ad.addressType, mem.recent + mem.pendingRecent, minScore)
  }

  /** Which device one sighting resolves to. */
  ghost function Identified(s: Site, ad: Sighting, minScore: int): int {
    var key := KeyOf(ad);
    if Known(s.mem, key).Some? then Known(s.mem, key).value
    else if FounderOf(s.db, key).Some? then FounderOf(s.db, key).value
    else if AliasOwner(s.db, key).Some? then AliasOwner(s.db, key).value
    else if Fused(s.mem, ad, minScore).Some? then Fused(s.mem, ad, minScore).value
    else s.db.nextId
  }

  /** The site after one sighting: cache, founding key, alias, fusion, creation. */
  ghost function Resolved(s: Site, ad: Sighting, minScore: int): Site {
    var key, id := KeyOf(ad), Identified(s, ad, minScore);
    var c := CandidateOf(ad, id);
    if Known(s.mem, key).Some? then
      Site(if key in s.mem.aliasKeys || key in s.mem.pendingAliases then TouchedIf(s.db, id, ad.address) else s.db,
           s.mem.(recent := MoveToEnd(s.mem.recent, key)))
    else if FounderOf(s.db, key).Some? then Site(s.db, Staged(s.mem, c, false))
    else if AliasOwner(s.db, key).Some? then Site(TouchedIf(s.db, id, ad.address), Staged(s.mem, c, true))
    else if Fused(s.mem, ad, minScore).Some? then
      Site(Bound(TouchedIf(s.db, id, ad.address), key, id), Staged(s.mem, c, true))
    else Site(Created(s.db, NewDevice(key, ad.address)), Staged(s.mem, c, false))
  }

  ghost function Aborted(mem: Memory): Memory { mem.(pending := map[], pendingAliases := {}, pendingRecent := []) }

  ghost function Committed(mem: Memory, window: nat): Memory {
    var clear := |mem.cache| + |mem.pending| > MAX_KEY_CACHE;
    Memory((if clear then map[] else mem.cache) + mem.pending,
           (if clear then {} else mem.aliasKeys) + mem.pendingAliases,
           Tail(PutAll(mem.recent, mem.pendingRecent), window), map[], {}, [])
  }

  /** One founding key at boot. */
  ghost function FounderSeeded(db: Store, mem: Memory, id: int): Memory
    requires id in db.devices
  {
    var d := db.devices[id];
    var f := FromStored(d.key, d.address);
    if f.None? then mem
    else mem.(cache := if |mem.cache| < MAX_KEY_CACHE then mem.cache[d.key := id] else mem.cache,
              recent := Assign(mem.recent, Candidate(d.key, f.value, None, id)))
  }

  /** Rows come newest first and are seeded oldest first. */
  ghost function FoundersSeeded(db: Store, mem: Memory, rows: seq<int>): Memory
    requires forall i | 0 <= i < |rows| :: rows[i] in db.devices
  {
    if rows == [] then mem else FounderSeeded(db, FoundersSeeded(db, mem, rows[1..]), rows[0])
  }

  ghost function AliasSeeded(mem: Memory, c: Candidate, window: nat): Memory {
    var room := c.key !in mem.cache && |mem.cache| < MAX_KEY_CACHE;
    mem.(cache := if room then mem.cache[c.key := c.id] else mem.cache,
         aliasKeys := if room then mem.aliasKeys + {c.key} else mem.aliasKeys,
         recent := if |mem.recent| >= window || HasKey(mem.recent, c.key) then mem.recent else mem.recent + [c])
  }

  ghost function AliasesSeeded(mem: Memory, seeds: seq<Candidate>, window: nat): Memory {
    if seeds == [] then mem else AliasSeeded(AliasesSeeded(mem, seeds[1..], window), seeds[0], window)
  }

  function SeedsOf(listing: seq<AliasRow>, owner: int): seq<Candidate> {
    if listing == [] then []
    else
      var row, f := Last(listing), FromStored(Last(listing).key);
      SeedsOf(Front(listing), owner) +
      if row.owner == owner && f.Some? then [Candidate(row.key, f.value, None, owner)] else []
  }

  ghost function AliasSeeds(db: Store, rows: seq<int>, listing: seq<AliasRow>): seq<Candidate>
    requires forall i | 0 <= i < |rows| :: rows[i] in db.devices
  {
    if rows == [] then []
    else
      AliasSeeds(db, rows[1..], listing) +
      if FromStored(db.devices[rows[0]].key).Some? then SeedsOf(listing, rows[0]) else []
  }

  /** What the two clock-ordered queries of seed may return. */
  ghost predicate Listed(db: Store, rows: seq<int>, listing: seq<AliasRow>, window: nat) {
    && |rows| <= window
    && (forall i | 0 <= i < |rows| :: rows[i] in db.devices)
    && (forall a | a in listing :: a in db.aliases && a.owner in rows)
  }

  ghost function Seeded(s: Site, rows: seq<int>, listing: seq<AliasRow>, window: nat): Site
    requires Listed(Swept(s.db), rows, listing, window)
  {
    var db := Swept(s.db);
    Site(db, AliasesSeeded(FoundersSeeded(db, s.mem, rows), AliasSeeds(db, rows, listing), window))
  }

  ghost function ResolvedAll(s: Site, ads: seq<Sighting>, minScore: int): Site {
    if ads == [] then s else Resolved(ResolvedAll(s, Front(ads), minScore), Last(ads), minScore)
  }

  /** One scan cycle: the transaction commits and then the memory, or the
      transaction rolls back and the memory forgets what it staged. */
  ghost function Cycled(s: Site, ads: seq<Sighting>, commits: bool, minScore: int, window: nat): Site {
    var t := ResolvedAll(s, ads, minScore);
    if commits then Site(t.db, Committed(t.mem, window)) else Site(s.db, Aborted(t.mem))
  }

  // ------------------------------------------------------------ the invariant

  /** The device exists, and nobody else is bound to this key. */
  ghost predicate Fits(db: Store, key: Key, id: int) {
    id in db.devices && forall o | Binds(db, key, o) :: o == id
  }

  ghost predicate OneEntryAKey(q: seq<Candidate>) {
    forall i, j | 0 <= i < j < |q| :: q[i].key != q[j].key
  }

  ghost predicate RecentFits(s: Site, c: Candidate) {
    && c.id in s.db.devices
    && (c.key !in s.mem.pending ==> Fits(s.db, c.key, c.id))
    && (c.key in s.mem.cache ==> s.mem.cache[c.key] == c.id)
  }

  ghost predicate PendingAgrees(mem: Memory) {
    && (forall k | k in mem.pending :: k !in mem.cache && HasKey(mem.pendingRecent, k))
    && (forall c | c in mem.pendingRecent :: c.key in mem.pending && mem.pending[c.key] == c.id)
  }

  /** The memory agrees with the tables wherever the tables still bind the key. */
  ghost predicate Agrees(s: Site) {
    && Consistent(s.db)
    && (forall k | k in s.mem.cache :: Fits(s.db, k, s.mem.cache[k]))
    && (forall k | k in s.mem.pending :: Fits(s.db, k, s.mem.pending[k]))
    && (forall c | c in s.mem.recent :: RecentFits(s, c))
    && OneEntryAKey(s.mem.recent)
    && PendingAgrees(s.mem)
    && s.mem.aliasKeys <= s.mem.cache.Keys && s.mem.pendingAliases <= s.mem.pending.Keys
  }

  ghost predicate Idle(mem: Memory) { mem.pending == map[] && mem.pendingAliases == {} && mem.pendingRecent == [] }

  // --------------------------------------------------- the ordered dictionary

  ghost predicate SameEntries(p: seq<Candidate>, q: seq<Candidate>) { forall c :: c in p <==> c in q }

  lemma {:induction false} WithoutMembers(q: seq<Candidate>, key: Key)
    ensures forall c :: c in Without(q, key) <==> c in q && c.key != key
    ensures forall c :: c in Matching(q, key) <==> c in q && c.key == key
    ensures |Without(q, key)| + |Matching(q, key)| == |q|
  {
    if q == [] {
    } else {
      WithoutMembers(Front(q), key);
      assert q == Front(q) + [Last(q)];
    }
  }

  lemma AppendUnique(p: seq<Candidate>, c: Candidate)
    requires OneEntryAKey(p) && forall e | e in p :: e.key != c.key
    ensures OneEntryAKey(p + [c])
  {}

  lemma FrontUnique(q: seq<Candidate>)
    requires OneEntryAKey(q) && q != []
    ensures OneEntryAKey(Front(q)) && forall e | e in Front(q) :: e.key != Last(q).key
  {}

  lemma {:induction false} WithoutUnique(q: seq<Candidate>, key: Key)
    requires OneEntryAKey(q)
    ensures OneEntryAKey(Without(q, key))
    decreases |q|
  {
    if q != [] {
      FrontUnique(q);
      hide OneEntryAKey;
      WithoutUnique(Front(q), key);
      WithoutMembers(Front(q), key);
      AppendUnique(Without(Front(q), key), Last(q));
    } else {
      assert Without(q, key) == q;
    }
  }

  lemma {:induction false} MatchingUnique(q: seq<Candidate>, key: Key)
    requires OneEntryAKey(q)
    ensures |Matching(q, key)| <= 1
  {
    if q == [] {
    } else {
      FrontUnique(q);
      hide OneEntryAKey;
      MatchingUnique(Front(q), key);
      WithoutMembers(Front(q), key);
      var m := Matching(Front(q), key);
      assert |m| == 1 ==> m[0] in m;
    }
  }

  lemma MoveToEndKeeps(q: seq<Candidate>, key: Key)
    requires OneEntryAKey(q)
    ensures OneEntryAKey(MoveToEnd(q, key)) && SameEntries(MoveToEnd(q, key), q) && |MoveToEnd(q, key)| == |q|
  {
    hide Without, Matching;
    WithoutMembers(q, key);
    WithoutUnique(q, key);
    MatchingUnique(q, key);
    var p, m := Without(q, key), Matching(q, key);
    forall i | 0 <= i < |p| ensures p[i].key != key { assert p[i] in p; }
    forall i | 0 <= i < |m| ensures m[i].key == key { assert m[i] in m; }
  }

  lemma PutMembers(q: seq<Candidate>, c: Candidate)
    requires OneEntryAKey(q)
    ensures OneEntryAKey(Put(q, c))
    ensures forall e :: e in Put(q, c) <==> e == c || (e in q && e.key != c.key)
  {
    hide Without;
    WithoutMembers(q, c.key);
    WithoutUnique(q, c.key);
    var p := Without(q, c.key);
    forall i | 0 <= i < |p| ensures p[i].key != c.key { assert p[i] in p; }
  }

  lemma HasKeyStep(q: seq<Candidate>, key: Key)
    requires q != []
    ensures HasKey(q, key) <==> HasKey(Front(q), key) || Last(q).key == key
  {
    if i :| 0 <= i < |Front(q)| && Front(q)[i].key == key { assert q[i].key == key; }
  }

  lemma {:induction false} PutAllMembers(q: seq<Candidate>, more: seq<Candidate>)
    requires OneEntryAKey(q)
    ensures OneEntryAKey(PutAll(q, more))
    ensures forall e | e in PutAll(q, more) :: e in more || (e in q && !HasKey(more, e.key))
  {
    hide Put, HasKey, OneEntryAKey;
    if more == [] {
      NoKeys();
    } else {
      PutAllMembers(q, Front(more));
      PutMembers(PutAll(q, Front(more)), Last(more));
      forall e | e in PutAll(q, more) ensures e in more || (e in q && !HasKey(more, e.key)) {
        HasKeyStep(more, e.key);
      }
    }
  }

  lemma NoKeys()
    ensures forall key :: !HasKey([], key)
  {}

  lemma AssignMembers(q: seq<Candidate>, c: Candidate)
    requires OneEntryAKey(q)
    ensures OneEntryAKey(Assign(q, c))
    ensures forall e :: e in Assign(q, c) <==> e == c || (e in q && e.key != c.key)
  {
    var r := Assign(q, c);
    if HasKey(q, c.key) {
      forall e | e in q && e.key != c.key ensures e in r {
        var i :| 0 <= i < |q| && q[i] == e;
        assert r[i] == e;
      }
      var i :| 0 <= i < |q| && q[i].key == c.key;
      assert r[i] == c;
    }
  }

  // ------------------------------------------------------------- preservation

  lemma FitsGrows(db: Store, after: Store, key: Key, id: int, k: Key, x: int)
    requires Grows(db, after, key, id) && Fits(db, k, x) && (k == key ==> x == id)
    ensures Fits(after, k, x)
  {
    hide Binds;
  }

  /** Staging a newly identified key keeps the agreement. */
  lemma StageAgrees(s: Site, after: Store, c: Candidate, isAlias: bool)
    requires Agrees(s) && Consistent(after) && Grows(s.db, after, c.key, c.id)
    requires Known(s.mem, c.key).None? && forall o | Binds(s.db, c.key, o) :: o == c.id
    ensures Agrees(Site(after, Staged(s.mem, c, isAlias)))
  {
    hide Binds, Consistent;
    var t := Site(after, Staged(s.mem, c, isAlias));
    forall k | k in t.mem.cache ensures Fits(after, k, t.mem.cache[k]) {
      FitsGrows(s.db, after, c.key, c.id, k, t.mem.cache[k]);
    }
    forall k | k in t.mem.pending ensures Fits(after, k, t.mem.pending[k]) {
      if k != c.key { FitsGrows(s.db, after, c.key, c.id, k, t.mem.pending[k]); }
    }
    forall e | e in t.mem.recent ensures RecentFits(t, e) {
      assert RecentFits(s, e);
      if e.key !in t.mem.pending { FitsGrows(s.db, after, c.key, c.id, e.key, e.id); }
    }
    forall k | k in t.mem.pending ensures HasKey(t.mem.pendingRecent, k) {
      assert t.mem.pendingRecent[|s.mem.pendingRecent|] == c;
      if k != c.key {
        var i :| 0 <= i < |s.mem.pendingRecent| && s.mem.pendingRecent[i].key == k;
        assert t.mem.pendingRecent[i].key == k;
      }
    }
  }

  /** A hit reorders the window and at most records an address. */
  lemma HitAgrees(s: Site, key: Key, touch: bool, address: string)
    requires Agrees(s) && Known(s.mem, key).Some?
    ensures Agrees(Site(if touch then Touched(s.db, Known(s.mem, key).value, address) else s.db,
                        s.mem.(recent := MoveToEnd(s.mem.recent, key))))
  {
    hide Binds, Consistent, MoveToEnd, Touched;
    var id := Known(s.mem, key).value;
    assert Fits(s.db, key, id);
    var db := if touch then Touched(s.db, id, address) else s.db;
    if touch { TouchedGrows(s.db, key, id, address); }
    MoveToEndKeeps(s.mem.recent, key);
    var t := Site(db, s.mem.(recent := MoveToEnd(s.mem.recent, key)));
    forall k | k in t.mem.cache ensures Fits(db, k, t.mem.cache[k]) {
      if touch { FitsGrows(s.db, db, key, id, k, t.mem.cache[k]); }
    }
    forall k | k in t.mem.pending ensures Fits(db, k, t.mem.pending[k]) {
      if touch { FitsGrows(s.db, db, key, id, k, t.mem.pending[k]); }
    }
    forall e | e in t.mem.recent ensures RecentFits(t, e) {
      assert e in s.mem.recent && RecentFits(s, e);
      if touch && e.key !in s.mem.pending { FitsGrows(s.db, db, key, id, e.key, e.id); }
    }
  }

  lemma Unbound(db: Store, key: Key)
    requires FounderOf(db, key).None? && AliasOwner(db, key).None?
    ensures forall o :: !Binds(db, key, o)
  {}

  lemma TouchedBinds(db: Store, id: int, address: string)
    ensures forall k, o :: Binds(TouchedIf(db, id, address), k, o) <==> Binds(db, k, o)
  {}

  lemma TouchedIfGrows(db: Store, key: Key, id: int, address: string)
    requires Consistent(db) && id in db.devices
    ensures Consistent(TouchedIf(db, id, address)) && Grows(db, TouchedIf(db, id, address), key, id)
  {
    TouchedGrows(db, key, id, address);
  }

  /** A fused device always exists: candidates are committed or staged here. */
  lemma FusedExists(s: Site, ad: Sighting, minScore: int)
    requires Agrees(s) && Fused(s.mem, ad, minScore).Some?
    ensures Fused(s.mem, ad, minScore).value in s.db.devices
  {
    hide Binds, Consistent, Scores, FirstBest;
    var q := s.mem.recent + s.mem.pendingRecent;
    var i :| 0 <= i < |q| && q[i].id == Fused(s.mem, ad, minScore).value by {
      BestIsCandidate(FromAdvertisement(ad), ad.addressType, q, minScore);
    }
    assert q[i] in q;
    if q[i] in s.mem.recent { assert RecentFits(s, q[i]); }
  }

  lemma BestIsCandidate(f: Fingerprint, aType: Option<string>, q: seq<Candidate>, minScore: int)
    requires Best(f, aType, q, minScore).Some?
    ensures exists i :: Wins(f, aType, q, minScore, i) && 0 <= i < |q| && q[i].id == Best(f, aType, q, minScore).value
  {
    hide FusionScore;
  }

  /** One sighting keeps the agreement, and its key is then known by its device. */
  lemma ResolveAgrees(s: Site, ad: Sighting, minScore: int)
    requires Agrees(s)
    ensures var t := Resolved(s, ad, minScore);
            Agrees(t) && Known(t.mem, KeyOf(ad)) == Some(Identified(s, ad, minScore))
  {
    hide Agrees, Consistent, Binds, Grows, TouchedIf, Bound, Created, Fused, KeyOf;
    var key, id, db := KeyOf(ad), Identified(s, ad, minScore), s.db;
    assert Consistent(db) by { AgreesIsConsistent(s); }
    if Known(s.mem, key).Some? {
      HitKnown(s, ad, minScore);
    } else if FounderOf(db, key).Some? {
      FoundStages(s, ad, minScore);
    } else if AliasOwner(db, key).Some? {
      AliasStages(s, ad, minScore);
    } else {
      Unbound(db, key);
      if Fused(s.mem, ad, minScore).Some? { FusedStages(s, ad, minScore); } else { CreatedStages(s, ad, minScore); }
    }
  }

  lemma AgreesIsConsistent(s: Site)
    requires Agrees(s)
    ensures Consistent(s.db)
  {}

  lemma HitKnown(s: Site, ad: Sighting, minScore: int)
    requires Agrees(s) && Known(s.mem, KeyOf(ad)).Some?
    ensures Agrees(Resolved(s, ad, minScore))
  {
    hide Agrees, Binds, Touched, KeyOf;
    var key := KeyOf(ad);
    HitAgrees(s, key, ad.address != "" && (key in s.mem.aliasKeys || key in s.mem.pendingAliases), ad.address);
  }

  lemma FoundStages(s: Site, ad: Sighting, minScore: int)
    requires Agrees(s) && Known(s.mem, KeyOf(ad)).None? && FounderOf(s.db, KeyOf(ad)).Some?
    ensures Agrees(Resolved(s, ad, minScore))
  {
    hide Agrees, Consistent, KeyOf, Aliased;
    var key, id := KeyOf(ad), Identified(s, ad, minScore);
    AgreesIsConsistent(s);
    assert Founds(s.db, id, key) && Binds(s.db, key, id);
    forall o | Binds(s.db, key, o) ensures o == id { OneOwner(s.db, key, o, id); }
    StageAgrees(s, s.db, CandidateOf(ad, id), false);
  }

  lemma AliasStages(s: Site, ad: Sighting, minScore: int)
    requires Agrees(s) && Known(s.mem, KeyOf(ad)).None?
    requires FounderOf(s.db, KeyOf(ad)).None? && AliasOwner(s.db, KeyOf(ad)).Some?
    ensures Agrees(Resolved(s, ad, minScore)) && Identified(s, ad, minScore) in s.db.devices
  {
    hide Agrees, KeyOf, Grows, TouchedIf;
    var key, id := KeyOf(ad), Identified(s, ad, minScore);
    AgreesIsConsistent(s);
    assert Aliased(s.db, key, id) && Binds(s.db, key, id);
    forall o | Binds(s.db, key, o) ensures o == id { OneOwner(s.db, key, o, id); }
    TouchedIfGrows(s.db, key, id, ad.address);
    StageAgrees(s, TouchedIf(s.db, id, ad.address), CandidateOf(ad, id), true);
  }

  lemma FusedStages(s: Site, ad: Sighting, minScore: int)
    requires Agrees(s) && Known(s.mem, KeyOf(ad)).None?
    requires FounderOf(s.db, KeyOf(ad)).None? && AliasOwner(s.db, KeyOf(ad)).None?
    requires Fused(s.mem, ad, minScore).Some? && forall o :: !Binds(s.db, KeyOf(ad), o)
    ensures Agrees(Resolved(s, ad, minScore))
  {
    hide Agrees, KeyOf, Grows, TouchedIf, Bound, Consistent, Binds, Fused;
    var key, id := KeyOf(ad), Identified(s, ad, minScore);
    AgreesIsConsistent(s);
    FusedExists(s, ad, minScore);
    TouchedIfGrows(s.db, key, id, ad.address);
    TouchedBinds(s.db, id, ad.address);
    var touched := TouchedIf(s.db, id, ad.address);
    GrowsKeeps(s.db, touched, key, id);
    BoundGrows(touched, key, id);
    ChainGrows(s.db, touched, Bound(touched, key, id), key, id);
    StageAgrees(s, Bound(touched, key, id), CandidateOf(ad, id), true);
  }

  lemma GrowsKeeps(db: Store, after: Store, key: Key, id: int)
    requires Grows(db, after, key, id)
    ensures id in after.devices
  {}

  lemma CreatedStages(s: Site, ad: Sighting, minScore: int)
    requires Agrees(s) && Known(s.mem, KeyOf(ad)).None?
    requires FounderOf(s.db, KeyOf(ad)).None? && AliasOwner(s.db, KeyOf(ad)).None?
    requires Fused(s.mem, ad, minScore).None? && forall o :: !Binds(s.db, KeyOf(ad), o)
    ensures Agrees(Resolved(s, ad, minScore))
  {
    hide Agrees, KeyOf, Grows, Created, Consistent, Binds, Fused;
    var key, id := KeyOf(ad), Identified(s, ad, minScore);
    AgreesIsConsistent(s);
    CreatedGrows(s.db, NewDevice(key, ad.address));
    StageAgrees(s, Created(s.db, NewDevice(key, ad.address)), CandidateOf(ad, id), false);
  }

  /** What one entry of the committed window says. */
  lemma CommittedEntry(s: Site, window: nat, c: Candidate)
    requires Agrees(s) && c in PutAll(s.mem.recent, s.mem.pendingRecent)
    ensures RecentFits(Site(s.db, Committed(s.mem, window)), c)
  {
    hide Binds, Consistent, PutAll, Fits;
    PutAllMembers(s.mem.recent, s.mem.pendingRecent);
    if c !in s.mem.pendingRecent { assert RecentFits(s, c); }
    FitsExists(s.db, c.key, c.id);
  }

  lemma CommittedCache(s: Site, window: nat)
    requires Agrees(s)
    ensures var m := Committed(s.mem, window);
            (forall k | k in m.cache :: Fits(s.db, k, m.cache[k])) && m.aliasKeys <= m.cache.Keys && Idle(m)
  {
    hide Consistent, PutAll, Fits, RecentFits, Tail;
  }

  lemma CommittedWindow(s: Site, window: nat)
    requires Agrees(s)
    ensures var m := Committed(s.mem, window);
            |m.recent| <= window && OneEntryAKey(m.recent) && forall c | c in m.recent :: RecentFits(Site(s.db, m), c)
  {
    hide Consistent, PutAll, Fits, RecentFits, Tail, PendingAgrees;
    var q, m := PutAll(s.mem.recent, s.mem.pendingRecent), Committed(s.mem, window);
    PutAllMembers(s.mem.recent, s.mem.pendingRecent);
    TailUnique(q, window);
    forall c | c in m.recent ensures RecentFits(Site(s.db, m), c) { CommittedEntry(s, window, c); }
  }

  /** Publishing after the database commit keeps the agreement and the bound. */
  lemma CommitAgrees(s: Site, window: nat)
    requires Agrees(s)
    ensures var m := Committed(s.mem, window); Agrees(Site(s.db, m)) && Idle(m) && |m.recent| <= window
  {
    hide Consistent, Committed, Fits, RecentFits;
    CommittedCache(s, window);
    CommittedWindow(s, window);
  }

  lemma TailUnique(q: seq<Candidate>, n: nat)
    requires OneEntryAKey(q)
    ensures OneEntryAKey(Tail(q, n)) && |Tail(q, n)| <= n
    ensures forall c | c in Tail(q, n) :: c in q
  {}

  lemma FitsExists(db: Store, key: Key, id: int)
    ensures Fits(db, key, id) ==> id in db.devices
  {}

  ghost predicate SameMemory(a: Memory, b: Memory) {
    && a.cache == b.cache && a.aliasKeys == b.aliasKeys
    && SameEntries(a.recent, b.recent) && |a.recent| == |b.recent|
  }

  /** However many sightings a cycle holds, they stay in the staging area. */
  lemma {:induction false} ResolveAllAgrees(s: Site, ads: seq<Sighting>, minScore: int)
    requires Agrees(s)
    ensures Agrees(ResolvedAll(s, ads, minScore))
    ensures SameMemory(s.mem, ResolvedAll(s, ads, minScore).mem)
  {
    hide Agrees, SameMemory, Resolved;
    if ads == [] {
      SameMemoryReflexive(s.mem);
    } else {
      ResolveAllAgrees(s, Front(ads), minScore);
      var t := ResolvedAll(s, Front(ads), minScore);
      ResolveAgrees(t, Last(ads), minScore);
      ResolveStages(t, Last(ads), minScore);
      SameMemoryChain(s.mem, t.mem, Resolved(t, Last(ads), minScore).mem);
    }
  }

  lemma SameMemoryReflexive(m: Memory)
    ensures SameMemory(m, m)
  {}

  lemma SameMemoryChain(a: Memory, b: Memory, c: Memory)
    requires SameMemory(a, b) && SameMemory(b, c)
    ensures SameMemory(a, c)
  {}

  lemma ResolveStages(s: Site, ad: Sighting, minScore: int)
    requires Agrees(s)
    ensures SameMemory(s.mem, Resolved(s, ad, minScore).mem)
  {
    hide Consistent, Binds, Fits, Fused, KeyOf, MoveToEnd, Created, Bound, TouchedIf, PendingAgrees;
    MoveToEndKeeps(s.mem.recent, KeyOf(ad));
  }

  /** A rolled-back cycle leaves the tables as they were and the memory with
      the same entries, in an order that hits may have changed. */
  lemma AbortForgets(s: Site, ads: seq<Sighting>, minScore: int, window: nat)
    requires Agrees(s) && Idle(s.mem)
    ensures var t := Cycled(s, ads, false, minScore, window);
            t.db == s.db && SameMemory(s.mem, t.mem) && Agrees(t) && Idle(t.mem)
  {
    hide Consistent, Binds, Fits, ResolvedAll;
    ResolveAllAgrees(s, ads, minScore);
    var t := Cycled(s, ads, false, minScore, window);
    forall c | c in t.mem.recent ensures RecentFits(t, c) { assert RecentFits(s, c); }
  }

  lemma CycleAgrees(s: Site, ads: seq<Sighting>, commits: bool, minScore: int, window: nat)
    requires Agrees(s) && Idle(s.mem)
    ensures var t := Cycled(s, ads, commits, minScore, window); Agrees(t) && Idle(t.mem)
  {
    hide Agrees, Idle, Committed;
    ResolveAllAgrees(s, ads, minScore);
    if commits {
      CommitAgrees(ResolvedAll(s, ads, minScore), window);
    } else {
      AbortForgets(s, ads, minScore, window);
    }
  }

  // -------------------------------------------------------------------- seeding

  lemma FounderSeedAgrees(db: Store, mem: Memory, id: int)
    requires Agrees(Site(db, mem)) && Idle(mem) && id in db.devices
    ensures Agrees(Site(db, FounderSeeded(db, mem, id))) && Idle(FounderSeeded(db, mem, id))
  {
    hide Consistent, Aliased, Assign;
    var d := db.devices[id];
    var f := FromStored(d.key, d.address);
    if f.Some? {
      var c := Candidate(d.key, f.value, None, id);
      AssignMembers(mem.recent, c);
      assert Binds(db, d.key, id);
      forall o | Binds(db, d.key, o) ensures o == id { OneOwner(db, d.key, o, id); }
      var t := Site(db, FounderSeeded(db, mem, id));
      forall e | e in t.mem.recent ensures RecentFits(t, e) {
        if e != c { assert RecentFits(Site(db, mem), e); }
      }
    }
  }

  lemma {:induction false} FounderSeedsAgree(db: Store, mem: Memory, rows: seq<int>)
    requires Agrees(Site(db, mem)) && Idle(mem) && forall i | 0 <= i < |rows| :: rows[i] in db.devices
    ensures Agrees(Site(db, FoundersSeeded(db, mem, rows))) && Idle(FoundersSeeded(db, mem, rows))
  {
    hide Agrees, Idle, FounderSeeded;
    if rows == [] {
    } else {
      FounderSeedsAgree(db, mem, rows[1..]);
      FounderSeedAgrees(db, FoundersSeeded(db, mem, rows[1..]), rows[0]);
    }
  }

  lemma AliasSeedAgrees(db: Store, mem: Memory, c: Candidate, window: nat)
    requires Agrees(Site(db, mem)) && Idle(mem) && Aliased(db, c.key, c.id)
    ensures Agrees(Site(db, AliasSeeded(mem, c, window))) && Idle(AliasSeeded(mem, c, window))
  {
    hide Founds, Aliased;
    assert Binds(db, c.key, c.id);
    AliasOwnerExists(db, c.key, c.id);
    forall o | Binds(db, c.key, o) ensures o == c.id { OneOwner(db, c.key, o, c.id); }
    var t := Site(db, AliasSeeded(mem, c, window));
    forall e | e in t.mem.recent ensures RecentFits(t, e) {
      if e in mem.recent { assert RecentFits(Site(db, mem), e); }
    }
  }

  lemma AliasOwnerExists(db: Store, key: Key, id: int)
    requires Consistent(db) && Aliased(db, key, id)
    ensures id in db.devices
  {}

  lemma {:induction false} AliasSeedsAgree(db: Store, mem: Memory, seeds: seq<Candidate>, window: nat)
    requires Agrees(Site(db, mem)) && Idle(mem) && forall c | c in seeds :: Aliased(db, c.key, c.id)
    ensures Agrees(Site(db, AliasesSeeded(mem, seeds, window))) && Idle(AliasesSeeded(mem, seeds, window))
  {
    hide Agrees, Idle, AliasSeeded;
    if seeds == [] {
    } else {
      assert seeds[0] in seeds;
      AliasSeedsAgree(db, mem, seeds[1..], window);
      AliasSeedAgrees(db, AliasesSeeded(mem, seeds[1..], window), seeds[0], window);
    }
  }

  lemma {:induction false} SeedsAreListed(listing: seq<AliasRow>, owner: int)
    ensures forall c | c in SeedsOf(listing, owner) :: AliasRow(c.key, c.id) in listing
  {
    if listing == [] {
    } else {
      SeedsAreListed(Front(listing), owner);
      assert listing == Front(listing) + [Last(listing)];
    }
  }

  lemma {:induction false} AliasSeedsAreListed(db: Store, rows: seq<int>, listing: seq<AliasRow>)
    requires forall i | 0 <= i < |rows| :: rows[i] in db.devices
    ensures forall c | c in AliasSeeds(db, rows, listing) :: AliasRow(c.key, c.id) in listing
  {
    if rows == [] {
    } else {
      AliasSeedsAreListed(db, rows[1..], listing);
      SeedsAreListed(listing, rows[0]);
    }
  }

  lemma SweepAgrees(s: Site)
    requires Agrees(s)
    ensures Agrees(Site(Swept(s.db), s.mem))
  {
    hide Binds, Consistent;
    SweptIsCapped(s.db);
    var t := Site(Swept(s.db), s.mem);
    forall c | c in t.mem.recent ensures RecentFits(t, c) { assert RecentFits(s, c); }
  }

  lemma SeedAgrees(s: Site, rows: seq<int>, listing: seq<AliasRow>, window: nat)
    requires Agrees(s) && Idle(s.mem) && Listed(Swept(s.db), rows, listing, window)
    ensures var t := Seeded(s, rows, listing, window); Agrees(t) && Idle(t.mem) && WithinCap(t.db)
  {
    hide Agrees, Idle, Consistent, WithinCap, Swept, AliasSeeds;
    AgreesIsConsistent(s);
    SweptIsCapped(s.db);
    SweepAgrees(s);
    var db := Swept(s.db);
    FounderSeedsAgree(db, s.mem, rows);
    AliasSeedsAreListed(db, rows, listing);
    AliasSeedsAgree(db, FoundersSeeded(db, s.mem, rows), AliasSeeds(db, rows, listing), window);
  }
}
