/** resolver.py's pure half: fingerprints, HomeKit ids and the fusion score, in
    hundredths. */
module Fusion {
  import opened Orders

  datatype Fingerprint = Fingerprint(
    address: Option<string>, serviceUuids: set<string>, manufacturerData: map<string, string>,
    localName: Option<string>)

  /** An Advertisement, as far as the resolver reads it. */
  datatype Sighting = Sighting(
    address: string, addressType: Option<string>, localName: Option<string>,
    serviceUuids: seq<string>, manufacturerData: map<string, string>)

  function FromAdvertisement(ad: Sighting): Fingerprint {
    Fingerprint(Some(ad.address), (set u | u in ad.serviceUuids), ad.manufacturerData, ad.localName)
  }

  /** A stored key: a fingerprint's canonical text, or text this version did not write. */
  datatype Key = Canonical(fingerprint: Fingerprint) | Foreign(text: string)

  predicate Truthy(s: Option<string>) { s.Some? && s.value != "" }

  function FromStored(key: Key, address: Option<string> := None): Option<Fingerprint> {
    if key.Foreign? then None
    else Some(key.fingerprint.(address := if Truthy(address) then address else key.fingerprint.address))
  }

  const W_MFR_PAYLOAD := 50
  const COMPANY_ONLY_WEIGHT := 30
  const W_UUIDS := 25
  const W_NAME := 25
  const W_STABLE_ADDRESS := 60
  const HAP_SCORE := 100

  const STABLE_TYPES: set<Option<string>> := {Some("public"), Some("random_static")}
  const APPLE_COMPANY := "76"
  const HAP_TYPE := 0x06

  function Nibble(c: char): Option<int> {
    if '0' <= c <= '9' then Some(c as int - '0' as int)
    else if 'a' <= c <= 'f' then Some(c as int - 'a' as int + 10)
    else if 'A' <= c <= 'F' then Some(c as int - 'A' as int + 10)
    else None
  }

  predicate IsSpace(c: char) { c == ' ' || '\t' <= c <= '\r' }

  /** bytes.fromhex: pairs of digits, blanks allowed between pairs. */
  function FromHex(s: string): Option<seq<int>> {
    if s == "" then Some([])
    else if IsSpace(s[0]) then FromHex(s[1..])
    else if |s| == 1 || Nibble(s[0]).None? || Nibble(s[1]).None? then None
    else
      var rest := FromHex(s[2..]);
      if rest.None? then None else Some([16 * Nibble(s[0]).value + Nibble(s[1]).value] + rest.value)
  }

  function HexDigit(n: int): char
    requires 0 <= n < 16
  {
    if n < 10 then (n + '0' as int) as char else (n - 10 + 'a' as int) as char
  }

  lemma HexDigitExactly(n: int)
    requires 0 <= n < 16
    ensures HexDigit(n) == "0123456789abcdef"[n]
  {}

  ghost predicate AreBytes(p: seq<int>) { forall i | 0 <= i < |p| :: 0 <= p[i] < 256 }

  function Hex(p: seq<int>): string
    requires AreBytes(p)
  {
    if p == [] then "" else [HexDigit(p[0] / 16), HexDigit(p[0] % 16)] + Hex(p[1..])
  }

  lemma DigitRoundTrip(n: int)
    requires 0 <= n < 16
    ensures Nibble(HexDigit(n)) == Some(n) && !IsSpace(HexDigit(n))
  {}

  lemma {:induction false} HexRoundTrip(p: seq<int>)
    requires AreBytes(p)
    ensures FromHex(Hex(p)) == Some(p)
  {
    hide Nibble, HexDigit, IsSpace;
    if p == [] {
    } else {
      HexRoundTrip(p[1..]);
      DigitRoundTrip(p[0] / 16);
      DigitRoundTrip(p[0] % 16);
      assert [p[0]] + p[1..] == p;
      assert Hex(p)[2..] == Hex(p[1..]);
    }
  }

  function Lower(c: char): char { if 'A' <= c <= 'F' then (c as int - 'A' as int + 'a' as int) as char else c }

  /** The text without its blanks, in lower case. */
  function Plain(s: string): string {
    if s == "" then "" else (if IsSpace(s[0]) then "" else [Lower(s[0])]) + Plain(s[1..])
  }

  /** Whatever text decodes is the hex text of its bytes, but for blanks and case. */
  lemma {:induction false} FromHexInverts(s: string)
    requires FromHex(s).Some?
    ensures AreBytes(FromHex(s).value) && Plain(s) == Hex(FromHex(s).value)
  {
    hide Hex, Plain, Nibble, Lower, IsSpace;
    PlainStart(s);
    if s == "" {
      HexOfNothing();
    } else if IsSpace(s[0]) {
      FromHexInverts(s[1..]);
    } else {
      FromHexInverts(s[2..]);
      var rest := FromHex(s[2..]).value;
      NibbleIsDigit(s[1]);
      PlainPair(s);
      PairInverts(s[0], s[1], rest);
      assert FromHex(s).value == [16 * Nibble(s[0]).value + Nibble(s[1]).value] + rest;
    }
  }

  /** A pair of digits is one byte. */
  lemma PairInverts(a: char, b: char, rest: seq<int>)
    requires Nibble(a).Some? && Nibble(b).Some? && AreBytes(rest)
    ensures var p := [16 * Nibble(a).value + Nibble(b).value] + rest;
            AreBytes(p) && Hex(p) == [Lower(a), Lower(b)] + Hex(rest)
  {
    hide Nibble, Lower, HexDigit, Hex;
    NibbleIsDigit(a);
    NibbleIsDigit(b);
    PairIsByte(Nibble(a).value, Nibble(b).value);
    var p := [16 * Nibble(a).value + Nibble(b).value] + rest;
    assert p[1..] == rest;
    HexStep(p);
  }

  lemma PairIsByte(a: int, b: int)
    requires 0 <= a < 16 && 0 <= b < 16
    ensures 0 <= 16 * a + b < 256 && (16 * a + b) / 16 == a && (16 * a + b) % 16 == b
  {}

  lemma PlainPair(s: string)
    requires |s| >= 2 && !IsSpace(s[0]) && !IsSpace(s[1])
    ensures Plain(s) == [Lower(s[0]), Lower(s[1])] + Plain(s[2..])
  {
    hide Lower, IsSpace;
    assert s[1..][1..] == s[2..];
    assert Plain(s[1..]) == [Lower(s[1])] + Plain(s[2..]);
  }

  lemma PlainStart(s: string)
    ensures Plain("") == "" && (s != "" && IsSpace(s[0]) ==> Plain(s) == Plain(s[1..]))
  {
    if s != "" && IsSpace(s[0]) { assert "" + Plain(s[1..]) == Plain(s[1..]); }
  }

  lemma HexOfNothing()
    ensures Hex([]) == ""
  {}

  lemma HexStep(p: seq<int>)
    requires p != [] && AreBytes(p)
    ensures Hex(p) == [HexDigit(p[0] / 16), HexDigit(p[0] % 16)] + Hex(p[1..])
  {}

  lemma NibbleIsDigit(c: char)
    requires Nibble(c).Some?
    ensures 0 <= Nibble(c).value < 16 && HexDigit(Nibble(c).value) == Lower(c) && !IsSpace(c)
  {}

  /** The six id bytes of an Apple HomeKit payload. */
  function HapDeviceId(f: Fingerprint): Option<seq<int>> {
    if APPLE_COMPANY !in f.manufacturerData then None
    else
      var payload := FromHex(f.manufacturerData[APPLE_COMPANY]);
      if payload.Some? && |payload.value| >= 9 && payload.value[0] == HAP_TYPE
      then Some(payload.value[3..9]) else None
  }

  function Payload(f: Fingerprint, company: string): Option<string> {
    if company in f.manufacturerData then Some(f.manufacturerData[company]) else None
  }

  /** An accessory is recognised by its id alone: its flags, its state counter
      and whatever else the payload carries do not matter. */
  lemma HapIdIsStable(f: Fingerprint, flags: seq<int>, id: seq<int>, rest: seq<int>)
    requires AreBytes(flags) && AreBytes(id) && AreBytes(rest) && |flags| == 2 && |id| == 6
    ensures AreBytes([HAP_TYPE] + flags + id + rest)
    ensures var text := Hex([HAP_TYPE] + flags + id + rest);
            Payload(f, APPLE_COMPANY) == Some(text) ==> HapDeviceId(f) == Some(id)
  {
    var p := [HAP_TYPE] + flags + id + rest;
    HexRoundTrip(p);
    assert p[3..9] == id;
  }

  /** And nothing else is: the id is bytes 3 to 8 of an Apple payload of type 6
      that is nine bytes long or longer. */
  lemma HapIdExactly(f: Fingerprint, id: seq<int>)
    ensures HapDeviceId(f) == Some(id) <==>
            "76" in f.manufacturerData && exists p ::
              FromHex(f.manufacturerData["76"]) == Some(p) && |p| >= 9 && p[0] == 6 && p[3..9] == id
  {
    hide FromHex;
  }

  function Companies(f: Fingerprint): set<string> { f.manufacturerData.Keys }

  predicate Vetoed(a: Fingerprint, b: Fingerprint, aType: Option<string>, bType: Option<string>) {
    aType in STABLE_TYPES && bType in STABLE_TYPES && a.address != b.address
  }

  predicate SamePayload(a: Fingerprint, b: Fingerprint) {
    a.manufacturerData != map[] && a.manufacturerData == b.manufacturerData
  }

  predicate SameCompanies(a: Fingerprint, b: Fingerprint) {
    a.manufacturerData != map[] && b.manufacturerData != map[] && Companies(a) == Companies(b)
  }

  predicate SameUuids(a: Fingerprint, b: Fingerprint) { a.serviceUuids != {} && a.serviceUuids == b.serviceUuids }

  predicate SameName(a: Fingerprint, b: Fingerprint) { Truthy(a.localName) && a.localName == b.localName }

  predicate SameAddress(a: Fingerprint, b: Fingerprint) { Truthy(a.address) && a.address == b.address }

  function FusionScore(a: Fingerprint, b: Fingerprint, aType: Option<string>, bType: Option<string>): int {
    if Vetoed(a, b, aType, bType) then 0
    else
      var x, y := HapDeviceId(a), HapDeviceId(b);
      if x.Some? && y.Some? then (if x == y then HAP_SCORE else 0)
      else
        (if SamePayload(a, b) then W_MFR_PAYLOAD else if SameCompanies(a, b) then COMPANY_ONLY_WEIGHT else 0)
        + (if SameUuids(a, b) then W_UUIDS else 0)
        + (if SameName(a, b) then W_NAME else 0)
        + (if SameAddress(a, b) then W_STABLE_ADDRESS else 0)
  }

  lemma FusionScoreIsSymmetric(a: Fingerprint, b: Fingerprint, aType: Option<string>, bType: Option<string>)
    ensures FusionScore(a, b, aType, bType) == FusionScore(b, a, bType, aType)
  {
    hide HapDeviceId;
  }

  predicate BothHap(a: Fingerprint, b: Fingerprint) { HapDeviceId(a).Some? && HapDeviceId(b).Some? }

  /** What makes two fingerprints more than mere products of one vendor. */
  predicate Justified(a: Fingerprint, b: Fingerprint, aType: Option<string>, bType: Option<string>) {
    && !Vetoed(a, b, aType, bType)
    && if BothHap(a, b) then HapDeviceId(a) == HapDeviceId(b)
       else
         || SameAddress(a, b)
         || SamePayload(a, b)
         || (SameCompanies(a, b) && SameUuids(a, b))
         || (SameCompanies(a, b) && SameName(a, b))
         || (SameUuids(a, b) && SameName(a, b))
  }

  /** A score above the company-only weight is exactly a justified one. */
  lemma AboveCompanyOnly(a: Fingerprint, b: Fingerprint, aType: Option<string>, bType: Option<string>)
    ensures FusionScore(a, b, aType, bType) > COMPANY_ONLY_WEIGHT <==> Justified(a, b, aType, bType)
  {
    hide HapDeviceId;
  }

  /** What a signal adds. */
  function Worth(shared: bool, weight: int): int { if shared then weight else 0 }

  /** The exact score in hundredths, signal by signal: nothing for two stable
      addresses that differ; all or nothing between two HomeKit ids; and otherwise
      the payload 50 or the company set alone 30, the service set 25, the name 25
      and the address 60. */
  lemma ScoreExactly(a: Fingerprint, b: Fingerprint, aType: Option<string>, bType: Option<string>)
    ensures var score, m, n := FusionScore(a, b, aType, bType), a.manufacturerData, b.manufacturerData;
            var stable := (t: Option<string>) => t == Some("public") || t == Some("random_static");
            if stable(aType) && stable(bType) && a.address != b.address then score == 0
            else if HapDeviceId(a).Some? && HapDeviceId(b).Some? then
              score == Worth(HapDeviceId(a) == HapDeviceId(b), 100)
            else
              score == Worth(m != map[] && m == n, 50)
                       + Worth(m != map[] && n != map[] && m != n && m.Keys == n.Keys, 30)
                       + Worth(a.serviceUuids != {} && a.serviceUuids == b.serviceUuids, 25)
                       + Worth(a.localName !in {None, Some("")} && a.localName == b.localName, 25)
                       + Worth(a.address !in {None, Some("")} && a.address == b.address, 60)
  {
    hide HapDeviceId;
  }

  /** What two fingerprints must share to fuse at the default threshold. */
  predicate Corroborated(a: Fingerprint, b: Fingerprint, aType: Option<string>, bType: Option<string>) {
    && !Vetoed(a, b, aType, bType)
    && if BothHap(a, b) then HapDeviceId(a) == HapDeviceId(b)
       else
         || SameAddress(a, b)
         || (SamePayload(a, b) && (SameUuids(a, b) || SameName(a, b)))
         || (SameCompanies(a, b) && (SameUuids(a, b) || SameName(a, b)))
  }

  /** The default threshold decides by corroboration: the same address, or the
      payload or the company set together with the service set or the name. The
      payload alone is not enough, nor are service set and name. */
  lemma ReachesDefaultExactly(a: Fingerprint, b: Fingerprint, aType: Option<string>, bType: Option<string>)
    ensures FusionScore(a, b, aType, bType) >= 55 <==> Corroborated(a, b, aType, bType)
  {
    hide HapDeviceId;
  }

  /** The veto is pairwise: two stable twins can each score 75 with a sighting
      of unknown provenance between them, so fusing is not transitive. */
  lemma VetoIsPairwise()
    ensures var f := (address: string) => Fingerprint(Some(address), {"u"}, map["1" := "00"], None);
            && FusionScore(f("A"), f("B"), Some("public"), Some("public")) == 0
            && FusionScore(f("A"), f("R"), Some("public"), None) == 75
            && FusionScore(f("R"), f("B"), None, Some("public")) == 75
  {
    assert "A"[0] != "B"[0] && "A"[0] != "R"[0] && "B"[0] != "R"[0];
    assert |"1"| != |APPLE_COMPANY|;
    assert "u" in {"u"} && "1" in map["1" := "00"];
  }

  datatype Candidate = Candidate(key: Key, fingerprint: Fingerprint, addressType: Option<string>, id: int)

  ghost function Scores(f: Fingerprint, aType: Option<string>, candidates: seq<Candidate>): seq<int> {
    seq(|candidates|, i requires 0 <= i < |candidates| =>
      FusionScore(f, candidates[i].fingerprint, aType, candidates[i].addressType))
  }

  /** i is the first of the highest scores, and a positive one. */
  ghost predicate FirstBest(scores: seq<int>, i: int) {
    && 0 <= i < |scores| && scores[i] > 0
    && (forall j | 0 <= j < |scores| :: scores[j] <= scores[i])
    && (forall j | 0 <= j < i :: scores[j] < scores[i])
  }

  ghost predicate Wins(f: Fingerprint, aType: Option<string>, candidates: seq<Candidate>, minScore: int, i: int) {
    var s := Scores(f, aType, candidates);
    FirstBest(s, i) && s[i] >= minScore
  }

  ghost function Best(f: Fingerprint, aType: Option<string>, candidates: seq<Candidate>, minScore: int): Option<int> {
    if exists i :: Wins(f, aType, candidates, minScore, i)
    then var i :| Wins(f, aType, candidates, minScore, i); Some(candidates[i].id) else None
  }

  /** The loop of _best_match: the id of the first best candidate, if it scores
      at least minScore, and nobody otherwise. */
  method BestMatch(f: Fingerprint, aType: Option<string>, candidates: seq<Candidate>, minScore: int)
    returns (best: Option<int>)
    ensures forall i :: Wins(f, aType, candidates, minScore, i) ==> best == Some(candidates[i].id)
    ensures best == Best(f, aType, candidates, minScore)
  {
    hide FusionScore;
    var bestId: Option<int>, bestScore := None, 0;
    ghost var s, at := Scores(f, aType, candidates), -1;
    for k := 0 to |candidates|
      invariant bestScore >= 0 && forall j | 0 <= j < k :: s[j] <= bestScore
      invariant bestId.None? ==> bestScore == 0
      invariant bestId.Some? ==> 0 <= at < k && bestId.value == candidates[at].id && s[at] == bestScore > 0 &&
                                 forall j | 0 <= j < at :: s[j] < bestScore
    {
      var score := FusionScore(f, candidates[k].fingerprint, aType, candidates[k].addressType);
      if score > bestScore {
        bestScore, bestId, at := score, Some(candidates[k].id), k;
      }
    }
    best := if bestScore >= minScore then bestId else None;
    if best.Some? {
      WinnerIsBest(f, aType, candidates, minScore, at);
    } else {
      NobodyWins(f, aType, candidates, minScore, bestScore);
    }
  }

  lemma WinnerIsBest(f: Fingerprint, aType: Option<string>, candidates: seq<Candidate>, minScore: int, i: int)
    requires Wins(f, aType, candidates, minScore, i)
    ensures Best(f, aType, candidates, minScore) == Some(candidates[i].id)
    ensures forall j :: Wins(f, aType, candidates, minScore, j) ==> j == i
  {
    hide FusionScore;
  }

  lemma NobodyWins(f: Fingerprint, aType: Option<string>, candidates: seq<Candidate>, minScore: int, top: int)
    requires forall j | 0 <= j < |candidates| :: Scores(f, aType, candidates)[j] <= top
    requires top < minScore || top == 0
    ensures Best(f, aType, candidates, minScore).None? && forall j :: !Wins(f, aType, candidates, minScore, j)
  {
    hide FusionScore;
  }

  /** With a threshold above the company-only weight, the winning candidate
      itself really shares something with the sighting, and its device is chosen. */
  lemma WinnerIsJustified(f: Fingerprint, aType: Option<string>, candidates: seq<Candidate>, minScore: int, i: int)
    requires minScore > COMPANY_ONLY_WEIGHT && Wins(f, aType, candidates, minScore, i)
    ensures Justified(f, candidates[i].fingerprint, aType, candidates[i].addressType)
    ensures Best(f, aType, candidates, minScore) == Some(candidates[i].id)
  {
    hide FusionScore, Justified;
    AboveCompanyOnly(f, candidates[i].fingerprint, aType, candidates[i].addressType);
  }

  /** A score of zero never matches, even with a threshold of zero or less:
      otherwise somebody is matched exactly when some candidate reaches the
      threshold. */
  lemma MatchesExactly(f: Fingerprint, aType: Option<string>, candidates: seq<Candidate>, minScore: int)
    ensures Best(f, aType, candidates, minScore).Some? <==>
            exists i | 0 <= i < |candidates| ::
              var score := FusionScore(f, candidates[i].fingerprint, aType, candidates[i].addressType);
              score >= minScore && score > 0
  {
    hide FusionScore;
    var s := Scores(f, aType, candidates);
    forall i | 0 <= i < |candidates|
      ensures s[i] == FusionScore(f, candidates[i].fingerprint, aType, candidates[i].addressType) {}
    if i :| 0 <= i < |candidates| && s[i] >= minScore && s[i] > 0 {
      var b := SomeFirstBest(s, i);
      assert Wins(f, aType, candidates, minScore, b);
    }
    if Best(f, aType, candidates, minScore).Some? {
      var i :| Wins(f, aType, candidates, minScore, i);
      assert s[i] >= minScore && s[i] > 0;
    }
  }

  lemma {:induction false} SomeFirstBest(s: seq<int>, i: nat) returns (b: nat)
    requires i < |s| && s[i] > 0
    ensures FirstBest(s, b) && s[b] >= s[i]
  {
    b := i;
    for k := 0 to |s|
      invariant b < |s| && s[b] >= s[i] && forall j | 0 <= j < k :: s[j] <= s[b] && (j < b ==> s[j] < s[b])
      invariant b < k || b == i
      invariant i < k ==> b < k
    {
      if s[k] > s[b] || (s[k] == s[b] && k < b) { b := k; }
    }
  }
}
