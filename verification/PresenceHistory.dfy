/** What a device's presence means in terms of the windows in which it was
    heard, with no automaton, no counters and no pruning. */
module PresenceHistory {
  import opened Orders
  import opened Presence

  ghost predicate Run(b: seq<bool>, v: bool, end: int, n: int) {
    0 <= n <= end <= |b| && forall i | end - n <= i < end :: b[i] == v
  }

  /** The device has been confirmed present and not confirmed gone since. */
  ghost predicate Inside(c: Thresholds, b: seq<bool>) {
    exists e :: Run(b, true, e, c.appear) && forall m | e < m <= |b| :: !Run(b, false, m, c.disappear)
  }

  ghost predicate Arrives(c: Thresholds, b: seq<bool>) {
    b != [] && !Inside(c, Front(b)) && Run(b, true, |b|, c.appear)
  }

  ghost predicate Departs(c: Thresholds, b: seq<bool>) {
    b != [] && Inside(c, Front(b)) && Run(b, false, |b|, c.disappear)
  }

  /** Every earlier departure lies at least `cooldown` windows back. */
  ghost predicate Cooled(c: Thresholds, b: seq<bool>) {
    forall t | 0 < t < |b| && Departs(c, b[..t]) :: |b| - t >= c.cooldown
  }

  ghost predicate Announces(c: Thresholds, b: seq<bool>) { Arrives(c, b) && Cooled(c, b) }

  /** The visit going on at the end of b began with an announced arrival. */
  ghost predicate AnnouncedVisit(c: Thresholds, b: seq<bool>) {
    exists a | 0 < a <= |b| :: Announces(c, b[..a]) && forall t | a <= t <= |b| :: Inside(c, b[..t])
  }

  /** Exactly when a window emits a transition: PRESENT for an announced
      arrival, ABSENT for the departure ending an announced visit. */
  ghost predicate Emits(c: Thresholds, b: seq<bool>, s: PresenceState) {
    if s.Present? then Announces(c, b) else Departs(c, b) && AnnouncedVisit(c, Front(b))
  }

  /** The never-forgetting automaton. */
  ghost function After(c: Thresholds, b: seq<bool>): DeviceState
    requires c.Legal()
  {
    if b == [] then FRESH else Window(c, After(c, Front(b)), b[|b| - 1]).next
  }

  ghost function Output(c: Thresholds, b: seq<bool>): Option<PresenceState>
    requires c.Legal() && b != []
  {
    Window(c, After(c, Front(b)), b[|b| - 1]).emitted
  }

  ghost function Trailing(b: seq<bool>, v: bool): (n: nat)
    ensures n <= |b|
  {
    if b == [] || b[|b| - 1] != v then 0 else 1 + Trailing(Front(b), v)
  }

  lemma {:induction false} TrailingRun(b: seq<bool>, v: bool, n: int)
    requires 0 <= n
    ensures Run(b, v, |b|, n) <==> n <= Trailing(b, v)
  {
    if b == [] || n == 0 {
    } else {
      TrailingRun(Front(b), v, n - 1);
      assert Run(b, v, |b|, n) <==> b[|b| - 1] == v && Run(Front(b), v, |b| - 1, n - 1);
    }
  }

  lemma InsideStep(c: Thresholds, b: seq<bool>)
    requires c.Legal() && b != []
    ensures Inside(c, b) <==>
            if Inside(c, Front(b)) then !Run(b, false, |b|, c.disappear) else Run(b, true, |b|, c.appear)
  {
    var p := Front(b);
    assert forall v, e, n | e < |b| :: Run(b, v, e, n) <==> Run(p, v, e, n);
    if Inside(c, p) {
      var e :| Run(p, true, e, c.appear) && forall m | e < m <= |p| :: !Run(p, false, m, c.disappear);
      assert Run(b, true, e, c.appear);
      if Run(b, false, |b|, c.disappear) {
        assert !b[|b| - 1];
      }
    } else if Inside(c, b) {
      var e :| Run(b, true, e, c.appear) && forall m | e < m <= |b| :: !Run(b, false, m, c.disappear);
      if e < |b| {
        assert false;
      }
    }
  }

  /** The counters of the automaton, read off the history. */
  ghost predicate Meaning(c: Thresholds, b: seq<bool>, d: DeviceState) {
    && (d.state.Present? <==> Inside(c, b))
    && d.misses == Trailing(b, false)
    && HitsMeaning(c, b, d)
    && (d.presentEmitted <==> AnnouncedVisit(c, b))
    && CooldownMeaning(c, b, d.cooldownRemaining)
  }

  /** The history before the streak of hits, if any, that ends it. */
  ghost function BeforeStreak(b: seq<bool>): seq<bool> { b[..|b| - Trailing(b, true)] }

  /** Hits count the current streak, less the hits that confirmed the device
      present if this very streak did. */
  ghost predicate HitsMeaning(c: Thresholds, b: seq<bool>, d: DeviceState) {
    && d.hits == Trailing(b, true) - (if d.state.Present? && !Inside(c, BeforeStreak(b)) then c.appear else 0)
    && (d.state.Absent? ==> d.hits < c.appear && !Inside(c, BeforeStreak(b)))
  }

  ghost predicate CooldownMeaning(c: Thresholds, b: seq<bool>, left: nat) {
    && (forall t | 0 < t <= |b| && Departs(c, b[..t]) :: left >= c.cooldown - (|b| - t))
    && (left > 0 ==> exists t | 0 < t <= |b| && Departs(c, b[..t]) :: left == c.cooldown - (|b| - t))
  }

  lemma PrefixOfFront(b: seq<bool>)
    requires b != []
    ensures forall t | 0 <= t < |b| :: Front(b)[..t] == b[..t]
    ensures b[..|b|] == b
  {}

  lemma AnnouncedInside(c: Thresholds, b: seq<bool>)
    ensures AnnouncedVisit(c, b) ==> Inside(c, b)
  {
    assert b[..|b|] == b;
  }

  lemma AnnouncedOn(c: Thresholds, b: seq<bool>)
    requires b != [] && Inside(c, b) && (Announces(c, b) || AnnouncedVisit(c, Front(b)))
    ensures AnnouncedVisit(c, b)
  {
    hide Inside, Announces;
    PrefixOfFront(b);
    var p := Front(b);
    if Announces(c, b) {
      assert Announces(c, b[..|b|]);
    } else {
      var a :| 0 < a <= |p| && Announces(c, p[..a]) && forall t | a <= t <= |p| :: Inside(c, p[..t]);
      forall t | a <= t <= |b| ensures Inside(c, b[..t]) {
        if t < |b| { assert b[..t] == p[..t]; }
      }
      assert Announces(c, b[..a]);
    }
  }

  lemma AnnouncedBack(c: Thresholds, b: seq<bool>)
    requires b != [] && AnnouncedVisit(c, b)
    ensures Inside(c, b) && (Announces(c, b) || (Inside(c, Front(b)) && AnnouncedVisit(c, Front(b))))
  {
    hide Inside, Announces;
    PrefixOfFront(b);
    AnnouncedInside(c, b);
    var p := Front(b);
    var a :| 0 < a <= |b| && Announces(c, b[..a]) && forall t | a <= t <= |b| :: Inside(c, b[..t]);
    if a < |b| {
      assert Announces(c, p[..a]);
      forall t | a <= t <= |p| ensures Inside(c, p[..t]) { assert p[..t] == b[..t]; }
      AnnouncedInside(c, p);
    }
  }

  /** A visit is announced by its arrival, and stays so while it lasts. */
  lemma AnnouncedStep(c: Thresholds, b: seq<bool>)
    requires b != []
    ensures AnnouncedVisit(c, b) <==>
            Inside(c, b) && (Announces(c, b) || (Inside(c, Front(b)) && AnnouncedVisit(c, Front(b))))
  {
    hide Inside, Announces, AnnouncedVisit;
    if AnnouncedVisit(c, b) { AnnouncedBack(c, b); }
    if Inside(c, b) && (Announces(c, b) || AnnouncedVisit(c, Front(b))) { AnnouncedOn(c, b); }
  }

  lemma CooldownStep(c: Thresholds, b: seq<bool>, left: nat)
    requires c.Legal() && b != [] && CooldownMeaning(c, Front(b), left)
    ensures CooldownMeaning(c, b, if Departs(c, b) then c.cooldown else if left > 0 then left - 1 else 0)
    ensures (left <= 1) <==> Cooled(c, b)
  {
    PrefixOfFront(b);
    var p := Front(b);
    var now := if Departs(c, b) then c.cooldown else if left > 0 then left - 1 else 0;
    forall t | 0 < t <= |b| && Departs(c, b[..t]) ensures now >= c.cooldown - (|b| - t) {
      if t < |b| { assert p[..t] == b[..t]; }
    }
    if left > 0 {
      var t :| 0 < t <= |p| && Departs(c, p[..t]) && left == c.cooldown - (|p| - t);
      assert p[..t] == b[..t];
    }
    if now > 0 && Departs(c, b) {
      assert Departs(c, b[..|b|]);
    }
    forall t | 0 < t < |b| && Departs(c, b[..t]) ensures left >= c.cooldown - (|p| - t) {
      assert p[..t] == b[..t];
    }
  }

  lemma {:induction false} AfterMeans(c: Thresholds, b: seq<bool>)
    requires c.Legal()
    ensures Meaning(c, b, After(c, b))
  {
    if b == [] {
      assert !Inside(c, b);
    } else {
      AfterMeans(c, Front(b));
      MeansStep(c, b, After(c, Front(b)));
    }
  }

  lemma HitsWhenAbsent(c: Thresholds, b: seq<bool>, d: DeviceState)
    requires HitsMeaning(c, b, d) && d.state.Absent?
    ensures d.hits == Trailing(b, true)
  {}

  lemma StreakOneOn(b: seq<bool>)
    requires b != []
    ensures b[|b| - 1] ==>
              Trailing(b, true) == Trailing(Front(b), true) + 1 && BeforeStreak(b) == BeforeStreak(Front(b))
    ensures !b[|b| - 1] ==> Trailing(b, true) == 0 && BeforeStreak(b) == b
  {}

  lemma HitsStep(c: Thresholds, b: seq<bool>, d: DeviceState)
    requires c.Legal() && b != [] && HitsMeaning(c, Front(b), d)
    requires Window(c, d, b[|b| - 1]).next.state.Present? <==> Inside(c, b)
    ensures HitsMeaning(c, b, Window(c, d, b[|b| - 1]).next)
  {
    hide Inside, BeforeStreak, Trailing;
    StreakOneOn(b);
  }

  lemma MeansStep(c: Thresholds, b: seq<bool>, d: DeviceState)
    requires c.Legal() && b != [] && Meaning(c, Front(b), d)
    ensures Meaning(c, b, Window(c, d, b[|b| - 1]).next)
    ensures forall s :: Window(c, d, b[|b| - 1]).emitted == Some(s) <==> Emits(c, b, s)
  {
    hide Inside, HitsMeaning, CooldownMeaning, Cooled, AnnouncedVisit;
    InsideStep(c, b);
    AnnouncedStep(c, b);
    AnnouncedInside(c, Front(b));
    CooldownStep(c, b, d.cooldownRemaining);
    TrailingRun(b, true, c.appear);
    TrailingRun(b, false, c.disappear);
    if d.state.Absent? { HitsWhenAbsent(c, Front(b), d); }
    HitsStep(c, b, d);
  }

  /** The automaton emits exactly what the history says it should. */
  lemma OutputExact(c: Thresholds, b: seq<bool>, s: PresenceState)
    requires c.Legal() && b != []
    ensures Output(c, b) == Some(s) <==> Emits(c, b, s)
  {
    AfterMeans(c, Front(b));
    MeansStep(c, b, After(c, Front(b)));
  }
}
