/** How long live repair holds a route (internal/safety/live.go): what strikes out is held,
stays held until its time is up, and is left alone meanwhile.
 */
module LiveHolds {
  import opened Prefixes
  import opened Routes
  import opened Reconciling
  import opened Verification
  import opened LiveRepairing

  // ---------- one note ----------

  /** What a note makes of a route it found missing: held if that was the last strike,
      else sighted once, however often it is listed. */
  lemma {:induction false} SightAllAt(recs: Recs, missing: seq<Route>, now: int, r: Route)
    ensures r !in missing ==> (r in SightAll(recs, missing, now) <==> r in recs)
    ensures r !in missing && r in recs ==> SightAll(recs, missing, now)[r] == recs[r]
    ensures r in missing ==> r in SightAll(recs, missing, now)
    ensures r in missing && Strikes(RecOf(recs, r), now) ==>
              SightAll(recs, missing, now)[r].heldUntil == Some(now + HOLD)
    ensures r in missing && !Strikes(RecOf(recs, r), now) ==>
              SightAll(recs, missing, now)[r] == Sight(RecOf(recs, r), now)
  {
    if missing != [] {
      var n := |missing| - 1;
      assert missing == missing[..n] + [missing[n]];
      SightAllAt(recs, missing[..n], now, r);
      if r == missing[n] && r in missing[..n] {
        SightAgain(RecOf(recs, r), now);
        var rest := SightAll(recs, missing[..n], now);
        hide Strikes, SightAll;
        if !Strikes(RecOf(recs, r), now) { assert rest[r] == Sight(RecOf(recs, r), now); }
      }
    }
  }

  /** A second sighting at once changes nothing. */
  lemma {:induction false} SightAgain(rec: Rec, now: int)
    ensures !Strikes(rec, now) ==> Sight(Sight(rec, now), now) == Sight(rec, now) && !Strikes(Sight(rec, now), now)
    ensures forall x: Rec :: x.heldUntil == Some(now + HOLD) ==> Sight(x, now).heldUntil == Some(now + HOLD)
  {
  }

  /** A note starts to hold exactly the missing routes for which this is the last strike. */
  lemma {:induction false} NewlyHeldIff(recs: Recs, missing: seq<Route>, now: int, r: Route)
    ensures r in NewlyHeld(recs, missing, now) <==> r in missing && Strikes(RecOf(recs, r), now)
  {
    if missing != [] {
      var n := |missing| - 1;
      assert missing == missing[..n] + [missing[n]];
      NewlyHeldIff(recs, missing[..n], now, r);
      SightAllAt(recs, missing[..n], now, r);
      SightAgain(RecOf(recs, r), now);
      hide Strikes, SightAll;
    }
  }

  /** Whatever a note starts to hold is held from then on, for half an hour. */
  lemma {:induction false} NewlyHeldIsHeld(recs: Recs, missing: seq<Route>, now: int, r: Route)
    requires r in NewlyHeld(recs, missing, now)
    ensures r in SightAll(recs, missing, now) && SightAll(recs, missing, now)[r].heldUntil == Some(now + HOLD)
    ensures forall t :: now <= t < now + HOLD ==> r in HeldAt(SightAll(recs, missing, now), t)
  {
    var n := |missing| - 1;
    if r in NewlyHeld(recs, missing[..n], now) {
      NewlyHeldIsHeld(recs, missing[..n], now, r);
      SightAgain(SightAll(recs, missing[..n], now)[r], now);
    }
  }

  /** What a note leaves on record: a route just found missing; and of those it did not,
      exactly the ones whose hold is not over or that were sighted within the window, as
      they were. */
  lemma {:induction false} RecordsAreCurrent(recs: Recs, missing: seq<Route>, now: int, r: Route)
    ensures var after := SightAll(Forget(recs, now), missing, now);
            && (r in missing ==> r in after)
            && (r !in missing ==> (r in after <==>
                                   && r in recs
                                   && (|| (recs[r].heldUntil.Some? && now <= recs[r].heldUntil.value)
                                       || (recs[r].seen != [] && now - recs[r].seen[|recs[r].seen| - 1] <= WINDOW))))
            && (r !in missing && r in after ==> after[r] == recs[r])
  {
    SightAllAt(Forget(recs, now), missing, now, r);
  }

  /** A hold stands in every record until its time is up, whatever else is noted. */
  lemma {:induction false} HoldLasts(events: seq<Event>, n: nat, k: nat, r: Route, t: int)
    requires Chronological(events) && n < k <= |events| && r in HeldBy(events, n)
    requires events[k - 1].now <= t < events[n].now + HOLD
    ensures r in HeldAt(After(events[..k]), t)
    decreases k
  {
    var e := events[k - 1];
    assert events[..k][..k - 1] == events[..k - 1];
    if k - 1 == n {
      NewlyHeldIsHeld(Forget(After(events[..n]), e.now), e.missing, e.now, r);
    } else {
      HoldLasts(events, n, k - 1, r, t);
      var before := Forget(After(events[..k - 1]), e.now);
      SightAllAt(before, e.missing, e.now, r);
    }
  }

  // ---------- one look ----------

  lemma {:induction false} CountedHas(missing: seq<Managed>, o: Managed)
    requires o in missing && !o.origin.OfTunnel?
    ensures o.route in Counted(missing)
  {
    var n := |missing| - 1;
    assert missing == missing[..n] + [missing[n]];
    if o in missing[..n] { CountedHas(missing[..n], o); }
  }

  /** A loss counts exactly if the route is not held. */
  lemma {:induction false} LossCounts(recs: Recs, l: Look, o: Managed)
    requires LostIn(l, o)
    ensures o.route in Counted(Noted(recs, l)) <==> o.route !in HeldAt(recs, l.now)
  {
    JudgedMembers(Keys(l.desired), l.read, HeldAt(recs, l.now), Checked(l.tunnelsOnly), l.owned, {Missing}, o);
    if o.route !in HeldAt(recs, l.now) {
      CountedHas(Noted(recs, l), o);
    } else {
      HeldNotCounted(recs, l, o.route);
    }
  }

  lemma {:induction false} HeldNotCounted(recs: Recs, l: Look, r: Route)
    requires r in HeldAt(recs, l.now)
    ensures r !in Counted(Noted(recs, l))
  {
    if r in Counted(Noted(recs, l)) {
      CountedMembers(Noted(recs, l), r);
      var o :| o in Noted(recs, l) && !o.origin.OfTunnel? && o.route == r;
      JudgedMembers(Keys(l.desired), l.read, HeldAt(recs, l.now), Checked(l.tunnelsOnly), l.owned, {Missing}, o);
      assert false;
    }
  }

  /** A route the look does not count keeps its record, unless that is stale; one it counts
      is sighted. */
  lemma {:induction false} LookedAt(recs: Recs, l: Look, r: Route)
    ensures r !in Counted(Noted(recs, l)) && r in recs && !Stale(recs[r], l.now) ==>
              r in Looked(recs, l) && Looked(recs, l)[r] == recs[r]
    ensures r in Counted(Noted(recs, l)) ==>
              var rec := RecOf(Forget(recs, l.now), r);
              && r in Looked(recs, l)
              && (if Strikes(rec, l.now) then Looked(recs, l)[r].heldUntil == Some(l.now + HOLD)
                  else Looked(recs, l)[r] == Sight(rec, l.now))
  {
    hide Noted, Strikes, Sight;
    SightAllAt(Forget(recs, l.now), Counted(Noted(recs, l)), l.now, r);
  }

  /** A hold stands through every look until its time is up. */
  lemma {:induction false} HoldStands(recs: Recs, l: Look, r: Route, t: int)
    requires r in HeldAt(recs, t) && l.now <= t
    ensures r in HeldAt(Looked(recs, l), t) && Looked(recs, l)[r] == recs[r]
  {
    hide Noted, Looked;
    HeldNotCounted(recs, l, r);
    LookedAt(recs, l, r);
  }

  // ---------- three losses ----------

  /** r struck out between t1 and t3, and is held since. */
  ghost predicate HeldSince(recs: Recs, r: Route, t1: int, t3: int) {
    r in recs && recs[r].heldUntil.Some? && t1 + HOLD <= recs[r].heldUntil.value <= t3 + HOLD
  }

  /** One sighting is on record since t1: the one at t1. */
  ghost predicate OneSince(recs: Recs, r: Route, t1: int) {
    r in recs && !IsHeld(recs[r], t1) && recs[r].seen != [] && recs[r].seen[|recs[r].seen| - 1] == t1
  }

  /** Two are, the last of them no later than t2. */
  ghost predicate TwoSince(recs: Recs, r: Route, t1: int, t2: int) {
    && r in recs && !IsHeld(recs[r], t1) && |recs[r].seen| >= 2
    && t1 <= recs[r].seen[|recs[r].seen| - 2] && t1 <= recs[r].seen[|recs[r].seen| - 1] <= t2
  }

  /** A loss at now would be counted on its own: the route is not held, and the last sighting
      is not a moment ago. */
  ghost predicate Counts(recs: Recs, r: Route, now: int) {
    r !in HeldAt(recs, now) && !SameSighting(RecOf(recs, r), now)
  }

  lemma {:induction false} RecentLast(seen: seq<int>, now: int)
    requires seen != [] && now - seen[|seen| - 1] <= WINDOW
    ensures Recent(seen, now) != [] && Recent(seen, now)[|Recent(seen, now)| - 1] == seen[|seen| - 1]
    ensures |seen| >= 2 && now - seen[|seen| - 2] <= WINDOW ==> |Recent(seen, now)| >= 2
  {
    var n := |seen| - 1;
    if n > 0 && now - seen[n - 1] <= WINDOW {
      RecentLast(seen[..n], now);
    }
  }

  ghost predicate Lost(l: Look, r: Route) {
    exists o :: LostIn(l, o) && o.route == r
  }

  lemma {:induction false} FirstLoss(recs: Recs, l: Look, r: Route, t3: int)
    requires Lost(l, r) && Counts(recs, r, l.now) && l.now <= t3
    ensures HeldSince(Looked(recs, l), r, l.now, t3) || OneSince(Looked(recs, l), r, l.now)
  {
    hide Looked, LostIn;
    var o :| LostIn(l, o) && o.route == r;
    LossCounts(recs, l, o);
    LookedAt(recs, l, r);
  }

  /** Until t3, a look adds to what is on record since t1, or starts a hold. */
  lemma {:induction false} OneStands(recs: Recs, l: Look, r: Route, t1: int, t3: int)
    requires OneSince(recs, r, t1) && t1 <= l.now <= t3 <= t1 + WINDOW
    ensures var after := Looked(recs, l);
            HeldSince(after, r, t1, t3) || OneSince(after, r, t1) || TwoSince(after, r, t1, l.now)
    ensures Lost(l, r) && t1 + GAP <= l.now ==>
              HeldSince(Looked(recs, l), r, t1, t3) || TwoSince(Looked(recs, l), r, t1, l.now)
  {
    hide Looked, LostIn;
    LookedAt(recs, l, r);
    RecentLast(recs[r].seen, l.now);
    if Lost(l, r) {
      var o :| LostIn(l, o) && o.route == r;
      LossCounts(recs, l, o);
    }
  }

  lemma {:induction false} TwoStand(recs: Recs, l: Look, r: Route, t1: int, t2: int, t3: int)
    requires TwoSince(recs, r, t1, t2) && t1 <= l.now <= t3 <= t1 + WINDOW
    ensures HeldSince(Looked(recs, l), r, t1, t3) || TwoSince(Looked(recs, l), r, t1, t2)
    ensures Lost(l, r) && t2 + GAP <= l.now ==> HeldSince(Looked(recs, l), r, t1, t3)
  {
    hide Looked, LostIn;
    LookedAt(recs, l, r);
    RecentLast(recs[r].seen, l.now);
    if Lost(l, r) {
      var o :| LostIn(l, o) && o.route == r;
      LossCounts(recs, l, o);
    }
  }

  lemma {:induction false} SinceStands(recs: Recs, l: Look, r: Route, t1: int, t3: int)
    requires HeldSince(recs, r, t1, t3) && l.now < t1 + HOLD
    ensures HeldSince(Looked(recs, l), r, t1, t3) && r in HeldAt(recs, l.now)
  {
    HoldStands(recs, l, r, l.now);
  }

  /** The records after the first k looks. */
  function RecsAt(looks: seq<Look>, k: nat): Recs
    requires k <= |looks|
  {
    After(Notes(looks[..k]))
  }

  lemma {:induction false} RecsNext(looks: seq<Look>, k: nat)
    requires k < |looks|
    ensures RecsAt(looks, k + 1) == Looked(RecsAt(looks, k), looks[k])
  {
    hide After, Notes, Looked;
    assert looks[..k + 1] == looks[..k] + [looks[k]];
    LookStep(looks[..k], looks[k]);
  }

  /** The looks i1, i2 and i3 lost r, at least GAP apart and within WINDOW, and the first of
      these losses counted. */
  ghost predicate ThreeLosses(looks: seq<Look>, r: Route, i1: nat, i2: nat, i3: nat) {
    && i1 < i2 < i3 < |looks| && Lost(looks[i1], r) && Lost(looks[i2], r) && Lost(looks[i3], r)
    && looks[i1].now + GAP <= looks[i2].now && looks[i2].now + GAP <= looks[i3].now
    && looks[i3].now - looks[i1].now <= WINDOW
    && Counts(RecsAt(looks, i1), r, looks[i1].now)
  }

  lemma {:induction false} SinceFirst(looks: seq<Look>, r: Route, i1: nat, i2: nat, i3: nat, k: nat)
    requires InOrder(looks) && ThreeLosses(looks, r, i1, i2, i3) && i1 < k <= i2
    ensures var t1, t3 := looks[i1].now, looks[i3].now;
            HeldSince(RecsAt(looks, k), r, t1, t3) || OneSince(RecsAt(looks, k), r, t1) ||
            TwoSince(RecsAt(looks, k), r, t1, looks[k - 1].now)
    decreases k
  {
    hide RecsAt, Looked, HeldSince, OneSince, TwoSince, Lost, Counts;
    var t1, t3 := looks[i1].now, looks[i3].now;
    var recs, l := RecsAt(looks, k - 1), looks[k - 1];
    RecsNext(looks, k - 1);
    if k - 1 == i1 {
      FirstLoss(recs, l, r, t3);
    } else {
      SinceFirst(looks, r, i1, i2, i3, k - 1);
      if HeldSince(recs, r, t1, t3) {
        SinceStands(recs, l, r, t1, t3);
      } else if OneSince(recs, r, t1) {
        OneStands(recs, l, r, t1, t3);
      } else {
        TwoStand(recs, l, r, t1, looks[k - 2].now, t3);
        NoLater(Looked(recs, l), r, t1, looks[k - 2].now, l.now);
      }
    }
  }

  lemma {:induction false} NoLater(recs: Recs, r: Route, t1: int, t2: int, t: int)
    requires t2 <= t
    ensures TwoSince(recs, r, t1, t2) ==> TwoSince(recs, r, t1, t)
  {
  }

  lemma {:induction false} SinceSecond(looks: seq<Look>, r: Route, i1: nat, i2: nat, i3: nat, k: nat)
    requires InOrder(looks) && ThreeLosses(looks, r, i1, i2, i3) && i2 < k <= i3
    ensures var t1, t2, t3 := looks[i1].now, looks[i2].now, looks[i3].now;
            HeldSince(RecsAt(looks, k), r, t1, t3) || TwoSince(RecsAt(looks, k), r, t1, t2)
    decreases k
  {
    hide RecsAt, Looked, HeldSince, OneSince, TwoSince, Lost, Counts;
    var t1, t2, t3 := looks[i1].now, looks[i2].now, looks[i3].now;
    var recs, l := RecsAt(looks, k - 1), looks[k - 1];
    RecsNext(looks, k - 1);
    if k - 1 == i2 {
      SinceFirst(looks, r, i1, i2, i3, i2);
      if HeldSince(recs, r, t1, t3) {
        SinceStands(recs, l, r, t1, t3);
      } else if OneSince(recs, r, t1) {
        OneStands(recs, l, r, t1, t3);
      } else {
        NoLater(recs, r, t1, looks[k - 2].now, t2);
        TwoStand(recs, l, r, t1, t2, t3);
      }
    } else {
      SinceSecond(looks, r, i1, i2, i3, k - 1);
      if HeldSince(recs, r, t1, t3) {
        SinceStands(recs, l, r, t1, t3);
      } else {
        TwoStand(recs, l, r, t1, t2, t3);
      }
    }
  }

  /** Three losses hold: at the third the route is held, until half an hour after it struck
      out, between the first loss and the third. */
  lemma {:induction false} LostThriceIsHeld(looks: seq<Look>, r: Route, i1: nat, i2: nat, i3: nat)
    requires InOrder(looks) && ThreeLosses(looks, r, i1, i2, i3)
    ensures HeldSince(RecsAt(looks, i3 + 1), r, looks[i1].now, looks[i3].now)
  {
    hide RecsAt, Looked, HeldSince, OneSince, TwoSince, Lost, Counts;
    var t1, t2, t3 := looks[i1].now, looks[i2].now, looks[i3].now;
    var recs, l := RecsAt(looks, i3), looks[i3];
    RecsNext(looks, i3);
    SinceSecond(looks, r, i1, i2, i3, i3);
    if HeldSince(recs, r, t1, t3) {
      SinceStands(recs, l, r, t1, t3);
    } else {
      TwoStand(recs, l, r, t1, t2, t3);
    }
  }

  lemma {:induction false} HeldThrough(looks: seq<Look>, r: Route, j: nat, k: nat, t: int)
    requires InOrder(looks) && j <= k <= |looks| && r in HeldAt(RecsAt(looks, j), t)
    requires k > 0 ==> looks[k - 1].now <= t
    ensures r in HeldAt(RecsAt(looks, k), t)
    decreases k
  {
    hide RecsAt, Looked, HeldAt;
    if j < k {
      if k > 1 { assert looks[k - 2].now <= looks[k - 1].now; }
      HeldThrough(looks, r, j, k - 1, t);
      RecsNext(looks, k - 1);
      HoldStands(RecsAt(looks, k - 1), looks[k - 1], r, t);
    }
  }

  lemma {:induction false} InOrderBefore(looks: seq<Look>, l: Look)
    requires InOrder(looks + [l])
    ensures InOrder(looks) && forall i :: 0 <= i < |looks| ==> looks[i].now <= l.now
  {
    var all := looks + [l];
    forall i, j | 0 <= i < j < |looks|
      ensures looks[i].now <= looks[j].now
    {
      assert all[i] == looks[i] && all[j] == looks[j];
    }
    forall i | 0 <= i < |looks|
      ensures looks[i].now <= l.now
    {
      assert all[i] == looks[i] && all[|looks|] == l;
    }
  }

  /** While a hold lasts, whatever the looks meanwhile find, no plan made against what stands
      does anything at the route's destination, unless the route is a tunnel's. */
  lemma {:induction false} LeftAloneWhileHeld(looks: seq<Look>, j: nat, l: Look, rules: seq<ManagedRule>,
      actualRules: seq<ManagedRule>, o: Managed)
    requires InOrder(looks + [l]) && j <= |looks| && o.route in HeldAt(RecsAt(looks, j), l.now)
    requires UniqueDsts(l.owned) && UniqueDsts(l.desired) && o in l.owned && o.route in Keys(l.desired) && !o.origin.OfTunnel?
    ensures forall op :: op in Ops(Change(l.desired, Standing(After(Notes(looks)), l), rules, actualRules)) ==>
                         !Touches(op, DstKey(o.route))
  {
    hide Ops, UniqueDsts, HeldAt, After, Notes, Standing, Touches, Gone, InOrder;
    InOrderBefore(looks, l);
    HeldThrough(looks, o.route, j, |looks|, l.now);
    assert looks[..|looks|] == looks;
    PutBackIff(After(Notes(looks)), l, rules, actualRules, o);
  }

  /** So a route lost three times is left alone by every later look for at least half an hour
      after the first of them. */
  lemma {:induction false} LostThriceIsLeftAlone(looks: seq<Look>, i1: nat, i2: nat, i3: nat, l: Look,
      rules: seq<ManagedRule>, actualRules: seq<ManagedRule>, o: Managed)
    requires InOrder(looks + [l]) && ThreeLosses(looks, o.route, i1, i2, i3) && l.now < looks[i1].now + HOLD
    requires UniqueDsts(l.owned) && UniqueDsts(l.desired) && o in l.owned && o.route in Keys(l.desired) && !o.origin.OfTunnel?
    ensures forall op :: op in Ops(Change(l.desired, Standing(After(Notes(looks)), l), rules, actualRules)) ==>
                         !Touches(op, DstKey(o.route))
  {
    hide Ops, UniqueDsts, After, Notes, Standing, Touches, RecsAt, Lost, Counts, InOrder;
    InOrderBefore(looks, l);
    LostThriceIsHeld(looks, o.route, i1, i2, i3);
    LeftAloneWhileHeld(looks, i3 + 1, l, rules, actualRules, o);
  }

  // ---------- what is missed ----------

  function Missed(r: Route, t: int): Event {
    Event([r], t * SECOND)
  }

  /** Three sightings twenty seconds apart within ten minutes are not enough, if the first is
      taken for the same as one just before it: found missing at 0, 10, 300 and 605 seconds a
      route is not held, though the last three are 290 and 305 seconds apart. */
  lemma {:induction false} NotEveryThree(r: Route)
    ensures var events := [Missed(r, 0), Missed(r, 10), Missed(r, 300), Missed(r, 605)];
            && ThreeSightings(events, r, 10 * SECOND, 300 * SECOND, 605 * SECOND)
            && forall t :: r !in HeldAt(After(events), t)
  {
    MissedThrice(r);
    MissedButKept(r);
    hide After, HeldAt;
    NotHeld(r, Rec([300 * SECOND, 605 * SECOND], None));
  }

  lemma {:induction false} MissedThrice(r: Route)
    ensures var events := [Missed(r, 0), Missed(r, 10), Missed(r, 300), Missed(r, 605)];
            ThreeSightings(events, r, 10 * SECOND, 300 * SECOND, 605 * SECOND)
  {
    var events := [Missed(r, 0), Missed(r, 10), Missed(r, 300), Missed(r, 605)];
    assert r in [r];
    assert events[1] == Missed(r, 10);
    assert events[2] == Missed(r, 300);
    assert events[3] == Missed(r, 605);
  }

  lemma {:induction false} MissedButKept(r: Route)
    ensures After([Missed(r, 0), Missed(r, 10), Missed(r, 300), Missed(r, 605)]) ==
            map[r := Rec([300 * SECOND, 605 * SECOND], None)]
  {
    var e0, e1, e2, e3 := Missed(r, 0), Missed(r, 10), Missed(r, 300), Missed(r, 605);
    FourSights();
    NothingYet();
    hide After, Sight, Missed;
    NoteOne([], map[], r, 0);
    assert [e0] == [] + [e0];
    NoteOne([e0], map[r := Rec([0], None)], r, 10);
    assert [e0, e1] == [e0] + [e1];
    NoteOne([e0, e1], map[r := Rec([0], None)], r, 300);
    assert [e0, e1, e2] == [e0, e1] + [e2];
    NoteOne([e0, e1, e2], map[r := Rec([0, 300 * SECOND], None)], r, 605);
    assert [e0, e1, e2, e3] == [e0, e1, e2] + [e3];
  }

  lemma {:induction false} NothingYet()
    ensures After([]) == map[]
  {
  }

  lemma {:induction false} NotHeld(r: Route, rec: Rec)
    requires rec.heldUntil.None?
    ensures forall t :: r !in HeldAt(map[r := rec], t)
  {
  }

  lemma {:induction false} FourSights()
    ensures Sight(Rec([], None), 0) == Rec([0], None)
    ensures Sight(Rec([0], None), 10 * SECOND) == Rec([0], None)
    ensures Sight(Rec([0], None), 300 * SECOND) == Rec([0, 300 * SECOND], None)
    ensures Sight(Rec([0, 300 * SECOND], None), 605 * SECOND) == Rec([300 * SECOND, 605 * SECOND], None)
  {
    assert [0][..0] == [] && [0, 300 * SECOND][..1] == [0];
    assert Recent([0], 300 * SECOND) == [0];
    assert Recent([0], 605 * SECOND) == [];
    assert Recent([0, 300 * SECOND], 605 * SECOND) == [300 * SECOND];
  }

  lemma {:induction false} NoteOne(events: seq<Event>, recs: Recs, r: Route, t: int)
    requires After(events) == recs && recs.Keys <= {r}
    requires r in recs ==> recs[r].seen != [] && recs[r].seen[|recs[r].seen| - 1] + WINDOW >= t * SECOND
    ensures After(events + [Missed(r, t)]) == map[r := Sight(RecOf(recs, r), t * SECOND)]
  {
    hide Sight;
    assert (events + [Missed(r, t)])[..|events|] == events;
    assert [r][..0] == [];
    assert Forget(recs, t * SECOND) == recs;
    var rec := Sight(RecOf(recs, r), t * SECOND);
    assert SightAll(recs, [r], t * SECOND) == SightAll(recs, [], t * SECOND)[r := rec];
    assert recs[r := rec] == map[r := rec];
  }
}
