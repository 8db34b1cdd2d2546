/** Live repair (internal/safety/live.go): a route another program keeps removing is held
for a while instead of being put back for ever. Times are in nanoseconds.
 */
module LiveRepairing {
  import opened Prefixes
  import opened Routes
  import opened Reconciling
  import opened Verification

  const SECOND := 1_000_000_000
  const STRIKES := 3
  const WINDOW := 600 * SECOND
  const HOLD := 1800 * SECOND
  const GAP := 20 * SECOND

  /** Sightings counted so far, and until when the route is held. */
  datatype Rec = Rec(seen: seq<int>, heldUntil: Option<int>)

  type Recs = map<Route, Rec>

  predicate IsHeld(rec: Rec, now: int) {
    rec.heldUntil.Some? && now < rec.heldUntil.value
  }

  /** held. */
  function HeldAt(recs: Recs, now: int): set<Route> {
    set r | r in recs && IsHeld(recs[r], now)
  }

  /** Its hold is over, and it stopped going missing. */
  predicate Stale(rec: Rec, now: int) {
    && (rec.heldUntil.None? || now > rec.heldUntil.value)
    && (rec.seen == [] || now - rec.seen[|rec.seen| - 1] > WINDOW)
  }

  function Forget(recs: Recs, now: int): Recs {
    map r | r in recs && !Stale(recs[r], now) :: recs[r]
  }

  function Recent(seen: seq<int>, now: int): seq<int> {
    if seen == [] then []
    else
      var rest := Recent(seen[..|seen| - 1], now);
      if now - seen[|seen| - 1] <= WINDOW then rest + [seen[|seen| - 1]] else rest
  }

  function RecOf(recs: Recs, r: Route): Rec {
    if r in recs then recs[r] else Rec([], None)
  }

  /** A sighting closer than GAP to the last one is the same sighting. */
  predicate SameSighting(rec: Rec, now: int) {
    rec.seen != [] && now - rec.seen[|rec.seen| - 1] < GAP
  }

  /** This sighting is the last strike. */
  predicate Strikes(rec: Rec, now: int) {
    !SameSighting(rec, now) && |Recent(rec.seen, now)| + 1 >= STRIKES
  }

  function Sight(rec: Rec, now: int): Rec {
    if SameSighting(rec, now) then rec
    else if Strikes(rec, now) then Rec([], Some(now + HOLD))
    else rec.(seen := Recent(rec.seen, now) + [now])
  }

  function SightAll(recs: Recs, missing: seq<Route>, now: int): Recs {
    if missing == [] then recs
    else
      var rest := SightAll(recs, missing[..|missing| - 1], now);
      var r := missing[|missing| - 1];
      rest[r := Sight(RecOf(rest, r), now)]
  }

  function NewlyHeld(recs: Recs, missing: seq<Route>, now: int): seq<Route> {
    if missing == [] then []
    else
      var n := |missing| - 1;
      var rest := NewlyHeld(recs, missing[..n], now);
      if Strikes(RecOf(SightAll(recs, missing[..n], now), missing[n]), now) then rest + [missing[n]] else rest
  }

  class LiveRepair {
    var recs: Recs

    constructor ()
      ensures recs == map[]
    {
      recs := map[];
    }

    static method KeepRecent(seen: seq<int>, now: int) returns (recent: seq<int>)
      ensures recent == Recent(seen, now)
    {
      recent := [];
      for j := 0 to |seen|
        invariant recent == Recent(seen[..j], now)
      {
        assert seen[..j + 1][..j] == seen[..j];
        if now - seen[j] <= WINDOW {
          recent := recent + [seen[j]];
        }
      }
      assert seen[..|seen|] == seen;
    }

    /** One route found missing; whether this starts holding it. */
    method SightOne(r: Route, now: int) returns (struck: bool)
      modifies this
      ensures recs == old(recs)[r := Sight(RecOf(old(recs), r), now)]
      ensures struck == Strikes(RecOf(old(recs), r), now)
    {
      if r !in recs {
        recs := recs[r := Rec([], None)];
      }
      var rec := recs[r];
      if |rec.seen| > 0 && now - rec.seen[|rec.seen| - 1] < GAP {
        return false;
      }
      var recent := KeepRecent(rec.seen, now);
      struck := |recent| + 1 >= STRIKES;
      if struck {
        recs := recs[r := Rec([], Some(now + HOLD))];
      } else {
        recs := recs[r := rec.(seen := recent + [now])];
      }
    }

    /** note: what was found missing at now; returns what it starts holding. */
    method Note(missing: seq<Route>, now: int) returns (newlyHeld: seq<Route>)
      modifies this
      ensures recs == SightAll(Forget(old(recs), now), missing, now)
      ensures newlyHeld == NewlyHeld(Forget(old(recs), now), missing, now)
    {
      hide Sight, Strikes, Forget;
      recs := Forget(recs, now);
      ghost var start := recs;
      newlyHeld := [];
      for i := 0 to |missing|
        invariant recs == SightAll(start, missing[..i], now)
        invariant newlyHeld == NewlyHeld(start, missing[..i], now)
      {
        assert missing[..i + 1][..i] == missing[..i];
        var struck := SightOne(missing[i], now);
        if struck {
          newlyHeld := newlyHeld + [missing[i]];
        }
      }
      assert missing[..|missing|] == missing;
    }

    /** installed: the owned routes that stand, those to put back left out; with note,
        the missing ones that are not a tunnel's count toward a hold. */
    method Installed(look: Look) returns (kept: seq<Managed>)
      modifies this
      ensures kept == Standing(old(recs), look)
      ensures recs == Looked(old(recs), look)
    {
      var missing, taken, looked;
      kept, missing, taken, looked :=
        VerifyRoutes(look.owned, look.desired, look.read, HeldAt(recs, look.now), Checked(look.tunnelsOnly));
      if look.note && |missing| > 0 {
        var counted: seq<Route> := [];
        for i := 0 to |missing|
          invariant counted == Counted(missing[..i])
          invariant recs == old(recs)
        {
          assert missing[..i + 1][..i] == missing[..i];
          if !missing[i].origin.OfTunnel? {
            counted := counted + [missing[i].route];
          }
        }
        assert missing[..|missing|] == missing;
        var newlyHeld := Note(counted, look.now);
      }
    }

    /** Look after look, from nothing on record: the records are those of the run's notes,
        and each look stands by what was on record before it. */
    method Watch(looks: seq<Look>) returns (kept: seq<seq<Managed>>)
      requires recs == map[]
      modifies this
      ensures recs == After(Notes(looks))
      ensures |kept| == |looks| && forall i :: 0 <= i < |looks| ==> kept[i] == Standing(After(Notes(looks[..i])), looks[i])
    {
      hide Standing, Looked, Notes, After;
      kept := [];
      NothingNoted();
      assert looks[..0] == [];
      for i := 0 to |looks|
        invariant recs == After(Notes(looks[..i])) && |kept| == i
        invariant forall j :: 0 <= j < i ==> kept[j] == Standing(After(Notes(looks[..j])), looks[j])
      {
        LookStep(looks[..i], looks[i]);
        assert looks[..i] + [looks[i]] == looks[..i + 1];
        var stands := Installed(looks[i]);
        kept := kept + [stands];
      }
      assert looks[..|looks|] == looks;
    }
  }

  /** One look at the kernel: what is owned and desired, what a read of each table gives,
      whether what is missing counts, and whether only tunnels' routes are looked for. */
  datatype Look = Look(owned: seq<Managed>, desired: seq<Managed>, read: Family -> Option<seq<Listed>>, now: int,
                       note: bool, tunnelsOnly: bool)

  function Standing(recs: Recs, l: Look): seq<Managed> {
    Judged(Keys(l.desired), l.read, HeldAt(recs, l.now), Checked(l.tunnelsOnly), l.owned, {Keep, Taken})
  }

  /** What a look that counts finds missing. */
  function Noted(recs: Recs, l: Look): seq<Managed> {
    if l.note then Judged(Keys(l.desired), l.read, HeldAt(recs, l.now), Checked(l.tunnelsOnly), l.owned, {Missing}) else []
  }

  /** Which owned routes are checked: a tunnel's apply checks only the tunnels'. */
  function Checked(tunnelsOnly: bool): Managed -> bool {
    (m: Managed) => !tunnelsOnly || m.origin.OfTunnel?
  }

  function Counted(missing: seq<Managed>): seq<Route> {
    if missing == [] then []
    else
      var rest := Counted(missing[..|missing| - 1]);
      if missing[|missing| - 1].origin.OfTunnel? then rest else rest + [missing[|missing| - 1].route]
  }

  /** What a look leaves on record. */
  function Looked(recs: Recs, l: Look): Recs {
    if Noted(recs, l) == [] then recs else SightAll(Forget(recs, l.now), Counted(Noted(recs, l)), l.now)
  }

  // ---------- every run ----------

  datatype Event = Event(missing: seq<Route>, now: int)

  function After(events: seq<Event>): Recs {
    if events == [] then map[]
    else
      var e := events[|events| - 1];
      SightAll(Forget(After(events[..|events| - 1]), e.now), e.missing, e.now)
  }

  /** What the n-th event starts holding. */
  function HeldBy(events: seq<Event>, n: nat): seq<Route>
    requires n < |events|
  {
    NewlyHeld(Forget(After(events[..n]), events[n].now), events[n].missing, events[n].now)
  }

  ghost predicate Chronological(events: seq<Event>) {
    forall i, j :: 0 <= i < j < |events| ==> events[i].now <= events[j].now
  }

  /** r was found missing at t. */
  ghost predicate SightedAt(events: seq<Event>, r: Route, t: int) {
    exists i :: 0 <= i < |events| && events[i].now == t && r in events[i].missing
  }

  /** Sightings in order, at least GAP apart. */
  ghost predicate Spaced(seen: seq<int>) {
    forall i, j :: 0 <= i < j < |seen| ==> seen[i] + GAP <= seen[j]
  }

  /** A pending record: fewer than three sightings, in order, spaced, none later than now,
      and each a real one. */
  ghost predicate Pending(events: seq<Event>, r: Route, rec: Rec, now: int) {
    && |rec.seen| < STRIKES && Spaced(rec.seen)
    && forall t :: t in rec.seen ==> t <= now && SightedAt(events, r, t)
  }

  ghost predicate AllPending(events: seq<Event>, recs: Recs, now: int) {
    forall r :: r in recs ==> Pending(events, r, recs[r], now)
  }

  lemma {:induction false} RecentKeeps(seen: seq<int>, now: int)
    requires Spaced(seen)
    ensures Spaced(Recent(seen, now)) && |Recent(seen, now)| <= |seen|
    ensures forall t :: t in Recent(seen, now) ==> t in seen && now - t <= WINDOW
  {
    if seen != [] {
      var n := |seen| - 1;
      RecentKeeps(seen[..n], now);
      var rest := Recent(seen[..n], now);
      forall i | 0 <= i < |rest|
        ensures rest[i] + GAP <= seen[n]
      {
        assert rest[i] in rest;
        var j :| 0 <= j < n && seen[j] == rest[i];
      }
    }
  }

  lemma {:induction false} SightKeeps(events: seq<Event>, r: Route, rec: Rec, now: int)
    requires Pending(events, r, rec, now) && SightedAt(events, r, now)
    ensures Pending(events, r, Sight(rec, now), now)
  {
    RecentKeeps(rec.seen, now);
    if !SameSighting(rec, now) && !Strikes(rec, now) {
      var recent := Recent(rec.seen, now);
      forall i | 0 <= i < |recent|
        ensures recent[i] + GAP <= now
      {
        assert recent[i] in recent;
        var j :| 0 <= j < |rec.seen| && rec.seen[j] == recent[i];
      }
    }
  }

  lemma {:induction false} SightAllKeeps(events: seq<Event>, recs: Recs, missing: seq<Route>, now: int)
    requires AllPending(events, recs, now) && forall r :: r in missing ==> SightedAt(events, r, now)
    ensures AllPending(events, SightAll(recs, missing, now), now)
  {
    if missing != [] {
      var n := |missing| - 1;
      assert forall r :: r in missing[..n] ==> r in missing;
      SightAllKeeps(events, recs, missing[..n], now);
      var rest := SightAll(recs, missing[..n], now);
      assert missing[n] in missing;
      SightKeeps(events, missing[n], RecOf(rest, missing[n]), now);
    }
  }

  lemma {:induction false} LongerHistory(events: seq<Event>, e: Event, recs: Recs, now: int)
    requires AllPending(events, recs, now) && now <= e.now
    ensures AllPending(events + [e], recs, e.now)
  {
    forall r, t | r in recs && t in recs[r].seen
      ensures SightedAt(events + [e], r, t)
    {
      assert Pending(events, r, recs[r], now);
      var i :| 0 <= i < |events| && events[i].now == t && r in events[i].missing;
      assert (events + [e])[i] == events[i];
    }
    forall r | r in recs
      ensures Pending(events + [e], r, recs[r], e.now)
    {
      assert Pending(events, r, recs[r], now);
    }
  }

  /** Over every run, what is pending is ordered, spaced, real and short of three. */
  lemma {:induction false} PendingAlways(events: seq<Event>)
    requires Chronological(events) && events != []
    ensures AllPending(events, After(events), events[|events| - 1].now)
  {
    var n := |events| - 1;
    var e := events[n];
    BeforeNote(events, n);
    assert events[..n + 1] == events;
    forall r | r in e.missing
      ensures SightedAt(events, r, e.now)
    {
      assert events[n] == e;
    }
    SightAllKeeps(events, Forget(After(events[..n]), e.now), e.missing, e.now);
  }

  lemma {:induction false} BeforeNote(events: seq<Event>, n: nat)
    requires Chronological(events) && n < |events|
    ensures AllPending(events[..n + 1], Forget(After(events[..n]), events[n].now), events[n].now)
    decreases n
  {
    var e := events[n];
    var past := events[..n];
    assert events[..n + 1] == past + [e];
    if n > 0 {
      BeforeNote(events, n - 1);
      var p := events[n - 1];
      var recs := Forget(After(past[..n - 1]), p.now);
      assert past[..n - 1] == events[..n - 1];
      forall r | r in p.missing
        ensures SightedAt(past, r, p.now)
      {
        assert past[n - 1] == p;
      }
      SightAllKeeps(past, recs, p.missing, p.now);
      LongerHistory(past, e, After(past), p.now);
    }
  }

  /** Three sightings, at least GAP apart, within WINDOW, the last at now. */
  ghost predicate ThreeSightings(events: seq<Event>, r: Route, t1: int, t2: int, now: int) {
    && SightedAt(events, r, t1) && SightedAt(events, r, t2) && SightedAt(events, r, now)
    && t1 + GAP <= t2 && t2 + GAP <= now && now - t1 <= WINDOW
  }

  ghost predicate StruckOut(events: seq<Event>, r: Route, now: int) {
    exists t1, t2 :: ThreeSightings(events, r, t1, t2, now)
  }

  lemma {:induction false} NewlyHeldMeans(events: seq<Event>, recs: Recs, missing: seq<Route>, now: int, r: Route)
    requires AllPending(events, recs, now) && (forall r :: r in missing ==> SightedAt(events, r, now))
    requires r in NewlyHeld(recs, missing, now)
    ensures StruckOut(events, r, now)
  {
    var n := |missing| - 1;
    assert forall r :: r in missing[..n] ==> r in missing;
    assert missing[n] in missing;
    if r in NewlyHeld(recs, missing[..n], now) {
      NewlyHeldMeans(events, recs, missing[..n], now, r);
    } else {
      SightAllKeeps(events, recs, missing[..n], now);
      var rec := RecOf(SightAll(recs, missing[..n], now), r);
      assert Pending(events, r, rec, now);
      RecentKeeps(rec.seen, now);
      var recent := Recent(rec.seen, now);
      var t1, t2 := recent[0], recent[1];
      assert t1 in recent && t2 in recent;
      var j :| 0 <= j < |rec.seen| && rec.seen[j] == t2;
      assert ThreeSightings(events, r, t1, t2, now);
    }
  }

  /** Over every run with time going forward, a route becomes held only at a sighting that
      is the third of three at least twenty seconds apart within ten minutes. */
  lemma {:induction false} HeldOnlyAfterThree(events: seq<Event>, n: nat, r: Route)
    requires Chronological(events) && n < |events| && r in HeldBy(events, n)
    ensures StruckOut(events[..n + 1], r, events[n].now)
  {
    var e := events[n];
    BeforeNote(events, n);
    forall r | r in e.missing
      ensures SightedAt(events[..n + 1], r, e.now)
    {
      assert events[..n + 1][n] == e;
    }
    NewlyHeldMeans(events[..n + 1], Forget(After(events[..n]), e.now), e.missing, e.now, r);
  }

  /** And what a note leaves held was held before, or starts to be now, for half an hour. */
  lemma {:induction false} HeldComesFromNote(recs: Recs, missing: seq<Route>, now: int, t: int, r: Route)
    requires r in SightAll(recs, missing, now) && IsHeld(SightAll(recs, missing, now)[r], t)
    ensures (r in recs && IsHeld(recs[r], t)) || (r in NewlyHeld(recs, missing, now) && t < now + HOLD)
  {
    if missing != [] {
      var n := |missing| - 1;
      var rest := SightAll(recs, missing[..n], now);
      if r != missing[n] {
        HeldComesFromNote(recs, missing[..n], now, t, r);
      } else if !Strikes(RecOf(rest, r), now) {
        HeldComesFromNote(recs, missing[..n], now, t, r);
      }
    }
  }

  /** r started to be held at event n, its third sighting, and that hold lasts beyond t. */
  ghost predicate StruckAt(events: seq<Event>, r: Route, n: nat, t: int) {
    && n < |events| && r in HeldBy(events, n) && t < events[n].now + HOLD
    && StruckOut(events[..n + 1], r, events[n].now)
  }

  lemma {:induction false} StruckBefore(events: seq<Event>, k: nat, r: Route, n: nat, t: int)
    requires k <= |events| && StruckAt(events[..k], r, n, t)
    ensures StruckAt(events, r, n, t)
  {
    assert events[..k][..n] == events[..n] && events[..k][..n + 1] == events[..n + 1];
  }

  /** Whatever is held at some time, in any run, struck out less than half an hour before. */
  lemma {:induction false} HeldMeansStruckOut(events: seq<Event>, r: Route, t: int)
    requires Chronological(events) && r in HeldAt(After(events), t)
    ensures exists n: nat :: StruckAt(events, r, n, t)
  {
    var k := |events| - 1;
    var e := events[k];
    var before := Forget(After(events[..k]), e.now);
    HeldComesFromNote(before, e.missing, e.now, t, r);
    if r in HeldBy(events, k) && t < e.now + HOLD {
      HeldOnlyAfterThree(events, k, r);
      assert StruckAt(events, r, k, t);
    } else {
      assert r in HeldAt(After(events[..k]), t);
      hide StruckAt, After, HeldAt;
      HeldMeansStruckOut(events[..k], r, t);
      var n: nat :| StruckAt(events[..k], r, n, t);
      StruckBefore(events, k, r, n, t);
    }
  }

  // ---------- every run of looks ----------

  /** The notes a run of looks makes: one for each look that finds something missing. */
  function Notes(looks: seq<Look>): seq<Event> {
    if looks == [] then []
    else
      var before, l := Notes(looks[..|looks| - 1]), looks[|looks| - 1];
      var missing := Noted(After(before), l);
      if missing == [] then before else before + [Event(Counted(missing), l.now)]
  }

  lemma {:induction false} NothingNoted()
    ensures After(Notes([])) == map[]
  {
  }

  lemma {:induction false} NotedNext(before: seq<Event>, l: Look)
    ensures var e := Event(Counted(Noted(After(before), l)), l.now);
            After(if Noted(After(before), l) == [] then before else before + [e]) == Looked(After(before), l)
  {
    hide Noted, Counted, SightAll, Forget;
    var e := Event(Counted(Noted(After(before), l)), l.now);
    assert (before + [e])[..|before|] == before;
  }

  /** The records a run of looks leaves are those of its notes: each look changes them as
      installed does. */
  lemma {:induction false} LookStep(looks: seq<Look>, l: Look)
    ensures After(Notes(looks + [l])) == Looked(After(Notes(looks)), l)
  {
    hide Noted, Counted, SightAll, Forget, Looked;
    assert (looks + [l])[..|looks|] == looks;
    NotedNext(Notes(looks), l);
  }

  ghost predicate InOrder(looks: seq<Look>) {
    forall i, j :: 0 <= i < j < |looks| ==> looks[i].now <= looks[j].now
  }

  lemma {:induction false} NotesInOrder(looks: seq<Look>)
    requires InOrder(looks)
    ensures Chronological(Notes(looks))
    ensures forall e :: e in Notes(looks) ==> exists i :: 0 <= i < |looks| && looks[i].now == e.now
  {
    hide After, Noted, Counted;
    if looks != [] {
      var n := |looks| - 1;
      NotesInOrder(looks[..n]);
      var before := Notes(looks[..n]);
      forall e | e in before
        ensures e.now <= looks[n].now && exists i :: 0 <= i < |looks| && looks[i].now == e.now
      {
        var i :| 0 <= i < n && looks[i].now == e.now;
      }
      assert forall i :: 0 <= i < |before| ==> before[i] in before;
    }
  }

  /** At t a look that counts, and not for the tunnels alone, found r gone from the kernel,
      with nothing in its place, though it is owned — by other than a tunnel — and wanted. */
  ghost predicate LostAt(looks: seq<Look>, r: Route, t: int) {
    exists i, o :: 0 <= i < |looks| && looks[i].now == t && LostIn(looks[i], o) && o.route == r
  }

  ghost predicate LostIn(l: Look, o: Managed) {
    && l.note && !l.tunnelsOnly && o in l.owned && !o.origin.OfTunnel? && o.route in Keys(l.desired)
    && l.read(o.route.dst.fam).Some?
    && !Holding(l.read(o.route.dst.fam).value, o.route) && !Outranked(l.read(o.route.dst.fam).value, o)
  }

  lemma {:induction false} CountedMembers(missing: seq<Managed>, r: Route)
    requires r in Counted(missing)
    ensures exists o :: o in missing && !o.origin.OfTunnel? && o.route == r
  {
    var n := |missing| - 1;
    assert missing == missing[..n] + [missing[n]];
    if r in Counted(missing[..n]) { CountedMembers(missing[..n], r); }
  }

  lemma {:induction false} NotedIsLost(recs: Recs, l: Look, r: Route)
    requires r in Counted(Noted(recs, l))
    ensures exists o :: LostIn(l, o) && o.route == r
  {
    CountedMembers(Noted(recs, l), r);
    var o :| o in Noted(recs, l) && !o.origin.OfTunnel? && o.route == r;
    JudgedMembers(Keys(l.desired), l.read, HeldAt(recs, l.now), Checked(l.tunnelsOnly), l.owned, {Missing}, o);
    assert LostIn(l, o);
  }

  lemma {:induction false} LostEarlier(looks: seq<Look>, n: nat, r: Route, t: int)
    requires n <= |looks| && LostAt(looks[..n], r, t)
    ensures LostAt(looks, r, t)
  {
    hide LostIn;
    var j, o :| 0 <= j < n && looks[..n][j].now == t && LostIn(looks[..n][j], o) && o.route == r;
    assert looks[j] == looks[..n][j];
  }

  lemma {:induction false} SightedIsLost(looks: seq<Look>, r: Route, t: int)
    requires SightedAt(Notes(looks), r, t)
    ensures LostAt(looks, r, t)
  {
    hide After, Noted, Counted, LostAt, LostIn;
    var n := |looks| - 1;
    var before, l := Notes(looks[..n]), looks[n];
    var i :| 0 <= i < |Notes(looks)| && Notes(looks)[i].now == t && r in Notes(looks)[i].missing;
    if i < |before| {
      assert Notes(looks)[i] == before[i];
      assert SightedAt(before, r, t);
      SightedIsLost(looks[..n], r, t);
      LostEarlier(looks, n, r, t);
    } else {
      NotedIsLost(After(before), l, r);
      LastIsLost(looks, r);
    }
  }

  lemma {:induction false} LastIsLost(looks: seq<Look>, r: Route)
    requires looks != [] && exists o :: LostIn(looks[|looks| - 1], o) && o.route == r
    ensures LostAt(looks, r, looks[|looks| - 1].now)
  {
    hide LostIn;
    var o :| LostIn(looks[|looks| - 1], o) && o.route == r;
  }

  /** Three losses at least GAP apart within WINDOW, the last less than HOLD before t. */
  ghost predicate LostThrice(looks: seq<Look>, r: Route, t1: int, t2: int, t3: int, t: int) {
    && LostAt(looks, r, t1) && LostAt(looks, r, t2) && LostAt(looks, r, t3)
    && t1 + GAP <= t2 && t2 + GAP <= t3 && t3 - t1 <= WINDOW && t < t3 + HOLD
  }

  lemma {:induction false} LaterSighting(events: seq<Event>, n: nat, r: Route, t: int)
    requires n <= |events| && SightedAt(events[..n], r, t)
    ensures SightedAt(events, r, t)
  {
    var i :| 0 <= i < n && events[..n][i].now == t && r in events[..n][i].missing;
    assert events[i] == events[..n][i];
  }

  /** Over every run of looks with time going forward, a route is held only if it was lost
      three times, each while owned by other than a tunnel: a route only tunnels own is
      never held. */
  lemma {:induction false} HeldOnlyIfLost(looks: seq<Look>, r: Route, t: int)
    requires InOrder(looks) && r in HeldAt(After(Notes(looks)), t)
    ensures exists t1, t2, t3 :: LostThrice(looks, r, t1, t2, t3, t)
  {
    hide Notes, After, LostAt, SightedAt, HeldAt, InOrder, HeldBy;
    var events := Notes(looks);
    NotesInOrder(looks);
    HeldMeansStruckOut(events, r, t);
    var n: nat :| StruckAt(events, r, n, t);
    var t3 := events[n].now;
    var t1, t2 :| ThreeSightings(events[..n + 1], r, t1, t2, t3);
    LaterSighting(events, n + 1, r, t1);
    LaterSighting(events, n + 1, r, t2);
    LaterSighting(events, n + 1, r, t3);
    SightedIsLost(looks, r, t1);
    SightedIsLost(looks, r, t2);
    SightedIsLost(looks, r, t3);
    assert LostThrice(looks, r, t1, t2, t3, t);
  }

  /** A look that reads the table and looks for o finds it gone, with nothing in its place. */
  predicate Gone(l: Look, o: Managed) {
    && l.read(o.route.dst.fam).Some? && Checked(l.tunnelsOnly)(o)
    && !Holding(l.read(o.route.dst.fam).value, o.route) && !Outranked(l.read(o.route.dst.fam).value, o)
  }

  /** Whatever is on record: the plan made against what stands adds a wanted route that is
      gone, if it is a tunnel's or not held; and does nothing at any other wanted route's
      destination. */
  lemma {:induction false} PutBackIff(recs: Recs, l: Look, rules: seq<ManagedRule>, actualRules: seq<ManagedRule>,
      o: Managed)
    requires UniqueDsts(l.owned) && UniqueDsts(l.desired) && o in l.owned && o.route in Keys(l.desired)
    ensures var ops := Ops(Change(l.desired, Standing(recs, l), rules, actualRules));
            if Gone(l, o) && (o.origin.OfTunnel? || o.route !in HeldAt(recs, l.now))
            then exists d :: d in l.desired && d.route == o.route && AddRouteOp(d) in ops
            else forall op :: op in ops ==> !Touches(op, DstKey(o.route))
  {
    hide Ops, UniqueDsts, Holding, Outranked;
    RepairPutsBack(l.owned, l.desired, rules, actualRules, l.read, HeldAt(recs, l.now), Checked(l.tunnelsOnly), o);
  }

  /** So over any run of looks, a route that was not lost three times while owned by other
      than a tunnel is put back by the next look that finds it gone — a tunnel's whatever
      was lost. */
  lemma {:induction false} PutBackUnlessLost(looks: seq<Look>, l: Look, rules: seq<ManagedRule>,
      actualRules: seq<ManagedRule>, o: Managed)
    requires InOrder(looks) && UniqueDsts(l.owned) && UniqueDsts(l.desired) && o in l.owned && o.route in Keys(l.desired)
    requires Gone(l, o)
    requires o.origin.OfTunnel? || !exists t1, t2, t3 :: LostThrice(looks, o.route, t1, t2, t3, l.now)
    ensures exists d :: d in l.desired && d.route == o.route &&
                        AddRouteOp(d) in Ops(Change(l.desired, Standing(After(Notes(looks)), l), rules, actualRules))
  {
    hide Ops, UniqueDsts, Gone, LostThrice, InOrder, After, Notes;
    var recs := After(Notes(looks));
    PutBackIff(recs, l, rules, actualRules, o);
    if o.route in HeldAt(recs, l.now) { HeldOnlyIfLost(looks, o.route, l.now); }
  }
}
