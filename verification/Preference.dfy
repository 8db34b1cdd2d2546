/** Which profile an address follows when profiles set gateways of their own: the answer
of both rebuilds for every input, and exactly when the two agree.
 */
module Preference {
  import opened KeyOrder
  import opened Prefixes
  import opened Aggregation
  import opened Subtraction
  import opened Routes
  import opened Planner
  import opened PlannerSafety
  import opened Desired
  import opened Incremental

  // ---------- the reference ----------

  /** The block of a list that holds an address. */
  function BlockAround(blocks: seq<Prefix>, a: Addr): Option<Prefix> {
    if blocks == [] then None
    else
      var rest, b := BlockAround(blocks[..|blocks| - 1], a), blocks[|blocks| - 1];
      if rest.None? && Contains(b, a) then Some(b) else rest
  }

  /** The second of two routes, if it is the longer one. */
  function Narrower(best: Option<Route>, r: Option<Route>): Option<Route> {
    if r.Some? && (best.None? || |r.value.dst.bits| > |best.value.dst.bits|) then r else best
  }

  /** The second of two routes, if it is the longer one or, of equal ones, has the smaller
      key. */
  function Ahead(w: Writing, best: Option<Route>, r: Option<Route>): Option<Route> {
    if r.Some? && best.Some? && |r.value.dst.bits| == |best.value.dst.bits| && TextLess(RouteKey(w, r.value), RouteKey(w, best.value))
    then r else Narrower(best, r)
  }

  /** The route a profile has for an address when its list leaves out what lies inside
      cut: its aggregated block, by its gateway. */
  function ProfileRoute(d: DesiredInput, cut: seq<Prefix>, p: Profile, a: Addr): Option<Route> {
    if !p.enabled || !p.mode.Exclude? then None
    else match (ResolveGateway(p.gateway, a.fam, d.net), BlockAround(MaximalBlocks(Excluded(p, cut, a.fam)), a))
      case (Some(hop), Some(b)) => Some(Route(MAIN, b, hop))
      case _ => None
  }

  /** Of the profiles, the one with the narrowest block around an address; of those, the one
      whose route has the smallest key. */
  function Preferred(d: DesiredInput, cut: seq<Prefix>, ps: seq<Profile>, a: Addr): Option<Route> {
    if ps == [] then None
    else Ahead(d.writing, Preferred(d, cut, ps[..|ps| - 1], a), ProfileRoute(d, cut, ps[|ps| - 1], a))
  }

  function HopOf(r: Option<Route>): Option<Hop> {
    match r case None => None case Some(r) => Some(r.hop)
  }

  function RouteOf(m: Option<Managed>): Option<Route> {
    match m case None => None case Some(m) => Some(m.route)
  }

  /** Where an address goes: inside the tunnels' networks as the plan decides; elsewhere by
      the preferred profile, unless the plan pins the address and that profile's block is
      wider than the address. */
  function Lead(d: DesiredInput, cut: seq<Prefix>, a: Addr): Option<Hop> {
    var tp := Plan(d.net);
    var planned := RouteOf(Lpm(tp.routes, a));
    HopOf(if WithinNets(tp.nets, a) then planned
          else Narrower(Preferred(d, cut, SortProfiles(d.profiles), a), planned))
  }

  predicate WithinNets(nets: seq<Prefix>, a: Addr) {
    exists n :: n in nets && Contains(n, a)
  }

  // ---------- matching a list step by step ----------

  function Matching(m: Managed, a: Addr): Option<Route> {
    if m.route.table == MAIN && Contains(m.route.dst, a) then Some(m.route) else None
  }

  function MainBest(rs: seq<Managed>, a: Addr): Option<Route> {
    RouteOf(Lpm(MainOnly(rs), a))
  }

  lemma {:induction false} LpmAppend(rs: seq<Managed>, m: Managed, a: Addr)
    requires m.route.table == MAIN
    ensures RouteOf(Lpm(rs + [m], a)) == Narrower(RouteOf(Lpm(rs, a)), Matching(m, a))
  {
    assert (rs + [m])[..|rs|] == rs;
  }

  lemma {:induction false} BestAppend(rs: seq<Managed>, m: Managed, a: Addr)
    ensures MainBest(rs + [m], a) == Narrower(MainBest(rs, a), Matching(m, a))
  {
    assert (rs + [m])[..|rs|] == rs;
    if m.route.table == MAIN { LpmAppend(MainOnly(rs), m, a); }
  }

  lemma {:induction false} BestMeans(rs: seq<Managed>, a: Addr)
    ensures MainBest(rs, a).Some? ==> MainBest(rs, a).value in Keys(rs) && Contains(MainBest(rs, a).value.dst, a)
    ensures forall x :: x in rs && Matching(x, a).Some? ==>
                        MainBest(rs, a).Some? && |x.route.dst.bits| <= |MainBest(rs, a).value.dst.bits|
  {
    LpmMeans(MainOnly(rs), a);
    forall x { MainOnlyMembers(rs, x); }
  }

  /** A route whose destination the list has already is not narrower. */
  lemma {:induction false} BestSettled(rs: seq<Managed>, m: Managed, a: Addr)
    requires exists x :: x in rs && DstKey(x.route) == DstKey(m.route)
    ensures Narrower(MainBest(rs, a), Matching(m, a)) == MainBest(rs, a)
  {
    BestMeans(rs, a);
    var x :| x in rs && DstKey(x.route) == DstKey(m.route);
    assert Matching(m, a).Some? ==> Matching(x, a).Some?;
  }

  lemma {:induction false} AddRouteBest(rs: seq<Managed>, m: Managed, a: Addr)
    ensures MainBest(AddRoute(rs, m), a) == Narrower(MainBest(rs, a), Matching(m, a))
  {
    if m.route in Keys(rs) {
      var x :| x in rs && x.route == m.route;
      BestSettled(rs, m, a);
    } else {
      BestAppend(rs, m, a);
    }
  }

  lemma {:induction false} NarrowerTwice(b: Option<Route>, x: Option<Route>, y: Option<Route>)
    ensures Narrower(Narrower(b, x), y) == Narrower(b, Narrower(x, y))
  {
  }

  /** Placing the plan adds its best candidate. */
  lemma {:induction false} PlaceBest(rs: seq<Managed>, plan: seq<Managed>, a: Addr)
    requires forall m :: m in plan ==> m.route.table == MAIN
    ensures MainBest(Place(rs, plan), a) == Narrower(MainBest(rs, a), RouteOf(Lpm(plan, a)))
  {
    if plan != [] {
      var k := |plan| - 1;
      var out, m := Place(rs, plan[..k]), plan[k];
      PlaceBest(rs, plan[..k], a);
      assert plan == plan[..k] + [m];
      LpmAppend(plan[..k], m, a);
      NarrowerTwice(MainBest(rs, a), RouteOf(Lpm(plan[..k], a)), Matching(m, a));
      if DstKey(m.route) in Dsts(out) {
        BestSettled(out, m, a);
      } else {
        BestAppend(out, m, a);
      }
    }
  }

  /** What yields to the networks matters to no address outside them. */
  lemma {:induction false} UnyieldedBest(others: seq<Managed>, nets: seq<Prefix>, a: Addr)
    requires !WithinNets(nets, a)
    ensures MainBest(Unyielded(others, nets), a) == MainBest(others, a)
  {
    if others != [] {
      var k := |others| - 1;
      var rest, o := Unyielded(others[..k], nets), others[k];
      UnyieldedBest(others[..k], nets, a);
      assert others == others[..k] + [o];
      BestAppend(others[..k], o, a);
      if Yields(o, nets) {
        var n :| n in nets && Contains(n, o.route.dst);
        if Contains(o.route.dst, a) { ContainsTransitive(n, o.route.dst, a); }
      } else {
        AddRouteBest(rest, o, a);
      }
    }
  }

  // ---------- sorted by key ----------

  /** The best candidate once a list is sorted by key. */
  function KeyBest(w: Writing, rs: seq<Managed>, a: Addr): Option<Route> {
    MainBest(SortBy(ByRouteKey(w), rs), a)
  }

  lemma {:induction false} AheadSwaps(w: Writing, b: Option<Route>, m: Route, l: Option<Route>)
    requires l.Some? ==> TextLess(RouteKey(w, m), RouteKey(w, l.value))
    ensures Narrower(Ahead(w, b, Some(m)), l) == Ahead(w, Narrower(b, l), Some(m))
  {
    hide RouteKey, TextLess;
  }

  /** Inserting a route by key into a sorted list makes it the candidate if it is ahead. */
  lemma {:induction false} InsertBest(w: Writing, s: seq<Managed>, m: Managed, a: Addr)
    requires SortedBy(ByRouteKey(w), s)
    ensures MainBest(InsertBy(ByRouteKey(w), s, m), a) == Ahead(w, MainBest(s, a), Matching(m, a))
  {
    var key := ByRouteKey(w);
    if s == [] || !TextLess(key(m), key(s[|s| - 1])) {
      BestAppend(s, m, a);
      NotAheadOfSorted(w, s, m, a);
    } else {
      var n := |s| - 1;
      InsertBest(w, s[..n], m, a);
      BestAppend(InsertBy(key, s[..n], m), s[n], a);
      assert s == s[..n] + [s[n]];
      BestAppend(s[..n], s[n], a);
      hide MainBest, InsertBy, SortedBy, TextLess, RouteKey;
      if Matching(m, a).Some? {
        AheadSwaps(w, MainBest(s[..n], a), m.route, Matching(s[n], a));
      }
    }
  }

  lemma {:induction false} NotAheadOfSorted(w: Writing, s: seq<Managed>, m: Managed, a: Addr)
    requires SortedBy(ByRouteKey(w), s) && (s == [] || !TextLess(RouteKey(w, m.route), RouteKey(w, s[|s| - 1].route)))
    ensures Ahead(w, MainBest(s, a), Matching(m, a)) == Narrower(MainBest(s, a), Matching(m, a))
  {
    hide MainBest, RouteKey, TextLess;
    BestMeans(s, a);
    if MainBest(s, a).Some? {
      var x :| x in s && x.route == MainBest(s, a).value;
      var i :| 0 <= i < |s| && s[i] == x;
      var key := ByRouteKey(w);
      if i < |s| - 1 {
        assert !TextLess(key(s[|s| - 1]), key(s[i]));
        NotLessThrough(key(s[i]), key(s[|s| - 1]), key(m));
      }
    }
  }

  lemma {:induction false} KeyBestAppend(w: Writing, rs: seq<Managed>, m: Managed, a: Addr)
    ensures KeyBest(w, rs + [m], a) == Ahead(w, KeyBest(w, rs, a), Matching(m, a))
  {
    hide MainBest, Ahead, Matching, SortedBy, InsertBy, TextLess;
    assert (rs + [m])[..|rs|] == rs;
    SortBySorts(ByRouteKey(w), rs);
    InsertBest(w, SortBy(ByRouteKey(w), rs), m, a);
  }

  lemma {:induction false} KeyBestMeans(w: Writing, rs: seq<Managed>, a: Addr)
    ensures KeyBest(w, rs, a).Some? ==> KeyBest(w, rs, a).value in Keys(rs) && Contains(KeyBest(w, rs, a).value.dst, a)
    ensures forall x :: x in rs && Matching(x, a).Some? ==>
                        KeyBest(w, rs, a).Some? && |x.route.dst.bits| <= |KeyBest(w, rs, a).value.dst.bits|
  {
    SortByMembers(ByRouteKey(w), rs);
    BestMeans(SortBy(ByRouteKey(w), rs), a);
  }

  /** A route the list has already is not ahead. */
  lemma {:induction false} KeyBestSettled(w: Writing, rs: seq<Managed>, x: Managed, a: Addr)
    requires x in rs
    ensures Ahead(w, KeyBest(w, rs, a), Matching(x, a)) == KeyBest(w, rs, a)
  {
    var k := |rs| - 1;
    assert rs == rs[..k] + [rs[k]];
    KeyBestAppend(w, rs[..k], rs[k], a);
    if x in rs[..k] { KeyBestSettled(w, rs[..k], x, a); }
    StillSettled(w, KeyBest(w, rs[..k], a), Matching(rs[k], a), Matching(x, a));
  }

  lemma {:induction false} StillSettled(w: Writing, b: Option<Route>, l: Option<Route>, x: Option<Route>)
    requires Ahead(w, b, x) == b || x == l
    ensures Ahead(w, Ahead(w, b, l), x) == Ahead(w, b, l)
  {
    if b.Some? && l.Some? { TextTotal(RouteKey(w, b.value), RouteKey(w, l.value)); }
    if x.Some? && l.Some? { TextTotal(RouteKey(w, x.value), RouteKey(w, l.value)); }
    if b.Some? && x.Some? { TextTotal(RouteKey(w, b.value), RouteKey(w, x.value)); }
    if b.Some? && l.Some? && x.Some? &&
       TextLess(RouteKey(w, x.value), RouteKey(w, l.value)) && TextLess(RouteKey(w, l.value), RouteKey(w, b.value)) {
      TextTransitive(RouteKey(w, x.value), RouteKey(w, l.value), RouteKey(w, b.value));
    }
  }

  lemma {:induction false} AddRouteKeyBest(w: Writing, rs: seq<Managed>, m: Managed, a: Addr)
    ensures KeyBest(w, AddRoute(rs, m), a) == Ahead(w, KeyBest(w, rs, a), Matching(m, a))
  {
    if m.route in Keys(rs) {
      var x :| x in rs && x.route == m.route;
      KeyBestSettled(w, rs, x, a);
    } else {
      KeyBestAppend(w, rs, m, a);
    }
  }

  lemma {:induction false} AddForeign(w: Writing, rs: seq<Managed>, ms: seq<Managed>, a: Addr)
    requires forall m :: m in ms ==> m.route.table != MAIN
    ensures KeyBest(w, AddRoutes(rs, ms), a) == KeyBest(w, rs, a)
  {
    if ms != [] {
      var k := |ms| - 1;
      AddForeign(w, rs, ms[..k], a);
      AddRouteKeyBest(w, AddRoutes(rs, ms[..k]), ms[k], a);
    }
  }

  /** Of one destination the plan places nothing where something is: no key decides. */
  lemma {:induction false} PlaceKeyBest(w: Writing, rs: seq<Managed>, plan: seq<Managed>, a: Addr)
    requires forall m :: m in plan ==> m.route.table == MAIN
    ensures KeyBest(w, Place(rs, plan), a) == Narrower(KeyBest(w, rs, a), RouteOf(Lpm(plan, a)))
  {
    hide KeyBest, Matching, Dsts;
    if plan == [] {
      assert Place(rs, plan) == rs && Lpm(plan, a) == None;
    } else {
      var k := |plan| - 1;
      PlaceKeyBest(w, rs, plan[..k], a);
      assert plan == plan[..k] + [plan[k]];
      LpmAppend(plan[..k], plan[k], a);
      NarrowerTwice(KeyBest(w, rs, a), RouteOf(Lpm(plan[..k], a)), Matching(plan[k], a));
      PlaceOneKeyBest(w, Place(rs, plan[..k]), plan[k], a);
    }
  }

  lemma {:induction false} PlaceOneKeyBest(w: Writing, out: seq<Managed>, m: Managed, a: Addr)
    requires m.route.table == MAIN
    ensures KeyBest(w, if DstKey(m.route) in Dsts(out) then out else out + [m], a) ==
            Narrower(KeyBest(w, out, a), Matching(m, a))
  {
    KeyBestMeans(w, out, a);
    if DstKey(m.route) in Dsts(out) {
      var x :| x in out && DstKey(x.route) == DstKey(m.route);
      assert Matching(m, a).Some? ==> Matching(x, a).Some?;
    } else {
      KeyBestAppend(w, out, m, a);
      var b := KeyBest(w, out, a);
      hide KeyBest;
      if b.Some? && Matching(m, a).Some? {
        var x :| x in out && x.route == b.value;
        SharedAddress(x.route.dst, m.route.dst, a);
        KeyBestIsMain(w, out, a);
        assert DstKey(x.route) in Dsts(out);
      }
    }
  }

  lemma {:induction false} KeyBestIsMain(w: Writing, rs: seq<Managed>, a: Addr)
    ensures KeyBest(w, rs, a).Some? ==> KeyBest(w, rs, a).value.table == MAIN
  {
    var s := SortBy(ByRouteKey(w), rs);
    LpmMeans(MainOnly(s), a);
    if Lpm(MainOnly(s), a).Some? { MainOnlyMembers(s, Lpm(MainOnly(s), a).value); }
  }

  // ---------- the profiles' routes ----------

  /** A profile's blocks are disjoint: it has one candidate for an address. */
  lemma {:induction false} BypassBest(w: Writing, rs: seq<Managed>, blocks: seq<Prefix>, hop: Hop, id: string, a: Addr)
    requires Antichain(blocks)
    ensures KeyBest(w, AddRoutes(rs, Bypass(blocks, hop, id)), a) ==
            Ahead(w, KeyBest(w, rs, a), match BlockAround(blocks, a) case None => None case Some(b) => Some(Route(MAIN, b, hop)))
  {
    if blocks != [] {
      var k := |blocks| - 1;
      var before := Bypass(blocks[..k], hop, id);
      var m := Managed(Route(MAIN, blocks[k], hop), OfProfile(id), 0);
      BypassBest(w, rs, blocks[..k], hop, id, a);
      assert (before + [m])[..|before|] == before;
      AddRouteKeyBest(w, AddRoutes(rs, before), m, a);
      AroundMeans(blocks[..k], a);
      hide KeyBest, Ahead, AddRoutes, RouteKey;
      if BlockAround(blocks[..k], a).Some? && Contains(blocks[k], a) {
        SharedAddress(BlockAround(blocks[..k], a).value, blocks[k], a);
      }
      NoneAhead(w, KeyBest(w, AddRoutes(rs, before), a));
      NoneAhead(w, KeyBest(w, rs, a));
    }
  }

  lemma {:induction false} NoneAhead(w: Writing, b: Option<Route>)
    ensures Ahead(w, b, None) == b
  {
  }

  lemma {:induction false} AroundMeans(blocks: seq<Prefix>, a: Addr)
    ensures BlockAround(blocks, a).None? <==> !Covers(blocks, a)
    ensures BlockAround(blocks, a).Some? ==> BlockAround(blocks, a).value in blocks && Contains(BlockAround(blocks, a).value, a)
  {
    if blocks != [] {
      var k := |blocks| - 1;
      AroundMeans(blocks[..k], a);
      assert blocks == blocks[..k] + [blocks[k]];
    }
  }

  lemma {:induction false} OtherFamily(p: Profile, cut: seq<Prefix>, fam: Family, a: Addr)
    requires fam != a.fam
    ensures BlockAround(MaximalBlocks(Excluded(p, cut, fam)), a).None?
  {
    MaximalBlocksExact(Excluded(p, cut, fam));
    AroundMeans(MaximalBlocks(Excluded(p, cut, fam)), a);
    forall q | q in Excluded(p, cut, fam)
      ensures !Contains(q, a)
    {
      OutsideMembers(OfFamily(p.prefixes, fam), cut, q);
      OfFamilyMembers(p.prefixes, fam, q);
    }
  }

  lemma {:induction false} FamilyBest(d: DesiredInput, cut: seq<Prefix>, p: Profile, fam: Family, rs: seq<Managed>,
      a: Addr)
    requires p.enabled && p.mode.Exclude?
    ensures KeyBest(d.writing, AddRoutes(rs, ExcludeFamily(d, p, cut, fam)), a) ==
            if fam == a.fam then Ahead(d.writing, KeyBest(d.writing, rs, a), ProfileRoute(d, cut, p, a))
            else KeyBest(d.writing, rs, a)
  {
    var blocks := MaximalBlocks(Excluded(p, cut, fam));
    MaximalBlocksExact(Excluded(p, cut, fam));
    if fam != a.fam { OtherFamily(p, cut, fam, a); }
    hide MaximalBlocks, Excluded, KeyBest, AddRoutes, Ahead;
    NoneAhead(d.writing, KeyBest(d.writing, rs, a));
    match ResolveGateway(p.gateway, fam, d.net)
    case None => assert AddRoutes(rs, []) == rs by { AddNone(rs); }
    case Some(hop) => BypassBest(d.writing, rs, blocks, hop, p.id, a);
  }

  lemma {:induction false} AddNone(rs: seq<Managed>)
    ensures AddRoutes(rs, []) == rs
  {
  }

  /** Sorted, the profiles' routes lead an address where the preferred profile does. */
  lemma {:induction false} ProfilesPrefer(d: DesiredInput, cut: seq<Prefix>, ps: seq<Profile>, a: Addr)
    requires BuildProfiles(d, cut, ps).Built?
    ensures KeyBest(d.writing, BuildProfiles(d, cut, ps).routes, a) == Preferred(d, cut, ps, a)
  {
    hide KeyBest, Ahead;
    if ps == [] {
      NothingBest(d.writing, a);
    } else {
      var k := |ps| - 1;
      var p, rs := ps[k], BuildProfiles(d, cut, ps[..k]).routes;
      ProfilesPrefer(d, cut, ps[..k], a);
      NoneAhead(d.writing, KeyBest(d.writing, rs, a));
      if p.enabled && p.mode.Exclude? {
        var r4, r6 := ExcludeFamily(d, p, cut, V4), ExcludeFamily(d, p, cut, V6);
        AddRoutesConcat(rs, r4, r6);
        FamilyBest(d, cut, p, V4, rs, a);
        FamilyBest(d, cut, p, V6, AddRoutes(rs, r4), a);
      }
    }
  }

  lemma {:induction false} NothingBest(w: Writing, a: Addr)
    ensures KeyBest(w, [], a) == None
  {
  }

  // ---------- both rebuilds, and when they agree ----------

  /** The full rebuild, for every input. */
  lemma {:induction false} FullLead(d: DesiredInput, a: Addr)
    requires BuildDesired(d).Built?
    ensures NextHop(BuildDesired(d).routes, a) == Lead(d, Plan(d.net).nets, a)
  {
    var tp, ps := Plan(d.net), SortProfiles(d.profiles);
    var o := BuildProfiles(d, tp.nets, ps);
    FullBeneath(d);
    PlanRoutesDistinct(d.net);
    if WithinNets(tp.nets, a) {
      NetworksWin(d.net, o.routes, BuildDesired(d).routes, a);
    } else {
      FullBest(d, a);
      ProfilesPrefer(d, tp.nets, ps, a);
    }
  }

  lemma {:induction false} UnsortedIs(d: DesiredInput)
    requires BuildDesired(d).Built?
    ensures var o := BuildProfiles(d, Plan(d.net).nets, SortProfiles(d.profiles));
            && o.Built? && BuildUnsorted(d).Built? && BuildDesired(d).routes == SortBy(ByRouteKey(d.writing), BuildUnsorted(d).routes)
            && var placed := Place(o.routes, Plan(d.net).routes);
            BuildUnsorted(d).routes == if d.platform.Darwin? then placed else AddRoutes(placed, Defaults(d, o.rules))
  {
    hide Plan, BuildProfiles, SortProfiles, Place, AddRoutes, Defaults, SortBy, ByRouteKey, ByRuleKey, NeedsVpn;
  }

  lemma {:induction false} NotMain(d: DesiredInput, rules: seq<ManagedRule>)
    ensures forall m :: m in Defaults(d, rules) ==> m.route.table != MAIN
  {
  }

  lemma {:induction false} FullBest(d: DesiredInput, a: Addr)
    requires BuildDesired(d).Built?
    ensures var o := BuildProfiles(d, Plan(d.net).nets, SortProfiles(d.profiles));
            && o.Built?
            && MainBest(BuildDesired(d).routes, a) == Narrower(KeyBest(d.writing, o.routes, a), RouteOf(Lpm(Plan(d.net).routes, a)))
  {
    hide *;
    UnsortedIs(d);
    var tp := Plan(d.net);
    var o := BuildProfiles(d, tp.nets, SortProfiles(d.profiles));
    PlanRoutesDistinct(d.net);
    NotMain(d, o.rules);
    AddForeign(d.writing, Place(o.routes, tp.routes), Defaults(d, o.rules), a);
    PlaceKeyBest(d.writing, o.routes, tp.routes, a);
    SortedIsKeyBest(d.writing, BuildUnsorted(d).routes, a);
  }

  lemma {:induction false} SortedIsKeyBest(w: Writing, rs: seq<Managed>, a: Addr)
    ensures MainBest(SortBy(ByRouteKey(w), rs), a) == KeyBest(w, rs, a)
  {
  }

  /** The tunnel-only rebuild, for every input: each profile's list is still whole. */
  lemma {:induction false} BesideLead(d: DesiredInput, a: Addr)
    requires BuildDesired(Bare(d)).Built?
    ensures NextHop(Beside(Plan(d.net), BuildDesired(Bare(d)).routes), a) == Lead(d, [], a)
  {
    var tp, bare, ps := Plan(d.net), BuildDesired(Bare(d)).routes, SortProfiles(d.profiles);
    PlanRoutesDistinct(d.net);
    if WithinNets(tp.nets, a) {
      BesideBeneath(d.net, bare);
      NetworksWin(d.net, Unyielded(bare, tp.nets), Beside(tp, bare), a);
    } else {
      BareBest(d, a);
      UnyieldedBest(bare, tp.nets, a);
      PlaceBest(Unyielded(bare, tp.nets), tp.routes, a);
    }
  }

  lemma {:induction false} BareBest(d: DesiredInput, a: Addr)
    requires BuildDesired(Bare(d)).Built?
    ensures MainBest(BuildDesired(Bare(d)).routes, a) == Preferred(d, [], SortProfiles(d.profiles), a)
  {
    var ps := SortProfiles(d.profiles);
    NoTunnelsNoPlan(Bare(d).net);
    FullBest(Bare(d), a);
    ProfilesPrefer(Bare(d), [], ps, a);
    BarePrefers(d, ps, a);
  }

  lemma {:induction false} BarePrefers(d: DesiredInput, ps: seq<Profile>, a: Addr)
    ensures Preferred(Bare(d), [], ps, a) == Preferred(d, [], ps, a)
  {
    if ps != [] {
      BarePrefers(d, ps[..|ps| - 1], a);
      BareRoute(d, ps[|ps| - 1], a);
      hide ProfileRoute, Ahead;
    }
  }

  lemma {:induction false} BareRoute(d: DesiredInput, p: Profile, a: Addr)
    ensures ProfileRoute(Bare(d), [], p, a) == ProfileRoute(d, [], p, a)
  {
    assert ResolveGateway(p.gateway, a.fam, Bare(d).net) == ResolveGateway(p.gateway, a.fam, d.net);
  }

  /** Where the lead of the preferred profile survives taking the networks out of every
      list. */
  ghost predicate LeadKept(d: DesiredInput, a: Addr) {
    var ps, pin := SortProfiles(d.profiles), RouteOf(Lpm(Plan(d.net).routes, a));
    HopOf(Narrower(Preferred(d, Plan(d.net).nets, ps, a), pin)) == HopOf(Narrower(Preferred(d, [], ps, a), pin))
  }

  /** Rebuilding the tunnels' part alone leads every address where the full rebuild does,
      if and only if each address outside the networks keeps its lead: its narrowest block
      leads the same way whether or not the lists give up what the networks hold. */
  lemma {:induction false} BesideAsBuiltIff(d: DesiredInput)
    requires BuildDesired(d).Built? && BuildDesired(Bare(d)).Built?
    ensures (forall a: Addr :: NextHop(Beside(Plan(d.net), BuildDesired(Bare(d)).routes), a) == NextHop(BuildDesired(d).routes, a))
            <==> (forall a: Addr :: WithinNets(Plan(d.net).nets, a) || LeadKept(d, a))
  {
    forall a: Addr
      ensures NextHop(Beside(Plan(d.net), BuildDesired(Bare(d)).routes), a) == NextHop(BuildDesired(d).routes, a)
              <==> WithinNets(Plan(d.net).nets, a) || LeadKept(d, a)
    {
      FullLead(d, a);
      BesideLead(d, a);
    }
  }

  // ---------- lists the networks do not break up ----------

  /** No enabled exclude profile has an aggregated block with a tunnel's network inside. */
  ghost predicate Unbroken(d: DesiredInput) {
    forall p, fam, b, n ::
      p in d.profiles && p.enabled && p.mode.Exclude? && b in MaximalBlocks(OfFamily(p.prefixes, fam)) && n in Plan(d.net).nets ==>
      !StrictlyContains(b, n)
  }

  /** A block clear of the networks survives taking them out of the list. */
  lemma {:induction false} ClearBlockStays(s: seq<Prefix>, nets: seq<Prefix>, b: Prefix)
    requires b in MaximalBlocks(s) && forall n :: n in nets ==> !Nested(b, n)
    ensures b in MaximalBlocks(Outside(s, nets))
  {
    var t := Outside(s, nets);
    MaximalBlocksExact(s);
    MaximalBlocksExact(t);
    forall x: Addr | Contains(b, x)
      ensures Covers(t, x)
    {
      assert Covers(MaximalBlocks(s), x);
      forall n | n in nets
        ensures !Contains(n, x)
      {
        if Contains(n, x) { SharedAddress(b, n, x); }
      }
      OutsideCover(s, nets, x);
    }
    WithinMeansCovered(b, t);
    var c :| c in MaximalBlocks(t) && Contains(c, b);
    assert Contains(c, c);
    InsideOneCovers(MaximalBlocks(t), c);
    forall x: Addr | Contains(c, x)
      ensures Covers(s, x)
    {
      var q :| q in t && Contains(q, x);
      OutsideMembers(s, nets, q);
    }
    WithinMeansCovered(c, s);
    var e :| e in MaximalBlocks(s) && Contains(e, c);
    ContainsTransitive(e, c, b);
    AntichainEqual(MaximalBlocks(s), e, b);
    HostLike(c, b);
  }

  lemma {:induction false} NothingCut(s: seq<Prefix>)
    ensures MaximalBlocks(Outside(s, [])) == MaximalBlocks(s)
  {
    forall a: Addr
      ensures Covers(Outside(s, []), a) <==> Covers(s, a)
    {
      OutsideCover(s, [], a);
    }
    SameCoverSameBlocks(Outside(s, []), s);
  }

  lemma {:induction false} OneBlock(blocks: seq<Prefix>, b: Prefix, a: Addr)
    requires Antichain(blocks) && b in blocks && Contains(b, a)
    ensures BlockAround(blocks, a) == Some(b)
  {
    AroundMeans(blocks, a);
    SharedAddress(BlockAround(blocks, a).value, b, a);
    AntichainEqual(blocks, BlockAround(blocks, a).value, b);
  }

  lemma {:induction false} SameCovers(s: seq<Prefix>, nets: seq<Prefix>, a: Addr)
    requires !WithinNets(nets, a)
    ensures Covers(MaximalBlocks(Outside(s, nets)), a) <==> Covers(MaximalBlocks(s), a)
    ensures Antichain(MaximalBlocks(Outside(s, nets)))
  {
    MaximalBlocksExact(s);
    MaximalBlocksExact(Outside(s, nets));
    OutsideCover(s, nets, a);
  }

  lemma {:induction false} SameBlock(s: seq<Prefix>, nets: seq<Prefix>, a: Addr)
    requires !WithinNets(nets, a)
    requires forall b, n :: b in MaximalBlocks(s) && n in nets ==> !StrictlyContains(b, n)
    ensures BlockAround(MaximalBlocks(Outside(s, nets)), a) == BlockAround(MaximalBlocks(Outside(s, [])), a)
  {
    hide MaximalBlocks, Outside, BlockAround, Canonical, SameCover, Covers;
    var t := Outside(s, nets);
    NothingCut(s);
    SameCovers(s, nets, a);
    AroundMeans(MaximalBlocks(s), a);
    AroundMeans(MaximalBlocks(t), a);
    if Covers(MaximalBlocks(s), a) {
      var b := BlockAround(MaximalBlocks(s), a).value;
      forall n | n in nets
        ensures !Nested(b, n)
      {
        if Contains(n, b) { ContainsTransitive(n, b, a); }
      }
      ClearBlockStays(s, nets, b);
      OneBlock(MaximalBlocks(t), b, a);
    }
  }

  lemma {:induction false} UnbrokenPrefers(d: DesiredInput, ps: seq<Profile>, a: Addr)
    requires Unbroken(d) && !WithinNets(Plan(d.net).nets, a) && forall p :: p in ps ==> p in d.profiles
    ensures Preferred(d, Plan(d.net).nets, ps, a) == Preferred(d, [], ps, a)
  {
    hide Plan, MaximalBlocks, Outside, OfFamily, BlockAround;
    if ps != [] {
      UnbrokenPrefers(d, ps[..|ps| - 1], a);
      var p := ps[|ps| - 1];
      if p.enabled && p.mode.Exclude? {
        SameBlock(OfFamily(p.prefixes, a.fam), Plan(d.net).nets, a);
      }
    }
  }

  /** Whatever the gateways, the two rebuilds agree unless a network lies inside a block
      that a list was aggregated to. */
  lemma {:induction false} UnbrokenAgree(d: DesiredInput, a: Addr)
    requires BuildDesired(d).Built? && BuildDesired(Bare(d)).Built? && Unbroken(d)
    ensures NextHop(Beside(Plan(d.net), BuildDesired(Bare(d)).routes), a) == NextHop(BuildDesired(d).routes, a)
  {
    FullLead(d, a);
    BesideLead(d, a);
    SortProfilesMembers(d.profiles);
    if !WithinNets(Plan(d.net).nets, a) {
      UnbrokenPrefers(d, SortProfiles(d.profiles), a);
    }
  }
}
