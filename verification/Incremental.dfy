/** The full rebuild and the tunnel-only rebuild agree (internal/routing/engine.go,
tunnels.go, simulate.go), and the tunnels' networks win in both.
 */
module Incremental {
  import opened KeyOrder
  import opened Prefixes
  import opened Aggregation
  import opened Subtraction
  import opened Routes
  import opened Planner
  import opened PlannerSafety
  import opened Desired

  // ---------- membership ----------

  lemma {:induction false} SortProfilesMembers(ps: seq<Profile>)
    ensures forall p :: p in SortProfiles(ps) <==> p in ps
  {
    if ps != [] {
      SortProfilesMembers(ps[1..]);
      InsertProfileMembers(SortProfiles(ps[1..]), ps[0]);
      assert ps == [ps[0]] + ps[1..];
    }
  }

  lemma {:induction false} InsertProfileMembers(ps: seq<Profile>, p: Profile)
    ensures forall q :: q in InsertProfile(ps, p) <==> q == p || q in ps
  {
    if ps != [] && ps[0].priority > p.priority {
      InsertProfileMembers(ps[1..], p);
      assert ps == [ps[0]] + ps[1..];
    }
  }

  lemma {:induction false} OfFamilyMembers(ps: seq<Prefix>, fam: Family, p: Prefix)
    ensures p in OfFamily(ps, fam) <==> p in ps && p.fam == fam
  {
    if ps != [] {
      OfFamilyMembers(ps[..|ps| - 1], fam, p);
      assert ps == ps[..|ps| - 1] + [ps[|ps| - 1]];
    }
  }

  lemma {:induction false} BypassKeys(blocks: seq<Prefix>, hop: Hop, id: string, r: Route)
    ensures r in Keys(Bypass(blocks, hop, id)) <==> r.table == MAIN && r.hop == hop && r.dst in blocks
  {
    if blocks != [] {
      var k := |blocks| - 1;
      BypassKeys(blocks[..k], hop, id, r);
      assert blocks == blocks[..k] + [blocks[k]];
      KeysConcat(Bypass(blocks[..k], hop, id), [Managed(Route(MAIN, blocks[k], hop), OfProfile(id), 0)]);
    }
  }

  lemma {:induction false} KeysConcat(x: seq<Managed>, y: seq<Managed>)
    ensures Keys(x + y) == Keys(x) + Keys(y)
  {
    assert forall m :: m in x + y <==> m in x || m in y;
  }

  lemma {:induction false} AddRoutesKeys(rs: seq<Managed>, ms: seq<Managed>)
    ensures Keys(AddRoutes(rs, ms)) == Keys(rs) + Keys(ms)
    ensures forall m :: m in AddRoutes(rs, ms) ==> m in rs || m in ms
  {
    if ms != [] {
      var k := |ms| - 1;
      AddRoutesKeys(rs, ms[..k]);
      assert ms == ms[..k] + [ms[k]];
      KeysConcat(ms[..k], [ms[k]]);
      KeysConcat(AddRoutes(rs, ms[..k]), [ms[k]]);
    }
  }

  // ---------- what the exclude profiles route ----------

  ghost predicate IsExclude(d: DesiredInput, p: Profile, nets: seq<Prefix>, fam: Family, r: Route) {
    && p.enabled && p.mode.Exclude?
    && ResolveGateway(p.gateway, fam, d.net) == Some(r.hop)
    && r.table == MAIN && r.dst in MaximalBlocks(Excluded(p, nets, fam))
  }

  ghost predicate ExcludeRoute(d: DesiredInput, ps: seq<Profile>, nets: seq<Prefix>, r: Route) {
    exists p, fam :: p in ps && IsExclude(d, p, nets, fam, r)
  }

  lemma {:induction false} FamilyKeys(d: DesiredInput, p: Profile, nets: seq<Prefix>, fam: Family, r: Route)
    requires p.enabled && p.mode.Exclude?
    ensures r in Keys(ExcludeFamily(d, p, nets, fam)) <==> IsExclude(d, p, nets, fam, r)
  {
    match ResolveGateway(p.gateway, fam, d.net)
    case None =>
    case Some(hop) => BypassKeys(MaximalBlocks(Excluded(p, nets, fam)), hop, p.id, r);
  }

  lemma {:induction false} ProfileRoutes(d: DesiredInput, nets: seq<Prefix>, ps: seq<Profile>, r: Route)
    requires BuildProfiles(d, nets, ps).Built?
    ensures r in Keys(BuildProfiles(d, nets, ps).routes) <==> ExcludeRoute(d, ps, nets, r)
  {
    if ps != [] {
      var k := |ps| - 1;
      var p, o := ps[k], BuildProfiles(d, nets, ps[..k]);
      ProfileRoutes(d, nets, ps[..k], r);
      assert ps == ps[..k] + [p];
      if p.enabled && p.mode.Exclude? {
        var r4, r6 := ExcludeFamily(d, p, nets, V4), ExcludeFamily(d, p, nets, V6);
        AddRoutesKeys(o.routes, r4 + r6);
        KeysConcat(r4, r6);
        FamilyKeys(d, p, nets, V4, r);
        FamilyKeys(d, p, nets, V6, r);
      }
      LastProfile(d, ps, nets, r);
    }
  }

  lemma {:induction false} LastProfile(d: DesiredInput, ps: seq<Profile>, nets: seq<Prefix>, r: Route)
    requires ps != []
    ensures var k := |ps| - 1;
            ExcludeRoute(d, ps, nets, r) <==>
            ExcludeRoute(d, ps[..k], nets, r) || IsExclude(d, ps[k], nets, V4, r) || IsExclude(d, ps[k], nets, V6, r)
  {
    var k := |ps| - 1;
    assert ps == ps[..k] + [ps[k]] && ps[k] in ps;
    if ExcludeRoute(d, ps[..k], nets, r) {
      var p, fam :| p in ps[..k] && IsExclude(d, p, nets, fam, r);
      assert p in ps;
    }
    if ExcludeRoute(d, ps, nets, r) {
      var p, fam :| p in ps && IsExclude(d, p, nets, fam, r);
      assert fam.V4? || fam.V6?;
    }
  }

  /** Exclude routes never lie inside the tunnels' networks, even after aggregation. */
  lemma {:induction false} ExcludeStaysOutside(d: DesiredInput, ps: seq<Profile>, nets: seq<Prefix>, r: Route)
    requires ExcludeRoute(d, ps, nets, r)
    ensures r.table == MAIN && !InsideOne(nets, r.dst)
  {
    var p, fam :| p in ps && IsExclude(d, p, nets, fam, r);
    AggregateStaysOutside(OfFamily(p.prefixes, fam), nets, r.dst);
  }

  // ---------- placing the plan ----------

  lemma {:induction false} PlaceMembers(rs: seq<Managed>, plan: seq<Managed>)
    ensures forall m :: m in rs ==> m in Place(rs, plan)
    ensures forall m :: m in Place(rs, plan) ==> m in rs || (m in plan && DstKey(m.route) !in Dsts(rs))
    ensures forall m :: m in plan ==> DstKey(m.route) in Dsts(Place(rs, plan))
  {
    if plan != [] {
      var k := |plan| - 1;
      PlaceMembers(rs, plan[..k]);
      assert plan == plan[..k] + [plan[k]];
      var out := Place(rs, plan[..k]);
      assert forall m :: m in out + [plan[k]] <==> m in out || m == plan[k];
      assert Dsts(rs) <= Dsts(out) <= Dsts(out + [plan[k]]);
    }
  }

  /** A plan route whose destination nothing else has is placed. */
  lemma {:induction false} Placed(rs: seq<Managed>, plan: seq<Managed>, m: Managed)
    requires DistinctDsts(plan) && (forall x :: x in plan ==> x.route.table == MAIN)
    requires m in plan && DstKey(m.route) !in Dsts(rs)
    ensures m in Place(rs, plan)
  {
    PlaceMembers(rs, plan);
    var x :| x in Place(rs, plan) && DstKey(x.route) == DstKey(m.route);
    assert x in rs ==> DstKey(x.route) in Dsts(rs);
    SameDestination(plan, x, m);
  }

  function MainOnly(rs: seq<Managed>): seq<Managed> {
    if rs == [] then []
    else
      var rest := MainOnly(rs[..|rs| - 1]);
      if rs[|rs| - 1].route.table == MAIN then rest + [rs[|rs| - 1]] else rest
  }

  lemma {:induction false} MainOnlyMembers(rs: seq<Managed>, m: Managed)
    ensures m in MainOnly(rs) <==> m in rs && m.route.table == MAIN
  {
    if rs != [] {
      MainOnlyMembers(rs[..|rs| - 1], m);
      assert rs == rs[..|rs| - 1] + [rs[|rs| - 1]];
    }
  }

  /** The next hop the main table gives an address. */
  function NextHop(rs: seq<Managed>, a: Addr): Option<Hop> {
    match Lpm(MainOnly(rs), a)
    case None => None
    case Some(m) => Some(m.route.hop)
  }

  /** all is base (main-table routes, none inside the plan's networks) with the plan's
      routes placed beside it, and perhaps routes of other tables. */
  ghost predicate Beneath(w: Network, base: seq<Managed>, all: seq<Managed>) {
    var tp := Plan(w);
    && (forall m :: m in base && m.route.table == MAIN ==> !InsideOne(tp.nets, m.route.dst))
    && (forall m :: m in all && m.route.table == MAIN ==> m in base || m in tp.routes)
    && (forall m :: m in base && m.route.table == MAIN ==> m in all)
    && (forall m :: m in tp.routes && DstKey(m.route) !in Dsts(base) ==> m in all)
  }

  /** Tunnel networks win: an address in one is decided by the plan alone, whatever else
      is routed. */
  lemma {:induction false} NetworksWin(w: Network, base: seq<Managed>, all: seq<Managed>, a: Addr)
    requires Beneath(w, base, all) && Covers(Plan(w).nets, a)
    ensures Lpm(Plan(w).routes, a).Some?
    ensures Lpm(MainOnly(all), a) == Lpm(Plan(w).routes, a)
  {
    var tp := Plan(w);
    PlanRoutesDistinct(w);
    LpmMeans(tp.routes, a);
    LpmMeans(MainOnly(all), a);
    var n :| n in tp.nets && Contains(n, a);
    assert SendsInto(tp.routes, n);
    var into :| into in tp.routes && into.route.dst == n && !IsPin(into);
    var best := Lpm(tp.routes, a).value;
    InNetwork(w, base, all, n, into);
    SharedAddress(n, best.route.dst, a);
    assert Contains(n, best.route.dst) by {
      assert |n.bits| <= |best.route.dst.bits|;
      if Contains(best.route.dst, n) { HostLike(best.route.dst, n); }
    }
    InNetwork(w, base, all, n, best);
    MainOnlyMembers(all, best);
    MainOnlyMembers(all, into);
    var m := Lpm(MainOnly(all), a).value;
    MainOnlyMembers(all, m);
    SharedAddress(n, m.route.dst, a);
    assert Contains(n, m.route.dst) by {
      if Contains(m.route.dst, n) { HostLike(m.route.dst, n); }
    }
    assert m in tp.routes;
    SharedAddress(m.route.dst, best.route.dst, a);
    SameDestination(tp.routes, m, best);
  }

  /** A plan route inside a network of the plan is placed. */
  lemma {:induction false} InNetwork(w: Network, base: seq<Managed>, all: seq<Managed>, n: Prefix, m: Managed)
    requires Beneath(w, base, all) && n in Plan(w).nets && m in Plan(w).routes && Contains(n, m.route.dst)
    ensures m in all && m.route.table == MAIN
  {
    PlanRoutesDistinct(w);
    assert DstKey(m.route) !in Dsts(base) by {
      forall b | b in base
        ensures DstKey(b.route) != DstKey(m.route)
      {
        if b.route.table == MAIN { assert !Contains(n, b.route.dst); }
      }
    }
  }

  // ---------- one answer for both rebuilds ----------

  predicate AllAuto(d: DesiredInput) {
    forall p :: p in d.profiles && p.enabled && p.mode.Exclude? ==> p.gateway.Auto?
  }

  /** An enabled exclude profile routes a past the VPN. */
  ghost predicate Bypassed(d: DesiredInput, a: Addr) {
    && AutoHop(d.net, a.fam).Some?
    && exists p :: p in d.profiles && p.enabled && p.mode.Exclude? && Covers(p.prefixes, a)
  }

  /** Where an address goes, said without building anything: inside the tunnels' networks
      as the plan decides; elsewhere past the VPN if a profile lists it, else as pinned. */
  ghost function Answer(d: DesiredInput, a: Addr): Option<Hop> {
    var tp := Plan(d.net);
    if !Covers(tp.nets, a) && Bypassed(d, a) then AutoHop(d.net, a.fam)
    else match Lpm(tp.routes, a)
      case None => None
      case Some(m) => Some(m.route.hop)
  }

  /** base holds the exclude profiles' routes: all with the automatic next hop, and
      covering what the profiles list outside the networks. */
  ghost predicate AutoBase(d: DesiredInput, nets: seq<Prefix>, base: seq<Managed>) {
    && (forall m :: m in base && m.route.table == MAIN ==> AutoHop(d.net, m.route.dst.fam) == Some(m.route.hop))
    && (forall a: Addr :: !Covers(nets, a) ==> (Bypassed(d, a) <==> RoutesAddress(base, a)))
  }

  ghost predicate RoutesAddress(rs: seq<Managed>, a: Addr) {
    exists m :: m in rs && m.route.table == MAIN && Contains(m.route.dst, a)
  }

  lemma {:induction false} AnswerOfBase(d: DesiredInput, base: seq<Managed>, all: seq<Managed>, a: Addr)
    requires Beneath(d.net, base, all) && AutoBase(d, Plan(d.net).nets, base)
    ensures NextHop(all, a) == Answer(d, a)
  {
    if Covers(Plan(d.net).nets, a) {
      NetworksWin(d.net, base, all, a);
    } else {
      OutsideAnswer(d, base, all, a);
    }
  }

  /** Outside the networks only pins and exclude routes can match, and both go via the
      physical gateway. */
  lemma {:induction false} OutsideAnswer(d: DesiredInput, base: seq<Managed>, all: seq<Managed>, a: Addr)
    requires Beneath(d.net, base, all) && AutoBase(d, Plan(d.net).nets, base) && !Covers(Plan(d.net).nets, a)
    ensures NextHop(all, a) == Answer(d, a)
  {
    var tp := Plan(d.net);
    PlanRoutesDistinct(d.net);
    LpmMeans(tp.routes, a);
    LpmMeans(MainOnly(all), a);
    forall m | m in all && m.route.table == MAIN && Contains(m.route.dst, a)
      ensures AutoHop(d.net, a.fam) == Some(m.route.hop)
      ensures m in base || Lpm(tp.routes, a).Some?
    {
      assert m.route.dst !in tp.nets;
    }
    if Lpm(MainOnly(all), a).Some? {
      MainOnlyMembers(all, Lpm(MainOnly(all), a).value);
    }
    if Bypassed(d, a) {
      var m :| m in base && m.route.table == MAIN && Contains(m.route.dst, a);
      MainOnlyMembers(all, m);
    } else if Lpm(tp.routes, a).Some? {
      PinAnswers(d, base, all, a);
    }
  }

  lemma {:induction false} PinAnswers(d: DesiredInput, base: seq<Managed>, all: seq<Managed>, a: Addr)
    requires Beneath(d.net, base, all) && !Covers(Plan(d.net).nets, a)
    requires Lpm(Plan(d.net).routes, a).Some? && !RoutesAddress(base, a)
    ensures AutoHop(d.net, a.fam) == Some(Lpm(Plan(d.net).routes, a).value.route.hop)
    ensures Lpm(MainOnly(all), a).Some?
  {
    var tp := Plan(d.net);
    PlanRoutesDistinct(d.net);
    LpmMeans(tp.routes, a);
    LpmMeans(MainOnly(all), a);
    var pin := Lpm(tp.routes, a).value;
    assert pin.route.dst !in tp.nets;
    forall b | b in base
      ensures DstKey(b.route) != DstKey(pin.route)
    {
    }
    MainOnlyMembers(all, pin);
  }

  // ---------- the full rebuild ----------

  /** A desired set is the profiles' routes with the plan placed beside them, and perhaps
      the include table's defaults. */
  lemma {:induction false} BuiltFrom(d: DesiredInput)
    requires BuildDesired(d).Built?
    ensures var o := BuildProfiles(d, Plan(d.net).nets, SortProfiles(d.profiles));
            var placed := Place(o.routes, Plan(d.net).routes);
            && o.Built? && (forall m :: m in BuildDesired(d).rules <==> m in o.rules)
            && (forall m :: m in placed ==> m in BuildDesired(d).routes)
            && (forall m :: m in BuildDesired(d).routes ==> m in placed || (m in Defaults(d, o.rules) && m.route.table == MODEL_B_TABLE))
            && (UniqueKeys(placed) ==> UniqueKeys(BuildDesired(d).routes))
  {
    hide Plan, BuildProfiles, Place, AddRoutes, SortProfiles, NeedsVpn, UniqueKeys, HasRuleOf, SortBy;
    var o := BuildProfiles(d, Plan(d.net).nets, SortProfiles(d.profiles));
    var placed := Place(o.routes, Plan(d.net).routes);
    var all := BuildUnsorted(d);
    AddRoutesKeys(placed, Defaults(d, o.rules));
    AddRoutesKeep(placed, Defaults(d, o.rules));
    SortByMembers(ByRouteKey(d.writing), all.routes);
    SortByMembers(ByRuleKey(d.writing), all.rules);
    if UniqueKeys(placed) {
      AddRoutesUnique(placed, Defaults(d, o.rules));
      SortedUnique(d.writing, all.routes);
    }
  }

  lemma {:induction false} SortedUnique(w: Writing, rs: seq<Managed>)
    requires UniqueKeys(rs)
    ensures UniqueKeys(SortBy(ByRouteKey(w), rs))
  {
    if rs != [] {
      var k := |rs| - 1;
      SortedUnique(w, rs[..k]);
      SortByMembers(ByRouteKey(w), rs[..k]);
      forall m | m in SortBy(ByRouteKey(w), rs[..k])
        ensures m.route != rs[k].route
      {
        var i :| 0 <= i < k && rs[i] == m;
      }
      InsertedUnique(w, SortBy(ByRouteKey(w), rs[..k]), rs[k]);
    }
  }

  lemma {:induction false} InsertedUnique(w: Writing, rs: seq<Managed>, m: Managed)
    requires UniqueKeys(rs) && forall x :: x in rs ==> x.route != m.route
    ensures UniqueKeys(InsertBy(ByRouteKey(w), rs, m))
  {
    hide TextLess, ByRouteKey;
    if rs != [] {
      var n := |rs| - 1;
      var key := ByRouteKey(w);
      InsertedUnique(w, rs[..n], m);
      InsertByPermutes(key, rs[..n], m);
      forall x | x in InsertBy(key, rs[..n], m)
        ensures x.route != rs[n].route
      {
        assert x in multiset(InsertBy(key, rs[..n], m));
        assert rs[n] in rs;
        if x != m { var j :| 0 <= j < n && rs[j] == x; }
      }
      UniqueAppend(InsertBy(key, rs[..n], m), rs[n]);
      UniqueAppend(rs, m);
    }
  }

  lemma {:induction false} UniqueAppend(rs: seq<Managed>, m: Managed)
    requires UniqueKeys(rs) && forall x :: x in rs ==> x.route != m.route
    ensures UniqueKeys(rs + [m])
  {
    assert forall i :: 0 <= i < |rs| ==> rs[i] in rs;
  }

  lemma {:induction false} FullBeneath(d: DesiredInput)
    requires BuildDesired(d).Built?
    ensures var o := BuildProfiles(d, Plan(d.net).nets, SortProfiles(d.profiles));
            o.Built? && Beneath(d.net, o.routes, BuildDesired(d).routes)
  {
    var tp, ps := Plan(d.net), SortProfiles(d.profiles);
    var o := BuildProfiles(d, tp.nets, ps);
    BuiltFrom(d);
    PlaceMembers(o.routes, tp.routes);
    PlanRoutesDistinct(d.net);
    hide Plan, BuildProfiles, BuildDesired, Place, SortProfiles, Defaults;
    forall m | m in o.routes
      ensures !InsideOne(tp.nets, m.route.dst)
    {
      assert m.route in Keys(o.routes);
      ProfileRoutes(d, tp.nets, ps, m.route);
      ExcludeStaysOutside(d, ps, tp.nets, m.route);
    }
    forall m | m in tp.routes && DstKey(m.route) !in Dsts(o.routes)
      ensures m in Place(o.routes, tp.routes)
    {
      Placed(o.routes, tp.routes, m);
    }
  }

  lemma {:induction false} AddRoutesKeep(rs: seq<Managed>, ms: seq<Managed>)
    ensures forall m :: m in rs ==> m in AddRoutes(rs, ms)
  {
    if ms != [] {
      AddRoutesKeep(rs, ms[..|ms| - 1]);
    }
  }

  /** In every desired set BuildDesired returns, no exclude route lies inside a tunnel's
      network, every tunnel destination is installed, and an address in such a network is
      decided by the plan: a route into the tunnel, a refusal, or a pin. */
  lemma {:induction false} TunnelNetworksWin(d: DesiredInput)
    requires BuildDesired(d).Built?
    ensures forall m :: m in BuildDesired(d).routes && m.route.table == MAIN && !m.origin.OfTunnel? ==>
                        !InsideOne(Plan(d.net).nets, m.route.dst)
    ensures forall m :: m in Plan(d.net).routes && !IsPin(m) ==> m in BuildDesired(d).routes
    ensures forall a: Addr :: Covers(Plan(d.net).nets, a) ==>
                              Lpm(MainOnly(BuildDesired(d).routes), a) == Lpm(Plan(d.net).routes, a) != None
  {
    var tp, all := Plan(d.net), BuildDesired(d).routes;
    var base := BuildProfiles(d, tp.nets, SortProfiles(d.profiles)).routes;
    FullBeneath(d);
    PlanRoutesDistinct(d.net);
    forall m | m in tp.routes && !IsPin(m)
      ensures m in all
    {
      assert m.route.dst in tp.nets && Contains(m.route.dst, m.route.dst);
      InNetwork(d.net, base, all, m.route.dst, m);
    }
    forall a: Addr | Covers(tp.nets, a)
      ensures Lpm(MainOnly(all), a) == Lpm(tp.routes, a) != None
    {
      NetworksWin(d.net, base, all, a);
    }
  }

  /** What an exclude profile's routes cover outside the networks is what it lists. */
  lemma {:induction false} BypassedIsRouted(d: DesiredInput, ps: seq<Profile>, cut: seq<Prefix>, nets: seq<Prefix>,
      a: Addr)
    requires AllAuto(d) && (forall p :: p in ps <==> p in d.profiles)
    requires !Covers(nets, a) && (cut == nets || cut == [])
    ensures Bypassed(d, a) <==> exists r :: ExcludeRoute(d, ps, cut, r) && Contains(r.dst, a)
  {
    if Bypassed(d, a) {
      var p :| p in d.profiles && p.enabled && p.mode.Exclude? && Covers(p.prefixes, a);
      ExcludedCover(p, cut, nets, a);
      MaximalBlocksExact(Excluded(p, cut, a.fam));
      var b :| b in MaximalBlocks(Excluded(p, cut, a.fam)) && Contains(b, a);
      var r := Route(MAIN, b, AutoHop(d.net, a.fam).value);
      assert IsExclude(d, p, cut, a.fam, r);
    }
    if exists r :: ExcludeRoute(d, ps, cut, r) && Contains(r.dst, a) {
      var r :| ExcludeRoute(d, ps, cut, r) && Contains(r.dst, a);
      var p, fam :| p in ps && IsExclude(d, p, cut, fam, r);
      MaximalBlocksExact(Excluded(p, cut, fam));
      assert Covers(Excluded(p, cut, fam), a);
      var q :| q in Excluded(p, cut, fam) && Contains(q, a);
      OutsideMembers(OfFamily(p.prefixes, fam), cut, q);
      OfFamilyMembers(p.prefixes, fam, q);
      assert fam == a.fam;
    }
  }

  lemma {:induction false} ExcludedCover(p: Profile, cut: seq<Prefix>, nets: seq<Prefix>, a: Addr)
    requires Covers(p.prefixes, a) && !Covers(nets, a) && (cut == nets || cut == [])
    ensures Covers(Excluded(p, cut, a.fam), a)
  {
    var q :| q in p.prefixes && Contains(q, a);
    OfFamilyMembers(p.prefixes, a.fam, q);
    OutsideCover(OfFamily(p.prefixes, a.fam), cut, a);
  }

  lemma {:induction false} AutoHops(d: DesiredInput, ps: seq<Profile>, nets: seq<Prefix>, r: Route)
    requires AllAuto(d) && (forall p :: p in ps <==> p in d.profiles) && ExcludeRoute(d, ps, nets, r)
    ensures AutoHop(d.net, r.dst.fam) == Some(r.hop)
  {
    var p, fam :| p in ps && IsExclude(d, p, nets, fam, r);
    MaximalBlocksExact(Excluded(p, nets, fam));
    assert Covers(MaximalBlocks(Excluded(p, nets, fam)), First(r.dst));
    var q :| q in Excluded(p, nets, fam) && Contains(q, First(r.dst));
    OutsideMembers(OfFamily(p.prefixes, fam), nets, q);
    OfFamilyMembers(p.prefixes, fam, q);
  }

  lemma {:induction false} FullAnswer(d: DesiredInput, a: Addr)
    requires AllAuto(d) && BuildDesired(d).Built?
    ensures NextHop(BuildDesired(d).routes, a) == Answer(d, a)
  {
    var nets, ps := Plan(d.net).nets, SortProfiles(d.profiles);
    var base := BuildProfiles(d, nets, ps).routes;
    SortProfilesMembers(d.profiles);
    FullBeneath(d);
    forall m | m in base
      ensures AutoHop(d.net, m.route.dst.fam) == Some(m.route.hop)
    {
      assert m.route in Keys(base);
      ProfileRoutes(d, nets, ps, m.route);
      AutoHops(d, ps, nets, m.route);
    }
    forall a: Addr | !Covers(nets, a)
      ensures Bypassed(d, a) <==> RoutesAddress(base, a)
    {
      BypassedIsRouted(d, ps, nets, nets, a);
      KeysRoute(d, ps, nets, a);
    }
    AnswerOfBase(d, base, BuildDesired(d).routes, a);
  }

  lemma {:induction false} KeysRoute(d: DesiredInput, ps: seq<Profile>, cut: seq<Prefix>, a: Addr)
    requires BuildProfiles(d, cut, ps).Built?
    ensures RoutesAddress(BuildProfiles(d, cut, ps).routes, a) <==> exists r :: ExcludeRoute(d, ps, cut, r) && Contains(r.dst, a)
  {
    var base := BuildProfiles(d, cut, ps).routes;
    if RoutesAddress(base, a) {
      var m :| m in base && m.route.table == MAIN && Contains(m.route.dst, a);
      assert m.route in Keys(base);
      ProfileRoutes(d, cut, ps, m.route);
    }
    if exists r :: ExcludeRoute(d, ps, cut, r) && Contains(r.dst, a) {
      var r :| ExcludeRoute(d, ps, cut, r) && Contains(r.dst, a);
      ProfileRoutes(d, cut, ps, r);
      var m :| m in base && m.route == r;
      assert r.table == MAIN;
    }
  }

  // ---------- the tunnel-only rebuild ----------

  /** The same input without tunnels, and so without a look at what others route. */
  function Bare(d: DesiredInput): DesiredInput {
    d.(net := d.net.(tunnels := [], occupied := []))
  }

  lemma {:induction false} NoTunnelsNoPlan(w: Network)
    requires w.tunnels == []
    ensures Plan(w) == NO_PLAN
  {
  }

  lemma {:induction false} UnyieldedMembers(others: seq<Managed>, nets: seq<Prefix>)
    ensures forall m :: m in Unyielded(others, nets) ==> m in others && !Yields(m, nets)
    ensures forall m :: m in others && !Yields(m, nets) ==> m.route in Keys(Unyielded(others, nets))
  {
    if others != [] {
      var k := |others| - 1;
      UnyieldedMembers(others[..k], nets);
      assert others == others[..k] + [others[k]];
      KeysConcat(Unyielded(others[..k], nets), [others[k]]);
    }
  }

  lemma {:induction false} BesideBeneath(w: Network, others: seq<Managed>)
    ensures Beneath(w, Unyielded(others, Plan(w).nets), Beside(Plan(w), others))
  {
    var tp := Plan(w);
    var base := Unyielded(others, tp.nets);
    UnyieldedMembers(others, tp.nets);
    PlaceMembers(base, tp.routes);
    PlanRoutesDistinct(w);
    forall m | m in tp.routes && DstKey(m.route) !in Dsts(base)
      ensures m in Beside(tp, others)
    {
      Placed(base, tp.routes, m);
    }
  }

  lemma {:induction false} BareRoutes(d: DesiredInput, r: Route)
    requires BuildDesired(Bare(d)).Built?
    ensures r.table == MAIN ==>
            (r in Keys(BuildDesired(Bare(d)).routes) <==> ExcludeRoute(d, SortProfiles(d.profiles), [], r))
  {
    var bare, ps := Bare(d), SortProfiles(d.profiles);
    NoTunnelsNoPlan(bare.net);
    BuiltFrom(bare);
    ProfileRoutes(bare, [], ps, r);
    SameExcludes(d, ps, r);
    hide BuildDesired, BuildProfiles, Plan, SortProfiles, ExcludeRoute, Defaults;
    var o := BuildProfiles(bare, [], ps);
    assert Place(o.routes, []) == o.routes;
    SameMainKeys(o.routes, BuildDesired(bare).routes, r);
  }

  lemma {:induction false} SameMainKeys(x: seq<Managed>, y: seq<Managed>, r: Route)
    requires (forall m :: m in x ==> m in y) && forall m :: m in y ==> m in x || m.route.table == MODEL_B_TABLE
    ensures r.table == MAIN ==> (r in Keys(y) <==> r in Keys(x))
  {
  }

  lemma {:induction false} SameExcludes(d: DesiredInput, ps: seq<Profile>, r: Route)
    ensures ExcludeRoute(Bare(d), ps, [], r) <==> ExcludeRoute(d, ps, [], r)
  {
    forall p, fam
      ensures IsExclude(Bare(d), p, [], fam, r) <==> IsExclude(d, p, [], fam, r)
    {
      assert ResolveGateway(p.gateway, fam, Bare(d).net) == ResolveGateway(p.gateway, fam, d.net);
    }
  }

  lemma {:induction false} BesideAnswer(d: DesiredInput, a: Addr)
    requires AllAuto(d) && BuildDesired(Bare(d)).Built?
    ensures NextHop(Beside(Plan(d.net), BuildDesired(Bare(d)).routes), a) == Answer(d, a)
  {
    var nets, ps := Plan(d.net).nets, SortProfiles(d.profiles);
    var bare := BuildDesired(Bare(d)).routes;
    var base := Unyielded(bare, nets);
    SortProfilesMembers(d.profiles);
    BesideBeneath(d.net, bare);
    UnyieldedMembers(bare, nets);
    forall m | m in base && m.route.table == MAIN
      ensures AutoHop(d.net, m.route.dst.fam) == Some(m.route.hop)
    {
      assert m.route in Keys(bare);
      BareRoutes(d, m.route);
      AutoHops(d, ps, [], m.route);
    }
    forall a: Addr | !Covers(nets, a)
      ensures Bypassed(d, a) <==> RoutesAddress(base, a)
    {
      BypassedIsRouted(d, ps, [], nets, a);
      BareBase(d, nets, a);
    }
    AnswerOfBase(d, base, Beside(Plan(d.net), bare), a);
  }

  /** Outside the networks nothing yields. */
  lemma {:induction false} BareBase(d: DesiredInput, nets: seq<Prefix>, a: Addr)
    requires BuildDesired(Bare(d)).Built? && !Covers(nets, a)
    ensures RoutesAddress(Unyielded(BuildDesired(Bare(d)).routes, nets), a) <==>
            exists r :: ExcludeRoute(d, SortProfiles(d.profiles), [], r) && Contains(r.dst, a)
  {
    var ps, bare := SortProfiles(d.profiles), BuildDesired(Bare(d)).routes;
    var base := Unyielded(bare, nets);
    UnyieldedMembers(bare, nets);
    if RoutesAddress(base, a) {
      var m :| m in base && m.route.table == MAIN && Contains(m.route.dst, a);
      assert m.route in Keys(bare);
      BareRoutes(d, m.route);
    }
    if exists r :: ExcludeRoute(d, ps, [], r) && Contains(r.dst, a) {
      var r :| ExcludeRoute(d, ps, [], r) && Contains(r.dst, a);
      BareRoutes(d, r);
      assert r.table == MAIN && r in Keys(bare);
      var m :| m in bare && m.route == r;
      assert !Yields(m, nets) by {
        forall n | n in nets
          ensures !Contains(n, r.dst)
        {
          if Contains(n, r.dst) { ContainsTransitive(n, r.dst, a); }
        }
      }
      var x :| x in base && x.route == r;
      assert RoutesAddress(base, a);
    }
  }

  /** Incremental equals full for routes: with the exclude profiles on the automatic
      gateway, placing the plan beside the routes built without tunnels gives every
      address the next hop the full rebuild gives it. */
  lemma {:induction false} BesideAsBuilt(d: DesiredInput, a: Addr)
    requires AllAuto(d) && BuildDesired(d).Built? && BuildDesired(Bare(d)).Built?
    ensures NextHop(Beside(Plan(d.net), BuildDesired(Bare(d)).routes), a) == NextHop(BuildDesired(d).routes, a)
  {
    FullAnswer(d, a);
    BesideAnswer(d, a);
  }

  // ---------- include rules ----------

  lemma {:induction false} RuleKeysConcat(x: seq<ManagedRule>, y: seq<ManagedRule>)
    ensures RuleKeys(x + y) == RuleKeys(x) + RuleKeys(y)
  {
    assert forall m :: m in x + y <==> m in x || m in y;
  }

  lemma {:induction false} AddRulesKeys(rs: seq<ManagedRule>, ms: seq<ManagedRule>)
    ensures RuleKeys(AddRules(rs, ms)) == RuleKeys(rs) + RuleKeys(ms)
    ensures forall m :: m in AddRules(rs, ms) ==> m in rs || m in ms
  {
    if ms != [] {
      var k := |ms| - 1;
      AddRulesKeys(rs, ms[..k]);
      assert ms == ms[..k] + [ms[k]];
      RuleKeysConcat(ms[..k], [ms[k]]);
      RuleKeysConcat(AddRules(rs, ms[..k]), [ms[k]]);
    }
  }

  lemma {:induction false} RulesToKeys(blocks: seq<Prefix>, t: Target, id: string, r: Rule)
    ensures r in RuleKeys(RulesTo(blocks, t, id)) <==> r.selector.To? && r.target == t && r.selector.net in blocks
  {
    if blocks != [] {
      var k := |blocks| - 1;
      RulesToKeys(blocks[..k], t, id, r);
      assert blocks == blocks[..k] + [blocks[k]];
      RuleKeysConcat(RulesTo(blocks[..k], t, id), [ManagedRule(Rule(To(blocks[k]), t), OfProfile(id))]);
    }
  }

  ghost predicate IsInclude(d: DesiredInput, p: Profile, nets: seq<Prefix>, fam: Family, r: Rule) {
    && p.enabled && p.mode.Include?
    && r.selector.To? && r.target == IncludeTarget(d, fam)
    && r.selector.net in MaximalBlocks(Included(p, nets, fam))
  }

  ghost predicate IncludeRule(d: DesiredInput, ps: seq<Profile>, nets: seq<Prefix>, r: Rule) {
    exists p, fam :: p in ps && IsInclude(d, p, nets, fam, r)
  }

  lemma {:induction false} ProfileRules(d: DesiredInput, nets: seq<Prefix>, ps: seq<Profile>, r: Rule)
    requires BuildProfiles(d, nets, ps).Built?
    ensures r in RuleKeys(BuildProfiles(d, nets, ps).rules) <==> IncludeRule(d, ps, nets, r)
  {
    if ps != [] {
      var k := |ps| - 1;
      var p, o := ps[k], BuildProfiles(d, nets, ps[..k]);
      ProfileRules(d, nets, ps[..k], r);
      assert ps == ps[..k] + [p];
      if p.enabled && p.mode.Include? {
        var r4, r6 := IncludeFamily(d, p, nets, V4), IncludeFamily(d, p, nets, V6);
        AddRulesKeys(o.rules, r4 + r6);
        RuleKeysConcat(r4, r6);
        RulesToKeys(MaximalBlocks(Included(p, nets, V4)), IncludeTarget(d, V4), p.id, r);
        RulesToKeys(MaximalBlocks(Included(p, nets, V6)), IncludeTarget(d, V6), p.id, r);
      }
      LastInclude(d, ps, nets, r);
    }
  }

  lemma {:induction false} LastInclude(d: DesiredInput, ps: seq<Profile>, nets: seq<Prefix>, r: Rule)
    requires ps != []
    ensures var k := |ps| - 1;
            IncludeRule(d, ps, nets, r) <==>
            IncludeRule(d, ps[..k], nets, r) || IsInclude(d, ps[k], nets, V4, r) || IsInclude(d, ps[k], nets, V6, r)
  {
    var k := |ps| - 1;
    assert ps == ps[..k] + [ps[k]] && ps[k] in ps;
    if IncludeRule(d, ps[..k], nets, r) {
      var p, fam :| p in ps[..k] && IsInclude(d, p, nets, fam, r);
      assert p in ps;
    }
    if IncludeRule(d, ps, nets, r) {
      var p, fam :| p in ps && IsInclude(d, p, nets, fam, r);
      assert fam.V4? || fam.V6?;
    }
  }

  lemma {:induction false} CutRuleKeys(m: ManagedRule, parts: seq<Prefix>, r: Rule)
    ensures r in RuleKeys(CutRule(m, parts)) <==> r.selector.To? && r.target == m.rule.target && r.selector.net in parts
  {
    if parts != [] {
      var k := |parts| - 1;
      CutRuleKeys(m, parts[..k], r);
      assert parts == parts[..k] + [parts[k]];
      RuleKeysConcat(CutRule(m, parts[..k]), [m.(rule := m.rule.(selector := To(parts[k])))]);
    }
  }

  /** r is one of the pieces of rule q. */
  ghost predicate PieceOf(q: Rule, nets: seq<Prefix>, r: Rule) {
    if q.selector.Other? then r == q
    else r.selector.To? && r.target == q.target && r.selector.net in SubtractNets(q.selector.net, nets)
  }

  lemma {:induction false} PiecesKeys(m: ManagedRule, nets: seq<Prefix>, r: Rule)
    ensures r in RuleKeys(Pieces(m, nets)) <==> PieceOf(m.rule, nets, r)
  {
    if m.rule.selector.To? {
      CutRuleKeys(m, SubtractNets(m.rule.selector.net, nets), r);
    }
  }

  lemma {:induction false} CutRulesKeys(rules: seq<ManagedRule>, nets: seq<Prefix>, r: Rule)
    ensures r in RuleKeys(CutRules(rules, nets)) <==> exists q :: q in RuleKeys(rules) && PieceOf(q, nets, r)
  {
    hide SubtractNets, Pieces, PieceOf, AddRules;
    if rules != [] {
      var k := |rules| - 1;
      CutRulesKeys(rules[..k], nets, r);
      assert rules == rules[..k] + [rules[k]];
      AddRulesKeys(CutRules(rules[..k], nets), Pieces(rules[k], nets));
      RuleKeysConcat(rules[..k], [rules[k]]);
      PiecesKeys(rules[k], nets, r);
      assert forall q :: q in RuleKeys(rules) <==> q in RuleKeys(rules[..k]) || q == rules[k].rule;
    }
  }

  lemma {:induction false} BareRules(d: DesiredInput, r: Rule)
    requires BuildDesired(Bare(d)).Built?
    ensures r in RuleKeys(BuildDesired(Bare(d)).rules) <==> IncludeRule(d, SortProfiles(d.profiles), [], r)
  {
    var bare, ps := Bare(d), SortProfiles(d.profiles);
    NoTunnelsNoPlan(bare.net);
    BuiltFrom(bare);
    ProfileRules(bare, [], ps, r);
    hide BuildDesired, BuildProfiles, Plan, SortProfiles;
    forall p, fam
      ensures IsInclude(bare, p, [], fam, r) <==> IsInclude(d, p, [], fam, r)
    {
      assert IncludeTarget(bare, fam) == IncludeTarget(d, fam);
    }
  }

  /** r is a piece of a rule built without the nets. */
  ghost predicate CutFrom(d: DesiredInput, ps: seq<Profile>, nets: seq<Prefix>, r: Rule) {
    exists q :: IncludeRule(d, ps, [], q) && PieceOf(q, nets, r)
  }

  lemma {:induction false} CutIsIncluded(d: DesiredInput, ps: seq<Profile>, nets: seq<Prefix>, r: Rule)
    requires nets != [] && CutFrom(d, ps, nets, r)
    ensures IncludeRule(d, ps, nets, r)
  {
    var q :| IncludeRule(d, ps, [], q) && PieceOf(q, nets, r);
    var p, fam :| p in ps && IsInclude(d, p, [], fam, q);
    var listed := OfFamily(p.prefixes, fam);
    AroundMembers(MaximalBlocks(listed), nets, r.selector.net);
    CutThenAggregate(listed, nets, r.selector.net);
    hide MaximalBlocks, Around, SubtractNets, OfFamily;
    assert IsInclude(d, p, nets, fam, r);
  }

  lemma {:induction false} IncludedIsCut(d: DesiredInput, ps: seq<Profile>, nets: seq<Prefix>, r: Rule)
    requires nets != [] && IncludeRule(d, ps, nets, r)
    ensures CutFrom(d, ps, nets, r)
  {
    var p, fam :| p in ps && IsInclude(d, p, nets, fam, r);
    var listed := OfFamily(p.prefixes, fam);
    CutThenAggregate(listed, nets, r.selector.net);
    AroundMembers(MaximalBlocks(listed), nets, r.selector.net);
    hide MaximalBlocks, Around, SubtractNets, OfFamily;
    var b :| b in MaximalBlocks(listed) && r.selector.net in SubtractNets(b, nets);
    var q := r.(selector := To(b));
    assert IsInclude(d, p, [], fam, q) && PieceOf(q, nets, r);
  }

  /** Cutting a profile's aggregated rules is aggregating its cut destinations. */
  lemma {:induction false} CutProfile(d: DesiredInput, ps: seq<Profile>, nets: seq<Prefix>, r: Rule)
    requires nets != []
    ensures CutFrom(d, ps, nets, r) <==> IncludeRule(d, ps, nets, r)
  {
    if CutFrom(d, ps, nets, r) { CutIsIncluded(d, ps, nets, r); }
    if IncludeRule(d, ps, nets, r) { IncludedIsCut(d, ps, nets, r); }
  }

  /** Incremental equals full for include rules: cutting the rules built without tunnels
      yields exactly the rules the full rebuild makes. */
  lemma {:induction false} RulesBesideAsBuilt(d: DesiredInput)
    requires BuildDesired(d).Built? && BuildDesired(Bare(d)).Built?
    ensures RuleKeys(RulesBeside(Plan(d.net), BuildDesired(Bare(d)).rules)) == RuleKeys(BuildDesired(d).rules)
  {
    var tp, ps := Plan(d.net), SortProfiles(d.profiles);
    var bare, full := BuildDesired(Bare(d)).rules, BuildDesired(d).rules;
    hide BuildDesired, Plan, SortProfiles, IncludeRule, CutRules;
    forall r
      ensures r in RuleKeys(RulesBeside(tp, bare)) <==> r in RuleKeys(full)
    {
      FullRules(d, r);
      if tp.nets == [] {
        BareRules(d, r);
      } else {
        CutRulesKeys(bare, tp.nets, r);
        forall q
          ensures q in RuleKeys(bare) <==> IncludeRule(d, ps, [], q)
        {
          BareRules(d, q);
        }
        CutProfile(d, ps, tp.nets, r);
      }
    }
  }

  lemma {:induction false} FullRules(d: DesiredInput, r: Rule)
    requires BuildDesired(d).Built?
    ensures r in RuleKeys(BuildDesired(d).rules) <==> IncludeRule(d, SortProfiles(d.profiles), Plan(d.net).nets, r)
  {
    BuiltFrom(d);
    hide BuildDesired, BuildProfiles, Plan, SortProfiles;
    ProfileRules(d, Plan(d.net).nets, SortProfiles(d.profiles), r);
    SameRuleKeys(BuildDesired(d).rules, BuildProfiles(d, Plan(d.net).nets, SortProfiles(d.profiles)).rules);
  }

  lemma {:induction false} SameRuleKeys(x: seq<ManagedRule>, y: seq<ManagedRule>)
    requires forall m :: m in x <==> m in y
    ensures RuleKeys(x) == RuleKeys(y)
  {
  }

  // ---------- one next hop per destination ----------

  lemma {:induction false} AddRoutesUnique(rs: seq<Managed>, ms: seq<Managed>)
    requires UniqueKeys(rs)
    ensures UniqueKeys(AddRoutes(rs, ms))
  {
    if ms != [] {
      var k := |ms| - 1;
      AddRoutesUnique(rs, ms[..k]);
      KeyAbsent(AddRoutes(rs, ms[..k]), ms[k]);
    }
  }

  lemma {:induction false} KeyAbsent(rs: seq<Managed>, m: Managed)
    requires UniqueKeys(rs)
    ensures m.route !in Keys(rs) ==> UniqueKeys(rs + [m])
  {
    forall i | 0 <= i < |rs|
      ensures rs[i].route in Keys(rs)
    {
      assert rs[i] in rs;
    }
  }

  lemma {:induction false} PlaceUnique(rs: seq<Managed>, plan: seq<Managed>)
    requires UniqueKeys(rs)
    ensures UniqueKeys(Place(rs, plan))
  {
    if plan != [] {
      var k := |plan| - 1;
      PlaceUnique(rs, plan[..k]);
      var out, m := Place(rs, plan[..k]), plan[k];
      assert DstKey(m.route) !in Dsts(out) ==> m.route !in Keys(out) by {
        forall x | x in out
          ensures DstKey(x.route) in Dsts(out)
        {
        }
      }
      KeyAbsent(out, m);
    }
  }

  lemma {:induction false} ProfilesUnique(d: DesiredInput, nets: seq<Prefix>, ps: seq<Profile>)
    requires BuildProfiles(d, nets, ps).Built?
    ensures UniqueKeys(BuildProfiles(d, nets, ps).routes)
  {
    if ps != [] {
      var k := |ps| - 1;
      ProfilesUnique(d, nets, ps[..k]);
      AddRoutesUnique(BuildProfiles(d, nets, ps[..k]).routes, ExcludeFamily(d, ps[k], nets, V4) + ExcludeFamily(d, ps[k], nets, V6));
    }
  }

  /** No route is desired twice; and only exclude profiles that disagree on the next hop can
      give a destination two: no tunnel, pin or table default ever does. */
  lemma {:induction false} TunnelsNeverConflict(d: DesiredInput)
    requires BuildDesired(d).Built?
    ensures UniqueKeys(BuildDesired(d).routes)
    ensures forall m, n :: m in BuildDesired(d).routes && n in BuildDesired(d).routes &&
                           DstKey(m.route) == DstKey(n.route) && m.route != n.route ==>
                           ExcludeRoute(d, d.profiles, Plan(d.net).nets, m.route) &&
                           ExcludeRoute(d, d.profiles, Plan(d.net).nets, n.route)
  {
    var tp, ps, all := Plan(d.net), SortProfiles(d.profiles), BuildDesired(d).routes;
    var o := BuildProfiles(d, tp.nets, ps);
    BuiltFrom(d);
    ProfilesUnique(d, tp.nets, ps);
    PlaceUnique(o.routes, tp.routes);
    forall m, n | m in all && n in all && DstKey(m.route) == DstKey(n.route) && m.route != n.route
      ensures ExcludeRoute(d, d.profiles, tp.nets, m.route)
    {
      ConflictInBase(d, m, n);
    }
  }

  lemma {:induction false} ConflictInBase(d: DesiredInput, m: Managed, n: Managed)
    requires BuildDesired(d).Built? && m in BuildDesired(d).routes && n in BuildDesired(d).routes
    requires DstKey(m.route) == DstKey(n.route) && m.route != n.route
    ensures ExcludeRoute(d, d.profiles, Plan(d.net).nets, m.route)
  {
    hide BuildDesired, BuildProfiles, Plan, SortProfiles, Place, Defaults, Keys, IsExclude, DistinctDsts, UniqueKeys;
    var tp, ps := Plan(d.net), SortProfiles(d.profiles);
    var o := BuildProfiles(d, tp.nets, ps);
    BuiltFrom(d);
    SortProfilesMembers(d.profiles);
    PlanRoutesDistinct(d.net);
    BaseIsMain(d, ps, tp.nets);
    PlaceMembers(o.routes, tp.routes);
    NotDefaults(d, o.rules, m, n);
    PlacedConflict(o.routes, tp.routes, m, n);
    assert m.route in Keys(o.routes) by { InKeys(o.routes, m); }
    ProfileRoutes(d, tp.nets, ps, m.route);
    var p, fam :| p in ps && IsExclude(d, p, tp.nets, fam, m.route);
    assert p in d.profiles;
  }

  lemma {:induction false} InKeys(rs: seq<Managed>, m: Managed)
    requires m in rs
    ensures m.route in Keys(rs)
  {
  }

  /** The include table's defaults never conflict. */
  lemma {:induction false} NotDefaults(d: DesiredInput, rules: seq<ManagedRule>, m: Managed, n: Managed)
    requires DstKey(m.route) == DstKey(n.route) && m.route != n.route
    ensures m !in Defaults(d, rules) || n !in Defaults(d, rules)
  {
  }

  lemma {:induction false} PlacedConflict(base: seq<Managed>, plan: seq<Managed>, m: Managed, n: Managed)
    requires DistinctDsts(plan) && (forall x :: x in plan ==> x.route.table == MAIN)
    requires m in Place(base, plan) && n in Place(base, plan)
    requires DstKey(m.route) == DstKey(n.route) && m.route != n.route
    ensures m in base
  {
    PlaceMembers(base, plan);
    hide Place;
    assert n in base ==> DstKey(n.route) in Dsts(base);
    if m in plan && n in plan { SameDestination(plan, m, n); }
  }

  lemma {:induction false} BaseIsMain(d: DesiredInput, ps: seq<Profile>, nets: seq<Prefix>)
    requires BuildProfiles(d, nets, ps).Built?
    ensures forall m :: m in BuildProfiles(d, nets, ps).routes ==> m.route.table == MAIN
  {
    var rs := BuildProfiles(d, nets, ps).routes;
    forall m | m in rs
      ensures m.route.table == MAIN
    {
      assert m.route in Keys(rs);
      ProfileRoutes(d, nets, ps, m.route);
    }
  }

  /** Hence with automatic gateways the desired set never routes a destination two ways. */
  lemma {:induction false} AutoIsConflictFree(d: DesiredInput)
    requires BuildDesired(d).Built? && AllAuto(d)
    ensures UniqueDsts(BuildDesired(d).routes)
  {
    var all, nets := BuildDesired(d).routes, Plan(d.net).nets;
    TunnelsNeverConflict(d);
    forall m, n | m in all && n in all && DstKey(m.route) == DstKey(n.route)
      ensures m.route == n.route
    {
      if m.route != n.route {
        AutoHops(d, d.profiles, nets, m.route);
        AutoHops(d, d.profiles, nets, n.route);
      }
    }
    UniqueBoth(all);
  }
}
