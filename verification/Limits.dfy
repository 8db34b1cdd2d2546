/** Where guarantees stop: concrete inputs on which the plan hands out what someone else
routes, on which a yielded route is lost, and on which the tunnel-only rebuild and the full
one differ.
 */
module Limits {
  import opened Prefixes
  import opened Ordering
  import opened Aggregation
  import opened Subtraction
  import opened Routes
  import opened Planner
  import opened PlannerSafety
  import opened Desired
  import opened Incremental
  import opened Preference
  import opened Yielded

  function Net(bits: seq<bool>): Prefix
    requires |bits| <= 32
  {
    Block(V4, bits)
  }

  const N0: Prefix := Net([false])
  const N00: Prefix := Net([false, false])
  const N01: Prefix := Net([false, true])

  lemma {:induction false} CanonicalIsMaximal(s: seq<Prefix>)
    requires Canonical(s) && StrictlyOrdered(s)
    ensures MaximalBlocks(s) == s
  {
    MaximalBlocksUnique(s, s);
  }

  lemma {:induction false} OneIsMaximal(p: Prefix)
    ensures MaximalBlocks([p]) == [p] && MaximalBlocks([]) == []
  {
    CanonicalIsMaximal([p]);
    CanonicalIsMaximal([]);
  }

  // ---------- a lone tunnel ----------

  /** One live tunnel, IPv4 only, with nothing to keep out of what it lists. */
  ghost predicate Unhindered(w: Network, t: TunnelInput, pins: TunnelPlan) {
    && w.tunnels == [t] && Live(t)
    && pins == PinPhase(w, [t], 1)
    && (forall p :: p in t.routes ==>
                    p.fam.V4? && p !in w.occupied && p !in pins.taken && KeepOut(p, w, [t], pins.held, false) == [])
    && (forall p :: p in MaximalBlocks(t.routes) ==> p !in pins.taken)
  }

  lemma {:induction false} PlacedAsListed(w: Network, t: TunnelInput, pins: TunnelPlan, p: Prefix)
    requires Unhindered(w, t, pins) && p in t.routes
    ensures Decide(w, [t], t, pins.taken, pins.held, p) == Decision([p], None, false)
  {
    hide PinPhase, KeepOut, CarvedParts;
  }

  lemma {:induction false} GathersAsListed(w: Network, t: TunnelInput, pins: TunnelPlan, n: nat)
    requires Unhindered(w, t, pins) && n <= |t.routes|
    ensures Gather(w, [t], t, pins.taken, pins.held, V4, n) == t.routes[..n]
    ensures Gather(w, [t], t, pins.taken, pins.held, V6, n) == []
  {
    hide PinPhase, Decide, KeepOut;
    if n > 0 {
      GathersAsListed(w, t, pins, n - 1);
      PlacedAsListed(w, t, pins, t.routes[n - 1]);
      assert t.routes[..n] == t.routes[..n - 1] + [t.routes[n - 1]];
    }
  }

  lemma {:induction false} UnclaimedAsListed(aggs: seq<Prefix>, ps: seq<Prefix>, taken: Claims)
    requires Antichain(aggs) && forall p :: p in aggs ==> p !in taken
    ensures UnclaimedOf(aggs, ps, taken) == aggs
  {
    if aggs != [] {
      var k := |aggs| - 1;
      UnclaimedAsListed(aggs[..k], ps, taken);
      assert aggs == aggs[..k] + [aggs[k]];
      assert aggs[k] !in aggs[..k] by {
        forall i | 0 <= i < k
          ensures aggs[i] != aggs[k]
        {
          assert !Nested(aggs[i], aggs[k]);
        }
      }
      var one := [aggs[k]];
      assert one[..0] == [] && AppendNew(aggs[..k], []) == aggs[..k];
      assert AppendNew(aggs[..k], one) == aggs[..k] + one;
    }
  }

  lemma {:induction false} InstallAddsAll(t: TunnelInput, s: TunnelPlan, ps: seq<Prefix>)
    ensures Install(t, s, ps).nets == s.nets + ps && forall m :: m in s.routes ==> m in Install(t, s, ps).routes
  {
    if ps != [] {
      InstallAddsAll(t, s, ps[..|ps| - 1]);
      assert ps == ps[..|ps| - 1] + [ps[|ps| - 1]];
    }
  }

  lemma {:induction false} LoneTunnel(w: Network, t: TunnelInput, pins: TunnelPlan)
    requires Unhindered(w, t, pins)
    ensures Plan(w).nets == pins.nets + MaximalBlocks(t.routes)
    ensures forall m :: m in pins.routes ==> m in Plan(w).routes
  {
    assert [t][1..] == [];
    assert SortTunnels([]) == [];
    assert SortTunnels([t]) == [t];
    var n := |t.routes|;
    GathersAsListed(w, t, pins, n);
    assert t.routes[..n] == t.routes;
    CanonicalIsMaximal([]);
    MaximalBlocksExact(t.routes);
    var blocks := MaximalBlocks(t.routes);
    UnclaimedAsListed(blocks, t.routes, pins.taken);
    var s0 := Reported(w, [t], t, pins);
    InstallAddsAll(t, s0, blocks);
    var s4 := Install(t, s0, blocks);
    assert RoutePhase(w, [t], 0) == pins;
    hide Gather, Install, MaximalBlocks, Reported, PinPhase;
    assert TunnelParts(w, [t], t, pins, V4) == t.routes && TunnelParts(w, [t], t, pins, V6) == [];
    assert UnclaimedOf([], [], s4.taken) == [];
    assert Install(t, s4, []) == s4 by { NothingInstalled(t, s4); }
    assert RoutePhase(w, [t], 1) == PlanTunnel(w, [t], t, pins);
  }

  lemma {:induction false} NothingInstalled(t: TunnelInput, s: TunnelPlan)
    ensures Install(t, s, []) == s
  {
  }

  /** Nothing to pin and nothing to keep out. */
  ghost predicate Idle(w: Network, t: TunnelInput) {
    && w.tunnels == [t] && Live(t) && t.bypass == [] && t.servers == []
    && w.gateway4.None? && w.gateway6.None? && w.dnsServers == [] && w.anchors == []
  }

  lemma {:induction false} NothingPinned(w: Network, t: TunnelInput)
    requires Idle(w, t)
    ensures PinPhase(w, [t], 1) == NO_PLAN
  {
    assert [t][0] == t && |t.bypass| == 0;
    assert PinPhase(w, [t], 0) == NO_PLAN && Pins(w, t, NO_PLAN, 0) == NO_PLAN;
    assert OccupiedServers(w, ServersOf(t)) == {};
    assert NO_PLAN.(held := NO_PLAN.held + {}) == NO_PLAN;
  }

  lemma {:induction false} NothingKeptOut(w: Network, t: TunnelInput, p: Prefix)
    requires Idle(w, t)
    ensures KeepOut(p, w, [t], {}, false) == []
  {
    assert AllServers([t]) == AllServers([]) + [] by { assert [t][..0] == []; }
    assert Guarded(w, [t], {}, false) == [];
  }

  lemma {:induction false} IdleTunnel(w: Network, t: TunnelInput)
    requires Idle(w, t) && forall p :: p in t.routes ==> p.fam.V4? && p !in w.occupied
    ensures Plan(w).nets == MaximalBlocks(t.routes)
  {
    NothingPinned(w, t);
    forall p | p in t.routes { NothingKeptOut(w, t, p); }
    hide PinPhase, KeepOut, Plan, MaximalBlocks;
    LoneTunnel(w, t, PinPhase(w, [t], 1));
  }

  // ---------- an occupied destination ----------

  const HALVED := TunnelInput("t", "tun0", false, false, [N00, N01], [], [])
  const OCCUPIED_NETWORK := Network(None, None, "en0", "", None, None, [HALVED], [N0], [], [])

  /** Someone else routes a network and a tunnel lists its halves: the plan aggregates them
      to that very network. */
  lemma {:induction false} OccupiedIsHandedOut()
    ensures N0 in OCCUPIED_NETWORK.occupied && N0 in Plan(OCCUPIED_NETWORK).nets
  {
    hide Plan;
    IdleTunnel(OCCUPIED_NETWORK, HALVED);
    forall a: Addr
      ensures Covers([N00, N01], a) <==> Covers([N0], a)
    {
      assert N00 == Half(N0, false) && N01 == Half(N0, true) && Parent(N00) == N0;
      ParentCover(N00, N01, a);
    }
    SameCoverSameBlocks([N00, N01], [N0]);
    OneIsMaximal(N0);
  }

  // ---------- a yielded route is lost ----------

  const GATEWAY: Addr := First(Root(V4))
  const LISTED: Prefix := Net([true])
  const SERVER: Addr := First(LISTED)

  const PINNING := TunnelInput("t", "tun0", false, false, [LISTED], [SERVER], [])

  const PINNED_NETWORK := Network(Some(GATEWAY), None, "en0", "", None, None, [PINNING], [], [], [])

  const OWN_ROUTE := Managed(Route(MAIN, SERVER, Via(GATEWAY, "en0")), OfProfile("p"), 0)

  const SERVER_PIN := Ours(Route(MAIN, SERVER, Via(GATEWAY, "en0")), "t")

  const SERVER_PLAN := NO_PLAN.(held := {SERVER}, taken := map[SERVER := Pin("t")], routes := [SERVER_PIN])

  lemma {:induction false} PinsAre()
    ensures PinPhase(PINNED_NETWORK, [PINNING], 1) == SERVER_PLAN
  {
    var w, t := PINNED_NETWORK, PINNING;
    assert [t][0] == t && t.bypass[0] == SERVER && |t.bypass| == 1;
    assert PinPhase(w, [t], 0) == NO_PLAN;
    assert PinOne(w, t, NO_PLAN, SERVER) == SERVER_PLAN;
    assert Pins(w, t, NO_PLAN, 0) == NO_PLAN;
    assert Pins(w, t, NO_PLAN, 1) == SERVER_PLAN;
    assert OccupiedServers(w, ServersOf(t)) == {};
    assert SERVER_PLAN.(held := SERVER_PLAN.held + {}) == SERVER_PLAN;
  }

  lemma {:induction false} PinsLeaveTheRest()
    ensures KeepOut(LISTED, PINNED_NETWORK, [PINNING], {SERVER}, false) == [] && LISTED != SERVER
  {
    var w, t := PINNED_NETWORK, PINNING;
    assert LISTED.bits != SERVER.bits by { assert |LISTED.bits| == 1; }
    assert !Contains(LISTED, GATEWAY) by { assert GATEWAY.bits[0] == false && LISTED.bits[0]; }
    assert AllServers([t]) == AllServers([]) + [SERVER] by { assert [t][..0] == []; }
    assert AllServers([t])[..0] == [];
    assert Unheld(AllServers([t]), {SERVER}) == [];
    assert Guarded(w, [t], {SERVER}, false) == [];
  }

  lemma {:induction false} PinsTheServer()
    ensures var pins := PinPhase(PINNED_NETWORK, [PINNING], 1);
            Unhindered(PINNED_NETWORK, PINNING, pins) && pins.nets == [] && OWN_ROUTE.route in Keys(pins.routes)
  {
    hide PinPhase, KeepOut, MaximalBlocks;
    PinsAre();
    PinsLeaveTheRest();
    OneIsMaximal(LISTED);
    assert SERVER_PIN in SERVER_PLAN.routes && SERVER_PIN.route == OWN_ROUTE.route;
  }

  lemma {:induction false} PinnedPlan()
    ensures Plan(PINNED_NETWORK).nets == [LISTED] && OWN_ROUTE.route in Keys(Plan(PINNED_NETWORK).routes)
  {
    var w := PINNED_NETWORK;
    var pins := PinPhase(w, [PINNING], 1);
    hide PinPhase, Plan, Unhindered, MaximalBlocks;
    PinsTheServer();
    OneIsMaximal(LISTED);
    LoneTunnel(w, PINNING, pins);
    var m :| m in pins.routes && m.route == OWN_ROUTE.route;
    assert m in Plan(w).routes;
  }

  lemma {:induction false} LoneOther()
    ensures Others(State([OWN_ROUTE], [], NO_RECORD), None) == [OWN_ROUTE]
  {
    var s := State([OWN_ROUTE], [], NO_RECORD);
    assert s.owned[..0] == [];
    assert NotTunnels(s.owned) == [OWN_ROUTE];
  }

  /** An exclude profile lists a tunnel's pinned server inside the tunnel's networks: its
      route yields, the pin has its key, so nothing records it, and it does not come back. */
  lemma {:induction false} PinnedRouteIsLost()
    ensures var s := State([OWN_ROUTE], [], NO_RECORD);
            OWN_ROUTE.route in Total(s) && OWN_ROUTE.route !in Total(TunnelApply(Plan(PINNED_NETWORK), None, s))
  {
    var s := State([OWN_ROUTE], [], NO_RECORD);
    PinnedPlan();
    LoneOther();
    assert Yields(OWN_ROUTE, [LISTED]) by { assert LISTED in [LISTED] && Contains(LISTED, SERVER); }
    assert OWN_ROUTE.route in Total(s) by { assert OWN_ROUTE in s.owned && OWN_ROUTE in NotTunnels(s.owned); }
    hide Plan, Others, TunnelApply, Yields, Keys, Total;
    KeysAfter(PINNED_NETWORK, [OWN_ROUTE], OWN_ROUTE.route);
  }

  // ---------- explicit gateways ----------

  const N000: Prefix := Net([false, false, false])
  const N001: Prefix := Net([false, false, true])
  const TARGET: Addr := First(N000)

  const HOP_X := Via(First(Net([true, false])), "en0")
  const HOP_Y := Via(First(Net([true, true])), "en0")

  const CUTTING := TunnelInput("t", "tun0", false, false, [N001, N01], [], [])
  const CUT_NETWORK := Network(None, None, "en0", "", None, None, [CUTTING], [], [], [])

  const WIDE := Profile("a", Exclude, true, 1, Explicit(HOP_X.gateway), [N000, N001, N01])
  const NARROW := Profile("b", Exclude, true, 0, Explicit(HOP_Y.gateway), [N00])

  function TwoGateways(w: Writing): DesiredInput {
    DesiredInput(CUT_NETWORK, [WIDE, NARROW], false, Linux, Vpn("", None), Vpn("", None), w)
  }

  lemma {:induction false} NetsApart()
    ensures Canonical([N001, N01]) && StrictlyOrdered([N001, N01])
    ensures !Contains(N001, TARGET) && !Contains(N01, TARGET) && Contains(N000, TARGET) && Contains(N00, TARGET)
    ensures !Nested(N001, N000) && !Nested(N01, N000) && !Contains(N001, N00) && !Contains(N01, N00)
    ensures !Contains(N001, N0) && !Contains(N01, N0)
  {
    assert N001.bits[1] == false && N01.bits[1] && N000.bits[2] == false && N001.bits[2];
    assert TARGET.bits[..3] == N000.bits && TARGET.bits[1] == false && TARGET.bits[2] == false;
    assert TARGET.bits[..2] == N00.bits;
    assert N001.bits[1..] == [false, true] && N01.bits[1..] == [true];
    assert Less(N001, N01);
    forall p, q | p in [N001, N01] && q in [N001, N01]
      ensures !Siblings(p, q)
    {
      assert |p.bits| == |q.bits| ==> p == q;
    }
  }

  lemma {:induction false} CutNets()
    ensures Plan(CUT_NETWORK).nets == [N001, N01]
  {
    NetsApart();
    hide Plan;
    IdleTunnel(CUT_NETWORK, CUTTING);
    CanonicalIsMaximal([N001, N01]);
  }

  lemma {:induction false} AllV4(ps: seq<Prefix>)
    requires forall p :: p in ps ==> p.fam.V4?
    ensures OfFamily(ps, V4) == ps && OfFamily(ps, V6) == []
  {
    if ps != [] {
      var k := |ps| - 1;
      assert ps == ps[..k] + [ps[k]] && forall p :: p in ps[..k] ==> p in ps;
      AllV4(ps[..k]);
    }
  }

  lemma {:induction false} WhatIsExcluded(nets: seq<Prefix>, p: Prefix)
    requires nets == [N001, N01] || nets == []
    ensures p in Excluded(WIDE, nets, V4) <==> if nets == [] then p in WIDE.prefixes else p == N000
    ensures p in Excluded(NARROW, nets, V4) <==> p == N00
  {
    NetsApart();
    AllV4(WIDE.prefixes);
    AllV4(NARROW.prefixes);
    OutsideMembers(WIDE.prefixes, nets, p);
    OutsideMembers(NARROW.prefixes, nets, p);
    assert nets != [] ==> N001 in nets && N01 in nets;
  }

  /** What the two profiles route: with the tunnel, and without. */
  lemma {:induction false} ProfileBlocks(nets: seq<Prefix>)
    requires nets == [N001, N01] || nets == []
    ensures MaximalBlocks(Excluded(WIDE, nets, V4)) == if nets == [] then [N0] else [N000]
    ensures MaximalBlocks(Excluded(NARROW, nets, V4)) == [N00]
    ensures Excluded(WIDE, nets, V6) == [] && Excluded(NARROW, nets, V6) == []
    ensures Excluded(WIDE, nets, V4) != [] && Excluded(NARROW, nets, V4) != []
  {
    NoneOfV6(nets);
    WhatIsExcluded(nets, N000);
    WhatIsExcluded(nets, N00);
    hide Excluded, MaximalBlocks;
    forall p
      ensures p in Excluded(WIDE, nets, V4) <==> if nets == [] then p in WIDE.prefixes else p == N000
      ensures p in Excluded(NARROW, nets, V4) <==> p == N00
    {
      WhatIsExcluded(nets, p);
    }
    OneIsMaximal(N00);
    OneIsMaximal(N000);
    OneIsMaximal(N0);
    SameCoverSameBlocks(Excluded(NARROW, nets, V4), [N00]);
    if nets == [] {
      forall a: Addr
        ensures Covers(Excluded(WIDE, nets, V4), a) <==> Covers([N0], a)
      {
        WideCover(a);
      }
      SameCoverSameBlocks(Excluded(WIDE, nets, V4), [N0]);
    } else {
      SameCoverSameBlocks(Excluded(WIDE, nets, V4), [N000]);
    }
  }

  lemma {:induction false} NoneOfV6(nets: seq<Prefix>)
    ensures Excluded(WIDE, nets, V6) == [] && Excluded(NARROW, nets, V6) == []
  {
    AllV4(WIDE.prefixes);
    AllV4(NARROW.prefixes);
    assert Outside([], nets) == [];
  }

  lemma {:induction false} WideCover(a: Addr)
    ensures Covers(WIDE.prefixes, a) <==> Covers([N0], a)
  {
    assert N000 == Half(N00, false) && N001 == Half(N00, true) && N00 == Half(N0, false) && N01 == Half(N0, true);
    assert Parent(N000) == N00 && Parent(N001) == N00 && Parent(N00) == N0 && Parent(N01) == N0;
    ParentCover(N000, N001, a);
    ParentCover(N00, N01, a);
    assert WIDE.prefixes == [N000, N001] + [N01] && [N00, N01] == [N00] + [N01];
    CoversConcat([N000, N001], [N01], a);
    CoversConcat([N00], [N01], a);
  }

  lemma {:induction false} ExplicitBuilds(d: DesiredInput, nets: seq<Prefix>, p: Profile, o: Outcome)
    requires o.Built? && p.enabled && p.mode.Exclude? && p.gateway.Explicit? && p.gateway.addr.fam.V4?
    requires Excluded(p, nets, V4) != []
    ensures BuildProfile(d, nets, p, o).Built? && BuildProfile(d, nets, p, o).rules == o.rules
  {
    hide Excluded, ExcludeFamily, AddRoutes;
  }

  lemma {:induction false} BothBuild(nets: seq<Prefix>, w: Writing, d: DesiredInput)
    requires nets == [N001, N01] || nets == []
    requires (d == TwoGateways(w) || d == Bare(TwoGateways(w))) && Plan(d.net).nets == nets
    ensures BuildDesired(d).Built?
    ensures SortProfiles(d.profiles) == [WIDE, NARROW]
  {
    hide Plan, Excluded, MaximalBlocks, BuildProfile, AddRoutes, Place, Defaults;
    ProfileBlocks(nets);
    assert d.profiles == [WIDE, NARROW] && d.profiles[1..] == [NARROW] && [NARROW][1..] == [];
    assert SortProfiles([NARROW]) == [NARROW];
    assert SortProfiles(d.profiles) == [WIDE, NARROW];
    assert [WIDE][..0] == [] && [WIDE, NARROW][..1] == [WIDE];
    var none := Built([], []);
    var o := BuildProfile(d, nets, WIDE, none);
    ExplicitBuilds(d, nets, WIDE, none);
    assert BuildProfiles(d, nets, [WIDE]) == o;
    ExplicitBuilds(d, nets, NARROW, o);
    assert BuildProfiles(d, nets, [WIDE, NARROW]) == BuildProfile(d, nets, NARROW, o);
  }

  /** No plan route of this network holds the target. */
  lemma {:induction false} PlanAside()
    ensures Lpm(Plan(CUT_NETWORK).routes, TARGET).None? && !WithinNets(Plan(CUT_NETWORK).nets, TARGET)
  {
    CutNets();
    NetsApart();
    PlanRoutesDistinct(CUT_NETWORK);
    LpmMeans(Plan(CUT_NETWORK).routes, TARGET);
    hide Plan, Lpm;
    assert AutoHop(CUT_NETWORK, V4).None? && AutoHop(CUT_NETWORK, V6).None?;
    forall m | m in Plan(CUT_NETWORK).routes
      ensures !Contains(m.route.dst, TARGET)
    {
      assert AutoHop(CUT_NETWORK, m.route.dst.fam).None?;
      assert m.route.dst in Plan(CUT_NETWORK).nets;
    }
  }

  lemma {:induction false} OneBlockRoute(d: DesiredInput, nets: seq<Prefix>, p: Profile, b: Prefix, hop: Hop, a: Addr)
    requires p.enabled && p.mode.Exclude? && ResolveGateway(p.gateway, a.fam, d.net) == Some(hop)
    requires MaximalBlocks(Excluded(p, nets, a.fam)) == [b] && Contains(b, a)
    ensures ProfileRoute(d, nets, p, a) == Some(Route(MAIN, b, hop))
  {
    hide MaximalBlocks, Excluded, ResolveGateway;
    assert [b][..0] == [] && BlockAround([], a) == None;
    assert BlockAround([b], a) == Some(b);
  }

  lemma {:induction false} TwoPreferred(d: DesiredInput, nets: seq<Prefix>, p: Profile, q: Profile, a: Addr)
    ensures Preferred(d, nets, [p, q], a) ==
            Ahead(d.writing, Ahead(d.writing, None, ProfileRoute(d, nets, p, a)), ProfileRoute(d, nets, q, a))
  {
    hide ProfileRoute, Ahead;
    assert [p, q][..1] == [p] && [p][..0] == [];
    assert Preferred(d, nets, [], a) == None;
    assert [p][0] == p && [p, q][1] == q;
    assert Preferred(d, nets, [p], a) == Ahead(d.writing, None, ProfileRoute(d, nets, p, a));
  }

  /** Whose block around the target is the narrowest. */
  lemma {:induction false} PrefersAtTarget(w: Writing, nets: seq<Prefix>)
    requires nets == [N001, N01] || nets == []
    ensures Preferred(TwoGateways(w), nets, [WIDE, NARROW], TARGET) ==
            Some(if nets == [] then Route(MAIN, N00, HOP_Y) else Route(MAIN, N000, HOP_X))
  {
    hide MaximalBlocks, Excluded, ProfileRoute, Preferred, RouteKey;
    var d := TwoGateways(w);
    ProfileBlocks(nets);
    NetsApart();
    assert Contains(N0, TARGET) by { ContainsTransitive(N0, N00, TARGET); }
    OneBlockRoute(d, nets, WIDE, if nets == [] then N0 else N000, HOP_X, TARGET);
    OneBlockRoute(d, nets, NARROW, N00, HOP_Y, TARGET);
    TwoPreferred(d, nets, WIDE, NARROW, TARGET);
  }

  /** Two profiles with gateways of their own: the wider one's destination shrinks when part
      of it lies in a tunnel's networks. The full rebuild then prefers it, where placing the
      tunnel beside the routes built without it keeps the other — however keys are written. */
  lemma {:induction false} ExplicitGatewaysDiffer(w: Writing)
    ensures var d := TwoGateways(w);
            && BuildDesired(d).Built? && BuildDesired(Bare(d)).Built?
            && NextHop(BuildDesired(d).routes, TARGET) == Some(HOP_X)
            && NextHop(Beside(Plan(d.net), BuildDesired(Bare(d)).routes), TARGET) == Some(HOP_Y)
            && HOP_X != HOP_Y
  {
    var d := TwoGateways(w);
    CutNets();
    NoTunnelsNoPlan(Bare(d).net);
    BothBuild([N001, N01], w, d);
    BothBuild([], w, Bare(d));
    PlanAside();
    hide Plan, BuildDesired, NextHop, SortProfiles, Beside;
    FullLead(d, TARGET);
    BesideLead(d, TARGET);
    PrefersAtTarget(w, [N001, N01]);
    PrefersAtTarget(w, []);
    hide Preferred, Lpm;
    assert HOP_X.gateway.bits[1] != HOP_Y.gateway.bits[1] by {
      assert HOP_X.gateway.bits[..2] == [true, false] && HOP_Y.gateway.bits[..2] == [true, true];
    }
  }
}
