/** What the plan reports of the tunnels' listed routes (internal/routing/tunnels.go) is
true: each reason given is the case, and only routes that hold something to keep out are
called narrowed.
 */
module Reports {
  import opened Prefixes
  import opened Subtraction
  import opened Routes
  import opened Planner
  import opened PlannerSafety
  import opened PlannerCoverage

  /** a must stay out of the tunnels: the router, one of the first resolvers, an anchor, or
      a tunnel's server that nothing holds off them. */
  ghost predicate StaysOff(w: Network, a: Addr) {
    || (a.fam.V4? && w.gateway4 == Some(a))
    || (a.fam.V6? && w.gateway6 == Some(a))
    || a in FirstResolvers(w.dnsServers)
    || a in w.anchors
    || ServerUnheld(w, a)
  }

  ghost predicate ServerUnheld(w: Network, a: Addr) {
    a !in Plan(w).held && exists t :: t in w.tunnels && (a in t.bypass || a in t.servers)
  }

  lemma {:induction false} ServerOfOne(ts: seq<TunnelInput>, a: Addr)
    requires a in AllServers(ts)
    ensures exists t :: t in ts && (a in t.bypass || a in t.servers)
  {
    var k := |ts| - 1;
    assert ts == ts[..k] + [ts[k]];
    if a in AllServers(ts[..k]) {
      ServerOfOne(ts[..k], a);
    } else {
      assert ts[k] in ts;
    }
  }

  lemma {:induction false} KeptStaysOff(w: Network, p: Prefix, essential: bool, k: Kept)
    requires k in KeepOut(p, w, SortTunnels(w.tunnels), Plan(w).held, essential)
    ensures StaysOff(w, k.addr) && Contains(p, k.addr)
  {
    var ts, held := SortTunnels(w.tunnels), Plan(w).held;
    SortTunnelsMembers(w.tunnels);
    hide KeepOut, Plan, SortTunnels, FirstResolvers;
    KeepOutSound(p, w, ts, held, essential, k);
    UnheldMembers(AllServers(ts), held, k.addr);
    if k.addr in AllServers(ts) { ServerOfOne(ts, k.addr); }
  }

  // ---------- where a report comes from ----------

  /** r is what is reported of the j-th route t lists. */
  ghost predicate ReportOf(w: Network, ts: seq<TunnelInput>, t: TunnelInput, taken: Claims, held: set<Addr>, j: nat,
      r: Report)
    requires j < |t.routes|
  {
    r.tunnel == t.name && r.route == t.routes[j] && Decide(w, ts, t, taken, held, t.routes[j]).why == Some(r.reason)
  }

  /** So is x for what is narrowed. */
  ghost predicate NarrowingOf(w: Network, ts: seq<TunnelInput>, t: TunnelInput, taken: Claims, held: set<Addr>, j: nat,
      x: (string, Prefix))
    requires j < |t.routes|
  {
    x == (t.name, t.routes[j]) && Decide(w, ts, t, taken, held, t.routes[j]).narrowed
  }

  lemma {:induction false} BlockedFrom(w: Network, ts: seq<TunnelInput>, t: TunnelInput, taken: Claims, held: set<Addr>,
      n: nat, r: Report)
    requires n <= |t.routes| && r in BlockedOf(w, ts, t, taken, held, n)
    ensures exists j: nat :: j < n && ReportOf(w, ts, t, taken, held, j, r)
  {
    hide Decide;
    if r in BlockedOf(w, ts, t, taken, held, n - 1) {
      BlockedFrom(w, ts, t, taken, held, n - 1, r);
    } else {
      assert ReportOf(w, ts, t, taken, held, n - 1, r);
    }
  }

  lemma {:induction false} NarrowedFrom(w: Network, ts: seq<TunnelInput>, t: TunnelInput, taken: Claims, held: set<Addr>,
      n: nat, x: (string, Prefix))
    requires n <= |t.routes| && x in NarrowedOf(w, ts, t, taken, held, n)
    ensures exists j: nat :: j < n && NarrowingOf(w, ts, t, taken, held, j, x)
  {
    hide Decide;
    if x in NarrowedOf(w, ts, t, taken, held, n - 1) {
      NarrowedFrom(w, ts, t, taken, held, n - 1, x);
    } else {
      assert NarrowingOf(w, ts, t, taken, held, n - 1, x);
    }
  }

  lemma {:induction false} InstallKeepsNarrowed(t: TunnelInput, s: TunnelPlan, ps: seq<Prefix>)
    ensures Install(t, s, ps).narrowed == s.narrowed
  {
    if ps != [] {
      InstallKeepsNarrowed(t, s, ps[..|ps| - 1]);
    }
  }

  lemma {:induction false} PlanTunnelNarrows(w: Network, ts: seq<TunnelInput>, t: TunnelInput, s: TunnelPlan)
    ensures PlanTunnel(w, ts, t, s).narrowed == s.narrowed + NarrowedOf(w, ts, t, s.taken, s.held, |t.routes|)
  {
    var s0 := Reported(w, ts, t, s);
    var u4 := Unclaimed(TunnelParts(w, ts, t, s, V4), s0.taken);
    var s4 := Install(t, s0, u4);
    InstallKeepsNarrowed(t, s0, u4);
    InstallKeepsNarrowed(t, s4, Unclaimed(TunnelParts(w, ts, t, s, V6), s4.taken));
  }

  lemma {:induction false} PinsReportNothing(w: Network, t: TunnelInput, s: TunnelPlan, n: nat)
    requires n <= |t.bypass|
    ensures Pins(w, t, s, n).blocked == s.blocked && Pins(w, t, s, n).narrowed == s.narrowed
  {
    if n > 0 { PinsReportNothing(w, t, s, n - 1); }
  }

  lemma {:induction false} NoReportsYet(w: Network, ts: seq<TunnelInput>, n: nat)
    requires n <= |ts|
    ensures PinPhase(w, ts, n).blocked == [] && PinPhase(w, ts, n).narrowed == []
  {
    if n > 0 {
      NoReportsYet(w, ts, n - 1);
      PinsReportNothing(w, ts[n - 1], PinPhase(w, ts, n - 1), |ts[n - 1].bypass|);
    }
  }

  /** r was reported at the i-th tunnel's turn. */
  ghost predicate ReportedAt(w: Network, ts: seq<TunnelInput>, i: nat, r: Report)
    requires i < |ts|
  {
    var s := RoutePhase(w, ts, i);
    exists j: nat :: j < |ts[i].routes| && ReportOf(w, ts, ts[i], s.taken, s.held, j, r)
  }

  ghost predicate NarrowedAt(w: Network, ts: seq<TunnelInput>, i: nat, x: (string, Prefix))
    requires i < |ts|
  {
    var s := RoutePhase(w, ts, i);
    exists j: nat :: j < |ts[i].routes| && NarrowingOf(w, ts, ts[i], s.taken, s.held, j, x)
  }

  lemma {:induction false} BlockedByTurn(w: Network, ts: seq<TunnelInput>, n: nat, r: Report)
    requires n <= |ts| && r in RoutePhase(w, ts, n).blocked
    ensures exists i: nat :: i < n && ReportedAt(w, ts, i, r)
  {
    hide PlanTunnel, Decide, BlockedOf, PinPhase;
    if n == 0 {
      NoReportsYet(w, ts, |ts|);
    } else {
      var t, s := ts[n - 1], RoutePhase(w, ts, n - 1);
      PlanTunnelReports(w, ts, t, s);
      if r in s.blocked {
        BlockedByTurn(w, ts, n - 1, r);
      } else {
        BlockedFrom(w, ts, t, s.taken, s.held, |t.routes|, r);
        assert ReportedAt(w, ts, n - 1, r);
      }
    }
  }

  lemma {:induction false} NarrowedByTurn(w: Network, ts: seq<TunnelInput>, n: nat, x: (string, Prefix))
    requires n <= |ts| && x in RoutePhase(w, ts, n).narrowed
    ensures exists i: nat :: i < n && NarrowedAt(w, ts, i, x)
  {
    hide PlanTunnel, Decide, NarrowedOf, PinPhase;
    if n == 0 {
      NoReportsYet(w, ts, |ts|);
    } else {
      var t, s := ts[n - 1], RoutePhase(w, ts, n - 1);
      PlanTunnelNarrows(w, ts, t, s);
      if x in s.narrowed {
        NarrowedByTurn(w, ts, n - 1, x);
      } else {
        NarrowedFrom(w, ts, t, s.taken, s.held, |t.routes|, x);
        assert NarrowedAt(w, ts, n - 1, x);
      }
    }
  }

  // ---------- the reasons ----------

  ghost predicate HoldsKept(w: Network, p: Prefix) {
    exists a: Addr :: StaysOff(w, a) && Contains(p, a)
  }

  /** The reason given for a route of t is the case. */
  ghost predicate Justified(w: Network, t: TunnelInput, route: Prefix, why: Reason) {
    match why
    case NoV6 => t.iface != "" && route.fam.V6? && !t.v6 && !t.block
    case RefusedV6 => t.iface != "" && route.fam.V6? && !t.v6 && t.block
    case Occupied => route in w.occupied
    case Claimed => exists m :: m in Plan(w).routes && m.route.dst == route
    case NothingLeft => HoldsKept(w, route)
    case TooMany => HoldsKept(w, route)
  }

  lemma {:induction false} ReasonOf(w: Network, ts: seq<TunnelInput>, t: TunnelInput, taken: Claims, held: set<Addr>,
      pfx: Prefix)
    requires Decide(w, ts, t, taken, held, pfx).why.Some?
    ensures match Decide(w, ts, t, taken, held, pfx).why.value
            case NoV6 => t.iface != "" && pfx.fam.V6? && !t.v6 && !t.block
            case RefusedV6 => t.iface != "" && pfx.fam.V6? && !t.v6 && t.block
            case Occupied => pfx in w.occupied
            case Claimed => pfx in taken
            case _ => KeepOut(pfx, w, ts, held, false) != []
  {
    hide KeepOut, CarvedParts;
  }

  lemma {:induction false} ReasonAtTurn(w: Network, i: nat, j: nat)
    requires i < |SortTunnels(w.tunnels)| && j < |SortTunnels(w.tunnels)[i].routes| && Turn(w, i, j).why.Some?
    ensures var t := SortTunnels(w.tunnels)[i];
            Justified(w, t, t.routes[j], Turn(w, i, j).why.value)
  {
    hide SortTunnels, RoutePhase, KeepOut, Decide, HoldsKept;
    var ts := SortTunnels(w.tunnels);
    var t, s := ts[i], RoutePhase(w, ts, i);
    var pfx := t.routes[j];
    ReasonOf(w, ts, t, s.taken, s.held, pfx);
    ClaimedStays(w, i, pfx);
    SomethingKept(w, i, pfx);
  }

  lemma {:induction false} ClaimedStays(w: Network, i: nat, p: Prefix)
    requires i <= |SortTunnels(w.tunnels)|
    ensures p in RoutePhase(w, SortTunnels(w.tunnels), i).taken ==> exists m :: m in Plan(w).routes && m.route.dst == p
  {
    var ts := SortTunnels(w.tunnels);
    hide SortTunnels, RoutePhase;
    PhaseInv(w, ts, i);
    LaterKeeps(w, ts, i, |ts|);
    if p in RoutePhase(w, ts, i).taken {
      assert RoutesTo(RoutePhase(w, ts, i).routes, p);
    }
  }

  lemma {:induction false} SomethingKept(w: Network, i: nat, p: Prefix)
    requires i <= |SortTunnels(w.tunnels)|
    ensures var ts := SortTunnels(w.tunnels);
            KeepOut(p, w, ts, RoutePhase(w, ts, i).held, false) != [] ==> HoldsKept(w, p)
  {
    var ts := SortTunnels(w.tunnels);
    hide SortTunnels, RoutePhase, KeepOut, StaysOff;
    RoutePhaseInv(w, ts, i);
    RoutePhaseInv(w, ts, |ts|);
    var keep := KeepOut(p, w, ts, RoutePhase(w, ts, i).held, false);
    if keep != [] { KeptStaysOff(w, p, false, keep[0]); }
  }

  /** Every reason the plan reports, of a route one of the tunnels lists, is the case. */
  lemma {:induction false} ReportsAreTrue(w: Network, r: Report)
    requires r in Plan(w).blocked
    ensures exists t :: t in w.tunnels && r.tunnel == t.name && r.route in t.routes && Justified(w, t, r.route, r.reason)
  {
    var ts := SortTunnels(w.tunnels);
    SortTunnelsMembers(w.tunnels);
    hide SortTunnels, RoutePhase, Decide, Justified;
    BlockedByTurn(w, ts, |ts|, r);
    var i: nat :| i < |ts| && ReportedAt(w, ts, i, r);
    var s := RoutePhase(w, ts, i);
    var j: nat :| j < |ts[i].routes| && ReportOf(w, ts, ts[i], s.taken, s.held, j, r);
    ReasonAtTurn(w, i, j);
    assert ts[i] in ts;
  }

  /** And a route called narrowed holds something that stays out. */
  lemma {:induction false} NarrowedIsTrue(w: Network, x: (string, Prefix))
    requires x in Plan(w).narrowed
    ensures exists t :: t in w.tunnels && x.0 == t.name && x.1 in t.routes
    ensures x.1 !in w.occupied && HoldsKept(w, x.1)
  {
    var ts := SortTunnels(w.tunnels);
    SortTunnelsMembers(w.tunnels);
    hide SortTunnels, RoutePhase, KeepOut, CarvedParts, HoldsKept;
    NarrowedByTurn(w, ts, |ts|, x);
    var i: nat :| i < |ts| && NarrowedAt(w, ts, i, x);
    SomethingKept(w, i, x.1);
    assert ts[i] in ts;
  }

  /** A listed route with nothing left of it: every address is in a hole, or someone else's;
      and one cut into too many: more than 1024 pieces are left — for a blocking tunnel,
      with only what the connections need kept out. */
  lemma {:induction false} LeftOutMeans(w: Network, ts: seq<TunnelInput>, t: TunnelInput, taken: Claims, held: set<Addr>,
      pfx: Prefix)
    ensures var others := OthersInside(pfx, t.name, ts, w.occupied);
            var keep := KeepOut(pfx, w, ts, held, t.block);
            var why := Decide(w, ts, t, taken, held, pfx).why;
            && (why == Some(NothingLeft) ==> forall a: Addr :: Contains(pfx, a) ==> KeptFrom(pfx, Holes(keep, others), others, taken, a))
            && (why == Some(TooMany) ==> |Carve(pfx, keep, others, taken)| > 1024)
  {
    hide KeepOut, Carve, OthersInside, KeptFrom;
    var others := OthersInside(pfx, t.name, ts, w.occupied);
    var keep := KeepOut(pfx, w, ts, held, t.block);
    if Decide(w, ts, t, taken, held, pfx).why == Some(NothingLeft) {
      assert Carve(pfx, keep, others, taken) == [];
      forall a: Addr | Contains(pfx, a)
        ensures KeptFrom(pfx, Holes(keep, others), others, taken, a)
      {
        CarveLeavesTheRest(pfx, keep, others, taken, a);
      }
    }
  }

  lemma {:induction false} NarrowedHas(w: Network, ts: seq<TunnelInput>, t: TunnelInput, taken: Claims, held: set<Addr>,
      n: nat, j: nat)
    requires j < n <= |t.routes| && Decide(w, ts, t, taken, held, t.routes[j]).narrowed
    ensures (t.name, t.routes[j]) in NarrowedOf(w, ts, t, taken, held, n)
  {
    hide Decide;
    if j < n - 1 { NarrowedHas(w, ts, t, taken, held, n - 1, j); }
  }

  lemma {:induction false} NarrowedStays(w: Network, ts: seq<TunnelInput>, i: nat, n: nat)
    requires i <= n <= |ts|
    ensures forall x :: x in RoutePhase(w, ts, i).narrowed ==> x in RoutePhase(w, ts, n).narrowed
  {
    hide PlanTunnel, RoutePhase, NarrowedOf, PinPhase;
    if i < n {
      NarrowedStays(w, ts, i, n - 1);
      PlanTunnelNarrows(w, ts, ts[n - 1], RoutePhase(w, ts, n - 1));
      PhaseStep(w, ts, n - 1);
    }
  }

  lemma {:induction false} KeptIsListed(w: Network, p: Prefix)
    requires HoldsKept(w, p)
    ensures KeepOut(p, w, SortTunnels(w.tunnels), Plan(w).held, false) != []
  {
    var ts, held := SortTunnels(w.tunnels), Plan(w).held;
    SortTunnelsMembers(w.tunnels);
    hide KeepOut, Plan, SortTunnels, FirstResolvers;
    var a: Addr :| StaysOff(w, a) && Contains(p, a);
    if ServerUnheld(w, a) {
      var t :| t in w.tunnels && (a in t.bypass || a in t.servers);
      AllServersMembers(ts, t, a);
      UnheldMembers(AllServers(ts), held, a);
    }
    KeepOutComplete(p, w, ts, held, false, a);
  }

  lemma {:induction false} PartsNarrowed(w: Network, ts: seq<TunnelInput>, t: TunnelInput, taken: Claims,
      held: set<Addr>, pfx: Prefix)
    requires Decide(w, ts, t, taken, held, pfx).parts != [] && KeepOut(pfx, w, ts, held, false) != []
    ensures Decide(w, ts, t, taken, held, pfx).narrowed
  {
    hide KeepOut, CarvedParts;
  }

  /** A listed route that holds something to keep out, and of which something goes in, is
      called narrowed. */
  lemma {:induction false} NarrowedIsReported(w: Network, i: nat, j: nat)
    requires i < |SortTunnels(w.tunnels)| && j < |SortTunnels(w.tunnels)[i].routes|
    requires Turn(w, i, j).parts != [] && HoldsKept(w, SortTunnels(w.tunnels)[i].routes[j])
    ensures var t := SortTunnels(w.tunnels)[i];
            (t.name, t.routes[j]) in Plan(w).narrowed
  {
    var ts := SortTunnels(w.tunnels);
    var t, s := ts[i], RoutePhase(w, ts, i);
    hide SortTunnels, RoutePhase, KeepOut, Decide, HoldsKept, PlanTunnel, NarrowedOf;
    KeptIsListed(w, t.routes[j]);
    RoutePhaseInv(w, ts, i);
    RoutePhaseInv(w, ts, |ts|);
    assert s.held == Plan(w).held;
    PartsNarrowed(w, ts, t, s.taken, s.held, t.routes[j]);
    NarrowedHas(w, ts, t, s.taken, s.held, |t.routes|, j);
    PlanTunnelNarrows(w, ts, t, s);
    PhaseStep(w, ts, i);
    NarrowedStays(w, ts, i + 1, |ts|);
  }

  /** Where only the essential is kept out of a blocking tunnel's route, that is the router
      and the servers nothing holds. */
  lemma {:induction false} EssentialIsLittle(w: Network, p: Prefix, k: Kept)
    requires k in KeepOut(p, w, SortTunnels(w.tunnels), Plan(w).held, true)
    ensures ServerUnheld(w, k.addr) || (if p.fam.V4? then w.gateway4 else w.gateway6) == Some(k.addr)
  {
    var ts, held := SortTunnels(w.tunnels), Plan(w).held;
    SortTunnelsMembers(w.tunnels);
    hide KeepOut, Plan, SortTunnels;
    KeepOutSound(p, w, ts, held, true, k);
    UnheldMembers(AllServers(ts), held, k.addr);
    if k.addr in AllServers(ts) { ServerOfOne(ts, k.addr); }
  }

  /** The first reason that applies is the one given: IPv6 the tunnel cannot carry, then a
      destination occupied, then one claimed. */
  lemma {:induction false} FirstReasonGiven(w: Network, ts: seq<TunnelInput>, t: TunnelInput, taken: Claims,
      held: set<Addr>, pfx: Prefix)
    ensures var why := Decide(w, ts, t, taken, held, pfx).why;
            var carried := t.iface == "" || pfx.fam.V4? || t.v6 || t.block;
            && (why == Some(NoV6) <==> !carried)
            && (why == Some(Occupied) <==> carried && pfx in w.occupied)
            && (why == Some(Claimed) <==> carried && pfx !in w.occupied && pfx in taken)
  {
    hide KeepOut, CarvedParts;
  }
}
