/** Nothing a tunnel lists is lost: each listed destination is reported as left out, or what
is left of it once the kept-out addresses are cut goes in, whole.
 */
module PlannerCoverage {
  import opened Prefixes
  import opened Aggregation
  import opened Subtraction
  import opened Routes
  import opened Planner
  import opened PlannerSafety

  /** A destination of the tunnel's holds p. */
  ghost predicate GoesIn(s: TunnelPlan, t: TunnelInput, p: Prefix) {
    exists m :: m in s.routes && m.origin == OfTunnel(t.name) && !IsPin(m) && Contains(m.route.dst, p)
  }

  lemma {:induction false} GatherHas(w: Network, ts: seq<TunnelInput>, t: TunnelInput, taken: Claims,
      held: set<Addr>, n: nat, i: nat, p: Prefix)
    requires i < n <= |t.routes| && p in Decide(w, ts, t, taken, held, t.routes[i]).parts
    ensures p in Gather(w, ts, t, taken, held, t.routes[i].fam, n)
  {
    hide Decide;
    if i < n - 1 {
      GatherHas(w, ts, t, taken, held, n - 1, i, p);
    }
  }

  lemma {:induction false} BlockedHas(w: Network, ts: seq<TunnelInput>, t: TunnelInput, taken: Claims,
      held: set<Addr>, n: nat, i: nat)
    requires i < n <= |t.routes| && Decide(w, ts, t, taken, held, t.routes[i]).why.Some?
    ensures Report(t.name, t.routes[i], Decide(w, ts, t, taken, held, t.routes[i]).why.value) in BlockedOf(w, ts, t, taken, held, n)
  {
    hide Decide;
    if i < n - 1 {
      BlockedHas(w, ts, t, taken, held, n - 1, i);
    }
  }

  lemma {:induction false} StaysIn(s: TunnelPlan, s1: TunnelPlan, t: TunnelInput, p: Prefix)
    requires GoesIn(s, t, p) && forall m :: m in s.routes ==> m in s1.routes
    ensures GoesIn(s1, t, p)
  {
    var m :| m in s.routes && m.origin == OfTunnel(t.name) && !IsPin(m) && Contains(m.route.dst, p);
    assert m in s1.routes;
  }

  /** Installing a family's destinations takes in every part gathered for it. */
  lemma {:induction false} FamilyGoesIn(w: Network, ts: seq<TunnelInput>, t: TunnelInput, s: TunnelPlan,
      s1: TunnelPlan, fam: Family, p: Prefix)
    requires PlanInv(w, ts, s1) && t in ts && (Live(t) || t.block) && s1.held == s.held
    requires forall q :: q in s1.taken && q.fam == fam ==> q in s.taken
    requires p in TunnelParts(w, ts, t, s, fam)
    ensures GoesIn(Install(t, s1, Unclaimed(TunnelParts(w, ts, t, s, fam), s1.taken)), t, p)
  {
    var us := Unclaimed(TunnelParts(w, ts, t, s, fam), s1.taken);
    InstallFamily(w, ts, t, s, s1, fam);
    UnclaimedKeepsAll(TunnelParts(w, ts, t, s, fam), s1.taken, p);
    hide Unclaimed, TunnelParts, Install, PlanInv;
    var u :| u in us && Contains(u, p);
    var m :| m in Install(t, s1, us).routes && m.route.dst == u && m.origin == OfTunnel(t.name) && !IsPin(m);
  }

  lemma {:induction false} ReportedInv(w: Network, ts: seq<TunnelInput>, t: TunnelInput, s: TunnelPlan)
    requires PlanInv(w, ts, s)
    ensures var s0 := Reported(w, ts, t, s);
            PlanInv(w, ts, s0) && s0.taken == s.taken && s0.held == s.held && s0.routes == s.routes
  {
    hide RouteOk, DistinctDsts, RoutesTo, SendsInto;
    assert forall a :: StaysOut(w, s, a) ==> StaysOut(w, Reported(w, ts, t, s), a);
  }

  lemma {:induction false} TunnelGoesIn(w: Network, ts: seq<TunnelInput>, t: TunnelInput, s: TunnelPlan, i: nat,
      p: Prefix)
    requires PlanInv(w, ts, s) && t in ts && (Live(t) || t.block)
    requires i < |t.routes| && p in Decide(w, ts, t, s.taken, s.held, t.routes[i]).parts
    ensures GoesIn(PlanTunnel(w, ts, t, s), t, p)
  {
    hide Unclaimed, Install, PlanInv, Decide, Gather, Reported, GoesIn;
    var s0 := Reported(w, ts, t, s);
    var fam := t.routes[i].fam;
    GatherHas(w, ts, t, s.taken, s.held, |t.routes|, i, p);
    ReportedInv(w, ts, t, s);
    InstallFamily(w, ts, t, s, s0, V4);
    var s4 := Install(t, s0, Unclaimed(TunnelParts(w, ts, t, s, V4), s0.taken));
    InstallFamily(w, ts, t, s, s4, V6);
    if fam.V4? {
      FamilyGoesIn(w, ts, t, s, s0, V4, p);
      StaysIn(s4, PlanTunnel(w, ts, t, s), t, p);
    } else {
      FamilyGoesIn(w, ts, t, s, s4, V6, p);
    }
  }

  lemma {:induction false} InstallKeepsReports(t: TunnelInput, s: TunnelPlan, ps: seq<Prefix>)
    ensures Install(t, s, ps).blocked == s.blocked
  {
    if ps != [] {
      InstallKeepsReports(t, s, ps[..|ps| - 1]);
    }
  }

  lemma {:induction false} PlanTunnelReports(w: Network, ts: seq<TunnelInput>, t: TunnelInput, s: TunnelPlan)
    ensures PlanTunnel(w, ts, t, s).blocked == s.blocked + BlockedOf(w, ts, t, s.taken, s.held, |t.routes|)
  {
    var s0 := Reported(w, ts, t, s);
    var u4 := Unclaimed(TunnelParts(w, ts, t, s, V4), s0.taken);
    var s4 := Install(t, s0, u4);
    InstallKeepsReports(t, s0, u4);
    InstallKeepsReports(t, s4, Unclaimed(TunnelParts(w, ts, t, s, V6), s4.taken));
  }

  lemma {:induction false} PhaseStep(w: Network, ts: seq<TunnelInput>, n: nat)
    requires n < |ts|
    ensures RoutePhase(w, ts, n + 1) == PlanTunnel(w, ts, ts[n], RoutePhase(w, ts, n))
  {
    hide PlanTunnel, PinPhase;
  }

  /** Later tunnels take nothing away. */
  lemma {:induction false} LaterKeeps(w: Network, ts: seq<TunnelInput>, i: nat, n: nat)
    requires i <= n <= |ts|
    ensures forall m :: m in RoutePhase(w, ts, i).routes ==> m in RoutePhase(w, ts, n).routes
    ensures forall r :: r in RoutePhase(w, ts, i).blocked ==> r in RoutePhase(w, ts, n).blocked
  {
    hide PlanTunnel, PlanInv, RoutePhase, BlockedOf, PinPhase;
    if i < n {
      LaterKeeps(w, ts, i, n - 1);
      var s := RoutePhase(w, ts, n - 1);
      assert PlanInv(w, ts, s) by { PhaseInv(w, ts, n - 1); }
      PlanTunnelInv(w, ts, ts[n - 1], s);
      PlanTunnelReports(w, ts, ts[n - 1], s);
      PhaseStep(w, ts, n - 1);
    }
  }

  lemma {:induction false} PhaseInv(w: Network, ts: seq<TunnelInput>, n: nat)
    requires n <= |ts|
    ensures PlanInv(w, ts, RoutePhase(w, ts, n))
  {
    hide PlanInv, RoutePhase, PinPhase;
    RoutePhaseInv(w, ts, n);
  }

  /** What a listed route comes to when its tunnel's turn comes. */
  function Turn(w: Network, i: nat, j: nat): Decision
    requires i < |SortTunnels(w.tunnels)| && j < |SortTunnels(w.tunnels)[i].routes|
  {
    var ts := SortTunnels(w.tunnels);
    var s := RoutePhase(w, ts, i);
    Decide(w, ts, ts[i], s.taken, s.held, ts[i].routes[j])
  }

  lemma {:induction false} UnreportedHasParts(w: Network, ts: seq<TunnelInput>, t: TunnelInput, taken: Claims,
      held: set<Addr>, pfx: Prefix)
    requires Decide(w, ts, t, taken, held, pfx).why.None?
    ensures Decide(w, ts, t, taken, held, pfx).parts != []
  {
    hide KeepOut, CarvedParts;
  }

  /** Every listed route is accounted for: a reason is reported, or there is none; and each
      part that is not kept out lies whole in a destination of the tunnel. */
  lemma {:induction false} ListedIsAccountedFor(w: Network, i: nat, j: nat)
    requires i < |SortTunnels(w.tunnels)| && j < |SortTunnels(w.tunnels)[i].routes|
    ensures var t := SortTunnels(w.tunnels)[i];
            && (Turn(w, i, j).why.Some? ==> Report(t.name, t.routes[j], Turn(w, i, j).why.value) in Plan(w).blocked)
            && (Turn(w, i, j).why.None? ==> Turn(w, i, j).parts != [])
            && (Live(t) || t.block ==> forall p :: p in Turn(w, i, j).parts ==> GoesIn(Plan(w), t, p))
  {
    hide PlanTunnel, RoutePhase, PinPhase, Decide, BlockedOf, GoesIn, PlanInv, SortTunnels;
    var ts := SortTunnels(w.tunnels);
    var t, s := ts[i], RoutePhase(w, ts, i);
    PhaseInv(w, ts, i);
    PhaseStep(w, ts, i);
    LaterKeeps(w, ts, i + 1, |ts|);
    PlanTunnelReports(w, ts, t, s);
    if Turn(w, i, j).why.Some? {
      BlockedHas(w, ts, t, s.taken, s.held, |t.routes|, j);
    } else {
      UnreportedHasParts(w, ts, t, s.taken, s.held, t.routes[j]);
    }
    if Live(t) || t.block {
      forall p | p in Turn(w, i, j).parts
        ensures GoesIn(Plan(w), t, p)
      {
        TunnelGoesIn(w, ts, t, s, j, p);
        StaysIn(PlanTunnel(w, ts, t, s), Plan(w), t, p);
      }
    }
  }

  /** What is kept out of a destination: the hole of a kept address, another's route inside
      it, or a piece someone already has. */
  ghost predicate KeptFrom(pfx: Prefix, holes: seq<Prefix>, others: seq<Prefix>, taken: Claims, a: Addr) {
    || Covers(holes, a)
    || Covers(others, a)
    || exists q :: q in SubtractNets(pfx, holes) && q in taken && Contains(q, a)
  }

  /** Carving leaves out nothing else. */
  lemma {:induction false} CarveLeavesTheRest(pfx: Prefix, keep: seq<Kept>, others: seq<Prefix>, taken: Claims, a: Addr)
    requires Contains(pfx, a)
    ensures Covers(Carve(pfx, keep, others, taken), a) || KeptFrom(pfx, Holes(keep, others), others, taken, a)
  {
    var holes := Holes(keep, others);
    if !Covers(holes, a) {
      PiecesCover(pfx, holes, a);
      var q :| q in SubtractNets(pfx, holes) && Contains(q, a);
      FreePartsMembers(SubtractNets(pfx, holes), others, taken, q);
      if !Free(q, others, taken) && q !in taken {
        var o :| o in others && Contains(o, q);
        ContainsTransitive(o, q, a);
      }
    }
  }

  /** h is the narrowest of the others that hold a, or a itself when none does. */
  ghost predicate IsNarrowest(a: Addr, others: seq<Prefix>, h: Prefix) {
    && (h in others || h == a)
    && forall o :: o in others && Contains(o, a) ==> h in others && |o.bits| <= |h.bits|
  }

  /** h is what p and q share. */
  ghost predicate IsMeet(h: Prefix, p: Prefix, q: Prefix) {
    forall a: Addr :: Contains(h, a) <==> Contains(p, a) && Contains(q, a)
  }

  lemma {:induction false} NestedMeet(p: Prefix, q: Prefix, a: Addr)
    requires Contains(p, a) && Contains(q, a)
    ensures IsMeet(if |q.bits| <= |p.bits| then p else q, p, q)
  {
    SharedAddress(p, q, a);
    var h, o := if |q.bits| <= |p.bits| then p else q, if |q.bits| <= |p.bits| then q else p;
    if !Contains(o, h) { HostLike(h, o); }
    forall b: Addr | Contains(h, b)
      ensures Contains(o, b)
    {
      ContainsTransitive(o, h, b);
    }
  }

  /** A hole is no wider than it need be: what the router's network has of the prefix, or the
      narrowest of the others' routes that holds the address, or the address alone. */
  lemma {:induction false} HolesAreNarrow(pfx: Prefix, w: Network, ts: seq<TunnelInput>, held: set<Addr>,
      essential: bool, others: seq<Prefix>, h: Prefix)
    requires h in Holes(KeepOut(pfx, w, ts, held, essential), others)
    ensures exists a: Addr :: a in Must(w, ts, held, pfx.fam, essential) && Contains(pfx, a) && Contains(h, a) &&
                        (|| (Gateway(w, pfx.fam) == Some(a) && Lan(w, pfx.fam).Some? && IsMeet(h, pfx, Lan(w, pfx.fam).value))
                         || IsNarrowest(a, others, h))
  {
    hide Guarded, Must, Holes, Narrowest, FirstOfEach, KeptIn, IsMeet;
    var keep := KeepOut(pfx, w, ts, held, essential);
    HolesMembers(keep, others);
    var k :| k in keep && h == HoleFor(k, others);
    KeepOutSound(pfx, w, ts, held, essential, k);
    NarrowestHolds(k.addr, others);
    if k.net.Some? {
      FirstOfEachSound(RouterKept(pfx, w) + KeptIn(pfx, Guarded(w, ts, held, essential)), k);
      if k in KeptIn(pfx, Guarded(w, ts, held, essential)) {
        KeptInSound(pfx, Guarded(w, ts, held, essential), k);
      } else {
        NestedMeet(pfx, Lan(w, pfx.fam).value, k.addr);
      }
    }
  }

  /** A blocking tunnel keeps out all that any other does — resolvers and anchors, too — as
      long as something is left and it takes no more than 1024 routes. */
  lemma {:induction false} BlockingKeepsOut(w: Network, ts: seq<TunnelInput>, t: TunnelInput, taken: Claims,
      held: set<Addr>, pfx: Prefix, p: Prefix)
    requires p in Decide(w, ts, t, taken, held, pfx).parts
    requires 0 < |Carve(pfx, KeepOut(pfx, w, ts, held, false), OthersInside(pfx, t.name, ts, w.occupied), taken)| <= 1024
    ensures Avoids(p, Must(w, ts, held, pfx.fam, false))
  {
    hide Decide, KeepOut, Carve, PartOk, Must, OthersInside;
    var keep := KeepOut(pfx, w, ts, held, false);
    var others := OthersInside(pfx, t.name, ts, w.occupied);
    DecideOk(w, ts, t, taken, held, pfx, p);
    forall a | a in Must(w, ts, held, pfx.fam, false)
      ensures !Contains(p, a)
    {
      if Contains(p, a) {
        ContainsTransitive(pfx, p, a);
        KeepOutComplete(pfx, w, ts, held, false, a);
        var k :| k in keep && k.addr == a;
        KeepOutSound(pfx, w, ts, held, false, k);
        FirstCarved(w, ts, t, taken, held, pfx, p);
        CarveAvoids(pfx, keep, others, taken, p, k);
      }
    }
  }

  lemma {:induction false} FirstCarved(w: Network, ts: seq<TunnelInput>, t: TunnelInput, taken: Claims, held: set<Addr>,
      pfx: Prefix, p: Prefix)
    requires p in Decide(w, ts, t, taken, held, pfx).parts && KeepOut(pfx, w, ts, held, false) != []
    requires 0 < |Carve(pfx, KeepOut(pfx, w, ts, held, false), OthersInside(pfx, t.name, ts, w.occupied), taken)| <= 1024
    ensures p in Carve(pfx, KeepOut(pfx, w, ts, held, false), OthersInside(pfx, t.name, ts, w.occupied), taken)
  {
    hide KeepOut, Carve, OthersInside;
  }

  // ---------- the local network ----------

  lemma {:induction false} FirstIsKept(ks: seq<Kept>)
    requires ks != []
    ensures ks[0] in FirstOfEach(ks)
  {
    var n := |ks| - 1;
    if n > 0 {
      FirstIsKept(ks[..n]);
      assert ks[..n][0] == ks[0];
    } else {
      assert ks[..n] == [];
    }
  }

  /** Around the router everything of its network is cut out, or all of pfx. */
  lemma {:induction false} RouterHole(pfx: Prefix, w: Network, ts: seq<TunnelInput>, held: set<Addr>, essential: bool,
      others: seq<Prefix>, gw: Addr, lan: Prefix, a: Addr)
    requires Gateway(w, pfx.fam) == Some(gw) && Lan(w, pfx.fam) == Some(lan) && Contains(lan, gw) && Contains(pfx, gw)
    requires Contains(lan, a) && Contains(pfx, a)
    ensures Covers(Holes(KeepOut(pfx, w, ts, held, essential), others), a)
  {
    hide Guarded, KeptIn, Holes, FirstOfEach;
    var keep := KeepOut(pfx, w, ts, held, essential);
    var all := RouterKept(pfx, w) + KeptIn(pfx, Guarded(w, ts, held, essential));
    FirstIsKept(all);
    assert all[0] in keep && all[0] == RouterKept(pfx, w)[0];
    HolesMembers(keep, others);
    assert Contains(HoleFor(all[0], others), a);
  }

  lemma {:induction false} CarvedAroundLan(pfx: Prefix, w: Network, ts: seq<TunnelInput>, held: set<Addr>,
      essential: bool, others: seq<Prefix>, taken: Claims, gw: Addr, lan: Prefix, p: Prefix, a: Addr)
    requires Gateway(w, pfx.fam) == Some(gw) && Lan(w, pfx.fam) == Some(lan) && Contains(lan, gw)
    requires p in Carve(pfx, KeepOut(pfx, w, ts, held, essential), others, taken) && Contains(p, a) && Contains(lan, a)
    ensures !Contains(pfx, gw)
  {
    hide KeepOut, Carve, Holes;
    var keep := KeepOut(pfx, w, ts, held, essential);
    if Contains(pfx, gw) {
      CarveInside(pfx, keep, others, taken, p);
      ContainsTransitive(pfx, p, a);
      RouterHole(pfx, w, ts, held, essential, others, gw, lan, a);
      CarvedIsPiece(pfx, keep, others, taken, p);
      PiecesCover(pfx, Holes(keep, others), a);
      assert false;
    }
  }

  lemma {:induction false} CarvedIsPiece(pfx: Prefix, keep: seq<Kept>, others: seq<Prefix>, taken: Claims, p: Prefix)
    requires p in Carve(pfx, keep, others, taken)
    ensures p in SubtractNets(pfx, Holes(keep, others))
  {
    FreePartsMembers(SubtractNets(pfx, Holes(keep, others)), others, taken, p);
  }

  lemma {:induction false} CarvedEither(w: Network, ts: seq<TunnelInput>, t: TunnelInput, taken: Claims,
      held: set<Addr>, pfx: Prefix, p: Prefix) returns (essential: bool)
    requires p in Decide(w, ts, t, taken, held, pfx).parts && KeepOut(pfx, w, ts, held, false) != []
    ensures p in Carve(pfx, KeepOut(pfx, w, ts, held, essential), OthersInside(pfx, t.name, ts, w.occupied), taken)
  {
    hide KeepOut, Carve, OthersInside;
    var others := OthersInside(pfx, t.name, ts, w.occupied);
    essential := t.block && TooFewOrMany(Carve(pfx, KeepOut(pfx, w, ts, held, false), others, taken));
  }

  /** A part that holds an address of the router's network is of a route listed inside that
      network, without the router. */
  lemma {:induction false} PartInLan(w: Network, ts: seq<TunnelInput>, t: TunnelInput, taken: Claims, held: set<Addr>,
      pfx: Prefix, p: Prefix, gw: Addr, lan: Prefix, a: Addr)
    requires p in Decide(w, ts, t, taken, held, pfx).parts && Contains(p, a) && Contains(lan, a)
    requires Gateway(w, pfx.fam) == Some(gw) && Lan(w, pfx.fam) == Some(lan) && Contains(lan, gw)
    ensures StrictlyContains(lan, pfx) && !Contains(pfx, gw) && Contains(pfx, a)
  {
    hide PartOk, KeepOut, Carve, OthersInside, Decide;
    DecideOk(w, ts, t, taken, held, pfx, p);
    ContainsTransitive(pfx, p, a);
    SharedAddress(pfx, lan, a);
    if KeepOut(pfx, w, ts, held, false) == [] {
      if Contains(pfx, gw) { KeepOutComplete(pfx, w, ts, held, false, gw); }
    } else {
      var essential := CarvedEither(w, ts, t, taken, held, pfx, p);
      CarvedAroundLan(pfx, w, ts, held, essential, OthersInside(pfx, t.name, ts, w.occupied), taken, gw, lan, p, a);
    }
    if Contains(pfx, lan) { ContainsTransitive(pfx, lan, gw); }
  }

  /** The local network stays local: a destination of the plan holds one of its addresses
      only if a tunnel lists that address in a route strictly inside the network, apart from
      the router. */
  lemma {:induction false} LanStaysLocal(w: Network, p: Prefix, gw: Addr, lan: Prefix, a: Addr)
    requires p in Plan(w).nets && Contains(p, a) && Contains(lan, a)
    requires if p.fam.V4? then w.gateway4 == Some(gw) && w.physNet4 == Some(lan)
             else w.gateway6 == Some(gw) && w.physNet6 == Some(lan)
    requires Contains(lan, gw)
    ensures exists t, pfx :: t in w.tunnels && (Live(t) || t.block) && pfx in t.routes && Contains(pfx, a) &&
                             StrictlyContains(lan, pfx) && !Contains(pfx, gw)
  {
    var ts := SortTunnels(w.tunnels);
    SortTunnelsMembers(w.tunnels);
    NetsByTurn(w, ts, |ts|, p);
    hide SortTunnels, RoutePhase;
    var i: nat :| i < |ts| && GivenAtTurn(w, ts, i, p);
    var t, s := ts[i], RoutePhase(w, ts, i);
    var ps := TunnelParts(w, ts, t, s, p.fam);
    PartsOfFamily(w, ts, t, s, p.fam);
    UnclaimedOk(ps, s.taken, p);
    hide Unclaimed, PartOk;
    var q :| q in ps && Contains(q, a);
    GatheredFrom(w, ts, t, s.taken, s.held, p.fam, |t.routes|, q);
    var pfx :| pfx in t.routes && q in Decide(w, ts, t, s.taken, s.held, pfx).parts;
    DecideOk(w, ts, t, s.taken, s.held, pfx, q);
    hide Decide, Gather;
    PartInLan(w, ts, t, s.taken, s.held, pfx, q, gw, lan, a);
  }

  // ---------- when an occupied destination is handed out ----------

  /** What the i-th tunnel's parts of p's family aggregate to, as its turn comes. */
  ghost predicate BlockAtTurn(w: Network, ts: seq<TunnelInput>, i: nat, p: Prefix)
    requires i < |ts|
  {
    var t, s := ts[i], RoutePhase(w, ts, i);
    (Live(t) || t.block) && p in MaximalBlocks(TunnelParts(w, ts, t, s, p.fam)) && p !in s.taken
  }

  ghost predicate GivenAtTurn(w: Network, ts: seq<TunnelInput>, i: nat, p: Prefix)
    requires i < |ts|
  {
    var t, s := ts[i], RoutePhase(w, ts, i);
    (Live(t) || t.block) && p in Unclaimed(TunnelParts(w, ts, t, s, p.fam), s.taken)
  }

  lemma {:induction false} InstallNets(t: TunnelInput, s: TunnelPlan, ps: seq<Prefix>)
    ensures Install(t, s, ps).nets == s.nets + ps
    ensures forall p :: p in Install(t, s, ps).taken <==> p in s.taken || p in ps
  {
    if ps != [] {
      InstallNets(t, s, ps[..|ps| - 1]);
      assert ps == ps[..|ps| - 1] + [ps[|ps| - 1]];
    }
  }

  lemma {:induction false} UnclaimedAgree(aggs: seq<Prefix>, ps: seq<Prefix>, x: Claims, y: Claims)
    requires forall p :: p in aggs ==> (p in x <==> p in y)
    ensures UnclaimedOf(aggs, ps, x) == UnclaimedOf(aggs, ps, y)
  {
    if aggs != [] {
      var k := |aggs| - 1;
      assert aggs == aggs[..k] + [aggs[k]];
      UnclaimedAgree(aggs[..k], ps, x, y);
    }
  }

  lemma {:induction false} PartsOfFamily(w: Network, ts: seq<TunnelInput>, t: TunnelInput, s: TunnelPlan, fam: Family)
    ensures forall p :: p in TunnelParts(w, ts, t, s, fam) ==> PartOk(w, ts, t, s.taken, s.held, p) && p.fam == fam
    ensures forall p :: p in MaximalBlocks(TunnelParts(w, ts, t, s, fam)) ==> p.fam == fam
  {
    var ps := TunnelParts(w, ts, t, s, fam);
    forall p | p in ps
      ensures PartOk(w, ts, t, s.taken, s.held, p) && p.fam == fam
    {
      GatherOk(w, ts, t, s.taken, s.held, fam, |t.routes|, p);
    }
    MaximalBlocksExact(ps);
    forall p | p in MaximalBlocks(ps)
      ensures p.fam == fam
    {
      ContainsFirst(p);
      assert Covers(MaximalBlocks(ps), First(p));
    }
  }

  /** What one turn adds to the networks. */
  lemma {:induction false} TurnNets(w: Network, ts: seq<TunnelInput>, n: nat, p: Prefix)
    requires n < |ts|
    ensures p in RoutePhase(w, ts, n + 1).nets <==> p in RoutePhase(w, ts, n).nets || GivenAtTurn(w, ts, n, p)
  {
    var t, s := ts[n], RoutePhase(w, ts, n);
    PhaseStep(w, ts, n);
    hide RoutePhase, Unclaimed, TunnelParts;
    if Live(t) || t.block {
      var s0 := Reported(w, ts, t, s);
      var u4 := Unclaimed(TunnelParts(w, ts, t, s, V4), s0.taken);
      var s4 := Install(t, s0, u4);
      var u6 := Unclaimed(TunnelParts(w, ts, t, s, V6), s4.taken);
      InstallNets(t, s0, u4);
      InstallNets(t, s4, u6);
      UnclaimedFamilies(w, ts, t, s, u4, s4.taken);
      assert PlanTunnel(w, ts, t, s) == Install(t, s4, u6);
    }
  }

  lemma {:induction false} UnclaimedFamilies(w: Network, ts: seq<TunnelInput>, t: TunnelInput, s: TunnelPlan,
      u4: seq<Prefix>, taken: Claims)
    requires u4 == Unclaimed(TunnelParts(w, ts, t, s, V4), s.taken)
    requires forall p :: p in taken <==> p in s.taken || p in u4
    ensures forall p :: p in u4 ==> p.fam == V4
    ensures Unclaimed(TunnelParts(w, ts, t, s, V6), taken) == Unclaimed(TunnelParts(w, ts, t, s, V6), s.taken)
    ensures forall p :: p in Unclaimed(TunnelParts(w, ts, t, s, V6), s.taken) ==> p.fam == V6
  {
    var p4, p6 := TunnelParts(w, ts, t, s, V4), TunnelParts(w, ts, t, s, V6);
    PartsOfFamily(w, ts, t, s, V4);
    PartsOfFamily(w, ts, t, s, V6);
    UnclaimedOfMembers(MaximalBlocks(p4), p4, s.taken);
    UnclaimedOfMembers(MaximalBlocks(p6), p6, s.taken);
    hide TunnelParts, MaximalBlocks, PartOk;
    UnclaimedAgree(MaximalBlocks(p6), p6, taken, s.taken);
  }

  ghost predicate GivenBefore(w: Network, ts: seq<TunnelInput>, n: nat, p: Prefix)
    requires n <= |ts|
  {
    exists i: nat :: i < n && GivenAtTurn(w, ts, i, p)
  }

  lemma {:induction false} GivenStep(w: Network, ts: seq<TunnelInput>, n: nat, p: Prefix)
    requires n < |ts|
    ensures GivenBefore(w, ts, n + 1, p) <==> GivenBefore(w, ts, n, p) || GivenAtTurn(w, ts, n, p)
  {
    hide GivenAtTurn;
  }

  lemma {:induction false} NoNetsYet(w: Network, ts: seq<TunnelInput>, p: Prefix)
    ensures RoutePhase(w, ts, 0).nets == [] && !GivenBefore(w, ts, 0, p)
  {
    PinPhaseInv(w, ts, |ts|);
  }

  lemma {:induction false} NetsByTurn(w: Network, ts: seq<TunnelInput>, n: nat, p: Prefix)
    requires n <= |ts|
    ensures p in RoutePhase(w, ts, n).nets <==> GivenBefore(w, ts, n, p)
  {
    hide *;
    if n == 0 {
      NoNetsYet(w, ts, p);
    } else {
      NetsByTurn(w, ts, n - 1, p);
      TurnNets(w, ts, n - 1, p);
      GivenStep(w, ts, n - 1, p);
    }
  }

  /** An occupied destination is given out at a turn exactly when it is a whole unclaimed
      block of what that tunnel's parts aggregate to. */
  lemma {:induction false} OccupiedAtTurn(w: Network, ts: seq<TunnelInput>, i: nat, u: Prefix)
    requires i < |ts| && u in w.occupied
    ensures GivenAtTurn(w, ts, i, u) <==> BlockAtTurn(w, ts, i, u)
  {
    var t, s := ts[i], RoutePhase(w, ts, i);
    var ps := TunnelParts(w, ts, t, s, u.fam);
    PartsOfFamily(w, ts, t, s, u.fam);
    UnclaimedOfMembers(MaximalBlocks(ps), ps, s.taken);
    MaximalBlocksExact(ps);
    hide RoutePhase, TunnelParts, MaximalBlocks;
    assert u !in ps;
    if u in MaximalBlocks(ps) && u !in s.taken {
      ContainsFirst(u);
      assert Covers(MaximalBlocks(ps), First(u));
      var p :| p in ps && Contains(p, First(u));
      PartOfBlock(ps, p, u, First(u));
    }
  }

  /** Exactly when the plan hands out a destination someone else routes: when, at some
      tunnel's turn, what the tunnel's parts cover has it as a maximal block, unclaimed. */
  lemma {:induction false} OccupiedHandedOutIff(w: Network, u: Prefix)
    requires u in w.occupied
    ensures u in Plan(w).nets <==>
            exists i: nat :: i < |SortTunnels(w.tunnels)| && BlockAtTurn(w, SortTunnels(w.tunnels), i, u)
  {
    hide GivenAtTurn, BlockAtTurn, SortTunnels, RoutePhase;
    var ts := SortTunnels(w.tunnels);
    NetsByTurn(w, ts, |ts|, u);
    forall i: nat | i < |ts|
      ensures GivenAtTurn(w, ts, i, u) <==> BlockAtTurn(w, ts, i, u)
    {
      OccupiedAtTurn(w, ts, i, u);
    }
  }
}
