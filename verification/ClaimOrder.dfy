/** The order tunnels claim in (internal/routing/tunnels.go), and what it decides: of the
tunnels that list a destination, the first in order gets it.
 */
module ClaimOrder {
  import opened KeyOrder
  import opened Prefixes
  import opened Aggregation
  import opened Subtraction
  import opened Routes
  import opened Planner
  import opened PlannerSafety
  import opened PlannerCoverage
  import opened Reports

  /** u claims no later than t: a tunnel that is up before one that is down, and else by
      name. */
  predicate NotAfter(u: TunnelInput, t: TunnelInput) {
    if u.iface == "" || t.iface == "" then t.iface == "" && (u.iface == "" ==> !TextLess(t.name, u.name))
    else !TextLess(t.name, u.name)
  }

  ghost predicate InOrder(ts: seq<TunnelInput>) {
    forall i, j :: 0 <= i < j < |ts| ==> NotAfter(ts[i], ts[j])
  }

  /** Those of one name that are all up, or all down, in order. */
  function Alike(ts: seq<TunnelInput>, live: bool, name: string): seq<TunnelInput> {
    if ts == [] then []
    else (if Live(ts[0]) == live && ts[0].name == name then [ts[0]] else []) + Alike(ts[1..], live, name)
  }

  lemma {:induction false} NotAfterThrough(x: TunnelInput, y: TunnelInput, z: TunnelInput)
    requires NotAfter(x, y) && NotAfter(y, z)
    ensures NotAfter(x, z)
  {
    if Live(x) == Live(y) == Live(z) { NotLessThrough(x.name, y.name, z.name); }
  }

  lemma {:induction false} FrontInOrder(ts: seq<TunnelInput>, t: TunnelInput)
    requires InOrder(ts) && forall u :: u in ts ==> NotAfter(t, u)
    ensures InOrder([t] + ts)
  {
    hide NotAfter;
    var out := [t] + ts;
    forall i, j | 0 <= i < j < |out|
      ensures NotAfter(out[i], out[j])
    {
      assert out[j] == ts[j - 1] && out[j] in ts;
    }
  }

  lemma {:induction false} BeforeOrNot(t: TunnelInput, u: TunnelInput)
    ensures if Before(t, u) then NotAfter(t, u) else NotAfter(u, t)
  {
    TextTotal(t.name, u.name);
  }

  lemma {:induction false} InsertInOrder(ts: seq<TunnelInput>, t: TunnelInput)
    requires InOrder(ts)
    ensures InOrder(InsertTunnel(ts, t))
  {
    hide NotAfter, Before;
    if ts == [] {
    } else if Before(ts[0], t) {
      var rest := ts[1..];
      assert forall u :: u in rest ==> NotAfter(ts[0], u);
      InsertInOrder(rest, t);
      InsertTunnelMembers(rest, t);
      BeforeOrNot(ts[0], t);
      FrontInOrder(InsertTunnel(rest, t), ts[0]);
    } else {
      BeforeOrNot(ts[0], t);
      forall u | u in ts
        ensures NotAfter(t, u)
      {
        var j :| 0 <= j < |ts| && ts[j] == u;
        if j > 0 { NotAfterThrough(t, ts[0], u); }
      }
      FrontInOrder(ts, t);
    }
  }

  lemma {:induction false} InsertPermutes(ts: seq<TunnelInput>, t: TunnelInput)
    ensures multiset(InsertTunnel(ts, t)) == multiset(ts) + multiset{t}
  {
    if ts != [] {
      assert ts == [ts[0]] + ts[1..];
      InsertPermutes(ts[1..], t);
    }
  }

  lemma {:induction false} AlikeFront(ts: seq<TunnelInput>, t: TunnelInput, live: bool, name: string)
    ensures Alike([t] + ts, live, name) ==
            (if Live(t) == live && t.name == name then [t] else []) + Alike(ts, live, name)
  {
    assert ([t] + ts)[1..] == ts;
  }

  lemma {:induction false} InsertStays(ts: seq<TunnelInput>, t: TunnelInput, live: bool, name: string)
    ensures Alike(InsertTunnel(ts, t), live, name) == Alike([t] + ts, live, name)
  {
    hide TextLess;
    if ts != [] && Before(ts[0], t) {
      InsertStays(ts[1..], t, live, name);
      TextTotal(ts[0].name, t.name);
      AlikeFront(InsertTunnel(ts[1..], t), ts[0], live, name);
      AlikeFront(ts[1..], t, live, name);
      AlikeFront(ts, t, live, name);
      hide Alike, InsertTunnel;
    }
  }

  /** The tunnels are planned in order: all that are up before all that are down, each by
      name; none is lost or added, and those of one rank keep their order. */
  lemma {:induction false} PlannedInOrder(ts: seq<TunnelInput>)
    ensures InOrder(SortTunnels(ts)) && multiset(SortTunnels(ts)) == multiset(ts)
    ensures forall live, name :: Alike(SortTunnels(ts), live, name) == Alike(ts, live, name)
  {
    if ts != [] {
      PlannedInOrder(ts[1..]);
      var rest := SortTunnels(ts[1..]);
      InsertInOrder(rest, ts[0]);
      InsertPermutes(rest, ts[0]);
      assert ts == [ts[0]] + ts[1..];
      hide InOrder, InsertTunnel;
      forall live, name
        ensures Alike(SortTunnels(ts), live, name) == Alike(ts, live, name)
      {
        InsertStays(rest, ts[0], live, name);
        assert ([ts[0]] + rest)[1..] == rest;
      }
    }
  }

  // ---------- who gets a destination ----------

  /** Nothing that must stay out of the tunnels lies in p. */
  ghost predicate Clear(w: Network, p: Prefix) {
    forall a: Addr :: StaysOff(w, a) ==> !Contains(p, a)
  }

  /** No tunnel asks for a host route at p that the family's gateway can carry. */
  ghost predicate Unpinned(w: Network, p: Prefix) {
    Gateway(w, p.fam).Some? ==> forall t :: t in w.tunnels ==> p !in t.bypass
  }

  /** Tunnel t would put something at p, or around it, or inside it. */
  ghost predicate Contends(t: TunnelInput, p: Prefix) {
    (Live(t) || t.block) && exists q :: q in t.routes && Nested(p, q)
  }

  predicate Carries(t: TunnelInput, fam: Family) {
    t.iface != "" && (fam.V4? || t.v6)
  }

  lemma {:induction false} NothingToKeepOut(w: Network, p: Prefix)
    requires Clear(w, p)
    ensures KeepOut(p, w, SortTunnels(w.tunnels), Plan(w).held, false) == []
  {
    var keep := KeepOut(p, w, SortTunnels(w.tunnels), Plan(w).held, false);
    hide KeepOut, Plan, SortTunnels, StaysOff;
    if keep != [] {
      KeptStaysOff(w, p, false, keep[0]);
      assert false;
    }
  }

  /** What a turn hands out at p comes from a route the tunnel lists that meets p. */
  lemma {:induction false} GivenToContender(w: Network, ts: seq<TunnelInput>, i: nat, p: Prefix)
    requires i < |ts| && GivenAtTurn(w, ts, i, p)
    ensures Contends(ts[i], p)
  {
    var t, s := ts[i], RoutePhase(w, ts, i);
    var ps := TunnelParts(w, ts, t, s, p.fam);
    PartsOfFamily(w, ts, t, s, p.fam);
    UnclaimedOk(ps, s.taken, p);
    ContainsFirst(p);
    assert Covers(ps, First(p));
    var q :| q in ps && Contains(q, First(p));
    GatheredFrom(w, ts, t, s.taken, s.held, p.fam, |t.routes|, q);
    var pfx :| pfx in t.routes && q in Decide(w, ts, t, s.taken, s.held, pfx).parts;
    DecideOk(w, ts, t, s.taken, s.held, pfx, q);
    hide Decide, RoutePhase, TunnelParts;
    ContainsTransitive(pfx, q, First(p));
    SharedAddress(p, pfx, First(p));
  }

  /** While no tunnel before it contends for p, p stays unclaimed. */
  lemma {:induction false} FreeAtTurn(w: Network, i: nat, p: Prefix)
    requires i <= |SortTunnels(w.tunnels)| && Unpinned(w, p)
    requires forall j :: 0 <= j < i ==> !Contends(SortTunnels(w.tunnels)[j], p)
    ensures p !in RoutePhase(w, SortTunnels(w.tunnels), i).taken
  {
    var ts := SortTunnels(w.tunnels);
    var s := RoutePhase(w, ts, i);
    PhaseInv(w, ts, i);
    NetsByTurn(w, ts, i, p);
    SortTunnelsMembers(w.tunnels);
    hide RoutePhase, SortTunnels, Contends, GivenAtTurn, DestinationOk;
    if p in s.taken {
      assert RoutesTo(s.routes, p);
      var m :| m in s.routes && m.route.dst == p;
      assert RouteOk(w, ts, s.held, m);
      if !IsPin(m) {
        var j: nat :| j < i && GivenAtTurn(w, ts, j, p);
        GivenToContender(w, ts, j, p);
      }
      assert false;
    }
  }

  lemma {:induction false} InstallRoutes(t: TunnelInput, s: TunnelPlan, ps: seq<Prefix>)
    ensures forall m :: m in s.routes ==> m in Install(t, s, ps).routes
    ensures forall p :: p in ps ==> Ours(Route(MAIN, p, if Carries(t, p.fam) then Dev(t.iface) else Reject), t.name) in Install(t, s, ps).routes
  {
    if ps != [] {
      InstallRoutes(t, s, ps[..|ps| - 1]);
      assert ps == ps[..|ps| - 1] + [ps[|ps| - 1]];
    }
  }

  lemma {:induction false} OnlyPart(w: Network, ts: seq<TunnelInput>, t: TunnelInput, taken: Claims, held: set<Addr>,
      n: nat, p: Prefix)
    requires n <= |t.routes| && Decide(w, ts, t, taken, held, p).parts == [p]
    requires forall q :: q in t.routes && q.fam == p.fam ==> q == p
    ensures forall q :: q in Gather(w, ts, t, taken, held, p.fam, n) ==> q == p
  {
    hide Decide;
    if n > 0 {
      OnlyPart(w, ts, t, taken, held, n - 1, p);
      assert t.routes[n - 1] in t.routes;
    }
  }

  lemma {:induction false} OneBlock(ps: seq<Prefix>, taken: Claims, p: Prefix)
    requires p in ps && p !in taken && forall q :: q in ps ==> q == p
    ensures p in Unclaimed(ps, taken)
  {
    UnclaimedKeepsAll(ps, taken, p);
    var u :| u in Unclaimed(ps, taken) && Contains(u, p);
    UnclaimedOk(ps, taken, u);
    hide Unclaimed;
    forall a: Addr | Contains(u, a)
      ensures Covers([p], a)
    {
      var q :| q in ps && Contains(q, a);
      assert p in [p];
    }
    WithinOne([p], u);
    HostLike(u, p);
  }

  /** A tunnel that lists p alone of its family, p being free and clear, is given p. */
  lemma {:induction false} TurnGives(w: Network, ts: seq<TunnelInput>, t: TunnelInput, s: TunnelPlan, p: Prefix)
    requires p in t.routes && (Carries(t, p.fam) || t.block) && forall q :: q in t.routes && q.fam == p.fam ==> q == p
    requires p !in w.occupied && p !in s.taken && KeepOut(p, w, ts, s.held, false) == []
    ensures Ours(Route(MAIN, p, if Carries(t, p.fam) then Dev(t.iface) else Reject), t.name) in PlanTunnel(w, ts, t, s).routes
  {
    var s0 := Reported(w, ts, t, s);
    var u4 := Unclaimed(TunnelParts(w, ts, t, s, V4), s0.taken);
    var s4 := Install(t, s0, u4);
    var u6 := Unclaimed(TunnelParts(w, ts, t, s, V6), s4.taken);
    var i :| 0 <= i < |t.routes| && t.routes[i] == p;
    assert Decide(w, ts, t, s.taken, s.held, p).parts == [p];
    GatherHas(w, ts, t, s.taken, s.held, |t.routes|, i, p);
    OnlyPart(w, ts, t, s.taken, s.held, |t.routes|, p);
    InstallNets(t, s0, u4);
    UnclaimedFamilies(w, ts, t, s, u4, s4.taken);
    hide Decide, Gather, KeepOut, Unclaimed, Install;
    OneBlock(TunnelParts(w, ts, t, s, p.fam), s.taken, p);
    InstallRoutes(t, s0, u4);
    InstallRoutes(t, s4, u6);
  }

  lemma {:induction false} FirstIndex(ts: seq<TunnelInput>, t: TunnelInput) returns (i: nat)
    requires t in ts
    ensures i < |ts| && ts[i] == t && t !in ts[..i]
  {
    i := 0;
    while ts[i] != t
      invariant i < |ts| && t in ts[i..] && t !in ts[..i]
      decreases |ts| - i
    {
      assert ts[..i + 1] == ts[..i] + [ts[i]] && ts[i..] == [ts[i]] + ts[i + 1..];
      i := i + 1;
    }
  }

  /** Whoever claims first gets it. Let a tunnel that is up or blocks list p, and nothing
      else of its family; let p be no one else's destination, unpinned, and clear of all
      that stays out; and let no tunnel that claims before it contend for p. Then the one
      route at p goes into that tunnel — or refuses, if it cannot carry p — whatever the
      tunnels after it list. In particular a tunnel that is up never loses p to tunnels
      that are down. */
  lemma {:induction false} FirstToClaimGetsIt(w: Network, t: TunnelInput, p: Prefix)
    requires t in w.tunnels && (Carries(t, p.fam) || t.block)
    requires p in t.routes && forall q :: q in t.routes && q.fam == p.fam ==> q == p
    requires p !in w.occupied && Unpinned(w, p) && Clear(w, p)
    requires forall u :: u in w.tunnels && u != t && NotAfter(u, t) ==> !Contends(u, p)
    ensures var m := Ours(Route(MAIN, p, if Carries(t, p.fam) then Dev(t.iface) else Reject), t.name);
            m in Plan(w).routes && forall n :: n in Plan(w).routes && n.route.dst == p ==> n == m
  {
    hide RoutePhase, PlanTunnel, SortTunnels, NotAfter, Contends, Clear, KeepOut, Carries, PinPhase;
    var ts := SortTunnels(w.tunnels);
    var m := Ours(Route(MAIN, p, if Carries(t, p.fam) then Dev(t.iface) else Reject), t.name);
    SortTunnelsMembers(w.tunnels);
    PlannedInOrder(w.tunnels);
    var i := FirstIndex(ts, t);
    forall j | 0 <= j < i
      ensures !Contends(ts[j], p)
    {
      assert ts[j] in ts[..i] && ts[j] in ts;
    }
    FreeAtTurn(w, i, p);
    NothingToKeepOut(w, p);
    RoutePhaseInv(w, ts, i);
    RoutePhaseInv(w, ts, |ts|);
    TurnGives(w, ts, t, RoutePhase(w, ts, i), p);
    PhaseStep(w, ts, i);
    LaterKeeps(w, ts, i + 1, |ts|);
    PlanRoutesDistinct(w);
    forall n | n in Plan(w).routes && n.route.dst == p
      ensures n == m
    {
      SameDestination(Plan(w).routes, n, m);
    }
  }
}
