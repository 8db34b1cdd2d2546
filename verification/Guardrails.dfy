/** The guardrails checked before an apply (internal/safety/guardrails.go): an unresolved or
captured gateway, a next hop out of reach, two next hops for one destination, the peer of an
SSH session — in the whole set, or only in what a plan changes.
 */
module Guardrails {
  import opened Prefixes
  import opened Routes
  import opened Planner
  import opened PlannerSafety
  import opened Desired
  import opened Incremental
  import opened Reconciling
  import opened Verification

  datatype Violation =
    | GatewayUnresolved
    | GatewayCapture(route: Route)
    | UnreachableNextHop(gateway: Addr)
    | NextHopViaVpn(gateway: Addr)
    | SshPeer(route: Route)
    | ConflictingRoute(dst: Dst, first: Hop, other: Hop)

  /** The keys a plan adds. */
  function AddedKeys(ops: seq<Op>): set<Route> {
    set op | op in ops && op.AddRouteOp? :: op.route.route
  }

  /** A route is vetted when there is no plan, or the plan adds it. */
  predicate Vetted(plan: Option<seq<Op>>, r: Route) {
    plan.None? || r in AddedKeys(plan.value)
  }

  /** Two routes of the set send one destination two ways, and one of them is vetted. */
  ghost predicate Conflicted(all: seq<Managed>, plan: Option<seq<Op>>) {
    exists m, n :: m in all && n in all && Conflicting(m, n, plan)
  }

  ghost predicate Conflicting(m: Managed, n: Managed, plan: Option<seq<Op>>) {
    DstKey(m.route) == DstKey(n.route) && m.route.hop != n.route.hop && (Vetted(plan, m.route) || Vetted(plan, n.route))
  }

  /** Two routes to x are such a pair. */
  ghost predicate ConflictedAt(all: seq<Managed>, plan: Option<seq<Op>>, x: Dst) {
    exists m, n :: m in all && n in all && DstKey(m.route) == x && Conflicting(m, n, plan)
  }

  /** The report is of such a pair: its destination and their two next hops. */
  ghost predicate Tells(v: Violation, all: seq<Managed>, plan: Option<seq<Op>>) {
    && v.ConflictingRoute?
    && exists m, n :: m in all && n in all && Conflicting(m, n, plan) && DstKey(m.route) == v.dst &&
                      m.route.hop == v.first && n.route.hop == v.other
  }

  ghost predicate Named(vs: seq<Violation>, x: Dst) {
    exists v :: v in vs && v.ConflictingRoute? && v.dst == x
  }

  /** A main-table route the check of the gateway considers: any of the set, or any the
      plan adds or removes. */
  ghost predicate ChangesMain(all: seq<Managed>, plan: Option<seq<Op>>) {
    if plan.None? then exists m :: m in all && m.route.table == MAIN
    else exists op :: op in plan.value && (op.AddRouteOp? || op.DelRouteOp?) && op.route.route.table == MAIN
  }

  ghost predicate Captures(m: Managed, plan: Option<seq<Op>>, gw: Addr) {
    Vetted(plan, m.route) && m.route.table == MAIN && Contains(m.route.dst, gw)
  }

  /** A kernel lookup of a next hop. */
  datatype Lookup = Lookup(reachable: bool, viaVpn: bool)

  /** A vetted main-table route goes through gw. */
  ghost predicate UsesGateway(all: seq<Managed>, plan: Option<seq<Op>>, gw: Addr) {
    exists m :: m in all && Vetted(plan, m.route) && m.route.table == MAIN && m.route.hop.Via? && m.route.hop.gateway == gw
  }

  /** With a plan, only what it adds is vetted. */
  lemma {:induction false} VettedIff(ops: seq<Op>, r: Route)
    ensures Vetted(Some(ops), r) <==> exists op :: op in ops && op.AddRouteOp? && op.route.route == r
  {
  }

  /** The plan adds a route to x. */
  ghost predicate AddsTo(ops: seq<Op>, x: Dst) {
    exists op :: op in ops && op.AddRouteOp? && DstKey(op.route.route) == x
  }

  // ---------- the conflict scan ----------

  datatype FirstHop = FirstHop(hop: Hop, vetted: bool)

  /** The first next hop of a destination, with whether its route is vetted. */
  ghost predicate Scanned(all: seq<Managed>, plan: Option<seq<Op>>, nextHop: map<Dst, FirstHop>) {
    && (forall m :: m in all ==> DstKey(m.route) in nextHop)
    && (forall x :: x in nextHop ==>
                    && Route(x.table, x.net, nextHop[x].hop) in Keys(all)
                    && nextHop[x].vetted == Vetted(plan, Route(x.table, x.net, nextHop[x].hop)))
  }

  /** m goes elsewhere than the first route of its destination, and one of them is vetted. */
  ghost predicate OffFirst(nextHop: map<Dst, FirstHop>, plan: Option<seq<Op>>, m: Managed)
    requires DstKey(m.route) in nextHop
  {
    var first := nextHop[DstKey(m.route)];
    first.hop != m.route.hop && (first.vetted || Vetted(plan, m.route))
  }

  /** Comparing each route with the first of its destination finds every conflict. */
  lemma {:induction false} FirstsSuffice(all: seq<Managed>, plan: Option<seq<Op>>, nextHop: map<Dst, FirstHop>,
      m: Managed, n: Managed)
    requires Scanned(all, plan, nextHop) && m in all && n in all && Conflicting(m, n, plan)
    ensures OffFirst(nextHop, plan, m) || OffFirst(nextHop, plan, n)
  {
    var first := nextHop[DstKey(m.route)];
    assert m.route.hop == first.hop ==> m.route == Route(m.route.table, m.route.dst, first.hop);
    assert n.route.hop == first.hop ==> n.route == Route(m.route.table, m.route.dst, first.hop);
  }

  /** Every route off the first of its destination is named. */
  ghost predicate AllNamed(all: seq<Managed>, plan: Option<seq<Op>>, nextHop: map<Dst, FirstHop>, vs: seq<Violation>)
    requires Scanned(all, plan, nextHop)
  {
    forall m :: m in all && OffFirst(nextHop, plan, m) ==> Named(vs, DstKey(m.route))
  }

  lemma {:induction false} ScanNew(all: seq<Managed>, plan: Option<seq<Op>>, nextHop: map<Dst, FirstHop>, d: Managed,
      vs: seq<Violation>)
    requires Scanned(all, plan, nextHop) && AllNamed(all, plan, nextHop, vs) && DstKey(d.route) !in nextHop
    ensures var next := nextHop[DstKey(d.route) := FirstHop(d.route.hop, Vetted(plan, d.route))];
            Scanned(all + [d], plan, next) && AllNamed(all + [d], plan, next, vs)
  {
    ScanGrows(all, d);
    var next := nextHop[DstKey(d.route) := FirstHop(d.route.hop, Vetted(plan, d.route))];
    assert !OffFirst(next, plan, d);
    assert forall m :: m in all ==> (OffFirst(nextHop, plan, m) <==> OffFirst(next, plan, m));
  }

  lemma {:induction false} ScanKnown(all: seq<Managed>, plan: Option<seq<Op>>, nextHop: map<Dst, FirstHop>, d: Managed,
      vs: seq<Violation>)
    requires Scanned(all, plan, nextHop) && AllNamed(all, plan, nextHop, vs) && DstKey(d.route) in nextHop
    ensures Scanned(all + [d], plan, nextHop)
    ensures !OffFirst(nextHop, plan, d) ==>
              var prev := nextHop[DstKey(d.route)];
              prev.(vetted := prev.vetted || Vetted(plan, d.route)) == prev && AllNamed(all + [d], plan, nextHop, vs)
    ensures OffFirst(nextHop, plan, d) ==>
              var v := ConflictingRoute(DstKey(d.route), nextHop[DstKey(d.route)].hop, d.route.hop);
              Tells(v, all + [d], plan) && AllNamed(all + [d], plan, nextHop, vs + [v])
  {
    ScanGrows(all, d);
    var x := DstKey(d.route);
    var prev := nextHop[x];
    assert d in all + [d];
    assert prev.hop == d.route.hop ==> d.route == Route(x.table, x.net, prev.hop);
    var f :| f in all && f.route == Route(x.table, x.net, prev.hop);
    if OffFirst(nextHop, plan, d) {
      assert f in all + [d] && Conflicting(f, d, plan);
      NamedStays(vs, ConflictingRoute(x, prev.hop, d.route.hop));
    }
  }

  lemma {:induction false} NamedStays(vs: seq<Violation>, v: Violation)
    ensures forall x :: Named(vs, x) ==> Named(vs + [v], x)
    ensures v.ConflictingRoute? ==> Named(vs + [v], v.dst)
  {
    assert forall u :: u in vs ==> u in vs + [v];
    assert v in vs + [v];
  }

  lemma {:induction false} TellsMore(vs: seq<Violation>, all: seq<Managed>, plan: Option<seq<Op>>, d: Managed)
    requires forall v :: v in vs ==> Tells(v, all, plan)
    ensures forall v :: v in vs ==> Tells(v, all + [d], plan)
  {
    forall v | v in vs
      ensures Tells(v, all + [d], plan)
    {
      assert Tells(v, all, plan);
      var m, n :| m in all && n in all && Conflicting(m, n, plan) && DstKey(m.route) == v.dst &&
                  m.route.hop == v.first && n.route.hop == v.other;
      assert m in all + [d] && n in all + [d];
    }
  }

  /** The scan, in one pass: each report is of a conflict, and every destination with one is
      named. */
  method ScanConflicts(all: seq<Managed>, plan: Option<seq<Op>>) returns (vs: seq<Violation>)
    ensures vs != [] <==> Conflicted(all, plan)
    ensures forall v :: v in vs ==> v.ConflictingRoute? && v.first != v.other
    ensures forall v :: v in vs ==> Tells(v, all, plan)
    ensures forall x :: Named(vs, x) <==> ConflictedAt(all, plan, x)
  {
    vs := [];
    var nextHop: map<Dst, FirstHop> := map[];
    for i := 0 to |all|
      invariant Scanned(all[..i], plan, nextHop) && AllNamed(all[..i], plan, nextHop, vs)
      invariant forall v :: v in vs ==> Tells(v, all[..i], plan)
    {
      var d := all[i];
      var k := DstKey(d.route);
      assert all[..i + 1] == all[..i] + [d];
      TellsMore(vs, all[..i], plan, d);
      if k !in nextHop {
        ScanNew(all[..i], plan, nextHop, d, vs);
        hide Scanned, AllNamed, Tells, Vetted;
        nextHop := nextHop[k := FirstHop(d.route.hop, Vetted(plan, d.route))];
        continue;
      }
      ScanKnown(all[..i], plan, nextHop, d, vs);
      hide Scanned, AllNamed, Tells, Vetted;
      var prev := nextHop[k];
      if prev.hop != d.route.hop && (prev.vetted || Vetted(plan, d.route)) {
        vs := vs + [ConflictingRoute(k, prev.hop, d.route.hop)];
        continue;
      }
      ghost var before := nextHop;
      nextHop := nextHop[k := prev.(vetted := prev.vetted || Vetted(plan, d.route))];
      assert nextHop == before;
    }
    assert all[..|all|] == all;
    NamedIff(all, plan, nextHop, vs);
  }

  lemma {:induction false} NamedIff(all: seq<Managed>, plan: Option<seq<Op>>, nextHop: map<Dst, FirstHop>,
      vs: seq<Violation>)
    requires Scanned(all, plan, nextHop) && AllNamed(all, plan, nextHop, vs)
    requires forall v :: v in vs ==> Tells(v, all, plan)
    ensures forall x :: Named(vs, x) <==> ConflictedAt(all, plan, x)
    ensures vs != [] <==> Conflicted(all, plan)
    ensures forall v :: v in vs ==> v.ConflictingRoute? && v.first != v.other
  {
    hide Scanned, Vetted;
    forall m, n | m in all && n in all && Conflicting(m, n, plan)
      ensures Named(vs, DstKey(m.route))
    {
      FirstsSuffice(all, plan, nextHop, m, n);
    }
    forall x
      ensures Named(vs, x) <==> ConflictedAt(all, plan, x)
    {
      if Named(vs, x) {
        var v :| v in vs && v.ConflictingRoute? && v.dst == x;
        assert Tells(v, all, plan);
      }
    }
    if vs != [] {
      assert vs[0] in vs && Tells(vs[0], all, plan);
    }
  }

  lemma {:induction false} ScanGrows(all: seq<Managed>, d: Managed)
    ensures Keys(all + [d]) == Keys(all) + {d.route}
    ensures forall m :: m in all + [d] <==> m in all || m == d
  {
  }

  // ---------- all the checks ----------

  /** checkGuardrails; lookup is the kernel's answer for a next hop, if it can be read, and
      peer the far end of an SSH session. */
  method CheckGuardrails(all: seq<Managed>, plan: Option<seq<Op>>, gw: Option<Addr>,
      lookup: Addr -> Option<Lookup>, peer: Option<Addr>) returns (vs: seq<Violation>)
    ensures GatewayUnresolved in vs <==> gw.None? && ChangesMain(all, plan)
    ensures forall r :: GatewayCapture(r) in vs <==> gw.Some? && exists m :: m in all && m.route == r && Captures(m, plan, gw.value)
    ensures forall a :: UnreachableNextHop(a) in vs <==>
                        UsesGateway(all, plan, a) && lookup(a).Some? && !lookup(a).value.reachable
    ensures forall a :: NextHopViaVpn(a) in vs <==>
                        UsesGateway(all, plan, a) && lookup(a).Some? && lookup(a).value.reachable && lookup(a).value.viaVpn
    ensures (exists v :: v in vs && v.ConflictingRoute?) <==> Conflicted(all, plan)
    ensures forall v :: v in vs && v.ConflictingRoute? ==> Tells(v, all, plan)
    ensures forall x :: Named(vs, x) <==> ConflictedAt(all, plan, x)
    ensures plan.Some? ==> forall x :: Named(vs, x) ==> AddsTo(plan.value, x)
    ensures forall r :: SshPeer(r) in vs <==> peer.Some? && exists m :: m in all && m.route == r && Captures(m, plan, peer.value)
  {
    hide Captures, UsesGateway, Conflicted, ConflictedAt, Tells, ChangesMain, AddsTo;
    var early: seq<Violation>, late: seq<Violation> := [], [];
    if gw.None? {
      var unresolved := MainChanged(all, plan);
      if unresolved {
        early := [GatewayUnresolved];
      }
    } else {
      early := ScanCaptures(all, plan, gw.value, false);
    }
    var hops := ScanHops(all, plan, lookup);
    var conflicts := ScanConflicts(all, plan);
    if plan.Some? { ConflictAdds(all, plan.value); }
    if peer.Some? {
      late := ScanCaptures(all, plan, peer.value, true);
    }
    forall r
      ensures GatewayCapture(r) in early <==> gw.Some? && exists m :: m in all && m.route == r && Captures(m, plan, gw.value)
      ensures SshPeer(r) in late <==> peer.Some? && exists m :: m in all && m.route == r && Captures(m, plan, peer.value)
    {
      assert CaptureOf(false, r) == GatewayCapture(r) && CaptureOf(true, r) == SshPeer(r);
    }
    vs := early + hops + conflicts + late;
    assert forall v :: v in vs <==> v in early || v in hops || v in conflicts || v in late;
    assert conflicts != [] ==> conflicts[0] in vs && conflicts[0].ConflictingRoute?;
  }

  /** A conflict is with something the plan adds. */
  lemma {:induction false} ConflictAdds(all: seq<Managed>, ops: seq<Op>)
    ensures forall x :: ConflictedAt(all, Some(ops), x) ==> AddsTo(ops, x)
  {
    forall x | ConflictedAt(all, Some(ops), x)
      ensures AddsTo(ops, x)
    {
      var m, n :| m in all && n in all && DstKey(m.route) == x && Conflicting(m, n, Some(ops));
      VettedIff(ops, m.route);
      VettedIff(ops, n.route);
    }
  }

  /** Each next hop is looked up once; one that cannot be read blocks nothing. */
  method ScanHops(all: seq<Managed>, plan: Option<seq<Op>>, lookup: Addr -> Option<Lookup>) returns (vs: seq<Violation>)
    ensures forall v :: v in vs ==> v.UnreachableNextHop? || v.NextHopViaVpn?
    ensures forall a :: UnreachableNextHop(a) in vs <==>
                        UsesGateway(all, plan, a) && lookup(a).Some? && !lookup(a).value.reachable
    ensures forall a :: NextHopViaVpn(a) in vs <==>
                        UsesGateway(all, plan, a) && lookup(a).Some? && lookup(a).value.reachable && lookup(a).value.viaVpn
  {
    vs := [];
    var checked: set<Addr> := {};
    for i := 0 to |all|
      invariant forall a :: a in checked <==> UsesGateway(all[..i], plan, a)
      invariant forall v :: v in vs ==> v.UnreachableNextHop? || v.NextHopViaVpn?
      invariant forall a :: UnreachableNextHop(a) in vs <==> a in checked && lookup(a).Some? && !lookup(a).value.reachable
      invariant forall a :: NextHopViaVpn(a) in vs <==>
                            a in checked && lookup(a).Some? && lookup(a).value.reachable && lookup(a).value.viaVpn
    {
      var d := all[i];
      assert all[..i + 1] == all[..i] + [d];
      UsesGrows(all[..i], plan, d);
      if !Vetted(plan, d.route) || d.route.table != MAIN || !d.route.hop.Via? || d.route.hop.gateway in checked {
        continue;
      }
      var a := d.route.hop.gateway;
      checked := checked + {a};
      var found := lookup(a);
      if found.Some? {
        if !found.value.reachable {
          vs := vs + [UnreachableNextHop(a)];
        } else if found.value.viaVpn {
          vs := vs + [NextHopViaVpn(a)];
        }
      }
    }
    assert all[..|all|] == all;
  }

  lemma {:induction false} UsesGrows(all: seq<Managed>, plan: Option<seq<Op>>, d: Managed)
    ensures forall a :: UsesGateway(all + [d], plan, a) <==>
                        UsesGateway(all, plan, a) ||
                        (Vetted(plan, d.route) && d.route.table == MAIN && d.route.hop.Via? && d.route.hop.gateway == a)
  {
    assert forall m :: m in all + [d] <==> m in all || m == d;
  }

  method MainChanged(all: seq<Managed>, plan: Option<seq<Op>>) returns (changed: bool)
    ensures changed <==> ChangesMain(all, plan)
  {
    if plan.None? {
      for i := 0 to |all|
        invariant forall j :: 0 <= j < i ==> all[j].route.table != MAIN
      {
        if all[i].route.table == MAIN {
          assert all[i] in all;
          return true;
        }
      }
    } else {
      var ops := plan.value;
      for i := 0 to |ops|
        invariant forall j :: 0 <= j < i ==> !((ops[j].AddRouteOp? || ops[j].DelRouteOp?) && ops[j].route.route.table == MAIN)
      {
        if (ops[i].AddRouteOp? || ops[i].DelRouteOp?) && ops[i].route.route.table == MAIN {
          assert ops[i] in ops;
          return true;
        }
      }
    }
    return false;
  }

  function CaptureOf(ssh: bool, r: Route): Violation {
    if ssh then SshPeer(r) else GatewayCapture(r)
  }

  method ScanCaptures(all: seq<Managed>, plan: Option<seq<Op>>, a: Addr, ssh: bool) returns (vs: seq<Violation>)
    ensures forall v :: v in vs ==> if ssh then v.SshPeer? else v.GatewayCapture?
    ensures forall r :: CaptureOf(ssh, r) in vs <==> exists m :: m in all && m.route == r && Captures(m, plan, a)
  {
    vs := [];
    for i := 0 to |all|
      invariant forall v :: v in vs ==> if ssh then v.SshPeer? else v.GatewayCapture?
      invariant forall r :: CaptureOf(ssh, r) in vs <==> exists m :: m in all[..i] && m.route == r && Captures(m, plan, a)
    {
      var d := all[i];
      assert all[..i + 1] == all[..i] + [d];
      ScanGrows(all[..i], d);
      if !Vetted(plan, d.route) || d.route.table != MAIN {
        continue;
      }
      if Contains(d.route.dst, a) {
        vs := vs + [CaptureOf(ssh, d.route)];
      }
    }
    assert all[..|all|] == all;
  }

  // ---------- what silence means ----------

  /** Without a plan, silence is exactly one next hop per destination. */
  lemma {:induction false} SilenceMeansFunctional(all: seq<Managed>)
    ensures !Conflicted(all, None) <==> Functional(all)
  {
    if !Functional(all) {
      var m, n :| m in all && n in all && DstKey(m.route) == DstKey(n.route) && m.route != n.route;
      assert Conflicting(m, n, None);
    }
  }

  /** So for what BuildDesired makes, silence is exactly what a reconcile needs. */
  lemma {:induction false} SilenceIsEnough(d: DesiredInput)
    requires BuildDesired(d).Built?
    ensures !Conflicted(BuildDesired(d).routes, None) <==> UniqueDsts(BuildDesired(d).routes)
  {
    SilenceMeansFunctional(BuildDesired(d).routes);
    TunnelsNeverConflict(d);
    UniqueBoth(BuildDesired(d).routes);
  }

  /** A full apply that the guardrails let through: from a kernel that holds what is owned
      beside what others hold, its plan ends at exactly the desired set beside theirs, and
      its inverse at exactly the start unless it adopts something of theirs. */
  lemma {:induction false} VettedApplyIsExact(d: DesiredInput, c: Change, k: Kernel, foreign: Kernel)
    requires BuildDesired(d).Built? && c.desired == BuildDesired(d).routes && c.desiredRules == BuildDesired(d).rules
    requires !Conflicted(c.desired, None) && UniqueDsts(c.actual) && Recorded(c, k, foreign)
    ensures Holds(Run(k, Ops(c)), foreign, c.desired, c.desiredRules)
    ensures Run(Run(k, Ops(c)), Invert(Ops(c))) == k <==> NothingAdopted(c, foreign)
  {
    SilenceIsEnough(d);
    hide BuildDesired, Ops, Run, Invert, Recorded, Conflicted;
    ReconcileExact(c, k, foreign);
  }

  /** Vetting only what the plan adds is enough as well: with owned destinations unique,
      silence about the additions is uniqueness of the whole desired set. */
  lemma {:induction false} VettedSilenceIsEnough(c: Change)
    requires UniqueKeys(c.desired) && UniqueDsts(c.actual)
    ensures !Conflicted(c.desired, Some(Ops(c))) <==> UniqueDsts(c.desired)
  {
    UniqueBoth(c.desired);
    OpsMean(c);
    hide Ops;
    if !Conflicted(c.desired, Some(Ops(c))) {
      forall m, n | m in c.desired && n in c.desired && DstKey(m.route) == DstKey(n.route)
        ensures m.route == n.route
      {
        if m.route !in Keys(c.actual) || n.route !in Keys(c.actual) {
          assert m.route in AddedKeys(Ops(c)) || n.route in AddedKeys(Ops(c));
          assert !Conflicting(m, n, Some(Ops(c)));
        } else {
          var x :| x in c.actual && x.route == m.route;
          var y :| y in c.actual && y.route == n.route;
          SameKey(c.actual, x, y);
        }
      }
    }
  }

  /** So a tunnel apply, of which only the additions are vetted, is exact too. */
  lemma {:induction false} VettedTunnelApplyIsExact(w: Network, others: seq<Managed>, rules: seq<ManagedRule>,
      c: Change, k: Kernel, foreign: Kernel)
    requires c.desired == Beside(Plan(w), others) && c.desiredRules == RulesBeside(Plan(w), rules)
    requires !Conflicted(c.desired, Some(Ops(c))) && UniqueDsts(c.actual) && Recorded(c, k, foreign)
    ensures Holds(Run(k, Ops(c)), foreign, c.desired, c.desiredRules)
    ensures Run(Run(k, Ops(c)), Invert(Ops(c))) == k <==> NothingAdopted(c, foreign)
  {
    hide Plan, Beside, RulesBeside, Ops, Run, Invert, Recorded, Conflicted;
    BesideUnique(Plan(w), others);
    VettedSilenceIsEnough(c);
    ReconcileExact(c, k, foreign);
  }

  lemma {:induction false} UnyieldedUnique(others: seq<Managed>, nets: seq<Prefix>)
    ensures UniqueKeys(Unyielded(others, nets))
  {
    if others != [] {
      var k := |others| - 1;
      UnyieldedUnique(others[..k], nets);
      KeyAbsent(Unyielded(others[..k], nets), others[k]);
    }
  }

  lemma {:induction false} BesideUnique(tp: TunnelPlan, others: seq<Managed>)
    ensures UniqueKeys(Beside(tp, others))
  {
    UnyieldedUnique(others, tp.nets);
    PlaceUnique(Unyielded(others, tp.nets), tp.routes);
  }

  /** Of all the tunnels' routes only a pin of the gateway itself can trip the check that
      the gateway is not captured. */
  lemma {:induction false} TunnelsNeverCapture(w: Network, m: Managed, gw: Addr)
    requires m in Plan(w).routes && Gateway(w, gw.fam) == Some(gw)
    ensures Contains(m.route.dst, gw) <==> IsPin(m) && m.route.dst == gw
  {
    PlanRoutesDistinct(w);
    if Contains(m.route.dst, gw) {
      if !IsPin(m) {
        KeptOutStaysOut(w, m);
      } else {
        HostLike(m.route.dst, gw);
      }
    }
  }

  /** So some tunnel route captures the gateway if and only if a tunnel gives the gateway as
      a server to pin, and no one else routes it. */
  lemma {:induction false} CapturedIff(w: Network, gw: Addr)
    requires Gateway(w, gw.fam) == Some(gw)
    ensures (exists m :: m in Plan(w).routes && Contains(m.route.dst, gw)) <==>
            gw !in w.occupied && exists t :: t in w.tunnels && gw in t.bypass
  {
    hide Plan;
    if exists m :: m in Plan(w).routes && Contains(m.route.dst, gw) {
      var m :| m in Plan(w).routes && Contains(m.route.dst, gw);
      TunnelsNeverCapture(w, m, gw);
      PinsAreAsked(w, m);
    }
    if gw !in w.occupied && exists t :: t in w.tunnels && gw in t.bypass {
      var t :| t in w.tunnels && gw in t.bypass;
      PinIsPlanned(w, t, gw);
      var m :| m in Plan(w).routes && IsPin(m) && m.route.dst == gw;
      assert Contains(m.route.dst, gw);
    }
  }

  lemma {:induction false} PinsAreAsked(w: Network, m: Managed)
    requires m in Plan(w).routes && IsPin(m)
    ensures m.route.dst !in w.occupied && exists t :: t in w.tunnels && m.route.dst in t.bypass
  {
    PlanIsSafe(w);
    SortTunnelsMembers(w.tunnels);
    var ts := SortTunnels(w.tunnels);
    assert RouteOk(w, ts, Plan(w).held, m);
    var t :| t in ts && PinOf(w, t, m);
  }

  /** It happens: a tunnel whose server is the gateway. */
  lemma {:induction false} GatewayAsServer(gw: Addr, name: string, iface: string)
    ensures var t := TunnelInput(name, iface, false, false, [], [gw], []);
            exists m :: m in Plan(Reaching(gw, iface, t)).routes && Contains(m.route.dst, gw)
  {
    CapturedIff(Reaching(gw, iface, TunnelInput(name, iface, false, false, [], [gw], [])), gw);
  }

  /** A network with one gateway, of its own family, and one tunnel. */
  function Reaching(gw: Addr, iface: string, t: TunnelInput): Network {
    Network(if gw.fam.V4? then Some(gw) else None, if gw.fam.V6? then Some(gw) else None, iface, iface, None, None,
            [t], [], [], [])
  }
}
