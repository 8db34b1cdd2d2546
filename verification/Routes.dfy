/** Routes, policy rules and the longest-prefix match over them.

A route's key (RouteKey) is the route itself: table, destination and next hop. The
kernel has room for one per table and destination (dstKey). A rule's key is the
rule: what it selects and where it sends that.
 */
module Routes {
  import opened Prefixes

  datatype Option<+T> = None | Some(value: T)

  datatype Hop =
    | Via(gateway: Addr, iface: string)
    | Dev(iface: string) // on-link
    | Reject             // refused: no gateway, no interface

  /** A kernel entry with next hop held counts as a route with next hop hop: gateways must
      agree, interfaces only where there is no gateway, and a refusal only matches one. */
  predicate Carried(held: Hop, hop: Hop) {
    match hop
    case Reject => held.Reject?
    case Via(gw, _) => held.Via? && held.gateway == gw
    case Dev(iface) => !held.Reject? && held.iface == iface
  }

  datatype Route = Route(table: string, dst: Prefix, hop: Hop)

  /** Whose a managed route is (its ProfileID). */
  datatype Origin = NoProfile | OfProfile(id: string) | OfTunnel(name: string)

  datatype Managed = Managed(route: Route, origin: Origin, metric: nat)

  const MAIN := ""

  datatype Dst = Dst(table: string, net: Prefix)

  function DstKey(r: Route): Dst {
    Dst(r.table, r.dst)
  }

  function Keys(rs: seq<Managed>): set<Route> {
    set m | m in rs :: m.route
  }

  function Dsts(rs: seq<Managed>): set<Dst> {
    set m | m in rs :: DstKey(m.route)
  }

  /** One next hop per destination. */
  ghost predicate Functional(rs: seq<Managed>) {
    forall m, n :: m in rs && n in rs && DstKey(m.route) == DstKey(n.route) ==> m.route == n.route
  }

  /** No key listed twice. */
  ghost predicate UniqueKeys(rs: seq<Managed>) {
    forall i, j :: 0 <= i < j < |rs| ==> rs[i].route != rs[j].route
  }

  /** No destination listed twice. */
  ghost predicate UniqueDsts(rs: seq<Managed>) {
    forall i, j :: 0 <= i < j < |rs| ==> DstKey(rs[i].route) != DstKey(rs[j].route)
  }

  lemma {:induction false} UniqueBoth(rs: seq<Managed>)
    ensures UniqueDsts(rs) <==> UniqueKeys(rs) && Functional(rs)
  {
    if UniqueDsts(rs) {
      forall m, n | m in rs && n in rs && DstKey(m.route) == DstKey(n.route)
        ensures m.route == n.route
      {
        var i :| 0 <= i < |rs| && rs[i] == m;
        var j :| 0 <= j < |rs| && rs[j] == n;
        assert i == j;
      }
    }
  }

  datatype Selector = To(net: Prefix) | Other(text: string)

  /** Where a rule sends what it selects: a table, or on macOS an interface and gateway. */
  datatype Target = Target(priority: int, table: string, fam: Family, iface: string, gateway: Option<Addr>)

  datatype Rule = Rule(selector: Selector, target: Target)

  datatype ManagedRule = ManagedRule(rule: Rule, origin: Origin)

  function RuleKeys(rs: seq<ManagedRule>): set<Rule> {
    set m | m in rs :: m.rule
  }

  /** No rule listed twice. */
  ghost predicate UniqueRuleKeys(rs: seq<ManagedRule>) {
    forall i, j :: 0 <= i < j < |rs| ==> rs[i].rule != rs[j].rule
  }

  /** Rule r sends address a to t. */
  predicate Selects(r: Rule, t: Target, a: Addr) {
    r.selector.To? && r.target == t && Contains(r.selector.net, a)
  }

  ghost predicate Sends(rs: seq<ManagedRule>, t: Target, a: Addr) {
    exists m :: m in rs && Selects(m.rule, t, a)
  }

  /** The first of the longest routes to a. */
  function Lpm(rs: seq<Managed>, a: Addr): Option<Managed> {
    if rs == [] then None
    else
      var best := Lpm(rs[..|rs| - 1], a);
      var m := rs[|rs| - 1];
      if Contains(m.route.dst, a) && (best.None? || |m.route.dst.bits| > |best.value.route.dst.bits|)
      then Some(m) else best
  }

  lemma {:induction false} LpmMeans(rs: seq<Managed>, a: Addr)
    ensures Lpm(rs, a).None? <==> forall m :: m in rs ==> !Contains(m.route.dst, a)
    ensures Lpm(rs, a).Some? ==>
              && Lpm(rs, a).value in rs
              && Contains(Lpm(rs, a).value.route.dst, a)
              && forall m :: m in rs && Contains(m.route.dst, a) ==>
                             |m.route.dst.bits| <= |Lpm(rs, a).value.route.dst.bits|
  {
    if rs != [] {
      LpmMeans(rs[..|rs| - 1], a);
      assert rs == rs[..|rs| - 1] + [rs[|rs| - 1]];
    }
  }

  /** Simulate: longest-prefix match over a route set; -1 when nothing matches. */
  method Simulate(rs: seq<Managed>, a: Addr) returns (best: int)
    ensures -1 <= best < |rs|
    ensures best == -1 ==> forall m :: m in rs ==> !Contains(m.route.dst, a)
    ensures best >= 0 ==> Contains(rs[best].route.dst, a)
    ensures best >= 0 ==> forall i :: 0 <= i < |rs| && Contains(rs[i].route.dst, a) ==>
                                        |rs[i].route.dst.bits| <= |rs[best].route.dst.bits|
    ensures best >= 0 ==> forall i :: 0 <= i < best && Contains(rs[i].route.dst, a) ==>
                                        |rs[i].route.dst.bits| < |rs[best].route.dst.bits|
    ensures Lpm(rs, a) == if best < 0 then None else Some(rs[best])
  {
    best := -1;
    var bestBits := -1;
    for i := 0 to |rs|
      invariant -1 <= best < i
      invariant best == -1 ==> bestBits == -1
      invariant best >= 0 ==> Contains(rs[best].route.dst, a) && bestBits == |rs[best].route.dst.bits|
      invariant forall j :: 0 <= j < i && Contains(rs[j].route.dst, a) ==> |rs[j].route.dst.bits| <= bestBits
      invariant forall j :: 0 <= j < best && Contains(rs[j].route.dst, a) ==> |rs[j].route.dst.bits| < bestBits
      invariant Lpm(rs[..i], a) == if best < 0 then None else Some(rs[best])
    {
      assert rs[..i + 1][..i] == rs[..i];
      if Contains(rs[i].route.dst, a) && |rs[i].route.dst.bits| > bestBits {
        best := i;
        bestBits := |rs[i].route.dst.bits|;
      }
    }
    assert rs[..|rs|] == rs;
  }
}
