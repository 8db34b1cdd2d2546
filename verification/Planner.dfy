/** The tunnel planner (internal/routing/tunnels.go): which destinations each tunnel gets,
which server addresses are pinned, and what is kept out.

The functions here say what the planner computes; PlannerLoops.dfy holds the program's
loops, proved to compute them, and PlannerSafety.dfy what the plan guarantees.
 */
module Planner {
  import opened KeyOrder
  import opened Prefixes
  import opened Aggregation
  import opened Subtraction
  import opened Routes

  const MAX_CARVED := 1024
  const MAX_KEPT_RESOLVERS := 8

  datatype TunnelInput = TunnelInput(
    name: string,
    iface: string, // "" while it is down
    v6: bool,
    block: bool,
    routes: seq<Prefix>,
    bypass: seq<Addr>,
    servers: seq<Addr>)

  /** The network the tunnels are planned on. */
  datatype Network = Network(
    gateway4: Option<Addr>, gateway6: Option<Addr>,
    physIface4: string, physIface6: string,
    physNet4: Option<Prefix>, physNet6: Option<Prefix>,
    tunnels: seq<TunnelInput>,
    occupied: seq<Prefix>, // main-table destinations someone else routes
    dnsServers: seq<Addr>,
    anchors: seq<Addr>)

  function Gateway(w: Network, fam: Family): Option<Addr> {
    if fam.V6? then w.gateway6 else w.gateway4
  }

  function PhysIface(w: Network, fam: Family): string {
    if fam.V6? then w.physIface6 else w.physIface4
  }

  function Lan(w: Network, fam: Family): Option<Prefix> {
    if fam.V6? then w.physNet6 else w.physNet4
  }

  /** The next hop of gateway "auto": the physical gateway of the family, if there is one. */
  function AutoHop(w: Network, fam: Family): Option<Hop> {
    match Gateway(w, fam)
    case None => None
    case Some(gw) => Some(Via(gw, PhysIface(w, fam)))
  }

  predicate Live(t: TunnelInput) {
    t.iface != ""
  }

  function ServersOf(t: TunnelInput): seq<Addr> {
    t.bypass + t.servers
  }

  // ---------- the order tunnels claim in ----------

  predicate Before(t: TunnelInput, u: TunnelInput) {
    if Live(t) != Live(u) then Live(t) else TextLess(t.name, u.name)
  }

  function InsertTunnel(ts: seq<TunnelInput>, t: TunnelInput): seq<TunnelInput> {
    if ts == [] || !Before(ts[0], t) then [t] + ts else [ts[0]] + InsertTunnel(ts[1..], t)
  }

  /** Live tunnels first, then by name; a stable sort. */
  function SortTunnels(ts: seq<TunnelInput>): seq<TunnelInput> {
    if ts == [] then [] else InsertTunnel(SortTunnels(ts[1..]), ts[0])
  }

  // ---------- claims and pins ----------

  datatype Claim = Pin(tunnel: string) | Into(tunnel: string) | Refuse(tunnel: string)

  type Claims = map<Prefix, Claim>

  datatype Reason = NoV6 | Occupied | Claimed | NothingLeft | TooMany | RefusedV6

  datatype Report = Report(tunnel: string, route: Prefix, reason: Reason)

  datatype TunnelPlan = TunnelPlan(
    taken: Claims,
    held: set<Addr>,   // servers with a host route of their own
    routes: seq<Managed>,
    nets: seq<Prefix>, // destinations routed into, or refused for, a tunnel
    blocked: seq<Report>,
    narrowed: seq<(string, Prefix)>)

  const NO_PLAN := TunnelPlan(map[], {}, [], [], [], [])

  function Ours(route: Route, tunnel: string): Managed {
    Managed(route, OfTunnel(tunnel), 0)
  }

  function PinOne(w: Network, t: TunnelInput, s: TunnelPlan, a: Addr): TunnelPlan {
    match AutoHop(w, a.fam)
    case None => s
    case Some(hop) =>
      if a in w.occupied then s
      else
        var s1 := s.(held := s.held + {a});
        if a in s.taken then s1
        else s1.(taken := s.taken[a := Pin(t.name)], routes := s.routes + [Ours(Route(MAIN, a, hop), t.name)])
  }

  function Pins(w: Network, t: TunnelInput, s: TunnelPlan, n: nat): TunnelPlan
    requires n <= |t.bypass|
  {
    if n == 0 then s else PinOne(w, t, Pins(w, t, s, n - 1), t.bypass[n - 1])
  }

  function OccupiedServers(w: Network, addrs: seq<Addr>): set<Addr> {
    set a | a in addrs && a in w.occupied
  }

  function PinTunnel(w: Network, t: TunnelInput, s: TunnelPlan): TunnelPlan {
    var s1 := Pins(w, t, s, |t.bypass|);
    s1.(held := s1.held + OccupiedServers(w, ServersOf(t)))
  }

  /** The server pins of the first n tunnels, and the servers held off the tunnels. */
  function PinPhase(w: Network, ts: seq<TunnelInput>, n: nat): TunnelPlan
    requires n <= |ts|
  {
    if n == 0 then NO_PLAN else PinTunnel(w, ts[n - 1], PinPhase(w, ts, n - 1))
  }

  // ---------- what a destination must not carry ----------

  /** An address kept out of a destination; net, when set, is kept out with it. */
  datatype Kept = Kept(addr: Addr, net: Option<Prefix>)

  function CountFamily(addrs: seq<Addr>, fam: Family): nat {
    if addrs == [] then 0
    else CountFamily(addrs[..|addrs| - 1], fam) + if addrs[|addrs| - 1].fam == fam then 1 else 0
  }

  /** The first resolvers of each family. */
  function FirstResolvers(addrs: seq<Addr>): seq<Addr> {
    if addrs == [] then []
    else
      var rest := FirstResolvers(addrs[..|addrs| - 1]);
      var a := addrs[|addrs| - 1];
      if CountFamily(addrs[..|addrs| - 1], a.fam) < MAX_KEPT_RESOLVERS then rest + [a] else rest
  }

  function Unheld(addrs: seq<Addr>, held: set<Addr>): seq<Addr> {
    if addrs == [] then []
    else
      var rest := Unheld(addrs[..|addrs| - 1], held);
      if addrs[|addrs| - 1] in held then rest else rest + [addrs[|addrs| - 1]]
  }

  function AllServers(ts: seq<TunnelInput>): seq<Addr> {
    if ts == [] then [] else AllServers(ts[..|ts| - 1]) + ServersOf(ts[|ts| - 1])
  }

  /** The addresses besides the router that no destination may carry — with essential,
      only those the tunnels' connections depend on. */
  function Guarded(w: Network, ts: seq<TunnelInput>, held: set<Addr>, essential: bool): seq<Addr> {
    (if essential then [] else FirstResolvers(w.dnsServers) + w.anchors) + Unheld(AllServers(ts), held)
  }

  function RouterKept(pfx: Prefix, w: Network): seq<Kept> {
    match Gateway(w, pfx.fam)
    case None => []
    case Some(gw) =>
      if !Contains(pfx, gw) then []
      else match Lan(w, pfx.fam)
        case None => [Kept(gw, None)]
        case Some(lan) =>
          if !Contains(lan, gw) then [Kept(gw, None)]
          else [Kept(gw, Some(if |lan.bits| <= |pfx.bits| then pfx else lan))]
  }

  function KeptIn(pfx: Prefix, addrs: seq<Addr>): seq<Kept> {
    if addrs == [] then []
    else
      var rest := KeptIn(pfx, addrs[..|addrs| - 1]);
      if Contains(pfx, addrs[|addrs| - 1]) then rest + [Kept(addrs[|addrs| - 1], None)] else rest
  }

  /** One address, said once. */
  function FirstOfEach(ks: seq<Kept>): seq<Kept> {
    if ks == [] then []
    else
      var rest := FirstOfEach(ks[..|ks| - 1]);
      var k := ks[|ks| - 1];
      if exists j :: j in rest && j.addr == k.addr then rest else rest + [k]
  }

  /** keepOut. */
  function KeepOut(pfx: Prefix, w: Network, ts: seq<TunnelInput>, held: set<Addr>, essential: bool): seq<Kept> {
    FirstOfEach(RouterKept(pfx, w) + KeptIn(pfx, Guarded(w, ts, held, essential)))
  }

  // ---------- carving ----------

  function StrictlyIn(pfx: Prefix, qs: seq<Prefix>): seq<Prefix> {
    if qs == [] then []
    else
      var rest := StrictlyIn(pfx, qs[..|qs| - 1]);
      if StrictlyContains(pfx, qs[|qs| - 1]) then rest + [qs[|qs| - 1]] else rest
  }

  function OtherTunnelsIn(pfx: Prefix, name: string, ts: seq<TunnelInput>): seq<Prefix> {
    if ts == [] then []
    else
      var rest := OtherTunnelsIn(pfx, name, ts[..|ts| - 1]);
      if ts[|ts| - 1].name == name then rest else rest + StrictlyIn(pfx, ts[|ts| - 1].routes)
  }

  /** othersInside: the routes inside pfx that are not the tunnel's. */
  function OthersInside(pfx: Prefix, name: string, ts: seq<TunnelInput>, occupied: seq<Prefix>): seq<Prefix> {
    StrictlyIn(pfx, occupied) + OtherTunnelsIn(pfx, name, ts)
  }

  /** The narrowest of others holding a. */
  function Narrowest(a: Addr, others: seq<Prefix>): Option<Prefix> {
    if others == [] then None
    else
      var best := Narrowest(a, others[..|others| - 1]);
      var o := others[|others| - 1];
      if !Contains(o, a) || (best.Some? && |o.bits| <= |best.value.bits|) then best else Some(o)
  }

  /** What is cut out for k: its network, or the narrowest other route holding it, or it alone. */
  function HoleFor(k: Kept, others: seq<Prefix>): Prefix {
    if k.net.Some? then k.net.value
    else match Narrowest(k.addr, others)
      case Some(o) => o
      case None => k.addr
  }

  function Holes(keep: seq<Kept>, others: seq<Prefix>): seq<Prefix> {
    if keep == [] then []
    else
      var rest := Holes(keep[..|keep| - 1], others);
      var h := HoleFor(keep[|keep| - 1], others);
      if h in rest then rest else rest + [h]
  }

  predicate Free(p: Prefix, others: seq<Prefix>, taken: Claims) {
    !(exists o :: o in others && Contains(o, p)) && p !in taken
  }

  function FreeParts(ps: seq<Prefix>, others: seq<Prefix>, taken: Claims): seq<Prefix> {
    if ps == [] then []
    else
      var rest := FreeParts(ps[..|ps| - 1], others, taken);
      if Free(ps[|ps| - 1], others, taken) then rest + [ps[|ps| - 1]] else rest
  }

  /** carve: pfx without the holes, less what is someone else's. */
  function Carve(pfx: Prefix, keep: seq<Kept>, others: seq<Prefix>, taken: Claims): seq<Prefix> {
    FreeParts(SubtractNets(pfx, Holes(keep, others)), others, taken)
  }

  // ---------- one tunnel's destinations ----------

  /** What becomes of a listed route: the parts it contributes, and why it is reported. */
  datatype Decision = Decision(parts: seq<Prefix>, why: Option<Reason>, narrowed: bool)

  predicate TooFewOrMany(parts: seq<Prefix>) {
    |parts| == 0 || |parts| > MAX_CARVED
  }

  function CarvedParts(w: Network, ts: seq<TunnelInput>, t: TunnelInput, taken: Claims, held: set<Addr>,
      pfx: Prefix): seq<Prefix> {
    var others := OthersInside(pfx, t.name, ts, w.occupied);
    var parts := Carve(pfx, KeepOut(pfx, w, ts, held, false), others, taken);
    if t.block && TooFewOrMany(parts)
    then Carve(pfx, KeepOut(pfx, w, ts, held, true), others, taken)
    else parts
  }

  function Decide(w: Network, ts: seq<TunnelInput>, t: TunnelInput, taken: Claims, held: set<Addr>,
      pfx: Prefix): Decision {
    var noV6 := Live(t) && pfx.fam.V6? && !t.v6;
    var refused := if noV6 then Some(RefusedV6) else None;
    if noV6 && !t.block then Decision([], Some(NoV6), false)
    else if pfx in w.occupied then Decision([], Some(Occupied), false)
    else if pfx in taken then Decision([], Some(Claimed), false)
    else if KeepOut(pfx, w, ts, held, false) == [] then Decision([pfx], refused, false)
    else
      var parts := CarvedParts(w, ts, t, taken, held, pfx);
      if |parts| == 0 then Decision([], Some(NothingLeft), false)
      else if |parts| > MAX_CARVED then Decision([], Some(TooMany), false)
      else Decision(parts, refused, true)
  }

  /** The parts the first n listed routes contribute to a family. */
  function Gather(w: Network, ts: seq<TunnelInput>, t: TunnelInput, taken: Claims, held: set<Addr>, fam: Family,
      n: nat): seq<Prefix>
    requires n <= |t.routes|
  {
    if n == 0 then []
    else
      var rest := Gather(w, ts, t, taken, held, fam, n - 1);
      var pfx := t.routes[n - 1];
      if pfx.fam == fam then rest + Decide(w, ts, t, taken, held, pfx).parts else rest
  }

  function BlockedOf(w: Network, ts: seq<TunnelInput>, t: TunnelInput, taken: Claims, held: set<Addr>,
      n: nat): seq<Report>
    requires n <= |t.routes|
  {
    if n == 0 then []
    else
      var rest := BlockedOf(w, ts, t, taken, held, n - 1);
      match Decide(w, ts, t, taken, held, t.routes[n - 1]).why
      case None => rest
      case Some(why) => rest + [Report(t.name, t.routes[n - 1], why)]
  }

  function NarrowedOf(w: Network, ts: seq<TunnelInput>, t: TunnelInput, taken: Claims, held: set<Addr>,
      n: nat): seq<(string, Prefix)>
    requires n <= |t.routes|
  {
    if n == 0 then []
    else
      var rest := NarrowedOf(w, ts, t, taken, held, n - 1);
      if Decide(w, ts, t, taken, held, t.routes[n - 1]).narrowed then rest + [(t.name, t.routes[n - 1])] else rest
  }

  function AppendNew(out: seq<Prefix>, ps: seq<Prefix>): seq<Prefix> {
    if ps == [] then out
    else
      var rest := AppendNew(out, ps[..|ps| - 1]);
      if ps[|ps| - 1] in rest then rest else rest + [ps[|ps| - 1]]
  }

  function Within1(agg: Prefix, ps: seq<Prefix>): seq<Prefix> {
    if ps == [] then []
    else
      var rest := Within1(agg, ps[..|ps| - 1]);
      if Contains(agg, ps[|ps| - 1]) then rest + [ps[|ps| - 1]] else rest
  }

  /** The aggregates, but for those already claimed: these go in as listed. */
  function UnclaimedOf(aggs: seq<Prefix>, ps: seq<Prefix>, taken: Claims): seq<Prefix> {
    if aggs == [] then []
    else
      var rest := UnclaimedOf(aggs[..|aggs| - 1], ps, taken);
      var agg := aggs[|aggs| - 1];
      AppendNew(rest, if agg in taken then Within1(agg, ps) else [agg])
  }

  /** unclaimedAggregate. */
  function Unclaimed(ps: seq<Prefix>, taken: Claims): seq<Prefix> {
    UnclaimedOf(MaximalBlocks(ps), ps, taken)
  }

  /** A tunnel that is down refuses; one that is up refuses the IPv6 it has no way to carry. */
  predicate Refuses(t: TunnelInput, fam: Family) {
    !Live(t) || (fam.V6? && !t.v6)
  }

  function InstallOne(t: TunnelInput, s: TunnelPlan, p: Prefix): TunnelPlan {
    var refuse := Refuses(t, p.fam);
    s.(taken := s.taken[p := if refuse then Refuse(t.name) else Into(t.name)],
       nets := s.nets + [p],
       routes := s.routes + [Ours(Route(MAIN, p, if refuse then Reject else Dev(t.iface)), t.name)])
  }

  function Install(t: TunnelInput, s: TunnelPlan, ps: seq<Prefix>): TunnelPlan {
    if ps == [] then s else InstallOne(t, Install(t, s, ps[..|ps| - 1]), ps[|ps| - 1])
  }

  function Reported(w: Network, ts: seq<TunnelInput>, t: TunnelInput, s: TunnelPlan): TunnelPlan {
    var n := |t.routes|;
    s.(blocked := s.blocked + BlockedOf(w, ts, t, s.taken, s.held, n),
       narrowed := s.narrowed + NarrowedOf(w, ts, t, s.taken, s.held, n))
  }

  function TunnelParts(w: Network, ts: seq<TunnelInput>, t: TunnelInput, s: TunnelPlan, fam: Family): seq<Prefix> {
    Gather(w, ts, t, s.taken, s.held, fam, |t.routes|)
  }

  function PlanTunnel(w: Network, ts: seq<TunnelInput>, t: TunnelInput, s: TunnelPlan): TunnelPlan {
    var s0 := Reported(w, ts, t, s);
    if !Live(t) && !t.block then s0
    else
      var s4 := Install(t, s0, Unclaimed(TunnelParts(w, ts, t, s, V4), s0.taken));
      Install(t, s4, Unclaimed(TunnelParts(w, ts, t, s, V6), s4.taken))
  }

  function RoutePhase(w: Network, ts: seq<TunnelInput>, n: nat): TunnelPlan
    requires n <= |ts|
  {
    if n == 0 then PinPhase(w, ts, |ts|) else PlanTunnel(w, ts, ts[n - 1], RoutePhase(w, ts, n - 1))
  }

  /** PlanTunnels. */
  function Plan(w: Network): TunnelPlan {
    var ts := SortTunnels(w.tunnels);
    RoutePhase(w, ts, |ts|)
  }
}
