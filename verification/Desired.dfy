/** Desired state (internal/routing/engine.go and tunnels.go): what the enabled profiles
and the tunnels imply, built in full (BuildDesired) or beside an installed set (Beside,
RulesBeside).
 */
module Desired {
  import opened KeyOrder
  import opened Prefixes
  import opened Aggregation
  import opened Subtraction
  import opened Routes
  import opened Planner
  import PlannerLoops

  const MODEL_B_TABLE := "5252"
  const MODEL_B_PRIORITY := 5252

  datatype Mode = Exclude | Include | TunnelMode

  datatype GatewaySetting = Auto | Explicit(addr: Addr) | Malformed

  /** prefixes are the profile's destinations of both families: its CIDRs, its lists'
      entries and its domains' addresses. */
  datatype Profile = Profile(
    id: string, mode: Mode, enabled: bool, priority: int, gateway: GatewaySetting, prefixes: seq<Prefix>)

  datatype Platform = Linux | Darwin

  datatype Vpn = Vpn(iface: string, gateway: Option<Addr>)

  /** How prefixes, addresses and numbers are written out, in keys. */
  datatype Writing = Writing(cidr: Prefix -> string, addr: Addr -> string, number: int -> string)

  datatype DesiredInput = DesiredInput(
    net: Network, profiles: seq<Profile>, policyRouting: bool, platform: Platform, vpn4: Vpn, vpn6: Vpn,
    writing: Writing)

  datatype Failure = NoPolicyRouting | BadGateway | NoGateway | NoVpn

  datatype Outcome = Failed(why: Failure) | Built(routes: seq<Managed>, rules: seq<ManagedRule>)

  function VpnFor(d: DesiredInput, fam: Family): Vpn {
    if fam.V6? then d.vpn6 else d.vpn4
  }

  // ---------- profiles ----------

  function InsertProfile(ps: seq<Profile>, p: Profile): seq<Profile> {
    if ps == [] || ps[0].priority <= p.priority then [p] + ps else [ps[0]] + InsertProfile(ps[1..], p)
  }

  /** By priority, highest first; a stable sort. */
  function SortProfiles(ps: seq<Profile>): seq<Profile> {
    if ps == [] then [] else InsertProfile(SortProfiles(ps[1..]), ps[0])
  }

  function OfFamily(ps: seq<Prefix>, fam: Family): seq<Prefix> {
    if ps == [] then []
    else
      var rest := OfFamily(ps[..|ps| - 1], fam);
      if ps[|ps| - 1].fam == fam then rest + [ps[|ps| - 1]] else rest
  }

  /** resolveGateway: the next hop a profile's routes of a family take. */
  function ResolveGateway(g: GatewaySetting, fam: Family, w: Network): Option<Hop> {
    match g
    case Auto => AutoHop(w, fam)
    case Malformed => None
    case Explicit(a) => if a.fam == fam then Some(Via(a, PhysIface(w, fam))) else None
  }

  // ---------- exclude mode ----------

  function Bypass(blocks: seq<Prefix>, hop: Hop, id: string): seq<Managed> {
    if blocks == [] then []
    else Bypass(blocks[..|blocks| - 1], hop, id) + [Managed(Route(MAIN, blocks[|blocks| - 1], hop), OfProfile(id), 0)]
  }

  /** A profile's destinations of a family outside the tunnels' networks. */
  function Excluded(p: Profile, nets: seq<Prefix>, fam: Family): seq<Prefix> {
    Outside(OfFamily(p.prefixes, fam), nets)
  }

  function ExcludeFamily(d: DesiredInput, p: Profile, nets: seq<Prefix>, fam: Family): seq<Managed> {
    match ResolveGateway(p.gateway, fam, d.net)
    case None => []
    case Some(hop) => Bypass(MaximalBlocks(Excluded(p, nets, fam)), hop, p.id)
  }

  /** Some family has destinations, and none of those has a usable gateway. */
  predicate Unroutable(d: DesiredInput, p: Profile, nets: seq<Prefix>) {
    && HasDestinations(p, nets)
    && (Excluded(p, nets, V4) != [] ==> ResolveGateway(p.gateway, V4, d.net).None?)
    && (Excluded(p, nets, V6) != [] ==> ResolveGateway(p.gateway, V6, d.net).None?)
  }

  predicate HasDestinations(p: Profile, nets: seq<Prefix>) {
    Excluded(p, nets, V4) != [] || Excluded(p, nets, V6) != []
  }

  // ---------- include mode ----------

  function IncludeTarget(d: DesiredInput, fam: Family): Target {
    if d.platform.Darwin?
    then Target(MODEL_B_PRIORITY, "", fam, VpnFor(d, fam).iface, VpnFor(d, fam).gateway)
    else Target(MODEL_B_PRIORITY, MODEL_B_TABLE, fam, "", None)
  }

  /** A profile's destinations of a family, cut around the tunnels' networks. */
  function Included(p: Profile, nets: seq<Prefix>, fam: Family): seq<Prefix> {
    if nets == [] then OfFamily(p.prefixes, fam) else Around(OfFamily(p.prefixes, fam), nets)
  }

  function RulesTo(blocks: seq<Prefix>, t: Target, id: string): seq<ManagedRule> {
    if blocks == [] then []
    else RulesTo(blocks[..|blocks| - 1], t, id) + [ManagedRule(Rule(To(blocks[|blocks| - 1]), t), OfProfile(id))]
  }

  function IncludeFamily(d: DesiredInput, p: Profile, nets: seq<Prefix>, fam: Family): seq<ManagedRule> {
    RulesTo(MaximalBlocks(Included(p, nets, fam)), IncludeTarget(d, fam), p.id)
  }

  predicate NeedsVpn(d: DesiredInput, rules: seq<ManagedRule>) {
    exists m :: m in rules && VpnFor(d, m.rule.target.fam).iface == ""
  }

  // ---------- building ----------

  /** addRoute, and the same for rules: once per key. */
  function AddRoute(rs: seq<Managed>, m: Managed): seq<Managed> {
    if m.route in Keys(rs) then rs else rs + [m]
  }

  function AddRoutes(rs: seq<Managed>, ms: seq<Managed>): seq<Managed> {
    if ms == [] then rs else AddRoute(AddRoutes(rs, ms[..|ms| - 1]), ms[|ms| - 1])
  }

  function AddRule(rs: seq<ManagedRule>, m: ManagedRule): seq<ManagedRule> {
    if m.rule in RuleKeys(rs) then rs else rs + [m]
  }

  function AddRules(rs: seq<ManagedRule>, ms: seq<ManagedRule>): seq<ManagedRule> {
    if ms == [] then rs else AddRule(AddRules(rs, ms[..|ms| - 1]), ms[|ms| - 1])
  }

  function BuildProfile(d: DesiredInput, nets: seq<Prefix>, p: Profile, o: Outcome): Outcome {
    if o.Failed? || !p.enabled || p.mode.TunnelMode? then o
    else if p.mode.Include? then
      if !d.policyRouting then Failed(NoPolicyRouting)
      else
        var rules := IncludeFamily(d, p, nets, V4) + IncludeFamily(d, p, nets, V6);
        if d.platform.Darwin? && NeedsVpn(d, rules) then Failed(NoVpn)
        else o.(rules := AddRules(o.rules, rules))
    else if p.gateway.Malformed? && HasDestinations(p, nets) then Failed(BadGateway)
    else if Unroutable(d, p, nets) then Failed(NoGateway)
    else o.(routes := AddRoutes(o.routes, ExcludeFamily(d, p, nets, V4) + ExcludeFamily(d, p, nets, V6)))
  }

  function BuildProfiles(d: DesiredInput, nets: seq<Prefix>, ps: seq<Profile>): Outcome {
    if ps == [] then Built([], [])
    else BuildProfile(d, nets, ps[|ps| - 1], BuildProfiles(d, nets, ps[..|ps| - 1]))
  }

  /** place: the plan's routes, but for those whose destination is already routed. */
  function Place(rs: seq<Managed>, plan: seq<Managed>): seq<Managed> {
    if plan == [] then rs
    else
      var out := Place(rs, plan[..|plan| - 1]);
      var m := plan[|plan| - 1];
      if DstKey(m.route) in Dsts(out) then out else out + [m]
  }

  /** Where the include table's default goes: into the VPN. */
  function VpnDefault(d: DesiredInput, fam: Family): Managed {
    var vpn := VpnFor(d, fam);
    var hop := match vpn.gateway case Some(gw) => Via(gw, vpn.iface) case None => Dev(vpn.iface);
    Managed(Route(MODEL_B_TABLE, Root(fam), hop), OfProfile("model-b"), 0)
  }

  predicate HasRuleOf(rules: seq<ManagedRule>, fam: Family) {
    exists m :: m in rules && m.rule.target.fam == fam
  }

  function Defaults(d: DesiredInput, rules: seq<ManagedRule>): seq<Managed> {
    (if HasRuleOf(rules, V4) then [VpnDefault(d, V4)] else []) +
    (if HasRuleOf(rules, V6) then [VpnDefault(d, V6)] else [])
  }

  function FamilyText(fam: Family): string {
    if fam.V6? then "v6" else "v4"
  }

  /** RouteKey, written out. */
  function RouteKey(w: Writing, r: Route): string {
    var hop := match r.hop
      case Via(gw, iface) => w.addr(gw) + "|" + iface
      case Dev(iface) => "|" + iface
      case Reject => "||reject";
    FamilyText(r.dst.fam) + "|" + r.table + "|" + w.cidr(r.dst) + "|" + hop
  }

  /** RuleKey, written out. */
  function RuleKey(w: Writing, r: Rule): string {
    var selector := match r.selector case To(net) => "to " + w.cidr(net) case Other(text) => text;
    var gateway := match r.target.gateway case Some(gw) => w.addr(gw) case None => "";
    w.number(r.target.priority) + "|" + selector + "|" + r.target.table + "|" + FamilyText(r.target.fam) +
    if r.target.iface == "" then "" else "|" + r.target.iface + "|" + gateway
  }

  function ByRouteKey(w: Writing): Managed -> string {
    (m: Managed) => RouteKey(w, m.route)
  }

  function ByRuleKey(w: Writing): ManagedRule -> string {
    (m: ManagedRule) => RuleKey(w, m.rule)
  }

  /** BuildDesired: what is built, sorted by key. */
  function BuildDesired(d: DesiredInput): Outcome {
    match BuildUnsorted(d)
    case Failed(why) => Failed(why)
    case Built(routes, rules) => Built(SortBy(ByRouteKey(d.writing), routes), SortBy(ByRuleKey(d.writing), rules))
  }

  function BuildUnsorted(d: DesiredInput): Outcome {
    var tp := Plan(d.net);
    var o := BuildProfiles(d, tp.nets, SortProfiles(d.profiles));
    if o.Failed? then o
    else
      var routes := Place(o.routes, tp.routes);
      if d.platform.Darwin? then Built(routes, o.rules)
      else if NeedsVpn(d, o.rules) then Failed(NoVpn)
      else Built(AddRoutes(routes, Defaults(d, o.rules)), o.rules)
  }

  // ---------- beside an installed set ----------

  /** A main-table route gives way when one of the networks contains it. */
  predicate Yields(m: Managed, nets: seq<Prefix>) {
    m.route.table == MAIN && exists n :: n in nets && Contains(n, m.route.dst)
  }

  function Unyielded(others: seq<Managed>, nets: seq<Prefix>): seq<Managed> {
    if others == [] then []
    else
      var rest := Unyielded(others[..|others| - 1], nets);
      var o := others[|others| - 1];
      if Yields(o, nets) then rest else AddRoute(rest, o)
  }

  /** Beside. */
  function Beside(tp: TunnelPlan, others: seq<Managed>): seq<Managed> {
    Place(Unyielded(others, tp.nets), tp.routes)
  }

  function Pieces(m: ManagedRule, nets: seq<Prefix>): seq<ManagedRule> {
    if m.rule.selector.Other? then [m]
    else CutRule(m, SubtractNets(m.rule.selector.net, nets))
  }

  function CutRule(m: ManagedRule, parts: seq<Prefix>): seq<ManagedRule> {
    if parts == [] then []
    else CutRule(m, parts[..|parts| - 1]) + [m.(rule := m.rule.(selector := To(parts[|parts| - 1])))]
  }

  function CutRules(rules: seq<ManagedRule>, nets: seq<Prefix>): seq<ManagedRule> {
    if rules == [] then []
    else AddRules(CutRules(rules[..|rules| - 1], nets), Pieces(rules[|rules| - 1], nets))
  }

  /** RulesBeside. */
  function RulesBeside(tp: TunnelPlan, rules: seq<ManagedRule>): seq<ManagedRule> {
    if tp.nets == [] then rules else CutRules(rules, tp.nets)
  }

  // ---------- the loops ----------

  /** place. */
  method PlaceInto(rs: seq<Managed>, plan: seq<Managed>) returns (out: seq<Managed>)
    ensures out == Place(rs, plan)
  {
    out := rs;
    var taken := Dsts(rs);
    for i := 0 to |plan|
      invariant out == Place(rs, plan[..i]) && taken == Dsts(out)
    {
      assert plan[..i + 1][..i] == plan[..i];
      var k := DstKey(plan[i].route);
      if k !in taken {
        taken := taken + {k};
        out := out + [plan[i]];
      }
    }
    assert plan[..|plan|] == plan;
  }

  /** Beside. */
  method PlaceBeside(tp: TunnelPlan, others: seq<Managed>) returns (out: seq<Managed>)
    ensures out == Beside(tp, others)
  {
    out := [];
    var seen: set<Route> := {};
    for i := 0 to |others|
      invariant out == Unyielded(others[..i], tp.nets) && seen == Keys(out)
    {
      assert others[..i + 1][..i] == others[..i];
      var o := others[i];
      if o.route.table == MAIN {
        var outside := OutsideTunnels([o.route.dst], tp.nets);
        OutsideMembers([o.route.dst], tp.nets, o.route.dst);
        assert [o.route.dst][..0] == [];
        if |outside| == 0 {
          continue;
        }
      }
      if o.route !in seen {
        seen := seen + {o.route};
        out := out + [o];
      }
    }
    assert others[..|others|] == others;
    out := PlaceInto(out, tp.routes);
  }

  method AddAllRules(rs: seq<ManagedRule>, seen: set<Rule>, ms: seq<ManagedRule>) returns (out: seq<ManagedRule>,
      seen1: set<Rule>)
    requires seen == RuleKeys(rs)
    ensures out == AddRules(rs, ms) && seen1 == RuleKeys(out)
  {
    out, seen1 := rs, seen;
    for i := 0 to |ms|
      invariant out == AddRules(rs, ms[..i]) && seen1 == RuleKeys(out)
    {
      assert ms[..i + 1][..i] == ms[..i];
      if ms[i].rule !in seen1 {
        seen1 := seen1 + {ms[i].rule};
        out := out + [ms[i]];
      }
    }
    assert ms[..|ms|] == ms;
  }

  lemma {:induction false} UncutPiece(m: ManagedRule, p: Prefix)
    requires m.rule.selector == To(p)
    ensures CutRule(m, [p]) == [m]
  {
    assert [p][..0] == [];
    assert CutRule(m, [p]) == CutRule(m, []) + [m];
  }

  /** RulesBeside. */
  method PlaceRulesBeside(tp: TunnelPlan, rules: seq<ManagedRule>) returns (out: seq<ManagedRule>)
    ensures out == RulesBeside(tp, rules)
  {
    if |tp.nets| == 0 {
      return rules;
    }
    out := [];
    var seen: set<Rule> := {};
    for i := 0 to |rules|
      invariant out == CutRules(rules[..i], tp.nets) && seen == RuleKeys(out)
    {
      assert rules[..i + 1][..i] == rules[..i];
      var r := rules[i];
      var parts := [r];
      if r.rule.selector.To? {
        var net := r.rule.selector.net;
        var cut := SubtractNets(net, tp.nets);
        if cut == [net] {
          UncutPiece(r, net); // untouched
        } else {
          parts := [];
          for j := 0 to |cut|
            invariant parts == CutRule(r, cut[..j])
          {
            assert cut[..j + 1][..j] == cut[..j];
            parts := parts + [r.(rule := r.rule.(selector := To(cut[j])))];
          }
          assert cut[..|cut|] == cut;
        }
      }
      out, seen := AddAllRules(out, seen, parts);
    }
    assert rules[..|rules|] == rules;
  }

  method AddAllRoutes(rs: seq<Managed>, seen: set<Route>, ms: seq<Managed>) returns (out: seq<Managed>,
      seen1: set<Route>)
    requires seen == Keys(rs)
    ensures out == AddRoutes(rs, ms) && seen1 == Keys(out)
  {
    out, seen1 := rs, seen;
    for i := 0 to |ms|
      invariant out == AddRoutes(rs, ms[..i]) && seen1 == Keys(out)
    {
      assert ms[..i + 1][..i] == ms[..i];
      if ms[i].route !in seen1 {
        seen1 := seen1 + {ms[i].route};
        out := out + [ms[i]];
      }
    }
    assert ms[..|ms|] == ms;
  }

  lemma {:induction false} AddRoutesConcat(rs: seq<Managed>, x: seq<Managed>, y: seq<Managed>)
    ensures AddRoutes(rs, x + y) == AddRoutes(AddRoutes(rs, x), y)
  {
    if y == [] {
      assert x + y == x;
    } else {
      var k := |y| - 1;
      AddRoutesConcat(rs, x, y[..k]);
      assert (x + y)[..|x + y| - 1] == x + y[..k];
    }
  }

  method BypassRoutes(blocks: seq<Prefix>, hop: Hop, id: string) returns (out: seq<Managed>)
    ensures out == Bypass(blocks, hop, id)
  {
    out := [];
    for i := 0 to |blocks|
      invariant out == Bypass(blocks[..i], hop, id)
    {
      assert blocks[..i + 1][..i] == blocks[..i];
      out := out + [Managed(Route(MAIN, blocks[i], hop), OfProfile(id), 0)];
    }
    assert blocks[..|blocks|] == blocks;
  }

  datatype FamilyOutcome = Nothing | Skipped | Refused | Routed(routes: seq<Managed>)

  /** The exclude branch for one family. A family without a usable gateway is skipped; a
      malformed gateway is refused. */
  method BuildFamily(d: DesiredInput, nets: seq<Prefix>, p: Profile, fam: Family) returns (o: FamilyOutcome)
    ensures o.Nothing? <==> Excluded(p, nets, fam) == []
    ensures o.Skipped? || o.Refused? <==> Excluded(p, nets, fam) != [] && ResolveGateway(p.gateway, fam, d.net).None?
    ensures o.Refused? ==> p.gateway.Malformed?
    ensures o.Skipped? || o.Routed? ==> !p.gateway.Malformed?
    ensures ExcludeFamily(d, p, nets, fam) == if o.Routed? then o.routes else []
  {
    var prefixes := OutsideTunnels(OfFamily(p.prefixes, fam), nets);
    if |prefixes| == 0 {
      NothingExcluded(d, p, nets, fam);
      return Nothing;
    }
    var hop := ResolveGateway(p.gateway, fam, d.net);
    if hop.None? {
      return if p.gateway.Malformed? then Refused else Skipped;
    }
    var aggs := Aggregate(PlannerLoops.AllRaw(prefixes));
    PlannerLoops.RawIsNormal(prefixes);
    var routes := BypassRoutes(aggs, hop.value, p.id);
    o := Routed(routes);
  }

  method BuildExclude(d: DesiredInput, nets: seq<Prefix>, p: Profile, o: Outcome) returns (o1: Outcome)
    requires o.Built? && p.enabled && p.mode.Exclude?
    ensures o1 == BuildProfile(d, nets, p, o)
  {
    hide Excluded, ResolveGateway, ExcludeFamily;
    var o4 := BuildFamily(d, nets, p, V4);
    if o4.Refused? {
      return Failed(BadGateway);
    }
    var o6 := BuildFamily(d, nets, p, V6);
    if o6.Refused? {
      return Failed(BadGateway);
    }
    var families := (if o4.Nothing? then 0 else 1) + (if o6.Nothing? then 0 else 1);
    var skipped := (if o4.Skipped? then 1 else 0) + (if o6.Skipped? then 1 else 0);
    if families > 0 && skipped == families {
      return Failed(NoGateway);
    }
    var r4 := if o4.Routed? then o4.routes else [];
    var r6 := if o6.Routed? then o6.routes else [];
    var routes, seen := AddAllRoutes(o.routes, Keys(o.routes), r4 + r6);
    o1 := o.(routes := routes);
  }

  method BuildRules(d: DesiredInput, nets: seq<Prefix>, p: Profile, fam: Family) returns (out: seq<ManagedRule>)
    ensures out == IncludeFamily(d, p, nets, fam)
  {
    var cut := AroundTunnels(OfFamily(p.prefixes, fam), nets);
    var aggs := Aggregate(PlannerLoops.AllRaw(cut));
    PlannerLoops.RawIsNormal(cut);
    out := [];
    for i := 0 to |aggs|
      invariant out == RulesTo(aggs[..i], IncludeTarget(d, fam), p.id)
    {
      assert aggs[..i + 1][..i] == aggs[..i];
      out := out + [ManagedRule(Rule(To(aggs[i]), IncludeTarget(d, fam)), OfProfile(p.id))];
    }
    assert aggs[..|aggs|] == aggs;
  }

  method BuildInclude(d: DesiredInput, nets: seq<Prefix>, p: Profile, o: Outcome) returns (o1: Outcome)
    requires o.Built? && p.enabled && p.mode.Include?
    ensures o1 == BuildProfile(d, nets, p, o)
  {
    hide IncludeFamily;
    if !d.policyRouting {
      return Failed(NoPolicyRouting);
    }
    var r4 := BuildRules(d, nets, p, V4);
    var r6 := BuildRules(d, nets, p, V6);
    if d.platform.Darwin? && NeedsVpn(d, r4 + r6) {
      return Failed(NoVpn);
    }
    var rules, seen := AddAllRules(o.rules, RuleKeys(o.rules), r4 + r6);
    o1 := o.(rules := rules);
  }

  /** BuildDesired. */
  method BuildDesiredSet(d: DesiredInput) returns (o: Outcome)
    ensures o == BuildDesired(d)
  {
    hide BuildProfile, Plan;
    var profs := SortProfiles(d.profiles);
    var tp := PlannerLoops.PlanTunnels(d.net);
    o := Built([], []);
    for i := 0 to |profs|
      invariant o.Built? && o == BuildProfiles(d, tp.nets, profs[..i])
    {
      assert profs[..i + 1][..i] == profs[..i];
      var p := profs[i];
      ghost var before := o;
      if !p.enabled || p.mode.TunnelMode? {
        SkippedProfile(d, tp.nets, p, o);
      } else if p.mode.Include? {
        o := BuildInclude(d, tp.nets, p, o);
      } else {
        o := BuildExclude(d, tp.nets, p, o);
      }
      if o.Failed? {
        FailureStays(d, tp.nets, profs, i + 1);
        return;
      }
    }
    assert profs[..|profs|] == profs;
    var routes := PlaceInto(o.routes, tp.routes);
    if !d.platform.Darwin? {
      if NeedsVpn(d, o.rules) {
        return Failed(NoVpn);
      }
      var seen;
      routes, seen := AddAllRoutes(routes, Keys(routes), Defaults(d, o.rules));
    }
    o := Built(SortBy(ByRouteKey(d.writing), routes), SortBy(ByRuleKey(d.writing), o.rules));
  }

  lemma {:induction false} SkippedProfile(d: DesiredInput, nets: seq<Prefix>, p: Profile, o: Outcome)
    requires !p.enabled || p.mode.TunnelMode?
    ensures BuildProfile(d, nets, p, o) == o
  {
  }

  lemma {:induction false} FailureStays(d: DesiredInput, nets: seq<Prefix>, ps: seq<Profile>, n: nat)
    requires n <= |ps| && BuildProfiles(d, nets, ps[..n]).Failed?
    ensures BuildProfiles(d, nets, ps) == BuildProfiles(d, nets, ps[..n])
    decreases |ps| - n
  {
    if n == |ps| {
      assert ps[..n] == ps;
    } else {
      assert ps[..n + 1][..n] == ps[..n];
      FailureStays(d, nets, ps, n + 1);
    }
  }

  lemma {:induction false} NothingExcluded(d: DesiredInput, p: Profile, nets: seq<Prefix>, fam: Family)
    requires Excluded(p, nets, fam) == []
    ensures ExcludeFamily(d, p, nets, fam) == []
  {
    assert MaximalBlocks([]) == [];
  }
}
