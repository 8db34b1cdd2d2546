/** What the profiles' routes and rules give up to live tunnels, and how it comes back
(internal/core/yielded.go, and tunnelsOnly and DesiredForApply in internal/core/service.go).
 */
module Yielded {
  import opened Prefixes
  import opened Aggregation
  import opened Subtraction
  import opened Routes
  import opened Planner
  import opened PlannerSafety
  import opened Desired
  import opened Incremental
  import opened Picking

  datatype YieldedRule = YieldedRule(rule: ManagedRule, pieces: seq<ManagedRule>)

  /** The record: what gave way, and for a rule what was installed of it instead. */
  datatype Record = Record(routes: seq<Managed>, rules: seq<YieldedRule>)

  const NO_RECORD := Record([], [])

  // ---------- putting back ----------

  /** putBackRoutes: each yielded route once. */
  function PutBackRoutes(y: Record, routes: seq<Managed>): seq<Managed> {
    AddRoutes(routes, y.routes)
  }

  function PieceKeys(ys: seq<YieldedRule>): set<Rule> {
    set y, m | y in ys && m in y.pieces :: m.rule
  }

  function WithoutPieces(rules: seq<ManagedRule>, pieces: set<Rule>): seq<ManagedRule> {
    if rules == [] then []
    else
      var rest := WithoutPieces(rules[..|rules| - 1], pieces);
      var r := rules[|rules| - 1];
      if r.rule in pieces then rest else AddRule(rest, r)
  }

  function RecordedRules(ys: seq<YieldedRule>): seq<ManagedRule> {
    if ys == [] then [] else RecordedRules(ys[..|ys| - 1]) + [ys[|ys| - 1].rule]
  }

  /** putBackRules: each yielded rule in place of its pieces. */
  function PutBackRules(y: Record, rules: seq<ManagedRule>): seq<ManagedRule> {
    if y.rules == [] then rules
    else AddRules(WithoutPieces(rules, PieceKeys(y.rules)), RecordedRules(y.rules))
  }

  // ---------- yielding ----------

  function YieldedRoutes(routes: seq<Managed>, placed: seq<Managed>): seq<Managed> {
    if routes == [] then []
    else
      var rest := YieldedRoutes(routes[..|routes| - 1], placed);
      var r := routes[|routes| - 1];
      if r.route !in Keys(placed) && r.origin != NoProfile then rest + [r] else rest
  }

  predicate Uncut(tp: TunnelPlan, r: ManagedRule) {
    var parts := RulesBeside(tp, [r]);
    |parts| == 1 && parts[0].rule == r.rule
  }

  function YieldedRules(tp: TunnelPlan, rules: seq<ManagedRule>): seq<YieldedRule> {
    if rules == [] then []
    else
      var rest := YieldedRules(tp, rules[..|rules| - 1]);
      var r := rules[|rules| - 1];
      if Uncut(tp, r) then rest else rest + [YieldedRule(r, RulesBeside(tp, [r]))]
  }

  /** yieldedTo. */
  function YieldedTo(tp: TunnelPlan, routes: seq<Managed>, rules: seq<ManagedRule>, placed: seq<Managed>): Record {
    Record(YieldedRoutes(routes, placed), YieldedRules(tp, rules))
  }

  // ---------- the loops ----------

  /** putBackRoutes. */
  method PutRoutesBack(y: Record, routes: seq<Managed>) returns (out: seq<Managed>)
    ensures out == PutBackRoutes(y, routes)
  {
    var have := Keys(routes);
    out, have := AddAllRoutes(routes, have, y.routes);
  }

  /** putBackRules. */
  method PutRulesBack(y: Record, rules: seq<ManagedRule>) returns (out: seq<ManagedRule>)
    ensures out == PutBackRules(y, rules)
  {
    if |y.rules| == 0 {
      return rules;
    }
    var piece: set<Rule> := {};
    for i := 0 to |y.rules|
      invariant piece == PieceKeys(y.rules[..i])
    {
      assert y.rules[..i + 1] == y.rules[..i] + [y.rules[i]];
      piece := piece + RuleKeys(y.rules[i].pieces);
    }
    assert y.rules[..|y.rules|] == y.rules;
    out := [];
    var have: set<Rule> := {};
    for i := 0 to |rules|
      invariant out == WithoutPieces(rules[..i], piece) && have == RuleKeys(out)
    {
      assert rules[..i + 1][..i] == rules[..i];
      var k := rules[i].rule;
      if k !in piece && k !in have {
        have := have + {k};
        out := out + [rules[i]];
      }
    }
    assert rules[..|rules|] == rules;
    out, have := AddAllRules(out, have, RecordedRules(y.rules));
  }

  /** yieldedTo. */
  method YieldTo(tp: TunnelPlan, routes: seq<Managed>, rules: seq<ManagedRule>, placed: seq<Managed>)
    returns (y: Record)
    ensures y == YieldedTo(tp, routes, rules, placed)
  {
    var kept := Keys(placed);
    var dropped: seq<Managed> := [];
    for i := 0 to |routes|
      invariant dropped == YieldedRoutes(routes[..i], placed)
    {
      assert routes[..i + 1][..i] == routes[..i];
      if routes[i].route !in kept && routes[i].origin != NoProfile {
        dropped := dropped + [routes[i]];
      }
    }
    assert routes[..|routes|] == routes;
    var cut: seq<YieldedRule> := [];
    for i := 0 to |rules|
      invariant cut == YieldedRules(tp, rules[..i])
    {
      assert rules[..i + 1][..i] == rules[..i];
      var parts := PlaceRulesBeside(tp, [rules[i]]);
      if |parts| == 1 && parts[0].rule == rules[i].rule {
        continue;
      }
      cut := cut + [YieldedRule(rules[i], parts)];
    }
    assert rules[..|rules|] == rules;
    y := Record(dropped, cut);
  }

  // ---------- what is still wanted ----------

  /** What the enabled profiles of each mode list, aggregated; and the profiles
      that may route more of a family than is known. */
  datatype Destinations = Destinations(
    excluded: seq<Prefix>, included: seq<Prefix>,
    unsureExclude: set<(string, Family)>, unsureInclude: set<(string, Family)>)

  function Listed(ps: seq<Profile>, mode: Mode): seq<Prefix> {
    if ps == [] then []
    else
      var rest := Listed(ps[..|ps| - 1], mode);
      var p := ps[|ps| - 1];
      if p.enabled && p.mode == mode then rest + p.prefixes else rest
  }

  function UnsureOf(ps: seq<Profile>, mode: Mode, unsure: set<(string, Family)>): set<(string, Family)> {
    set u | u in unsure && exists p :: p in ps && p.id == u.0 && p.enabled && p.mode == mode
  }

  /** ProfileDestinations; unsure are the profiles with a domain rule that has no address
      of a family. */
  function ProfileDestinations(ps: seq<Profile>, unsure: set<(string, Family)>): Destinations {
    Destinations(MaximalBlocks(Listed(ps, Exclude)), MaximalBlocks(Listed(ps, Include)),
                 UnsureOf(ps, Exclude, unsure), UnsureOf(ps, Include, unsure))
  }

  predicate UnsureFor(o: Origin, fam: Family, unsure: set<(string, Family)>) {
    o.OfProfile? && (o.id, fam) in unsure
  }

  predicate HoldsRoute(d: Destinations, m: Managed) {
    || m.route.table != MAIN
    || (exists q :: q in d.excluded && Contains(q, m.route.dst))
    || UnsureFor(m.origin, m.route.dst.fam, d.unsureExclude)
  }

  predicate HoldsRule(d: Destinations, m: ManagedRule) {
    || m.rule.selector.Other?
    || (exists q :: q in d.included && Contains(q, m.rule.selector.net))
    || UnsureFor(m.origin, m.rule.target.fam, d.unsureInclude)
  }

  function WantedRoutes(d: Destinations, rs: seq<Managed>): seq<Managed> {
    if rs == [] then []
    else
      var rest := WantedRoutes(d, rs[..|rs| - 1]);
      if HoldsRoute(d, rs[|rs| - 1]) then rest + [rs[|rs| - 1]] else rest
  }

  function WantedRules(d: Destinations, ys: seq<YieldedRule>): seq<YieldedRule> {
    if ys == [] then []
    else
      var rest := WantedRules(d, ys[..|ys| - 1]);
      if HoldsRule(d, ys[|ys| - 1].rule) then rest + [ys[|ys| - 1]] else rest
  }

  /** stillWanted; None when the profiles cannot be read. */
  function StillWanted(dest: Option<Destinations>, y: Record): Record {
    match dest
    case None => y
    case Some(d) => Record(WantedRoutes(d, y.routes), WantedRules(d, y.rules))
  }

  /** stillWanted. */
  method KeepWanted(dest: Option<Destinations>, y: Record) returns (out: Record)
    ensures out == StillWanted(dest, y)
  {
    if (|y.routes| == 0 && |y.rules| == 0) || dest.None? {
      return y;
    }
    var d := dest.value;
    var routes: seq<Managed> := [];
    for i := 0 to |y.routes|
      invariant routes == WantedRoutes(d, y.routes[..i])
    {
      assert y.routes[..i + 1][..i] == y.routes[..i];
      if HoldsRoute(d, y.routes[i]) {
        routes := routes + [y.routes[i]];
      }
    }
    assert y.routes[..|y.routes|] == y.routes;
    var rules: seq<YieldedRule> := [];
    for i := 0 to |y.rules|
      invariant rules == WantedRules(d, y.rules[..i])
    {
      assert y.rules[..i + 1][..i] == y.rules[..i];
      if HoldsRule(d, y.rules[i].rule) {
        rules := rules + [y.rules[i]];
      }
    }
    assert y.rules[..|y.rules|] == y.rules;
    out := Record(routes, rules);
  }

  /** A recorded main-table route is still wanted exactly when the enabled exclude profiles
      list every one of its addresses, or its own profile is unsure. */
  lemma {:induction false} WantedMeansListed(ps: seq<Profile>, unsure: set<(string, Family)>, m: Managed)
    requires m.route.table == MAIN
    ensures HoldsRoute(ProfileDestinations(ps, unsure), m) <==>
            CoversAll(Listed(ps, Exclude), m.route.dst) ||
            UnsureFor(m.origin, m.route.dst.fam, UnsureOf(ps, Exclude, unsure))
  {
    WithinMeansCovered(m.route.dst, Listed(ps, Exclude));
  }

  lemma {:induction false} WantedRoutesMembers(d: Destinations, rs: seq<Managed>, m: Managed)
    ensures m in WantedRoutes(d, rs) <==> m in rs && HoldsRoute(d, m)
  {
    if rs != [] {
      WantedRoutesMembers(d, rs[..|rs| - 1], m);
      assert rs == rs[..|rs| - 1] + [rs[|rs| - 1]];
    }
  }

  lemma {:induction false} WantedRulesMembers(d: Destinations, ys: seq<YieldedRule>, y: YieldedRule)
    ensures y in WantedRules(d, ys) <==> y in ys && HoldsRule(d, y.rule)
  {
    if ys != [] {
      WantedRulesMembers(d, ys[..|ys| - 1], y);
      assert ys == ys[..|ys| - 1] + [ys[|ys| - 1]];
    }
  }

  lemma {:induction false} ListedMembers(ps: seq<Profile>, mode: Mode, p: Profile, q: Prefix)
    requires p in ps && p.enabled && p.mode == mode && q in p.prefixes
    ensures q in Listed(ps, mode)
  {
    var k := |ps| - 1;
    assert ps == ps[..k] + [ps[k]];
    if p in ps[..k] {
      ListedMembers(ps[..k], mode, p, q);
    }
  }

  /** Whatever a profile routed, beside whatever tunnels, is wanted for as long as the
      profile stays as it was. */
  lemma {:induction false} OwnRouteWanted(d: DesiredInput, nets: seq<Prefix>, unsure: set<(string, Family)>, m: Managed)
    requires ExcludeRoute(d, d.profiles, nets, m.route)
    ensures HoldsRoute(ProfileDestinations(d.profiles, unsure), m)
  {
    var p, fam :| p in d.profiles && IsExclude(d, p, nets, fam, m.route);
    var own := Excluded(p, nets, fam);
    MaximalBlocksExact(own);
    forall a: Addr | Contains(m.route.dst, a)
      ensures Covers(Listed(d.profiles, Exclude), a)
    {
      assert Covers(own, a);
      var q :| q in own && Contains(q, a);
      OutsideMembers(OfFamily(p.prefixes, fam), nets, q);
      OfFamilyMembers(p.prefixes, fam, q);
      ListedMembers(d.profiles, Exclude, p, q);
    }
    WantedMeansListed(d.profiles, unsure, m);
  }

  lemma {:induction false} OwnRuleWanted(d: DesiredInput, nets: seq<Prefix>, unsure: set<(string, Family)>,
      m: ManagedRule)
    requires IncludeRule(d, d.profiles, nets, m.rule)
    ensures HoldsRule(ProfileDestinations(d.profiles, unsure), m)
  {
    var p, fam :| p in d.profiles && IsInclude(d, p, nets, fam, m.rule);
    var own := Included(p, nets, fam);
    MaximalBlocksExact(own);
    forall a: Addr | Contains(m.rule.selector.net, a)
      ensures Covers(Listed(d.profiles, Include), a)
    {
      assert Covers(own, a);
      if nets != [] { AroundCover(OfFamily(p.prefixes, fam), nets, a); }
      var q :| q in OfFamily(p.prefixes, fam) && Contains(q, a);
      OfFamilyMembers(p.prefixes, fam, q);
      ListedMembers(d.profiles, Include, p, q);
    }
    WithinMeansCovered(m.rule.selector.net, Listed(d.profiles, Include));
  }

  /** An enabled profile of the mode lists a. */
  ghost predicate Lists(ps: seq<Profile>, mode: Mode, a: Addr) {
    exists p, q :: p in ps && p.enabled && p.mode == mode && q in p.prefixes && Contains(q, a)
  }

  /** The item is an enabled profile's, of the mode, that is unsure of the family. */
  ghost predicate OwnUnsure(ps: seq<Profile>, mode: Mode, unsure: set<(string, Family)>, o: Origin, fam: Family) {
    o.OfProfile? && (o.id, fam) in unsure && exists p :: p in ps && p.id == o.id && p.enabled && p.mode == mode
  }

  /** What is still to be put back of a recorded route: one in another table always; else
      one whose every address an exclude profile lists, or whose own profile is unsure. */
  ghost predicate RouteWanted(ps: seq<Profile>, unsure: set<(string, Family)>, m: Managed) {
    || m.route.table != MAIN
    || (forall a: Addr :: Contains(m.route.dst, a) ==> Lists(ps, Exclude, a))
    || OwnUnsure(ps, Exclude, unsure, m.origin, m.route.dst.fam)
  }

  /** And of a recorded rule: one that selects by no network always; else one whose every
      address an include profile lists, or whose own profile is unsure. */
  ghost predicate RuleWanted(ps: seq<Profile>, unsure: set<(string, Family)>, m: ManagedRule) {
    || m.rule.selector.Other?
    || (forall a: Addr :: Contains(m.rule.selector.net, a) ==> Lists(ps, Include, a))
    || OwnUnsure(ps, Include, unsure, m.origin, m.rule.target.fam)
  }

  lemma {:induction false} ListedCovers(ps: seq<Profile>, mode: Mode, a: Addr)
    ensures Covers(Listed(ps, mode), a) <==> Lists(ps, mode, a)
  {
    if ps != [] {
      var k := |ps| - 1;
      ListedCovers(ps[..k], mode, a);
      assert ps == ps[..k] + [ps[k]];
      CoversConcat(Listed(ps[..k], mode), ps[k].prefixes, a);
      if Lists(ps[..k], mode, a) {
        var p, q :| p in ps[..k] && p.enabled && p.mode == mode && q in p.prefixes && Contains(q, a);
        assert p in ps;
      }
      if ps[k].enabled && ps[k].mode == mode && Covers(ps[k].prefixes, a) {
        var q :| q in ps[k].prefixes && Contains(q, a);
        assert ps[k] in ps;
      }
    }
  }

  lemma {:induction false} HoldsRouteMeans(ps: seq<Profile>, unsure: set<(string, Family)>, m: Managed)
    ensures HoldsRoute(ProfileDestinations(ps, unsure), m) <==> RouteWanted(ps, unsure, m)
  {
    hide MaximalBlocks, Listed;
    WithinMeansCovered(m.route.dst, Listed(ps, Exclude));
    forall a: Addr { ListedCovers(ps, Exclude, a); }
  }

  lemma {:induction false} HoldsRuleMeans(ps: seq<Profile>, unsure: set<(string, Family)>, m: ManagedRule)
    ensures HoldsRule(ProfileDestinations(ps, unsure), m) <==> RuleWanted(ps, unsure, m)
  {
    hide MaximalBlocks, Listed;
    if m.rule.selector.To? { WithinMeansCovered(m.rule.selector.net, Listed(ps, Include)); }
    forall a: Addr { ListedCovers(ps, Include, a); }
  }

  /** stillWanted takes out of the record exactly what no profile accounts for, and keeps
      the rest in order. */
  lemma {:induction false} StillWantedIff(ps: seq<Profile>, unsure: set<(string, Family)>, y: Record)
    ensures var kept := StillWanted(Some(ProfileDestinations(ps, unsure)), y);
            && Picks(y.routes, kept.routes, (m: Managed) => RouteWanted(ps, unsure, m))
            && Picks(y.rules, kept.rules, (r: YieldedRule) => RuleWanted(ps, unsure, r.rule))
  {
    WantedRoutesPick(ps, unsure, y.routes);
    WantedRulesPick(ps, unsure, y.rules);
  }

  lemma {:induction false} WantedRoutesPick(ps: seq<Profile>, unsure: set<(string, Family)>, rs: seq<Managed>)
    ensures Picks(rs, WantedRoutes(ProfileDestinations(ps, unsure), rs), (m: Managed) => RouteWanted(ps, unsure, m))
  {
    hide ProfileDestinations, HoldsRoute, RouteWanted, Picks;
    ghost var keep := (m: Managed) => RouteWanted(ps, unsure, m);
    var d := ProfileDestinations(ps, unsure);
    if rs == [] {
      PickNone(keep);
    } else {
      var n := |rs| - 1;
      WantedRoutesPick(ps, unsure, rs[..n]);
      HoldsRouteMeans(ps, unsure, rs[n]);
      PickNext(rs[..n], WantedRoutes(d, rs[..n]), keep, rs[n]);
      assert rs == rs[..n] + [rs[n]];
    }
  }

  lemma {:induction false} WantedRulesPick(ps: seq<Profile>, unsure: set<(string, Family)>, ys: seq<YieldedRule>)
    ensures Picks(ys, WantedRules(ProfileDestinations(ps, unsure), ys), (y: YieldedRule) => RuleWanted(ps, unsure, y.rule))
  {
    hide ProfileDestinations, HoldsRule, RuleWanted, Picks;
    ghost var keep := (y: YieldedRule) => RuleWanted(ps, unsure, y.rule);
    var d := ProfileDestinations(ps, unsure);
    if ys == [] {
      PickNone(keep);
    } else {
      var n := |ys| - 1;
      WantedRulesPick(ps, unsure, ys[..n]);
      HoldsRuleMeans(ps, unsure, ys[n].rule);
      PickNext(ys[..n], WantedRules(d, ys[..n]), keep, ys[n]);
      assert ys == ys[..n] + [ys[n]];
    }
  }

  // ---------- a tunnel apply ----------

  /** What is installed, and the record. */
  datatype State = State(owned: seq<Managed>, rules: seq<ManagedRule>, record: Record)

  function NotTunnels(rs: seq<Managed>): seq<Managed> {
    if rs == [] then []
    else
      var rest := NotTunnels(rs[..|rs| - 1]);
      if rs[|rs| - 1].origin.OfTunnel? then rest else rest + [rs[|rs| - 1]]
  }

  function Others(s: State, dest: Option<Destinations>): seq<Managed> {
    PutBackRoutes(StillWanted(dest, s.record), NotTunnels(s.owned))
  }

  function Rules(s: State, dest: Option<Destinations>): seq<ManagedRule> {
    PutBackRules(StillWanted(dest, s.record), s.rules)
  }

  /** tunnelsOnly: put back what yielded, place the tunnels live now, record what yields
      to them; the state once that is applied and its record committed. */
  function TunnelApply(tp: TunnelPlan, dest: Option<Destinations>, s: State): State {
    var others, rules := Others(s, dest), Rules(s, dest);
    var routes := Beside(tp, others);
    State(routes, RulesBeside(tp, rules), YieldedTo(tp, others, rules, routes))
  }

  // ---------- routes are conserved ----------

  /** The route keys installed or recorded, the tunnels' own aside. */
  function Total(s: State): set<Route> {
    Keys(NotTunnels(s.owned)) + Keys(s.record.routes)
  }

  ghost predicate RecordInv(s: State) {
    forall m :: m in s.record.routes ==> !m.origin.OfTunnel?
  }

  lemma {:induction false} NotTunnelsMembers(rs: seq<Managed>, m: Managed)
    ensures m in NotTunnels(rs) <==> m in rs && !m.origin.OfTunnel?
  {
    if rs != [] {
      NotTunnelsMembers(rs[..|rs| - 1], m);
      assert rs == rs[..|rs| - 1] + [rs[|rs| - 1]];
    }
  }

  lemma {:induction false} YieldedRoutesMembers(routes: seq<Managed>, placed: seq<Managed>, m: Managed)
    ensures m in YieldedRoutes(routes, placed) <==> m in routes && m.route !in Keys(placed) && m.origin != NoProfile
  {
    if routes != [] {
      YieldedRoutesMembers(routes[..|routes| - 1], placed, m);
      assert routes == routes[..|routes| - 1] + [routes[|routes| - 1]];
    }
  }

  lemma {:induction false} OthersHaveNoTunnel(s: State, dest: Option<Destinations>)
    requires RecordInv(s)
    ensures forall m :: m in Others(s, dest) ==> !m.origin.OfTunnel?
    ensures Keys(Others(s, dest)) == Keys(NotTunnels(s.owned)) + Keys(StillWanted(dest, s.record).routes)
  {
    var y := StillWanted(dest, s.record);
    AddRoutesKeys(NotTunnels(s.owned), y.routes);
    forall m | m in Others(s, dest)
      ensures !m.origin.OfTunnel?
    {
      NotTunnelsMembers(s.owned, m);
      if m in y.routes && dest.Some? {
        WantedRoutesMembers(dest.value, s.record.routes, m);
      }
    }
  }

  /** No route that yields has the key of one of the plan's routes (a pin of its own
      address), and each that yields has a profile. */
  ghost predicate NoLoss(tp: TunnelPlan, others: seq<Managed>) {
    forall m :: m in others && Yields(m, tp.nets) ==>
                m.route !in Keys(tp.routes) && exists o :: o in others && o.route == m.route && o.origin != NoProfile
  }

  /** Keys after the placing: what does not yield, installed; what yields, recorded, but
      for what the record misses. */
  lemma {:induction false} KeysAfter(w: Network, others: seq<Managed>, k: Route)
    requires forall m :: m in others ==> !m.origin.OfTunnel?
    ensures var tp := Plan(w);
            var routes := Beside(tp, others);
            k in Keys(NotTunnels(routes)) + Keys(YieldedRoutes(others, routes)) <==>
            exists m :: m in others && m.route == k &&
                        (!Yields(m, tp.nets) || (k !in Keys(tp.routes) && m.origin != NoProfile))
  {
    var tp := Plan(w);
    var routes := Beside(tp, others);
    var base := Unyielded(others, tp.nets);
    UnyieldedMembers(others, tp.nets);
    PlaceMembers(base, tp.routes);
    PlanRoutesDistinct(w);
    InstalledAfter(w, others, k);
    if k in Keys(YieldedRoutes(others, routes)) {
      var m :| m in YieldedRoutes(others, routes) && m.route == k;
      YieldedRoutesMembers(others, routes, m);
      assert m in others && m.route !in Keys(routes);
      if Yields(m, tp.nets) && k in Keys(tp.routes) {
        PlannedYield(w, others, m);
      }
    }
    forall m | m in others && m.route == k && Yields(m, tp.nets) && k !in Keys(tp.routes) && m.origin != NoProfile
      ensures k in Keys(YieldedRoutes(others, routes))
    {
      assert k !in Keys(routes) by {
        forall x | x in routes
          ensures x.route != k
        {
          if x in base { assert !Yields(x, tp.nets); }
        }
      }
      YieldedRoutesMembers(others, routes, m);
    }
  }

  lemma {:induction false} InstalledAfter(w: Network, others: seq<Managed>, k: Route)
    requires forall m :: m in others ==> !m.origin.OfTunnel?
    ensures k in Keys(NotTunnels(Beside(Plan(w), others))) <==>
            exists m :: m in others && m.route == k && !Yields(m, Plan(w).nets)
  {
    var tp := Plan(w);
    var routes := Beside(tp, others);
    var base := Unyielded(others, tp.nets);
    UnyieldedMembers(others, tp.nets);
    PlaceMembers(base, tp.routes);
    PlanRoutesDistinct(w);
    if k in Keys(NotTunnels(routes)) {
      var m :| m in NotTunnels(routes) && m.route == k;
      NotTunnelsMembers(routes, m);
      assert m in base;
    }
    if exists m :: m in others && m.route == k && !Yields(m, tp.nets) {
      assert k in Keys(base);
      var m :| m in base && m.route == k;
      NotTunnelsMembers(routes, m);
    }
  }

  /** A route that yields and shares its key with a plan route is taken for installed. */
  lemma {:induction false} PlannedYield(w: Network, others: seq<Managed>, m: Managed)
    requires m in others && Yields(m, Plan(w).nets) && m.route in Keys(Plan(w).routes)
    ensures m.route in Keys(Beside(Plan(w), others))
  {
    var tp := Plan(w);
    var x :| x in tp.routes && x.route == m.route;
    var n :| n in tp.nets && Contains(n, m.route.dst);
    BesideBeneath(w, others);
    InNetwork(w, Unyielded(others, tp.nets), Beside(tp, others), n, x);
  }

  /** A tunnel apply conserves the route keys exactly when nothing that yields is lost. */
  lemma {:induction false} RoutesConservedIff(w: Network, s: State)
    requires RecordInv(s)
    ensures RecordInv(TunnelApply(Plan(w), None, s))
    ensures Total(TunnelApply(Plan(w), None, s)) == Total(s) <==> NoLoss(Plan(w), Others(s, None))
  {
    var tp, others := Plan(w), Others(s, None);
    var after := TunnelApply(tp, None, s);
    OthersHaveNoTunnel(s, None);
    assert Keys(others) == Total(s);
    forall k
      ensures k in Total(after) <==>
              exists m :: m in others && m.route == k && (!Yields(m, tp.nets) || (k !in Keys(tp.routes) && m.origin != NoProfile))
    {
      KeysAfter(w, others, k);
    }
    if NoLoss(tp, others) {
      forall k
        ensures k in Total(after) <==> k in Total(s)
      {
        if k in Keys(others) {
          var m :| m in others && m.route == k;
          if Yields(m, tp.nets) {
            var o :| o in others && o.route == m.route && o.origin != NoProfile;
          }
        }
      }
    }
    if Total(after) == Total(s) {
      forall m | m in others && Yields(m, tp.nets)
        ensures m.route !in Keys(tp.routes) && exists o :: o in others && o.route == m.route && o.origin != NoProfile
      {
        assert m.route in Keys(others);
        var o :| o in others && o.route == m.route && (!Yields(o, tp.nets) || (m.route !in Keys(tp.routes) && o.origin != NoProfile));
        assert Yields(o, tp.nets);
      }
    }
    forall m | m in after.record.routes
      ensures !m.origin.OfTunnel?
    {
      YieldedRoutesMembers(others, after.owned, m);
    }
  }

  /** A run of tunnel applies, each on the network of its time. */
  function Run(ws: seq<Network>, s: State): State {
    if ws == [] then s else TunnelApply(Plan(ws[|ws| - 1]), None, Run(ws[..|ws| - 1], s))
  }

  /** Every route is some profile's or tunnel's, and a recorded one a profile's. */
  ghost predicate AllProfiled(s: State) {
    && (forall m :: m in s.owned ==> m.origin != NoProfile)
    && (forall m :: m in s.record.routes ==> m.origin.OfProfile?)
  }

  /** None of the keys that yields to the plan's networks is a key of the plan: no pin of
      an address is what a profile routes there. */
  ghost predicate ClearOfPins(w: Network, keys: set<Route>) {
    forall k :: k in keys && KeyYields(k, Plan(w).nets) ==> k !in Keys(Plan(w).routes)
  }

  predicate KeyYields(k: Route, nets: seq<Prefix>) {
    k.table == MAIN && exists n :: n in nets && Contains(n, k.dst)
  }

  lemma {:induction false} OthersProfiled(s: State)
    requires AllProfiled(s)
    ensures RecordInv(s) && Keys(Others(s, None)) == Total(s)
    ensures forall m :: m in Others(s, None) ==> m.origin.OfProfile?
  {
    OthersHaveNoTunnel(s, None);
    AddRoutesKeys(NotTunnels(s.owned), s.record.routes);
    forall m | m in Others(s, None)
      ensures m.origin.OfProfile?
    {
      NotTunnelsMembers(s.owned, m);
    }
  }

  /** One apply: no key appears, and none is lost exactly when none that yields is a pin's. */
  lemma {:induction false} ProfiledStep(w: Network, s: State)
    requires AllProfiled(s)
    ensures AllProfiled(TunnelApply(Plan(w), None, s))
    ensures Total(TunnelApply(Plan(w), None, s)) <= Total(s)
    ensures Total(TunnelApply(Plan(w), None, s)) == Total(s) <==> ClearOfPins(w, Total(s))
  {
    var tp, others := Plan(w), Others(s, None);
    var after := TunnelApply(tp, None, s);
    OthersProfiled(s);
    RoutesConservedIff(w, s);
    ProfilesStay(w, s);
    forall k | k in Total(after)
      ensures k in Total(s)
    {
      KeysAfter(w, others, k);
    }
    hide Plan, Others, TunnelApply, Total;
    assert NoLoss(tp, others) <==> ClearOfPins(w, Keys(others));
  }

  lemma {:induction false} ProfilesStay(w: Network, s: State)
    requires AllProfiled(s)
    ensures AllProfiled(TunnelApply(Plan(w), None, s))
  {
    var tp, others := Plan(w), Others(s, None);
    var after := TunnelApply(tp, None, s);
    OthersProfiled(s);
    UnyieldedMembers(others, tp.nets);
    PlaceMembers(Unyielded(others, tp.nets), tp.routes);
    PlanRoutesDistinct(w);
    forall m | m in after.record.routes
      ensures m.origin.OfProfile?
    {
      YieldedRoutesMembers(others, after.owned, m);
    }
  }

  /** Over every run of tunnel applies, no route key appears; and what is installed and
      recorded are together what they were, if and only if none of the keys at the start
      is, while it yields to one of the plans, a key of that plan. */
  lemma {:induction false} RoutesConserved(ws: seq<Network>, s: State)
    requires AllProfiled(s)
    ensures AllProfiled(Run(ws, s)) && Total(Run(ws, s)) <= Total(s)
    ensures Total(Run(ws, s)) == Total(s) <==> forall w :: w in ws ==> ClearOfPins(w, Total(s))
  {
    hide TunnelApply, Plan, Total, ClearOfPins, AllProfiled;
    if ws != [] {
      var k := |ws| - 1;
      var mid := Run(ws[..k], s);
      RoutesConserved(ws[..k], s);
      ProfiledStep(ws[k], mid);
      assert Run(ws, s) == TunnelApply(Plan(ws[k]), None, mid);
      hide Run;
      assert ws == ws[..k] + [ws[k]];
      assert forall w :: w in ws <==> w in ws[..k] || w == ws[k];
    }
  }

  /** With no network left everything is installed and nothing recorded. */
  lemma {:induction false} AllInstalled(w: Network, s: State)
    requires AllProfiled(s) && Plan(w).nets == []
    ensures Keys(NotTunnels(TunnelApply(Plan(w), None, s).owned)) == Total(s)
    ensures TunnelApply(Plan(w), None, s).record.routes == []
  {
    var others := Others(s, None);
    var after := TunnelApply(Plan(w), None, s);
    OthersProfiled(s);
    forall k
      ensures k in Keys(NotTunnels(after.owned)) <==> k in Keys(others)
    {
      InstalledAfter(w, others, k);
    }
    assert after.record.routes == [] || after.record.routes[0] in after.record.routes;
    forall m | m in others
      ensures m !in after.record.routes
    {
      YieldedRoutesMembers(others, after.owned, m);
      assert m.route in Keys(others);
      var x :| x in NotTunnels(after.owned) && x.route == m.route;
      NotTunnelsMembers(after.owned, x);
    }
    forall m { YieldedRoutesMembers(others, after.owned, m); }
  }

  /** And when the last tunnel is gone nothing is left on record, and every key is installed
      again if and only if none was a pin's while it yielded. */
  lemma {:induction false} RoutesComeBack(ws: seq<Network>, w: Network, s: State)
    requires AllProfiled(s) && Plan(w).nets == []
    ensures Run(ws + [w], s).record.routes == []
    ensures Keys(NotTunnels(Run(ws + [w], s).owned)) == Total(s) <==> forall v :: v in ws ==> ClearOfPins(v, Total(s))
  {
    RoutesConserved(ws, s);
    AllInstalled(w, Run(ws, s));
    assert (ws + [w])[..|ws|] == ws;
    assert Run(ws + [w], s) == TunnelApply(Plan(w), None, Run(ws, s));
    hide Run, TunnelApply, Plan, Total, ClearOfPins, AllProfiled;
  }

  // ---------- rules are conserved ----------

  /** Rules sent to a target by what is installed or recorded. */
  ghost predicate SendsInAll(s: State, t: Target, a: Addr) {
    Sends(s.rules, t, a) || Sends(RecordedRules(s.record.rules), t, a)
  }

  /** Each piece is part of the rule it was cut from. */
  ghost predicate PartOf(q: Rule, p: Rule) {
    if q.selector.Other? then p == q
    else p.selector.To? && p.target == q.target && Contains(q.selector.net, p.selector.net)
  }

  ghost predicate PiecesInv(ys: seq<YieldedRule>) {
    forall y, m :: y in ys && m in y.pieces ==> PartOf(y.rule.rule, m.rule)
  }

  lemma {:induction false} SendsByKey(rs: seq<ManagedRule>, t: Target, a: Addr)
    ensures Sends(rs, t, a) <==> exists r :: r in RuleKeys(rs) && Selects(r, t, a)
  {
    if Sends(rs, t, a) {
      var m :| m in rs && Selects(m.rule, t, a);
      assert m.rule in RuleKeys(rs);
    }
    if exists r :: r in RuleKeys(rs) && Selects(r, t, a) {
      var r :| r in RuleKeys(rs) && Selects(r, t, a);
      var m :| m in rs && m.rule == r;
    }
  }

  lemma {:induction false} WithoutPiecesKeys(rules: seq<ManagedRule>, pieces: set<Rule>)
    ensures RuleKeys(WithoutPieces(rules, pieces)) == RuleKeys(rules) - pieces
  {
    if rules != [] {
      var k := |rules| - 1;
      WithoutPiecesKeys(rules[..k], pieces);
      assert rules == rules[..k] + [rules[k]];
      RuleKeysConcat(rules[..k], [rules[k]]);
      RuleKeysConcat(WithoutPieces(rules[..k], pieces), [rules[k]]);
    }
  }

  lemma {:induction false} RecordedMembers(ys: seq<YieldedRule>)
    ensures forall y :: y in ys ==> y.rule in RecordedRules(ys)
    ensures forall m :: m in RecordedRules(ys) ==> exists y :: y in ys && y.rule == m
  {
    if ys != [] {
      var k := |ys| - 1;
      RecordedMembers(ys[..k]);
      assert ys == ys[..k] + [ys[k]];
      forall m | m in RecordedRules(ys)
        ensures exists y :: y in ys && y.rule == m
      {
        if m in RecordedRules(ys[..k]) {
          var y :| y in ys[..k] && y.rule == m;
          assert y in ys;
        } else {
          assert ys[k] in ys;
        }
      }
    }
  }

  /** Putting back: the rules then send exactly what rules and record sent. */
  lemma {:induction false} PutBackSends(y: Record, rules: seq<ManagedRule>, t: Target, a: Addr)
    requires PiecesInv(y.rules)
    ensures Sends(PutBackRules(y, rules), t, a) <==> Sends(rules, t, a) || Sends(RecordedRules(y.rules), t, a)
  {
    var pieces := PieceKeys(y.rules);
    var recorded := RecordedRules(y.rules);
    if y.rules != [] {
      WithoutPiecesKeys(rules, pieces);
      AddRulesKeys(WithoutPieces(rules, pieces), recorded);
      SendsByKey(PutBackRules(y, rules), t, a);
      SendsByKey(rules, t, a);
      SendsByKey(recorded, t, a);
      RecordedMembers(y.rules);
      forall r | r in RuleKeys(rules) && r in pieces && Selects(r, t, a)
        ensures Sends(recorded, t, a)
      {
        var yr, m :| yr in y.rules && m in yr.pieces && m.rule == r;
        assert PartOf(yr.rule.rule, r);
        ContainsTransitive(yr.rule.rule.selector.net, r.selector.net, a);
        assert yr.rule in recorded;
      }
    }
  }

  lemma {:induction false} CutSends(tp: TunnelPlan, rules: seq<ManagedRule>, t: Target, a: Addr)
    ensures Sends(RulesBeside(tp, rules), t, a) <==> Sends(rules, t, a) && !Covers(tp.nets, a)
  {
    if tp.nets != [] {
      SendsByKey(CutRules(rules, tp.nets), t, a);
      SendsByKey(rules, t, a);
      if Sends(CutRules(rules, tp.nets), t, a) {
        var r :| r in RuleKeys(CutRules(rules, tp.nets)) && Selects(r, t, a);
        CutRulesKeys(rules, tp.nets, r);
        var q :| q in RuleKeys(rules) && PieceOf(q, tp.nets, r);
        assert Covers(SubtractNets(q.selector.net, tp.nets), a);
        PiecesCover(q.selector.net, tp.nets, a);
        assert Selects(q, t, a);
      }
      if Sends(rules, t, a) && !Covers(tp.nets, a) {
        var q :| q in RuleKeys(rules) && Selects(q, t, a);
        PiecesCover(q.selector.net, tp.nets, a);
        var p :| p in SubtractNets(q.selector.net, tp.nets) && Contains(p, a);
        var r := q.(selector := To(p));
        assert PieceOf(q, tp.nets, r);
        CutRulesKeys(rules, tp.nets, r);
      }
    }
  }

  lemma {:induction false} YieldedRulesMembers(tp: TunnelPlan, rules: seq<ManagedRule>)
    ensures forall r :: r in rules && !Uncut(tp, r) ==> YieldedRule(r, RulesBeside(tp, [r])) in YieldedRules(tp, rules)
    ensures forall y :: y in YieldedRules(tp, rules) ==> y.rule in rules && y.pieces == RulesBeside(tp, [y.rule])
  {
    if rules != [] {
      YieldedRulesMembers(tp, rules[..|rules| - 1]);
      assert rules == rules[..|rules| - 1] + [rules[|rules| - 1]];
    }
  }

  lemma {:induction false} WholeIff(p: Prefix, nets: seq<Prefix>)
    ensures p in SubtractNets(p, nets) <==> forall n :: n in nets ==> !Nested(p, n)
  {
    MeetsMeans(p, nets);
    if Meets(p, nets).Split? {
      PiecesInside(Half(p, false), nets);
      PiecesInside(Half(p, true), nets);
    }
  }

  /** A rule that meets none of the networks stays as it is. */
  lemma {:induction false} StaysWhole(nets: seq<Prefix>, r: ManagedRule)
    requires r.rule.selector.To? ==> forall n :: n in nets ==> !Nested(r.rule.selector.net, n)
    ensures CutRules([r], nets) == [r]
  {
    assert [r][..0] == [];
    assert CutRules([r], nets) == AddRules([], Pieces(r, nets));
    if r.rule.selector.To? {
      MeetsMeans(r.rule.selector.net, nets);
      UncutPiece(r, r.rule.selector.net);
    }
    assert Pieces(r, nets) == [r];
    OneAdded(r);
  }

  /** One that meets one does not. */
  lemma {:induction false} NotWhole(nets: seq<Prefix>, r: ManagedRule)
    requires r.rule.selector.To? && exists n :: n in nets && Nested(r.rule.selector.net, n)
    ensures r.rule !in RuleKeys(CutRules([r], nets))
  {
    assert RuleKeys([r]) == {r.rule};
    CutRulesKeys([r], nets, r.rule);
    WholeIff(r.rule.selector.net, nets);
  }

  lemma {:induction false} UncutIff(tp: TunnelPlan, r: ManagedRule)
    ensures Uncut(tp, r) <==> !(r.rule.selector.To? && exists n :: n in tp.nets && Nested(r.rule.selector.net, n))
  {
    hide CutRules;
    if r.rule.selector.To? && exists n :: n in tp.nets && Nested(r.rule.selector.net, n) {
      NotWhole(tp.nets, r);
    } else {
      StaysWhole(tp.nets, r);
    }
  }

  lemma {:induction false} OneAdded(r: ManagedRule)
    ensures AddRules([], [r]) == [r]
  {
    assert [r][..0] == [];
    assert AddRules([], []) == [];
  }

  /** A rule is recorded exactly if one of the networks takes something of what it selects. */
  lemma {:induction false} RuleRecordedIff(tp: TunnelPlan, rules: seq<ManagedRule>, r: ManagedRule)
    requires r in rules
    ensures (exists y :: y in YieldedRules(tp, rules) && y.rule == r) <==>
            r.rule.selector.To? && exists n :: n in tp.nets && Nested(r.rule.selector.net, n)
  {
    YieldedRulesMembers(tp, rules);
    RecordedAreCut(tp, rules);
    UncutIff(tp, r);
    hide Uncut, YieldedRules, RulesBeside;
    if !Uncut(tp, r) { assert YieldedRule(r, RulesBeside(tp, [r])).rule == r; }
  }

  lemma {:induction false} RecordedAreCut(tp: TunnelPlan, rules: seq<ManagedRule>)
    ensures forall y :: y in YieldedRules(tp, rules) ==> !Uncut(tp, y.rule)
  {
    hide Uncut;
    if rules != [] { RecordedAreCut(tp, rules[..|rules| - 1]); }
  }

  lemma {:induction false} PartsOfRule(tp: TunnelPlan, r: ManagedRule, m: ManagedRule)
    requires m in RulesBeside(tp, [r])
    ensures PartOf(r.rule, m.rule)
  {
    if tp.nets != [] {
      assert m.rule in RuleKeys(CutRules([r], tp.nets));
      CutRulesKeys([r], tp.nets, m.rule);
      assert RuleKeys([r]) == {r.rule};
      if r.rule.selector.To? {
        PiecesInside(r.rule.selector.net, tp.nets);
      }
    }
  }

  /** An uncut rule is still there. */
  lemma {:induction false} UncutStays(tp: TunnelPlan, rules: seq<ManagedRule>, r: ManagedRule)
    requires r in rules && Uncut(tp, r)
    ensures r.rule in RuleKeys(RulesBeside(tp, rules))
  {
    assert r.rule in RuleKeys(rules);
    if tp.nets != [] {
      var parts := CutRules([r], tp.nets);
      assert parts[0] in parts && parts[0].rule in RuleKeys(parts);
      CutRulesKeys([r], tp.nets, r.rule);
      assert RuleKeys([r]) == {r.rule};
      CutRulesKeys(rules, tp.nets, r.rule);
    }
  }

  /** A tunnel apply leaves what is sent where unchanged, counting the record; what is
      installed sends that less the tunnels' networks. */
  lemma {:induction false} RulesConservedStep(tp: TunnelPlan, s: State, t: Target, a: Addr)
    requires PiecesInv(s.record.rules)
    ensures PiecesInv(TunnelApply(tp, None, s).record.rules)
    ensures SendsInAll(TunnelApply(tp, None, s), t, a) <==> SendsInAll(s, t, a)
    ensures Sends(TunnelApply(tp, None, s).rules, t, a) <==> SendsInAll(s, t, a) && !Covers(tp.nets, a)
  {
    var rules := Rules(s, None);
    var after := TunnelApply(tp, None, s);
    PutBackSends(s.record, s.rules, t, a);
    CutSends(tp, rules, t, a);
    YieldedRulesMembers(tp, rules);
    RecordedMembers(after.record.rules);
    forall y, m | y in after.record.rules && m in y.pieces
      ensures PartOf(y.rule.rule, m.rule)
    {
      PartsOfRule(tp, y.rule, m);
    }
    if Sends(rules, t, a) {
      var m :| m in rules && Selects(m.rule, t, a);
      if Uncut(tp, m) {
        UncutStays(tp, rules, m);
        SendsByKey(after.rules, t, a);
      } else {
        assert m in RecordedRules(after.record.rules);
      }
    }
    if Sends(RecordedRules(after.record.rules), t, a) {
      var m :| m in RecordedRules(after.record.rules) && Selects(m.rule, t, a);
    }
  }

  lemma {:induction false} PiecesStay(ws: seq<Network>, s: State)
    requires PiecesInv(s.record.rules)
    ensures PiecesInv(Run(ws, s).record.rules)
  {
    if ws != [] {
      PiecesStay(ws[..|ws| - 1], s);
      var w := ws[|ws| - 1];
      var t: Target := Target(0, "", V4, "", None);
      RulesConservedStep(Plan(w), Run(ws[..|ws| - 1], s), t, First(Root(V4)));
    }
  }

  /** Over every run of tunnel applies, installed and recorded rules together send every
      address exactly where they did. */
  lemma {:induction false} RulesConserved(ws: seq<Network>, s: State, t: Target, a: Addr)
    requires PiecesInv(s.record.rules)
    ensures SendsInAll(Run(ws, s), t, a) <==> SendsInAll(s, t, a)
  {
    if ws != [] {
      RulesConserved(ws[..|ws| - 1], s, t, a);
      PiecesStay(ws[..|ws| - 1], s);
      RulesConservedStep(Plan(ws[|ws| - 1]), Run(ws[..|ws| - 1], s), t, a);
    }
  }

  /** After any run, what is installed sends what the rules sent at the start, less the
      networks of the tunnels live now — all of it again once there are none. */
  lemma {:induction false} RulesAfterRun(ws: seq<Network>, w: Network, s: State, t: Target, a: Addr)
    requires PiecesInv(s.record.rules)
    ensures Sends(Run(ws + [w], s).rules, t, a) <==> SendsInAll(s, t, a) && !Covers(Plan(w).nets, a)
  {
    assert (ws + [w])[..|ws|] == ws;
    RulesConserved(ws, s, t, a);
    PiecesStay(ws, s);
    RulesConservedStep(Plan(w), Run(ws, s), t, a);
  }

  // ---------- starting from a full apply ----------

  /** DesiredForApply: the desired set, and the record of what the profiles' set without
      tunnels gives up to it. */
  function FullApply(d: DesiredInput): State
    requires BuildDesired(d).Built? && BuildDesired(Bare(d)).Built?
  {
    var o, bare := BuildDesired(d), BuildDesired(Bare(d));
    State(o.routes, o.rules, YieldedTo(Plan(d.net), bare.routes, bare.rules, o.routes))
  }

  /** A full apply's record starts every run of tunnel applies right: installed and
      recorded rules send exactly what the profiles send without tunnels, and every route
      the profiles have without tunnels is installed or recorded. */
  lemma {:induction false} FullApplyRecords(d: DesiredInput)
    requires BuildDesired(d).Built? && BuildDesired(Bare(d)).Built?
    ensures PiecesInv(FullApply(d).record.rules)
    ensures forall t, a: Addr :: SendsInAll(FullApply(d), t, a) <==> Sends(BuildDesired(Bare(d)).rules, t, a)
    ensures forall m :: m in BuildDesired(Bare(d)).routes && m.route !in Keys(BuildDesired(d).routes) && m.origin != NoProfile ==>
                        m in FullApply(d).record.routes
  {
    var tp, s := Plan(d.net), FullApply(d);
    var bare := BuildDesired(Bare(d));
    YieldedRulesMembers(tp, bare.rules);
    RecordedMembers(s.record.rules);
    RulesBesideAsBuilt(d);
    forall y, m | y in s.record.rules && m in y.pieces
      ensures PartOf(y.rule.rule, m.rule)
    {
      PartsOfRule(tp, y.rule, m);
    }
    forall t, a: Addr
      ensures SendsInAll(s, t, a) <==> Sends(bare.rules, t, a)
    {
      SendsByKey(s.rules, t, a);
      SendsByKey(RulesBeside(tp, bare.rules), t, a);
      CutSends(tp, bare.rules, t, a);
      if Sends(bare.rules, t, a) {
        var m :| m in bare.rules && Selects(m.rule, t, a);
        if Uncut(tp, m) {
          UncutStays(tp, bare.rules, m);
        } else {
          assert m in RecordedRules(s.record.rules);
        }
      }
    }
    forall m | m in bare.routes && m.route !in Keys(BuildDesired(d).routes) && m.origin != NoProfile
      ensures m in s.record.routes
    {
      YieldedRoutesMembers(bare.routes, BuildDesired(d).routes, m);
    }
  }
}
