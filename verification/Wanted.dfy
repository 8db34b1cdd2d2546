/** Whether a yielded item is still wanted (internal/core/yielded.go) is asked before each
tunnel apply. While the profiles stay as they are the answer is always yes, so runs that
can read the profiles do what runs that cannot do.
 */
module Wanting {
  import opened Prefixes
  import opened Aggregation
  import opened Subtraction
  import opened Routes
  import opened Planner
  import opened PlannerSafety
  import opened Desired
  import opened Incremental
  import opened Yielded

  /** Everything installed or recorded, the tunnels' own routes aside, is wanted. */
  ghost predicate AllWanted(d: Destinations, s: State) {
    && (forall m :: m in s.owned && !m.origin.OfTunnel? ==> HoldsRoute(d, m))
    && (forall m :: m in s.record.routes ==> HoldsRoute(d, m))
    && (forall r :: r in s.rules ==> HoldsRule(d, r))
    && (forall y :: y in s.record.rules ==> HoldsRule(d, y.rule))
  }

  lemma {:induction false} AllRoutesWanted(d: Destinations, rs: seq<Managed>)
    requires forall m :: m in rs ==> HoldsRoute(d, m)
    ensures WantedRoutes(d, rs) == rs
  {
    if rs != [] {
      AllRoutesWanted(d, rs[..|rs| - 1]);
      assert rs == rs[..|rs| - 1] + [rs[|rs| - 1]];
    }
  }

  lemma {:induction false} AllRulesWanted(d: Destinations, ys: seq<YieldedRule>)
    requires forall y :: y in ys ==> HoldsRule(d, y.rule)
    ensures WantedRules(d, ys) == ys
  {
    if ys != [] {
      AllRulesWanted(d, ys[..|ys| - 1]);
      assert ys == ys[..|ys| - 1] + [ys[|ys| - 1]];
    }
  }

  /** A rule cut from r: the same, or to a part of its destination. */
  ghost predicate CutOf(r: ManagedRule, m: ManagedRule) {
    || m == r
    || (&& r.rule.selector.To? && m.rule.selector.To? && Contains(r.rule.selector.net, m.rule.selector.net)
        && m.rule.target == r.rule.target && m.origin == r.origin)
  }

  lemma {:induction false} CutRuleMembers(r: ManagedRule, parts: seq<Prefix>, m: ManagedRule)
    requires r.rule.selector.To? && m in CutRule(r, parts) && forall q :: q in parts ==> Contains(r.rule.selector.net, q)
    ensures CutOf(r, m)
  {
    var k := |parts| - 1;
    assert parts == parts[..k] + [parts[k]];
    if m in CutRule(r, parts[..k]) { CutRuleMembers(r, parts[..k], m); }
  }

  lemma {:induction false} CutRulesMembers(rules: seq<ManagedRule>, nets: seq<Prefix>, m: ManagedRule)
    requires m in CutRules(rules, nets)
    ensures exists r :: r in rules && CutOf(r, m)
  {
    hide SubtractNets, AddRules, RuleKeys;
    var k := |rules| - 1;
    var r := rules[k];
    assert rules == rules[..k] + [r];
    AddRulesKeys(CutRules(rules[..k], nets), Pieces(r, nets));
    if m in CutRules(rules[..k], nets) {
      CutRulesMembers(rules[..k], nets, m);
    } else if r.rule.selector.To? {
      PiecesInside(r.rule.selector.net, nets);
      CutRuleMembers(r, SubtractNets(r.rule.selector.net, nets), m);
    } else {
      assert CutOf(r, m);
    }
  }

  lemma {:induction false} CutStaysWanted(d: Destinations, tp: TunnelPlan, rules: seq<ManagedRule>)
    requires forall r :: r in rules ==> HoldsRule(d, r)
    ensures forall m :: m in RulesBeside(tp, rules) ==> HoldsRule(d, m)
  {
    if tp.nets != [] {
      forall m | m in CutRules(rules, tp.nets)
        ensures HoldsRule(d, m)
      {
        CutRulesMembers(rules, tp.nets, m);
        var r :| r in rules && CutOf(r, m);
        if m != r && exists q :: q in d.included && Contains(q, r.rule.selector.net) {
          var q :| q in d.included && Contains(q, r.rule.selector.net);
          ContainsTransitive(q, r.rule.selector.net, m.rule.selector.net);
        }
      }
    }
  }

  lemma {:induction false} WithoutPiecesMembers(rules: seq<ManagedRule>, pieces: set<Rule>)
    ensures forall m :: m in WithoutPieces(rules, pieces) ==> m in rules
  {
    if rules != [] {
      WithoutPiecesMembers(rules[..|rules| - 1], pieces);
    }
  }

  lemma {:induction false} RulesStayWanted(d: Destinations, s: State)
    requires AllWanted(d, s)
    ensures forall r :: r in Rules(s, None) ==> HoldsRule(d, r)
  {
    if s.record.rules != [] {
      var pieces := PieceKeys(s.record.rules);
      WithoutPiecesMembers(s.rules, pieces);
      RecordedMembers(s.record.rules);
      AddRulesKeys(WithoutPieces(s.rules, pieces), RecordedRules(s.record.rules));
    }
  }

  lemma {:induction false} RoutesStayWanted(d: Destinations, s: State)
    requires AllWanted(d, s)
    ensures forall m :: m in Others(s, None) ==> HoldsRoute(d, m)
  {
    AddRoutesKeys(NotTunnels(s.owned), s.record.routes);
    forall m | m in NotTunnels(s.owned)
      ensures HoldsRoute(d, m)
    {
      NotTunnelsMembers(s.owned, m);
    }
  }

  /** One apply: asking changes nothing, and everything stays wanted. */
  lemma {:induction false} WantedStays(d: Destinations, w: Network, s: State)
    requires AllWanted(d, s)
    ensures TunnelApply(Plan(w), Some(d), s) == TunnelApply(Plan(w), None, s)
    ensures AllWanted(d, TunnelApply(Plan(w), None, s))
  {
    var tp, after := Plan(w), TunnelApply(Plan(w), None, s);
    var others, rules := Others(s, None), Rules(s, None);
    AllRoutesWanted(d, s.record.routes);
    AllRulesWanted(d, s.record.rules);
    RoutesStayWanted(d, s);
    RulesStayWanted(d, s);
    CutStaysWanted(d, tp, rules);
    YieldedRulesMembers(tp, rules);
    UnyieldedMembers(others, tp.nets);
    PlaceMembers(Unyielded(others, tp.nets), tp.routes);
    PlanRoutesDistinct(w);
    hide Plan, HoldsRoute, HoldsRule, Others, Rules, Unyielded, Place, RulesBeside, YieldedRules, YieldedRoutes;
    forall m | m in after.record.routes
      ensures HoldsRoute(d, m)
    {
      YieldedRoutesMembers(others, after.owned, m);
    }
  }

  function RunReading(ws: seq<Network>, d: Destinations, s: State): State {
    if ws == [] then s else TunnelApply(Plan(ws[|ws| - 1]), Some(d), RunReading(ws[..|ws| - 1], d, s))
  }

  /** Every run that reads unchanged profiles is the run that never asks: what is proved of
      the one, conservation included, holds of the other. */
  lemma {:induction false} ReadingChangesNothing(ws: seq<Network>, d: Destinations, s: State)
    requires AllWanted(d, s)
    ensures RunReading(ws, d, s) == Run(ws, s) && AllWanted(d, Run(ws, s))
  {
    hide AllWanted, TunnelApply, Plan;
    if ws != [] {
      ReadingChangesNothing(ws[..|ws| - 1], d, s);
      WantedStays(d, ws[|ws| - 1], Run(ws[..|ws| - 1], s));
    }
  }

  // ---------- from a full apply on ----------

  lemma {:induction false} BuiltRouteWanted(d: DesiredInput, unsure: set<(string, Family)>, m: Managed)
    requires BuildDesired(d).Built? && m in BuildDesired(d).routes && !m.origin.OfTunnel?
    ensures HoldsRoute(ProfileDestinations(d.profiles, unsure), m)
  {
    var tp, ps := Plan(d.net), SortProfiles(d.profiles);
    var o := BuildProfiles(d, tp.nets, ps);
    BuiltFrom(d);
    PlanRoutesDistinct(d.net);
    PlaceMembers(o.routes, tp.routes);
    SortProfilesMembers(d.profiles);
    hide Plan, BuildProfiles, BuildDesired, Place, SortProfiles, Defaults, ProfileDestinations;
    if m in o.routes {
      assert m.route in Keys(o.routes);
      ProfileRoutes(d, tp.nets, ps, m.route);
      assert ExcludeRoute(d, d.profiles, tp.nets, m.route);
      OwnRouteWanted(d, tp.nets, unsure, m);
    }
  }

  lemma {:induction false} BuiltRuleWanted(d: DesiredInput, unsure: set<(string, Family)>, m: ManagedRule)
    requires BuildDesired(d).Built? && m in BuildDesired(d).rules
    ensures HoldsRule(ProfileDestinations(d.profiles, unsure), m)
  {
    var tp, ps := Plan(d.net), SortProfiles(d.profiles);
    var o := BuildProfiles(d, tp.nets, ps);
    BuiltFrom(d);
    SortProfilesMembers(d.profiles);
    hide Plan, BuildProfiles, BuildDesired, Place, SortProfiles, Defaults, ProfileDestinations;
    assert m.rule in RuleKeys(o.rules);
    ProfileRules(d, tp.nets, ps, m.rule);
    assert IncludeRule(d, d.profiles, tp.nets, m.rule);
    OwnRuleWanted(d, tp.nets, unsure, m);
  }

  /** So runs that follow a full apply of the same profiles never drop anything it
      installed or recorded. */
  lemma {:induction false} FullApplyWanted(d: DesiredInput, unsure: set<(string, Family)>)
    requires BuildDesired(d).Built? && BuildDesired(Bare(d)).Built?
    ensures AllWanted(ProfileDestinations(d.profiles, unsure), FullApply(d))
  {
    var s, bare, tp := FullApply(d), BuildDesired(Bare(d)), Plan(d.net);
    var dest := ProfileDestinations(d.profiles, unsure);
    YieldedRulesMembers(tp, bare.rules);
    NoTunnelsNoPlan(Bare(d).net);
    hide Plan, BuildDesired, ProfileDestinations, HoldsRoute, HoldsRule, YieldedRules, YieldedRoutes;
    forall m | m in s.owned && !m.origin.OfTunnel? { BuiltRouteWanted(d, unsure, m); }
    forall r | r in s.rules { BuiltRuleWanted(d, unsure, r); }
    forall m | m in s.record.routes
      ensures HoldsRoute(dest, m)
    {
      YieldedRoutesMembers(bare.routes, s.owned, m);
      BareHasNoTunnel(d, m);
      BuiltRouteWanted(Bare(d), unsure, m);
    }
    forall y | y in s.record.rules
      ensures HoldsRule(dest, y.rule)
    {
      BuiltRuleWanted(Bare(d), unsure, y.rule);
    }
  }

  lemma {:induction false} BareHasNoTunnel(d: DesiredInput, m: Managed)
    requires BuildDesired(Bare(d)).Built? && m in BuildDesired(Bare(d)).routes
    ensures !m.origin.OfTunnel?
  {
    NoTunnelsNoPlan(Bare(d).net);
    BuiltFrom(Bare(d));
    var ps := SortProfiles(d.profiles);
    var o := BuildProfiles(Bare(d), [], ps);
    ProfilesProfiled(Bare(d), [], ps);
    assert Place(o.routes, []) == o.routes;
  }

  lemma {:induction false} BypassProfiled(blocks: seq<Prefix>, hop: Hop, id: string)
    ensures forall m :: m in Bypass(blocks, hop, id) ==> m.origin.OfProfile?
  {
    if blocks != [] { BypassProfiled(blocks[..|blocks| - 1], hop, id); }
  }

  lemma {:induction false} FamilyProfiled(d: DesiredInput, p: Profile, nets: seq<Prefix>, fam: Family)
    ensures forall m :: m in ExcludeFamily(d, p, nets, fam) ==> m.origin.OfProfile?
  {
    match ResolveGateway(p.gateway, fam, d.net)
    case None =>
    case Some(hop) => BypassProfiled(MaximalBlocks(Excluded(p, nets, fam)), hop, p.id);
  }

  lemma {:induction false} ProfilesProfiled(d: DesiredInput, nets: seq<Prefix>, ps: seq<Profile>)
    requires BuildProfiles(d, nets, ps).Built?
    ensures forall m :: m in BuildProfiles(d, nets, ps).routes ==> m.origin.OfProfile?
  {
    if ps != [] {
      var k := |ps| - 1;
      ProfilesProfiled(d, nets, ps[..k]);
      FamilyProfiled(d, ps[k], nets, V4);
      FamilyProfiled(d, ps[k], nets, V6);
      AddRoutesKeys(BuildProfiles(d, nets, ps[..k]).routes, ExcludeFamily(d, ps[k], nets, V4) + ExcludeFamily(d, ps[k], nets, V6));
    }
  }
}
