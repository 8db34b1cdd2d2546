/** Full applies and tunnel applies together: after a full apply and any run of tunnel
applies, what is installed leads every address where a full rebuild would
(internal/core/service.go).
 */
module Runs {
  import opened Prefixes
  import opened Aggregation
  import opened Subtraction
  import opened Routes
  import opened Planner
  import opened PlannerSafety
  import opened Desired
  import opened Incremental
  import opened Preference
  import opened Yielded
  import opened Wanting

  /** The same input on another network. */
  function On(d: DesiredInput, w: Network): DesiredInput {
    d.(net := w)
  }

  ghost predicate SameGateways(v: Network, w: Network) {
    forall fam :: AutoHop(v, fam) == AutoHop(w, fam)
  }

  // ---------- what a full apply leaves ----------

  /** Whose the built routes are, and which are the profiles'. */
  lemma {:induction false} BuiltOrigins(d: DesiredInput, m: Managed)
    requires BuildDesired(d).Built? && m in BuildDesired(d).routes
    ensures m.origin != NoProfile
    ensures !m.origin.OfTunnel? && m.route.table == MAIN ==>
              ExcludeRoute(d, SortProfiles(d.profiles), Plan(d.net).nets, m.route)
  {
    var tp, ps := Plan(d.net), SortProfiles(d.profiles);
    var o := BuildProfiles(d, tp.nets, ps);
    BuiltFrom(d);
    PlanRoutesDistinct(d.net);
    PlaceMembers(o.routes, tp.routes);
    ProfilesProfiled(d, tp.nets, ps);
    hide Plan, BuildProfiles, BuildDesired, Place, SortProfiles, ExcludeRoute;
    if m in o.routes {
      assert m.route in Keys(o.routes);
      ProfileRoutes(d, tp.nets, ps, m.route);
    }
  }

  /** What the profiles route beside the tunnels is installed as theirs. */
  lemma {:induction false} BuiltHas(d: DesiredInput, r: Route)
    requires BuildDesired(d).Built? && ExcludeRoute(d, SortProfiles(d.profiles), Plan(d.net).nets, r)
    ensures r in Keys(NotTunnels(BuildDesired(d).routes))
  {
    var tp, ps := Plan(d.net), SortProfiles(d.profiles);
    var o := BuildProfiles(d, tp.nets, ps);
    BuiltFrom(d);
    PlaceMembers(o.routes, tp.routes);
    ProfilesProfiled(d, tp.nets, ps);
    ProfileRoutes(d, tp.nets, ps, r);
    hide Plan, BuildProfiles, BuildDesired, Place, SortProfiles, ExcludeRoute;
    var m :| m in o.routes && m.route == r;
    NotTunnelsMembers(BuildDesired(d).routes, m);
  }

  lemma {:induction false} FullApplyProfiled(d: DesiredInput)
    requires BuildDesired(d).Built? && BuildDesired(Bare(d)).Built?
    ensures AllProfiled(FullApply(d))
  {
    var s, bare := FullApply(d), BuildDesired(Bare(d)).routes;
    forall m | m in s.owned { BuiltOrigins(d, m); }
    forall m | m in s.record.routes
      ensures m.origin.OfProfile?
    {
      YieldedRoutesMembers(bare, s.owned, m);
      BareHasNoTunnel(d, m);
    }
  }

  /** A host block clear of the networks stays a block when they are taken out. */
  lemma {:induction false} HostStays(d: DesiredInput, ps: seq<Profile>, nets: seq<Prefix>, r: Route)
    requires ExcludeRoute(d, ps, [], r) && IsHost(r.dst) && !KeyYields(r, nets)
    ensures ExcludeRoute(d, ps, nets, r)
  {
    var p, fam :| p in ps && IsExclude(d, p, [], fam, r);
    var s := OfFamily(p.prefixes, fam);
    NothingCut(s);
    forall n | n in nets
      ensures !Nested(r.dst, n)
    {
      if Contains(r.dst, n) { HostLike(n, r.dst); }
    }
    ClearBlockStays(s, nets, r.dst);
    assert IsExclude(d, p, nets, fam, r);
  }

  /** After a full apply the keys installed and recorded are the profiles', and every key
      they have without tunnels is among them, unless it yields and is a pin's. */
  lemma {:induction false} FullApplyTotal(d: DesiredInput, r: Route)
    requires BuildDesired(d).Built? && BuildDesired(Bare(d)).Built? && r.table == MAIN
    ensures var ps := SortProfiles(d.profiles);
            && (r in Total(FullApply(d)) ==> ExcludeRoute(d, ps, Plan(d.net).nets, r) || ExcludeRoute(d, ps, [], r))
            && (ExcludeRoute(d, ps, [], r) && ClearOfPins(d.net, {r}) ==> r in Total(FullApply(d)))
  {
    var s, bare, ps := FullApply(d), BuildDesired(Bare(d)).routes, SortProfiles(d.profiles);
    BareRoutes(d, r);
    if r in Keys(NotTunnels(s.owned)) {
      var m :| m in NotTunnels(s.owned) && m.route == r;
      NotTunnelsMembers(s.owned, m);
      BuiltOrigins(d, m);
    }
    if r in Keys(s.record.routes) {
      var m :| m in s.record.routes && m.route == r;
      YieldedRoutesMembers(bare, s.owned, m);
      assert r in Keys(bare);
    }
    if ExcludeRoute(d, ps, [], r) && ClearOfPins(d.net, {r}) {
      FullApplyKeeps(d, r);
    }
  }

  lemma {:induction false} FullApplyKeeps(d: DesiredInput, r: Route)
    requires BuildDesired(d).Built? && BuildDesired(Bare(d)).Built? && r.table == MAIN
    requires ExcludeRoute(d, SortProfiles(d.profiles), [], r) && ClearOfPins(d.net, {r})
    ensures r in Total(FullApply(d))
  {
    var s, bare := FullApply(d), BuildDesired(Bare(d)).routes;
    BareRoutes(d, r);
    var m :| m in bare && m.route == r;
    if r !in Keys(s.owned) {
      BuiltOrigins(Bare(d), m);
      YieldedRoutesMembers(bare, s.owned, m);
      assert m in s.record.routes;
    } else {
      var x :| x in s.owned && x.route == r;
      NotTunnelsMembers(s.owned, x);
      if x.origin.OfTunnel? {
        TunnelKey(d, x);
        assert !KeyYields(r, Plan(d.net).nets);
        HostStays(d, SortProfiles(d.profiles), Plan(d.net).nets, r);
        BuiltHas(d, r);
      }
    }
  }

  /** A tunnel's route with a profile's key is a pin of the plan. */
  lemma {:induction false} TunnelKey(d: DesiredInput, x: Managed)
    requires BuildDesired(d).Built? && x in BuildDesired(d).routes && x.origin.OfTunnel?
    requires ExcludeRoute(d, SortProfiles(d.profiles), [], x.route)
    ensures x.route in Keys(Plan(d.net).routes) && IsHost(x.route.dst)
  {
    hide Plan, BuildProfiles, BuildDesired, Place, SortProfiles, ExcludeRoute, Defaults;
    var tp, ps := Plan(d.net), SortProfiles(d.profiles);
    var o := BuildProfiles(d, tp.nets, ps);
    BuiltFrom(d);
    PlaceMembers(o.routes, tp.routes);
    ProfilesProfiled(d, tp.nets, ps);
    PlanRoutesDistinct(d.net);
    IsVia(d, ps, [], x.route);
    assert x in tp.routes;
  }

  lemma {:induction false} IsVia(d: DesiredInput, ps: seq<Profile>, cut: seq<Prefix>, r: Route)
    requires ExcludeRoute(d, ps, cut, r)
    ensures r.hop.Via? && r.table == MAIN
  {
    var p, fam :| p in ps && IsExclude(d, p, cut, fam, r);
  }

  // ---------- after any run ----------

  lemma {:induction false} RouteIsBypassed(d: DesiredInput, ps: seq<Profile>, cut: seq<Prefix>, r: Route, a: Addr)
    requires AllAuto(d) && (forall p :: p in ps <==> p in d.profiles) && ExcludeRoute(d, ps, cut, r) && Contains(r.dst, a)
    ensures Bypassed(d, a)
  {
    var p, fam :| p in ps && IsExclude(d, p, cut, fam, r);
    MaximalBlocksExact(Excluded(p, cut, fam));
    assert Covers(MaximalBlocks(Excluded(p, cut, fam)), a);
    var q :| q in Excluded(p, cut, fam) && Contains(q, a);
    OutsideMembers(OfFamily(p.prefixes, fam), cut, q);
    OfFamilyMembers(p.prefixes, fam, q);
  }

  /** Keys that route past the VPN exactly what the profiles list, by its gateway. */
  ghost predicate AutoKeys(d: DesiredInput, keys: set<Route>) {
    && (forall r :: r in keys && r.table == MAIN ==> AutoHop(d.net, r.dst.fam) == Some(r.hop))
    && (forall a: Addr :: Bypassed(d, a) <==> KeysReach(keys, a))
  }

  ghost predicate KeysReach(keys: set<Route>, a: Addr) {
    exists r :: r in keys && r.table == MAIN && Contains(r.dst, a)
  }

  lemma {:induction false} FullApplyAutoKeys(d: DesiredInput)
    requires AllAuto(d) && BuildDesired(d).Built? && BuildDesired(Bare(d)).Built?
    requires ClearOfPins(d.net, Keys(BuildDesired(Bare(d)).routes))
    ensures AutoKeys(d, Total(FullApply(d)))
  {
    var keys, ps, nets := Total(FullApply(d)), SortProfiles(d.profiles), Plan(d.net).nets;
    SortProfilesMembers(d.profiles);
    hide BuildDesired, Plan, SortProfiles, FullApply, Total, Bypassed, ExcludeRoute;
    forall r | r in keys && r.table == MAIN
      ensures AutoHop(d.net, r.dst.fam) == Some(r.hop)
      ensures forall a: Addr :: Contains(r.dst, a) ==> Bypassed(d, a)
    {
      FullApplyTotal(d, r);
      var cut := if ExcludeRoute(d, ps, nets, r) then nets else [];
      AutoHops(d, ps, cut, r);
      forall a: Addr | Contains(r.dst, a) { RouteIsBypassed(d, ps, cut, r, a); }
    }
    forall a: Addr | Bypassed(d, a)
      ensures KeysReach(keys, a)
    {
      BypassedIsRouted(d, ps, [], [], a);
      var r :| ExcludeRoute(d, ps, [], r) && Contains(r.dst, a);
      BareRoutes(d, r);
      IsMain(d, ps, [], r);
      assert ClearOfPins(d.net, {r});
      FullApplyTotal(d, r);
    }
  }

  lemma {:induction false} IsMain(d: DesiredInput, ps: seq<Profile>, nets: seq<Prefix>, r: Route)
    requires ExcludeRoute(d, ps, nets, r)
    ensures r.table == MAIN
  {
  }

  /** With such keys installed or recorded, a tunnel apply leads every address where a full
      rebuild on its network does. */
  lemma {:induction false} ApplyAnswers(d: DesiredInput, w: Network, s: State, a: Addr)
    requires AllProfiled(s) && AutoKeys(d, Total(s)) && SameGateways(d.net, w)
    ensures NextHop(TunnelApply(Plan(w), None, s).owned, a) == Answer(On(d, w), a)
  {
    var dw, others := On(d, w), Others(s, None);
    var base := Unyielded(others, Plan(w).nets);
    OthersProfiled(s);
    BesideBeneath(w, others);
    UnyieldedMembers(others, Plan(w).nets);
    forall m | m in base && m.route.table == MAIN
      ensures AutoHop(w, m.route.dst.fam) == Some(m.route.hop)
    {
      assert m.route in Keys(others);
    }
    forall x: Addr | !Covers(Plan(w).nets, x)
      ensures Bypassed(dw, x) <==> RoutesAddress(base, x)
    {
      assert Bypassed(dw, x) <==> Bypassed(d, x);
      ReachedByBase(others, Plan(w).nets, x);
    }
    hide Plan, Others, Beside, Unyielded, Beneath, NextHop, Answer;
    assert AutoBase(dw, Plan(w).nets, base);
    AnswerOfBase(dw, base, Beside(Plan(w), others), a);
  }

  lemma {:induction false} ReachedByBase(others: seq<Managed>, nets: seq<Prefix>, a: Addr)
    requires !Covers(nets, a)
    ensures RoutesAddress(Unyielded(others, nets), a) <==> KeysReach(Keys(others), a)
  {
    var base := Unyielded(others, nets);
    UnyieldedMembers(others, nets);
    if RoutesAddress(base, a) {
      var m :| m in base && m.route.table == MAIN && Contains(m.route.dst, a);
      assert m.route in Keys(others);
    }
    if KeysReach(Keys(others), a) {
      var r :| r in Keys(others) && r.table == MAIN && Contains(r.dst, a);
      var m :| m in others && m.route == r;
      assert !Yields(m, nets) by {
        forall n | n in nets
          ensures !Contains(n, r.dst)
        {
          if Contains(n, r.dst) { ContainsTransitive(n, r.dst, a); }
        }
      }
      var x :| x in base && x.route == r;
      assert RoutesAddress(base, a);
    }
  }

  /** After a full apply and any run of tunnel applies, what is installed leads every
      address where the full rebuild on the last network would — with automatic gateways
      that are the same there, and no yielding key a pin's on the way. */
  lemma {:induction false} RunAsRebuilt(d: DesiredInput, ws: seq<Network>, w: Network, a: Addr)
    requires AllAuto(d) && BuildDesired(d).Built? && BuildDesired(Bare(d)).Built? && BuildDesired(On(d, w)).Built?
    requires SameGateways(d.net, w)
    requires ClearOfPins(d.net, Keys(BuildDesired(Bare(d)).routes))
    requires forall v :: v in ws ==> ClearOfPins(v, Total(FullApply(d)))
    ensures NextHop(Run(ws + [w], FullApply(d)).owned, a) == NextHop(BuildDesired(On(d, w)).routes, a)
  {
    var s := FullApply(d);
    hide BuildDesired, Plan, FullApply, Total, ClearOfPins, AllProfiled, AutoKeys, NextHop, Answer, TunnelApply;
    FullApplyProfiled(d);
    FullApplyAutoKeys(d);
    RoutesConserved(ws, s);
    assert (ws + [w])[..|ws|] == ws;
    assert Run(ws + [w], s) == TunnelApply(Plan(w), None, Run(ws, s));
    ApplyAnswers(d, w, Run(ws, s), a);
    FullAnswer(On(d, w), a);
  }

  // ---------- rules after any run ----------

  /** Which rules the profiles have does not depend on the network but for what is cut. */
  lemma {:induction false} IncludesOn(d: DesiredInput, w: Network, ps: seq<Profile>, nets: seq<Prefix>, r: Rule)
    ensures IncludeRule(On(d, w), ps, nets, r) <==> IncludeRule(d, ps, nets, r)
  {
    forall p, fam
      ensures IsInclude(On(d, w), p, nets, fam, r) <==> IsInclude(d, p, nets, fam, r)
    {
      assert IncludeTarget(On(d, w), fam) == IncludeTarget(d, fam);
    }
  }

  /** Cutting the rules the profiles have without tunnels around the networks of any network
      gives the rules of the full rebuild there. */
  lemma {:induction false} RulesCutAsBuilt(d: DesiredInput, w: Network)
    requires BuildDesired(Bare(d)).Built? && BuildDesired(On(d, w)).Built?
    ensures RuleKeys(RulesBeside(Plan(w), BuildDesired(Bare(d)).rules)) == RuleKeys(BuildDesired(On(d, w)).rules)
  {
    var tp, ps, bare := Plan(w), SortProfiles(d.profiles), BuildDesired(Bare(d)).rules;
    hide BuildDesired, Plan, SortProfiles, IncludeRule, CutRules;
    forall r
      ensures r in RuleKeys(RulesBeside(tp, bare)) <==> r in RuleKeys(BuildDesired(On(d, w)).rules)
    {
      FullRules(On(d, w), r);
      IncludesOn(d, w, ps, tp.nets, r);
      if tp.nets == [] {
        BareRules(d, r);
      } else {
        CutRulesKeys(bare, tp.nets, r);
        forall q
          ensures q in RuleKeys(bare) <==> IncludeRule(d, ps, [], q)
        {
          BareRules(d, q);
        }
        CutProfile(d, ps, tp.nets, r);
      }
    }
  }

  /** After a full apply and any run of tunnel applies, the rules installed send every
      address exactly where those of the full rebuild on the last network would. */
  lemma {:induction false} RulesRunAsRebuilt(d: DesiredInput, ws: seq<Network>, w: Network, t: Target, a: Addr)
    requires BuildDesired(d).Built? && BuildDesired(Bare(d)).Built? && BuildDesired(On(d, w)).Built?
    ensures Sends(Run(ws + [w], FullApply(d)).rules, t, a) <==> Sends(BuildDesired(On(d, w)).rules, t, a)
  {
    hide BuildDesired, Plan, FullApply, Run, RulesBeside, Sends, SendsInAll, RuleKeys, PiecesInv;
    var bare, built := BuildDesired(Bare(d)).rules, BuildDesired(On(d, w)).rules;
    FullApplyRecords(d);
    RulesAfterRun(ws, w, FullApply(d), t, a);
    RulesCutAsBuilt(d, w);
    CutSends(Plan(w), bare, t, a);
    SendsByKey(RulesBeside(Plan(w), bare), t, a);
    SendsByKey(built, t, a);
  }

  // ---------- no rule is left over ----------

  ghost predicate IsPiece(ys: seq<YieldedRule>, r: Rule) {
    exists y, m :: y in ys && m in y.pieces && m.rule == r
  }

  /** Every rule is one of keys, or recorded as a piece of one. */
  ghost predicate CutFromThese(rules: seq<ManagedRule>, ys: seq<YieldedRule>, keys: set<Rule>) {
    && (forall y :: y in ys ==> y.rule.rule in keys)
    && (forall m :: m in rules ==> m.rule in keys || IsPiece(ys, m.rule))
  }

  lemma {:induction false} PutBackFrom(s: State, keys: set<Rule>)
    requires CutFromThese(s.rules, s.record.rules, keys)
    ensures RuleKeys(Rules(s, None)) <= keys
  {
    var ys := s.record.rules;
    if ys != [] {
      var pieces := PieceKeys(ys);
      WithoutPiecesKeys(s.rules, pieces);
      RecordedMembers(ys);
      AddRulesKeys(WithoutPieces(s.rules, pieces), RecordedRules(ys));
      forall r | r in RuleKeys(s.rules) - pieces
        ensures r in keys
      {
        var m :| m in s.rules && m.rule == r;
        assert !IsPiece(ys, r);
      }
    }
  }

  lemma {:induction false} CutStaysFrom(tp: TunnelPlan, rules: seq<ManagedRule>, cut: seq<ManagedRule>, keys: set<Rule>)
    requires RuleKeys(rules) <= keys && RuleKeys(cut) == RuleKeys(RulesBeside(tp, rules))
    ensures CutFromThese(cut, YieldedRules(tp, rules), keys)
  {
    var ys := YieldedRules(tp, rules);
    YieldedRulesMembers(tp, rules);
    hide YieldedRules, RulesBeside, Uncut;
    forall y | y in ys
      ensures y.rule.rule in keys
    {
      assert y.rule.rule in RuleKeys(rules);
    }
    forall m | m in cut
      ensures m.rule in keys || IsPiece(ys, m.rule)
    {
      assert m.rule in RuleKeys(cut);
      CutOfOne(tp, rules, m.rule);
      var r :| r in rules && m.rule in RuleKeys(RulesBeside(tp, [r]));
      if Uncut(tp, r) {
        OnlyItself(tp, r, m.rule);
        assert m.rule in RuleKeys(rules);
      } else {
        var y := YieldedRule(r, RulesBeside(tp, [r]));
        assert y in ys;
      }
    }
  }

  lemma {:induction false} CutOfOne(tp: TunnelPlan, rules: seq<ManagedRule>, k: Rule)
    requires k in RuleKeys(RulesBeside(tp, rules))
    ensures exists r :: r in rules && k in RuleKeys(RulesBeside(tp, [r]))
  {
    if tp.nets == [] {
      var r :| r in rules && r.rule == k;
      assert r in [r];
    } else {
      CutRulesKeys(rules, tp.nets, k);
      var q :| q in RuleKeys(rules) && PieceOf(q, tp.nets, k);
      var r :| r in rules && r.rule == q;
      CutRulesKeys([r], tp.nets, k);
      assert r in [r] && q in RuleKeys([r]);
    }
  }

  lemma {:induction false} OnlyItself(tp: TunnelPlan, r: ManagedRule, k: Rule)
    requires Uncut(tp, r) && k in RuleKeys(RulesBeside(tp, [r]))
    ensures k == r.rule
  {
  }

  lemma {:induction false} RunFrom(d: DesiredInput, ws: seq<Network>)
    requires BuildDesired(d).Built? && BuildDesired(Bare(d)).Built?
    ensures var s := Run(ws, FullApply(d));
            CutFromThese(s.rules, s.record.rules, RuleKeys(BuildDesired(Bare(d)).rules))
  {
    hide BuildDesired, Plan, RulesBeside, YieldedRules, CutFromThese, Rules, RuleKeys;
    var bare := BuildDesired(Bare(d)).rules;
    if ws == [] {
      RulesBesideAsBuilt(d);
      CutStaysFrom(Plan(d.net), bare, BuildDesired(d).rules, RuleKeys(bare));
    } else {
      var n := |ws| - 1;
      RunFrom(d, ws[..n]);
      var s := Run(ws[..n], FullApply(d));
      PutBackFrom(s, RuleKeys(bare));
      CutStaysFrom(Plan(ws[n]), Rules(s, None), RulesBeside(Plan(ws[n]), Rules(s, None)), RuleKeys(bare));
    }
  }

  /** And no rule is left over from the networks before: each rule installed is one the full
      rebuild on the last network has. */
  lemma {:induction false} NoRuleLeftOver(d: DesiredInput, ws: seq<Network>, w: Network)
    requires BuildDesired(d).Built? && BuildDesired(Bare(d)).Built? && BuildDesired(On(d, w)).Built?
    ensures RuleKeys(Run(ws + [w], FullApply(d)).rules) <= RuleKeys(BuildDesired(On(d, w)).rules)
  {
    hide BuildDesired, Plan, FullApply, RulesBeside, CutFromThese, Rules, RuleKeys, YieldedTo, Beside;
    var s, bare := Run(ws, FullApply(d)), BuildDesired(Bare(d)).rules;
    assert (ws + [w])[..|ws|] == ws;
    assert Run(ws + [w], FullApply(d)).rules == RulesBeside(Plan(w), Rules(s, None));
    hide Run;
    RunFrom(d, ws);
    PutBackFrom(s, RuleKeys(bare));
    MoreCut(Plan(w), Rules(s, None), bare);
    RulesCutAsBuilt(d, w);
  }

  lemma {:induction false} MoreCut(tp: TunnelPlan, x: seq<ManagedRule>, y: seq<ManagedRule>)
    requires RuleKeys(x) <= RuleKeys(y)
    ensures RuleKeys(RulesBeside(tp, x)) <= RuleKeys(RulesBeside(tp, y))
  {
    if tp.nets != [] {
      forall k | k in RuleKeys(CutRules(x, tp.nets))
        ensures k in RuleKeys(CutRules(y, tp.nets))
      {
        CutRulesKeys(x, tp.nets, k);
        CutRulesKeys(y, tp.nets, k);
      }
    }
  }
}
