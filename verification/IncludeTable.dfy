/** The include table (internal/routing/engine.go): a built set has a default into the VPN
for each family its rules send there, so no rule of its own points at an empty table —
not when it is applied, and not after any run of tunnel applies (internal/core/service.go).
 */
module IncludeTable {
  import opened Prefixes
  import opened Aggregation
  import opened Routes
  import opened Planner
  import opened PlannerSafety
  import opened Desired
  import opened Incremental
  import opened Yielded
  import opened Wanting
  import Reconciling
  import Transit
  import Guardrails

  /** Into a VPN: through its gateway, or on its interface when it has none. */
  function Into(v: Vpn): Hop {
    if v.gateway.Some? then Via(v.gateway.value, v.iface) else Dev(v.iface)
  }

  /** The set holds the include table's default of a family. */
  ghost predicate HasDefault(rs: seq<Managed>, fam: Family) {
    exists m :: m in rs && m.route.table == MODEL_B_TABLE && m.route.dst == Root(fam)
  }

  ghost predicate RulesOf(rules: seq<ManagedRule>, fam: Family) {
    exists r :: r in rules && r.rule.target.fam == fam
  }

  /** A built set on Linux is the profiles' routes with the plan's beside them, and the
      defaults; no family with rules is without a VPN. */
  lemma {:induction false} BuiltHasDefaults(d: DesiredInput)
    requires BuildDesired(d).Built?
    ensures var o := BuildProfiles(d, Plan(d.net).nets, SortProfiles(d.profiles));
            && (d.platform.Linux? ==> !NeedsVpn(d, o.rules) && Keys(Defaults(d, o.rules)) <= Keys(BuildDesired(d).routes))
            && (d.platform.Darwin? ==> Keys(BuildDesired(d).routes) == Keys(Place(o.routes, Plan(d.net).routes)))
  {
    hide Plan, BuildProfiles, Place, AddRoutes, SortProfiles, NeedsVpn, KeyOrder.SortBy, Defaults;
    var o := BuildProfiles(d, Plan(d.net).nets, SortProfiles(d.profiles));
    var all := BuildUnsorted(d);
    AddRoutesKeys(Place(o.routes, Plan(d.net).routes), Defaults(d, o.rules));
    KeyOrder.SortByMembers(ByRouteKey(d.writing), all.routes);
  }

  lemma {:induction false} DefaultMeans(d: DesiredInput, rules: seq<ManagedRule>, m: Managed)
    requires m in Defaults(d, rules) && !NeedsVpn(d, rules)
    ensures var vpn := if m.route.dst.fam.V4? then d.vpn4 else d.vpn6;
            m.route == Route(MODEL_B_TABLE, Root(m.route.dst.fam), Into(vpn)) && vpn.iface != ""
    ensures RulesOf(rules, m.route.dst.fam)
  {
    assert HasRuleOf(rules, m.route.dst.fam);
  }

  lemma {:induction false} AsideIsDefault(d: DesiredInput, m: Managed)
    requires BuildDesired(d).Built? && m in BuildDesired(d).routes && m.route.table != MAIN
    ensures m in Defaults(d, BuildProfiles(d, Plan(d.net).nets, SortProfiles(d.profiles)).rules)
  {
    var tp, ps := Plan(d.net), SortProfiles(d.profiles);
    BuiltFrom(d);
    PlanRoutesDistinct(d.net);
    BaseIsMain(d, ps, tp.nets);
    hide Plan, BuildProfiles, SortProfiles, BuildDesired, Defaults;
    PlaceMembers(BuildProfiles(d, tp.nets, ps).routes, tp.routes);
  }

  /** What is routed outside the main table: nothing but a default of a family that has
      rules, and only on Linux. */
  lemma {:induction false} OnlyDefaults(d: DesiredInput, m: Managed)
    requires BuildDesired(d).Built? && m in BuildDesired(d).routes && m.route.table != MAIN
    ensures var vpn := if m.route.dst.fam.V4? then d.vpn4 else d.vpn6;
            m.route == Route(MODEL_B_TABLE, Root(m.route.dst.fam), Into(vpn)) && vpn.iface != ""
    ensures d.platform.Linux? && RulesOf(BuildDesired(d).rules, m.route.dst.fam)
  {
    if d.platform.Darwin? { NothingAside(d, m); }
    var o := BuildProfiles(d, Plan(d.net).nets, SortProfiles(d.profiles));
    BuiltFrom(d);
    BuiltHasDefaults(d);
    AsideIsDefault(d, m);
    hide Plan, BuildProfiles, SortProfiles, BuildDesired, Defaults, Place, NeedsVpn;
    DefaultMeans(d, o.rules, m);
  }

  lemma {:induction false} NothingAside(d: DesiredInput, m: Managed)
    requires BuildDesired(d).Built? && d.platform.Darwin? && m in BuildDesired(d).routes
    ensures m.route.table == MAIN
  {
    var tp, ps := Plan(d.net), SortProfiles(d.profiles);
    var o := BuildProfiles(d, tp.nets, ps);
    BuiltFrom(d);
    BuiltHasDefaults(d);
    PlaceMembers(o.routes, tp.routes);
    PlanRoutesDistinct(d.net);
    BaseIsMain(d, ps, tp.nets);
    hide Plan, BuildProfiles, Place, SortProfiles, BuildDesired;
    assert m.route in Keys(BuildDesired(d).routes);
  }

  /** On Linux the include table has a default of a family exactly if some built rule is of
      that family. */
  lemma {:induction false} DefaultIff(d: DesiredInput, fam: Family)
    requires BuildDesired(d).Built? && d.platform.Linux?
    ensures HasDefault(BuildDesired(d).routes, fam) <==> RulesOf(BuildDesired(d).rules, fam)
  {
    var o := BuildProfiles(d, Plan(d.net).nets, SortProfiles(d.profiles));
    BuiltFrom(d);
    BuiltHasDefaults(d);
    hide Plan, BuildProfiles, Place, SortProfiles, BuildDesired;
    if HasDefault(BuildDesired(d).routes, fam) {
      var m :| m in BuildDesired(d).routes && m.route.table == MODEL_B_TABLE && m.route.dst == Root(fam);
      OnlyDefaults(d, m);
    }
    if RulesOf(BuildDesired(d).rules, fam) {
      assert HasRuleOf(o.rules, fam);
      assert VpnDefault(d, fam) in Defaults(d, o.rules);
      assert VpnDefault(d, fam).route in Keys(Defaults(d, o.rules));
      var m :| m in BuildDesired(d).routes && m.route == VpnDefault(d, fam).route;
    }
  }

  /** Where a built rule sends: on Linux to the include table, on macOS straight into the
      VPN of its family, whose destination it selects. */
  lemma {:induction false} BuiltRuleSends(d: DesiredInput, r: ManagedRule)
    requires BuildDesired(d).Built? && r in BuildDesired(d).rules
    ensures var t := r.rule.target;
            var vpn := if t.fam.V4? then d.vpn4 else d.vpn6;
            && r.rule.selector.To? && r.rule.selector.net.fam == t.fam && vpn.iface != ""
            && t == if d.platform.Linux? then Target(MODEL_B_PRIORITY, MODEL_B_TABLE, t.fam, "", None)
                    else Target(MODEL_B_PRIORITY, "", t.fam, vpn.iface, vpn.gateway)
  {
    var tp, ps := Plan(d.net), SortProfiles(d.profiles);
    var o := BuildProfiles(d, tp.nets, ps);
    BuiltFrom(d);
    BuiltHasDefaults(d);
    if d.platform.Darwin? { ProfilesHaveVpn(d, tp.nets, ps); }
    hide Plan, BuildProfiles, BuildDesired, SortProfiles;
    assert r.rule in RuleKeys(o.rules);
    ProfileRules(d, tp.nets, ps, r.rule);
    var p, fam :| p in ps && IsInclude(d, p, tp.nets, fam, r.rule);
    IncludedFamily(p, tp.nets, fam, r.rule.selector.net);
  }

  /** Where the family's include rules send. */
  function WhereTo(d: DesiredInput, fam: Family): Target {
    var vpn := if fam.V4? then d.vpn4 else d.vpn6;
    if d.platform.Linux? then Target(MODEL_B_PRIORITY, MODEL_B_TABLE, fam, "", None)
    else Target(MODEL_B_PRIORITY, "", fam, vpn.iface, vpn.gateway)
  }

  /** The built rules send an address somewhere exactly if an enabled include profile lists
      it and no tunnel's network holds it, and then where its family's rules send. */
  lemma {:induction false} RulesSendIff(d: DesiredInput, t: Target, a: Addr)
    requires BuildDesired(d).Built?
    ensures Sends(BuildDesired(d).rules, t, a) <==>
            t == WhereTo(d, a.fam) && Lists(d.profiles, Include, a) && !Covers(Plan(d.net).nets, a)
  {
    var nets, ps := Plan(d.net).nets, SortProfiles(d.profiles);
    SortProfilesMembers(d.profiles);
    hide Plan, BuildDesired, SortProfiles;
    if Sends(BuildDesired(d).rules, t, a) {
      var m :| m in BuildDesired(d).rules && Selects(m.rule, t, a);
      assert m.rule in RuleKeys(BuildDesired(d).rules);
      FullRules(d, m.rule);
      BuiltRuleSends(d, m);
      var p, fam :| p in ps && IsInclude(d, p, nets, fam, m.rule);
      BlockHolds(p, nets, fam, m.rule.selector.net, a);
    }
    if t == WhereTo(d, a.fam) && Lists(d.profiles, Include, a) && !Covers(nets, a) {
      var p, q :| p in d.profiles && p.enabled && p.mode == Include && q in p.prefixes && Contains(q, a);
      BlockFound(p, nets, q, a);
      var block :| block in MaximalBlocks(Included(p, nets, a.fam)) && Contains(block, a);
      var r := Rule(To(block), t);
      assert IsInclude(d, p, nets, a.fam, r);
      FullRules(d, r);
      var m :| m in BuildDesired(d).rules && m.rule == r;
    }
  }

  lemma {:induction false} BlockHolds(p: Profile, nets: seq<Prefix>, fam: Family, block: Prefix, a: Addr)
    requires block in MaximalBlocks(Included(p, nets, fam)) && Contains(block, a)
    ensures Covers(p.prefixes, a) && !Covers(nets, a)
  {
    var own, listed := Included(p, nets, fam), OfFamily(p.prefixes, fam);
    MaximalBlocksExact(own);
    assert Covers(MaximalBlocks(own), a);
    assert Covers(own, a);
    if nets != [] { Subtraction.AroundCover(listed, nets, a); }
    var q :| q in listed && Contains(q, a);
    OfFamilyMembers(p.prefixes, fam, q);
  }

  lemma {:induction false} BlockFound(p: Profile, nets: seq<Prefix>, q: Prefix, a: Addr)
    requires q in p.prefixes && Contains(q, a) && !Covers(nets, a)
    ensures Covers(MaximalBlocks(Included(p, nets, a.fam)), a)
  {
    var own, listed := Included(p, nets, a.fam), OfFamily(p.prefixes, a.fam);
    OfFamilyMembers(p.prefixes, a.fam, q);
    assert Covers(listed, a);
    if nets != [] { Subtraction.AroundCover(listed, nets, a); }
    MaximalBlocksExact(own);
  }

  lemma {:induction false} IncludedFamily(p: Profile, nets: seq<Prefix>, fam: Family, q: Prefix)
    requires q in MaximalBlocks(Included(p, nets, fam))
    ensures q.fam == fam
  {
    var own := Included(p, nets, fam);
    MaximalBlocksExact(own);
    ContainsFirst(q);
    assert Covers(MaximalBlocks(own), First(q));
    assert Covers(own, First(q));
    if nets != [] { Subtraction.AroundCover(OfFamily(p.prefixes, fam), nets, First(q)); }
    var x :| x in OfFamily(p.prefixes, fam) && Contains(x, First(q));
    OfFamilyMembers(p.prefixes, fam, x);
  }

  lemma {:induction false} ProfilesHaveVpn(d: DesiredInput, nets: seq<Prefix>, ps: seq<Profile>)
    requires BuildProfiles(d, nets, ps).Built? && d.platform.Darwin?
    ensures !NeedsVpn(d, BuildProfiles(d, nets, ps).rules)
  {
    if ps != [] {
      var k := |ps| - 1;
      var p, o := ps[k], BuildProfiles(d, nets, ps[..k]);
      ProfilesHaveVpn(d, nets, ps[..k]);
      AddRulesKeys(o.rules, IncludeFamily(d, p, nets, V4) + IncludeFamily(d, p, nets, V6));
    }
  }

  // ---------- the rules of a change ----------

  /** One of the keys routes something of the rule's family in the rule's table (a rule
      without a table needs none). */
  ghost predicate Backed(keys: set<Route>, r: Rule) {
    r.target.table == "" || exists k :: k in keys && Transit.Serves(DstKey(k), r)
  }

  ghost predicate AllBacked(rules: seq<ManagedRule>, keys: set<Route>) {
    forall r :: r in rules ==> Backed(keys, r.rule)
  }

  /** A built set serves its own rules. */
  lemma {:induction false} OwnRulesBacked(d: DesiredInput)
    requires BuildDesired(d).Built?
    ensures AllBacked(BuildDesired(d).rules, Keys(BuildDesired(d).routes))
  {
    hide BuildDesired;
    forall r | r in BuildDesired(d).rules
      ensures Backed(Keys(BuildDesired(d).routes), r.rule)
    {
      BuiltRuleSends(d, r);
      if d.platform.Linux? {
        DefaultIff(d, r.rule.target.fam);
        var m :| m in BuildDesired(d).routes && m.route.table == MODEL_B_TABLE && m.route.dst == Root(r.rule.target.fam);
        assert m.route in Keys(BuildDesired(d).routes);
      }
    }
  }

  /** A kernel that holds backed rules beside what others hold serves every rule, if the
      others' are served. */
  lemma {:induction false} HeldIsServed(k: Reconciling.Kernel, foreign: Reconciling.Kernel, rs: seq<Managed>,
      rules: seq<ManagedRule>)
    requires Reconciling.Holds(k, foreign, rs, rules) && AllBacked(rules, Keys(rs)) && Transit.AllServed(foreign)
    ensures Transit.AllServed(k)
  {
    forall r | r in k.rules
      ensures Transit.Served(k, r)
    {
      if r.target.table != "" {
        if r in foreign.rules {
          assert Transit.Served(foreign, r);
          var x :| x in foreign.routes && Transit.Serves(x, r);
          assert x in k.routes;
        } else {
          var q :| q in Keys(rs) && Transit.Serves(DstKey(q), r);
          var m :| m in rs && m.route == q;
          Reconciling.TableAt(rs, DstKey(q));
          Reconciling.RouteToMeans(rs, DstKey(q));
          assert DstKey(q) in k.routes;
        }
      }
    }
  }

  /** From a kernel that holds what is owned beside what others hold, a full apply that the
      guardrails let through leaves no rule without a route in its table, at no step outside
      a replacement in that table; and neither does undoing it, when it can be undone. */
  lemma {:induction false} FullApplyServes(d: DesiredInput, c: Reconciling.Change, k: Reconciling.Kernel,
      foreign: Reconciling.Kernel)
    requires BuildDesired(d).Built? && c.desired == BuildDesired(d).routes && c.desiredRules == BuildDesired(d).rules
    requires !Guardrails.Conflicted(c.desired, None) && UniqueDsts(c.actual) && Reconciling.Recorded(c, k, foreign)
    requires AllBacked(c.actualRules, Keys(c.actual)) && Transit.AllServed(foreign)
    ensures Transit.AllServed(Reconciling.Run(k, Reconciling.Ops(c)))
    ensures forall p: nat, r :: p <= |Reconciling.Ops(c)| && r in Reconciling.Run(k, Reconciling.Ops(c)[..p]).rules ==>
                                ServedAt(c, k, p, r)
    ensures Reconciling.NothingAdopted(c, foreign) ==>
              forall j: nat, r :: j <= |Reconciling.Ops(c)| &&
                                  r in Reconciling.Run(Reconciling.Run(k, Reconciling.Ops(c)), Reconciling.Invert(Reconciling.Ops(c))[..j]).rules ==>
                                  ServedBack(c, k, j, r)
  {
    hide BuildDesired, Reconciling.Ops, Reconciling.Run, Reconciling.Invert, Guardrails.Conflicted, Transit.AllServed,
         Transit.Served, Transit.ReplacingFor, Reconciling.NothingAdopted, Reconciling.Table;
    OwnRulesBacked(d);
    Guardrails.VettedApplyIsExact(d, c, k, foreign);
    Guardrails.SilenceIsEnough(d);
    HeldIsServed(k, foreign, c.actual, c.actualRules);
    HeldIsServed(Reconciling.Run(k, Reconciling.Ops(c)), foreign, c.desired, c.desiredRules);
    forall p: nat, r | p <= |Reconciling.Ops(c)| && r in Reconciling.Run(k, Reconciling.Ops(c)[..p]).rules
      ensures ServedAt(c, k, p, r)
    {
      Transit.RulesAlwaysServed(c, k, p, r);
    }
    if Reconciling.NothingAdopted(c, foreign) {
      forall j: nat, r | j <= |Reconciling.Ops(c)| &&
                         r in Reconciling.Run(Reconciling.Run(k, Reconciling.Ops(c)), Reconciling.Invert(Reconciling.Ops(c))[..j]).rules
        ensures ServedBack(c, k, j, r)
      {
        Transit.RulesServedOnRollback(c, k, j, r);
      }
    }
  }

  /** After p operations the rule is served, or its table's route is being replaced. */
  ghost predicate ServedAt(c: Reconciling.Change, k: Reconciling.Kernel, p: nat, r: Rule)
    requires p <= |Reconciling.Ops(c)|
  {
    Transit.Served(Reconciling.Run(k, Reconciling.Ops(c)[..p]), r) || Transit.ReplacingFor(Reconciling.Ops(c), p, r)
  }

  ghost predicate ServedBack(c: Reconciling.Change, k: Reconciling.Kernel, j: nat, r: Rule)
    requires j <= |Reconciling.Ops(c)|
  {
    var undo := Reconciling.Invert(Reconciling.Ops(c));
    || Transit.Served(Reconciling.Run(Reconciling.Run(k, Reconciling.Ops(c)), undo[..j]), r)
    || Transit.ReplacingFor(undo, j, r)
  }

  // ---------- every run of tunnel applies ----------

  /** Installed rules are backed by what is installed, and recorded ones by what is
      installed or recorded; only tunnels' main-table routes are tunnels'. */
  ghost predicate BackedState(s: State) {
    && (forall m :: m in s.owned && m.origin.OfTunnel? ==> m.route.table == MAIN)
    && RecordInv(s)
    && AllBacked(s.rules, Keys(s.owned))
    && forall y :: y in s.record.rules ==> Backed(Keys(s.owned) + Keys(s.record.routes), y.rule.rule)
  }

  lemma {:induction false} BackedByMore(keys: set<Route>, more: set<Route>, r: Rule)
    requires Backed(keys, r) && forall k :: k in keys && k.table != MAIN ==> k in more
    ensures Backed(more, r)
  {
  }

  /** Nothing outside the main table is lost in a tunnel apply. */
  lemma {:induction false} AsideStays(w: Network, dest: Option<Destinations>, s: State, k: Route)
    requires BackedState(s) && k in Keys(s.owned) + Keys(s.record.routes) && k.table != MAIN
    ensures k in Keys(TunnelApply(Plan(w), dest, s).owned)
  {
    var others, tp := Others(s, dest), Plan(w);
    OthersHaveNoTunnel(s, dest);
    UnyieldedMembers(others, tp.nets);
    PlaceMembers(Unyielded(others, tp.nets), tp.routes);
    var m :| (m in s.owned || m in s.record.routes) && m.route == k;
    NotTunnelsMembers(s.owned, m);
    if dest.Some? { WantedRoutesMembers(dest.value, s.record.routes, m); }
    hide Plan, Others, Unyielded, Place, NotTunnels, WantedRoutes;
    assert k in Keys(others);
    var o :| o in others && o.route == k;
    assert !Yields(o, tp.nets);
    assert k in Keys(Unyielded(others, tp.nets));
  }

  /** A rule put back or kept has the backing it had. */
  lemma {:induction false} PutBackBacked(dest: Option<Destinations>, s: State)
    requires BackedState(s)
    ensures AllBacked(Rules(s, dest), Keys(s.owned) + Keys(s.record.routes))
  {
    var y := StillWanted(dest, s.record);
    WithoutPiecesMembers(s.rules, PieceKeys(y.rules));
    RecordedMembers(y.rules);
    AddRulesKeys(WithoutPieces(s.rules, PieceKeys(y.rules)), RecordedRules(y.rules));
    hide WithoutPieces, RecordedRules, AddRules, PieceKeys, HoldsRule;
    forall r | r in Rules(s, dest)
      ensures Backed(Keys(s.owned) + Keys(s.record.routes), r.rule)
    {
      if r in s.rules {
        BackedByMore(Keys(s.owned), Keys(s.owned) + Keys(s.record.routes), r.rule);
      } else {
        var x :| x in y.rules && x.rule == r;
        if dest.Some? { WantedRulesMembers(dest.value, s.record.rules, x); }
      }
    }
  }

  lemma {:induction false} CutBacked(tp: TunnelPlan, rules: seq<ManagedRule>, keys: set<Route>)
    requires AllBacked(rules, keys)
    ensures AllBacked(RulesBeside(tp, rules), keys)
  {
    if tp.nets != [] {
      forall m | m in CutRules(rules, tp.nets)
        ensures Backed(keys, m.rule)
      {
        CutRulesMembers(rules, tp.nets, m);
        var r :| r in rules && CutOf(r, m);
        assert Backed(keys, r.rule);
      }
    }
  }

  /** A tunnel apply keeps every rule backed, whether or not the profiles can be read. */
  lemma {:induction false} TunnelApplyBacks(w: Network, dest: Option<Destinations>, s: State)
    requires BackedState(s)
    ensures BackedState(TunnelApply(Plan(w), dest, s))
  {
    var tp, after := Plan(w), TunnelApply(Plan(w), dest, s);
    var others, rules := Others(s, dest), Rules(s, dest);
    var all := Keys(s.owned) + Keys(s.record.routes);
    forall k | k in all && k.table != MAIN
      ensures k in Keys(after.owned)
    {
      AsideStays(w, dest, s, k);
    }
    PutBackBacked(dest, s);
    OthersHaveNoTunnel(s, dest);
    UnyieldedMembers(others, tp.nets);
    PlaceMembers(Unyielded(others, tp.nets), tp.routes);
    PlanRoutesDistinct(w);
    YieldedRulesMembers(tp, rules);
    hide Plan, Others, Rules, Unyielded, Place, RulesBeside, YieldedRules, YieldedRoutes;
    forall r | r in rules
      ensures Backed(Keys(after.owned), r.rule)
    {
      BackedByMore(all, Keys(after.owned), r.rule);
    }
    CutBacked(tp, rules, Keys(after.owned));
    forall m | m in after.record.routes
      ensures !m.origin.OfTunnel?
    {
      YieldedRoutesMembers(others, after.owned, m);
    }
    forall y | y in after.record.rules
      ensures Backed(Keys(after.owned) + Keys(after.record.routes), y.rule.rule)
    {
      BackedByMore(Keys(after.owned), Keys(after.owned) + Keys(after.record.routes), y.rule.rule);
    }
  }

  /** A full apply backs what it installs and what it records. */
  lemma {:induction false} FullApplyBacks(d: DesiredInput)
    requires BuildDesired(d).Built? && BuildDesired(Bare(d)).Built?
    ensures BackedState(FullApply(d))
  {
    hide BuildDesired, Plan, YieldedRules, YieldedRoutes, Backed, Keys;
    var s, bare := FullApply(d), BuildDesired(Bare(d));
    OwnRulesBacked(d);
    OwnRulesBacked(Bare(d));
    YieldedRulesMembers(Plan(d.net), bare.rules);
    forall m | m in s.owned && m.origin.OfTunnel?
      ensures m.route.table == MAIN
    {
      TunnelsAreMain(d, m);
    }
    forall m | m in s.record.routes
      ensures !m.origin.OfTunnel?
    {
      YieldedRoutesMembers(bare.routes, s.owned, m);
      BareHasNoTunnel(d, m);
    }
    forall k | k in Keys(bare.routes) && k.table != MAIN
      ensures k in Keys(s.owned) + Keys(s.record.routes)
    {
      AsideRecorded(d, k);
    }
    forall y | y in s.record.rules
      ensures Backed(Keys(s.owned) + Keys(s.record.routes), y.rule.rule)
    {
      BackedByMore(Keys(bare.routes), Keys(s.owned) + Keys(s.record.routes), y.rule.rule);
    }
  }

  lemma {:induction false} TunnelsAreMain(d: DesiredInput, m: Managed)
    requires BuildDesired(d).Built? && m in BuildDesired(d).routes && m.origin.OfTunnel?
    ensures m.route.table == MAIN
  {
    hide BuildDesired, BuildProfiles, Plan;
    if m.route.table != MAIN { AsideIsDefault(d, m); }
  }

  lemma {:induction false} AsideRecorded(d: DesiredInput, k: Route)
    requires BuildDesired(d).Built? && BuildDesired(Bare(d)).Built?
    requires k in Keys(BuildDesired(Bare(d)).routes) && k.table != MAIN
    ensures k in Keys(FullApply(d).owned) + Keys(FullApply(d).record.routes)
  {
    hide BuildDesired, BuildProfiles, Plan, YieldedRules, YieldedRoutes;
    var m :| m in BuildDesired(Bare(d)).routes && m.route == k;
    AsideIsDefault(Bare(d), m);
    YieldedRoutesMembers(BuildDesired(Bare(d)).routes, FullApply(d).owned, m);
  }

  /** After a full apply and any run of tunnel applies — whether or not each can read the
      profiles — every rule installed has a route of its family in its table. */
  lemma {:induction false} RulesBackedAlways(d: DesiredInput, ws: seq<Network>, dest: Option<Destinations>)
    requires BuildDesired(d).Built? && BuildDesired(Bare(d)).Built?
    ensures BackedState(if dest.Some? then RunReading(ws, dest.value, FullApply(d)) else Run(ws, FullApply(d)))
  {
    hide BackedState, TunnelApply, Plan, FullApply, BuildDesired;
    if ws == [] {
      FullApplyBacks(d);
    } else {
      var k := |ws| - 1;
      RulesBackedAlways(d, ws[..k], dest);
      var s := if dest.Some? then RunReading(ws[..k], dest.value, FullApply(d)) else Run(ws[..k], FullApply(d));
      TunnelApplyBacks(ws[k], dest, s);
    }
  }
}
