/** Whose a built route is, where it goes, and why nothing is built
(internal/routing/engine.go).
 */
module Ownership {
  import opened KeyOrder
  import opened Prefixes
  import opened Aggregation
  import opened Subtraction
  import opened Routes
  import opened Planner
  import opened PlannerSafety
  import opened Desired
  import opened Incremental
  import opened Priorities

  // ---------- the order of profiles ----------

  ghost predicate HighestFirst(ps: seq<Profile>) {
    forall i, j :: 0 <= i < j < |ps| ==> ps[i].priority >= ps[j].priority
  }

  /** Those of one priority, in order. */
  function OfPriority(ps: seq<Profile>, n: int): seq<Profile> {
    if ps == [] then [] else (if ps[0].priority == n then [ps[0]] else []) + OfPriority(ps[1..], n)
  }

  lemma {:induction false} FrontHighest(ps: seq<Profile>, p: Profile)
    requires HighestFirst(ps) && forall q :: q in ps ==> p.priority >= q.priority
    ensures HighestFirst([p] + ps)
  {
    var out := [p] + ps;
    forall i, j | 0 <= i < j < |out|
      ensures out[i].priority >= out[j].priority
    {
      assert out[j] == ps[j - 1] && out[j] in ps;
    }
  }

  lemma {:induction false} InsertHighestFirst(ps: seq<Profile>, p: Profile)
    requires HighestFirst(ps)
    ensures HighestFirst(InsertProfile(ps, p))
  {
    if ps == [] {
    } else if ps[0].priority <= p.priority {
      FrontHighest(ps, p);
    } else {
      var rest := ps[1..];
      assert forall q :: q in rest ==> ps[0].priority >= q.priority;
      InsertHighestFirst(rest, p);
      InsertProfileMembers(rest, p);
      FrontHighest(InsertProfile(rest, p), ps[0]);
    }
  }

  lemma {:induction false} InsertPermutes(ps: seq<Profile>, p: Profile)
    ensures multiset(InsertProfile(ps, p)) == multiset(ps) + multiset{p}
  {
    if ps != [] {
      assert ps == [ps[0]] + ps[1..];
      InsertPermutes(ps[1..], p);
    }
  }

  lemma {:induction false} OfPriorityFront(ps: seq<Profile>, p: Profile, n: int)
    ensures OfPriority([p] + ps, n) == (if p.priority == n then [p] else []) + OfPriority(ps, n)
  {
    assert ([p] + ps)[1..] == ps;
  }

  lemma {:induction false} InsertKeepsOrder(ps: seq<Profile>, p: Profile, n: int)
    ensures OfPriority(InsertProfile(ps, p), n) == OfPriority([p] + ps, n)
  {
    if ps != [] && ps[0].priority > p.priority {
      assert ps == [ps[0]] + ps[1..];
      InsertKeepsOrder(ps[1..], p, n);
      OfPriorityFront(InsertProfile(ps[1..], p), ps[0], n);
      OfPriorityFront(ps[1..], p, n);
      OfPriorityFront(ps[1..], ps[0], n);
      OfPriorityFront(ps, p, n);
      hide OfPriority, InsertProfile;
    }
  }

  /** Profiles are built highest priority first, those of one priority in their order; none
      is lost or added. */
  lemma {:induction false} ProfilesInOrder(ps: seq<Profile>)
    ensures HighestFirst(SortProfiles(ps)) && multiset(SortProfiles(ps)) == multiset(ps)
    ensures forall n :: OfPriority(SortProfiles(ps), n) == OfPriority(ps, n)
  {
    if ps != [] {
      ProfilesInOrder(ps[1..]);
      var rest := SortProfiles(ps[1..]);
      InsertHighestFirst(rest, ps[0]);
      InsertPermutes(rest, ps[0]);
      assert ps == [ps[0]] + ps[1..];
      hide HighestFirst, InsertProfile;
      forall n
        ensures OfPriority(SortProfiles(ps), n) == OfPriority(ps, n)
      {
        InsertKeepsOrder(rest, ps[0], n);
        OfPriorityFront(rest, ps[0], n);
      }
    }
  }

  // ---------- whose a route is ----------

  /** Where a profile sends a family: through the physical gateway, or the one it names, on
      the physical interface. */
  ghost predicate GoesBy(w: Network, g: GatewaySetting, fam: Family, hop: Hop) {
    && hop.Via? && hop.iface == (if fam.V4? then w.physIface4 else w.physIface6)
    && match g
       case Auto => Some(hop.gateway) == (if fam.V4? then w.gateway4 else w.gateway6)
       case Explicit(a) => hop.gateway == a && a.fam == fam
       case Malformed => false
  }

  /** The profile makes the route: one of its aggregated destinations outside the tunnels'
      networks, by its gateway. */
  ghost predicate Makes(d: DesiredInput, nets: seq<Prefix>, p: Profile, r: Route) {
    && p.enabled && p.mode.Exclude? && GoesBy(d.net, p.gateway, r.dst.fam, r.hop)
    && r.table == MAIN && r.dst in MaximalBlocks(Excluded(p, nets, r.dst.fam))
  }

  lemma {:induction false} ExcludedFamily(p: Profile, nets: seq<Prefix>, fam: Family, q: Prefix)
    requires q in MaximalBlocks(Excluded(p, nets, fam))
    ensures q.fam == fam
  {
    var own := Excluded(p, nets, fam);
    MaximalBlocksExact(own);
    ContainsFirst(q);
    assert Covers(MaximalBlocks(own), First(q));
    assert Covers(own, First(q));
    var x :| x in own && Contains(x, First(q));
    OutsideMembers(OfFamily(p.prefixes, fam), nets, x);
    OfFamilyMembers(p.prefixes, fam, x);
  }

  lemma {:induction false} MakesIff(d: DesiredInput, nets: seq<Prefix>, p: Profile, r: Route)
    ensures Makes(d, nets, p, r) <==> exists fam :: IsExclude(d, p, nets, fam, r)
  {
    if fam :| IsExclude(d, p, nets, fam, r) {
      ExcludedFamily(p, nets, fam, r.dst);
    }
    if Makes(d, nets, p, r) {
      assert IsExclude(d, p, nets, r.dst.fam, r);
    }
  }

  /** The first of the profiles that makes the route. */
  ghost predicate FirstMaker(d: DesiredInput, nets: seq<Prefix>, ps: seq<Profile>, m: Managed, i: nat) {
    && i < |ps| && Makes(d, nets, ps[i], m.route) && m.origin == OfProfile(ps[i].id)
    && forall j :: 0 <= j < i ==> !Makes(d, nets, ps[j], m.route)
  }

  lemma {:induction false} BypassOwner(blocks: seq<Prefix>, hop: Hop, id: string)
    ensures forall m :: m in Bypass(blocks, hop, id) ==> m.origin == OfProfile(id)
  {
    if blocks != [] { BypassOwner(blocks[..|blocks| - 1], hop, id); }
  }

  lemma {:induction false} MadeBy(d: DesiredInput, nets: seq<Prefix>, p: Profile, m: Managed)
    requires p.enabled && p.mode.Exclude?
    requires m in ExcludeFamily(d, p, nets, V4) + ExcludeFamily(d, p, nets, V6)
    ensures m.origin == OfProfile(p.id) && Makes(d, nets, p, m.route)
  {
    var fam := if m in ExcludeFamily(d, p, nets, V4) then V4 else V6;
    FamilyKeys(d, p, nets, fam, m.route);
    BypassOwner(MaximalBlocks(Excluded(p, nets, fam)), ResolveGateway(p.gateway, fam, d.net).value, p.id);
    assert m.route in Keys(ExcludeFamily(d, p, nets, fam));
    MakesIff(d, nets, p, m.route);
  }

  lemma {:induction false} AddedNew(rs: seq<Managed>, ms: seq<Managed>, m: Managed)
    requires m in AddRoutes(rs, ms) && m !in rs
    ensures m in ms && m.route !in Keys(rs)
  {
    var k := |ms| - 1;
    if m in AddRoutes(rs, ms[..k]) {
      AddedNew(rs, ms[..k], m);
    } else {
      AddRoutesKeys(rs, ms[..k]);
    }
  }

  lemma {:induction false} FirstMakerBuilds(d: DesiredInput, nets: seq<Prefix>, ps: seq<Profile>, m: Managed)
    requires BuildProfiles(d, nets, ps).Built? && m in BuildProfiles(d, nets, ps).routes
    ensures exists i: nat :: FirstMaker(d, nets, ps, m, i)
  {
    hide Makes, ExcludeFamily, IncludeFamily, AddRules, Unroutable, HasDestinations, NeedsVpn;
    var k := |ps| - 1;
    var p, o := ps[k], BuildProfiles(d, nets, ps[..k]);
    if m in o.routes {
      FirstMakerBuilds(d, nets, ps[..k], m);
      var i: nat :| FirstMaker(d, nets, ps[..k], m, i);
      assert FirstMaker(d, nets, ps, m, i);
    } else {
      AddedNew(o.routes, ExcludeFamily(d, p, nets, V4) + ExcludeFamily(d, p, nets, V6), m);
      MadeBy(d, nets, p, m);
      NoneBefore(d, nets, ps, m);
      assert FirstMaker(d, nets, ps, m, k);
    }
  }

  lemma {:induction false} NoneBefore(d: DesiredInput, nets: seq<Prefix>, ps: seq<Profile>, m: Managed)
    requires ps != [] && BuildProfiles(d, nets, ps[..|ps| - 1]).Built?
    requires m.route !in Keys(BuildProfiles(d, nets, ps[..|ps| - 1]).routes)
    ensures forall j :: 0 <= j < |ps| - 1 ==> !Makes(d, nets, ps[j], m.route)
  {
    var before := ps[..|ps| - 1];
    hide BuildProfiles, Makes, IsExclude;
    ProfileRoutes(d, nets, before, m.route);
    forall j | 0 <= j < |ps| - 1
      ensures !Makes(d, nets, ps[j], m.route)
    {
      MakesIff(d, nets, ps[j], m.route);
      assert ps[j] in before;
    }
  }

  /** A built route of a profile's is the one of the highest priority that makes it; no
      other enabled exclude profile that makes the same route comes before it. */
  lemma {:induction false} HighestOwns(d: DesiredInput, m: Managed)
    requires BuildDesired(d).Built? && m in BuildDesired(d).routes && m.route.table == MAIN && !m.origin.OfTunnel?
    ensures exists p :: p in d.profiles && m.origin == OfProfile(p.id) && Makes(d, Plan(d.net).nets, p, m.route) &&
                        forall q :: q in d.profiles && Makes(d, Plan(d.net).nets, q, m.route) ==> q.priority <= p.priority
  {
    hide Plan, BuildProfiles, BuildDesired, SortProfiles, Makes, OfPriority;
    var nets, ps := Plan(d.net).nets, SortProfiles(d.profiles);
    SortProfilesMembers(d.profiles);
    ProfilesInOrder(d.profiles);
    OfProfiles(d, m);
    FirstMakerBuilds(d, nets, ps, m);
    var i: nat :| FirstMaker(d, nets, ps, m, i);
    assert ps[i] in ps;
    forall q | q in d.profiles && Makes(d, nets, q, m.route)
      ensures q.priority <= ps[i].priority
    {
      var j :| 0 <= j < |ps| && ps[j] == q;
    }
  }

  lemma {:induction false} OfProfiles(d: DesiredInput, m: Managed)
    requires BuildDesired(d).Built? && m in BuildDesired(d).routes && m.route.table == MAIN && !m.origin.OfTunnel?
    ensures var o := BuildProfiles(d, Plan(d.net).nets, SortProfiles(d.profiles));
            o.Built? && m in o.routes
  {
    var tp, ps := Plan(d.net), SortProfiles(d.profiles);
    BuiltFrom(d);
    PlanRoutesDistinct(d.net);
    hide Plan, BuildProfiles, BuildDesired, SortProfiles, Defaults;
    PlaceMembers(BuildProfiles(d, tp.nets, ps).routes, tp.routes);
  }

  /** And every route an enabled exclude profile makes is built. */
  lemma {:induction false} MadeIsBuilt(d: DesiredInput, p: Profile, r: Route)
    requires BuildDesired(d).Built? && p in d.profiles && Makes(d, Plan(d.net).nets, p, r)
    ensures r in Keys(BuildDesired(d).routes)
  {
    var tp, ps := Plan(d.net), SortProfiles(d.profiles);
    var o := BuildProfiles(d, tp.nets, ps);
    BuiltFrom(d);
    PlaceMembers(o.routes, tp.routes);
    SortProfilesMembers(d.profiles);
    hide Plan, BuildProfiles, BuildDesired, Place, SortProfiles, Makes, IsExclude;
    MakesIff(d, tp.nets, p, r);
    var fam :| IsExclude(d, p, tp.nets, fam, r);
    assert ExcludeRoute(d, ps, tp.nets, r);
    ProfileRoutes(d, tp.nets, ps, r);
    var m :| m in o.routes && m.route == r;
  }

  // ---------- why nothing is built ----------

  /** The profile lists a destination that lies in none of the networks. */
  ghost predicate ListsOutside(p: Profile, nets: seq<Prefix>, q: Prefix) {
    q in p.prefixes && !InsideOne(nets, q)
  }

  /** The profile lists an address of the family outside the networks. */
  ghost predicate ReachesOutside(p: Profile, nets: seq<Prefix>, fam: Family) {
    exists a: Addr :: a.fam == fam && Covers(p.prefixes, a) && !Covers(nets, a)
  }

  /** The profile stops the build, and why. */
  ghost predicate Stops(d: DesiredInput, nets: seq<Prefix>, p: Profile, why: Failure) {
    p.enabled &&
    match why
    case NoPolicyRouting => p.mode.Include? && !d.policyRouting
    case NoVpn => p.mode.Include? && exists fam: Family :: (if fam.V4? then d.vpn4 else d.vpn6).iface == "" && ReachesOutside(p, nets, fam)
    case BadGateway => p.mode.Exclude? && p.gateway.Malformed? && exists q :: ListsOutside(p, nets, q)
    case NoGateway =>
      && p.mode.Exclude? && !p.gateway.Malformed? && (exists q :: ListsOutside(p, nets, q))
      && forall q, hop :: ListsOutside(p, nets, q) ==> !GoesBy(d.net, p.gateway, q.fam, hop)
  }

  lemma {:induction false} ExcludedIff(p: Profile, nets: seq<Prefix>, fam: Family)
    ensures Excluded(p, nets, fam) != [] <==> exists q :: ListsOutside(p, nets, q) && q.fam == fam
  {
    var own := OfFamily(p.prefixes, fam);
    if Excluded(p, nets, fam) != [] {
      var q := Excluded(p, nets, fam)[0];
      OutsideMembers(own, nets, q);
      OfFamilyMembers(p.prefixes, fam, q);
      assert ListsOutside(p, nets, q) && q.fam == fam;
    }
    if q :| ListsOutside(p, nets, q) && q.fam == fam {
      OfFamilyMembers(p.prefixes, fam, q);
      OutsideMembers(own, nets, q);
    }
  }

  lemma {:induction false} ResolvedIff(d: DesiredInput, g: GatewaySetting, fam: Family)
    ensures ResolveGateway(g, fam, d.net).Some? <==> exists hop :: GoesBy(d.net, g, fam, hop)
  {
    if ResolveGateway(g, fam, d.net).Some? {
      assert GoesBy(d.net, g, fam, ResolveGateway(g, fam, d.net).value);
    }
  }

  lemma {:induction false} IncludedIff(d: DesiredInput, p: Profile, nets: seq<Prefix>, fam: Family)
    ensures IncludeFamily(d, p, nets, fam) != [] <==> ReachesOutside(p, nets, fam)
    ensures forall m :: m in IncludeFamily(d, p, nets, fam) ==> m.rule.target.fam == fam
  {
    var own, listed := Included(p, nets, fam), OfFamily(p.prefixes, fam);
    var blocks := MaximalBlocks(own);
    MaximalBlocksExact(own);
    RulesOfBlocks(blocks, IncludeTarget(d, fam), p.id);
    hide MaximalBlocks, RulesTo;
    if blocks != [] {
      var a := First(blocks[0]);
      ContainsFirst(blocks[0]);
      assert Covers(blocks, a);
      assert Covers(own, a);
      if nets != [] { AroundCover(listed, nets, a); }
      var q :| q in listed && Contains(q, a);
      OfFamilyMembers(p.prefixes, fam, q);
    }
    if a: Addr :| a.fam == fam && Covers(p.prefixes, a) && !Covers(nets, a) {
      var q :| q in p.prefixes && Contains(q, a);
      OfFamilyMembers(p.prefixes, fam, q);
      assert Covers(listed, a);
      if nets != [] { AroundCover(listed, nets, a); }
      assert Covers(blocks, a);
    }
  }

  lemma {:induction false} RulesOfBlocks(blocks: seq<Prefix>, t: Target, id: string)
    ensures RulesTo(blocks, t, id) == [] <==> blocks == []
    ensures forall m :: m in RulesTo(blocks, t, id) ==> m.rule.target == t
  {
    if blocks != [] { RulesOfBlocks(blocks[..|blocks| - 1], t, id); }
  }

  lemma {:induction false} NeedsVpnIff(d: DesiredInput, p: Profile, nets: seq<Prefix>)
    ensures NeedsVpn(d, IncludeFamily(d, p, nets, V4) + IncludeFamily(d, p, nets, V6)) <==>
            exists fam: Family :: (if fam.V4? then d.vpn4 else d.vpn6).iface == "" && ReachesOutside(p, nets, fam)
  {
    var r4, r6 := IncludeFamily(d, p, nets, V4), IncludeFamily(d, p, nets, V6);
    IncludedIff(d, p, nets, V4);
    IncludedIff(d, p, nets, V6);
    hide IncludeFamily, ReachesOutside;
    if r4 != [] { assert r4[0] in r4 && r4[0] in r4 + r6; }
    if r6 != [] { assert r6[0] in r6 && r6[0] in r4 + r6; }
  }

  lemma {:induction false} UnroutableIff(d: DesiredInput, p: Profile, nets: seq<Prefix>)
    ensures HasDestinations(p, nets) <==> exists q :: ListsOutside(p, nets, q)
    ensures Unroutable(d, p, nets) <==>
            && (exists q :: ListsOutside(p, nets, q))
            && forall q, hop :: ListsOutside(p, nets, q) ==> !GoesBy(d.net, p.gateway, q.fam, hop)
  {
    forall fam
      ensures Excluded(p, nets, fam) != [] <==> exists q :: ListsOutside(p, nets, q) && q.fam == fam
      ensures ResolveGateway(p.gateway, fam, d.net).Some? <==> exists hop :: GoesBy(d.net, p.gateway, fam, hop)
    {
      ExcludedIff(p, nets, fam);
      ResolvedIff(d, p.gateway, fam);
    }
    hide ListsOutside, GoesBy, Excluded, ResolveGateway;
    if q :| ListsOutside(p, nets, q) { assert q.fam == V4 || q.fam == V6; }
  }

  /** One profile's step fails with a reason exactly if the profile stops the build for it —
      on Linux, for want of a VPN only once all profiles are built. */
  lemma {:induction false} StepFails(d: DesiredInput, nets: seq<Prefix>, p: Profile, o: Outcome, why: Failure)
    requires o.Built?
    ensures BuildProfile(d, nets, p, o) == Failed(why) ==> Stops(d, nets, p, why)
    ensures Stops(d, nets, p, why) && (why.NoVpn? ==> d.platform.Darwin?) ==> BuildProfile(d, nets, p, o).Failed?
  {
    NeedsVpnIff(d, p, nets);
    UnroutableIff(d, p, nets);
    hide IncludeFamily, ExcludeFamily, AddRoutes, AddRules, NeedsVpn, Unroutable, HasDestinations, ListsOutside,
         ReachesOutside, GoesBy;
  }

  lemma {:induction false} ProfilesFail(d: DesiredInput, nets: seq<Prefix>, ps: seq<Profile>, why: Failure)
    requires BuildProfiles(d, nets, ps) == Failed(why)
    ensures exists p :: p in ps && Stops(d, nets, p, why)
  {
    hide BuildProfile, Stops;
    var k := |ps| - 1;
    var o := BuildProfiles(d, nets, ps[..k]);
    if o.Failed? {
      AlreadyFailed(d, nets, ps[k], o);
      ProfilesFail(d, nets, ps[..k], why);
      var p :| p in ps[..k] && Stops(d, nets, p, why);
      assert p in ps;
    } else {
      StepFails(d, nets, ps[k], o, why);
      assert ps[k] in ps;
    }
  }

  lemma {:induction false} AlreadyFailed(d: DesiredInput, nets: seq<Prefix>, p: Profile, o: Outcome)
    requires o.Failed?
    ensures BuildProfile(d, nets, p, o) == o
  {
  }

  lemma {:induction false} ProfilesStop(d: DesiredInput, nets: seq<Prefix>, ps: seq<Profile>, p: Profile, why: Failure)
    requires p in ps && Stops(d, nets, p, why) && (why.NoVpn? ==> d.platform.Darwin?)
    ensures BuildProfiles(d, nets, ps).Failed?
  {
    hide BuildProfile, Stops;
    var k := |ps| - 1;
    assert ps == ps[..k] + [ps[k]];
    var o := BuildProfiles(d, nets, ps[..k]);
    if o.Failed? {
      AlreadyFailed(d, nets, ps[k], o);
    } else if p == ps[k] {
      StepFails(d, nets, p, o, why);
    } else {
      ProfilesStop(d, nets, ps[..k], p, why);
    }
  }

  /** When nothing is built, one of the profiles stops the build for the reason given. */
  lemma {:induction false} FailureIsTrue(d: DesiredInput)
    requires BuildDesired(d).Failed?
    ensures exists p :: p in d.profiles && Stops(d, Plan(d.net).nets, p, BuildDesired(d).why)
  {
    var nets, ps := Plan(d.net).nets, SortProfiles(d.profiles);
    var o := BuildProfiles(d, nets, ps);
    SortProfilesMembers(d.profiles);
    hide Plan, BuildProfiles, SortProfiles, Stops, Place, AddRoutes, Defaults, NeedsVpn, Stranded;
    if o.Failed? {
      ProfilesFail(d, nets, ps, o.why);
    } else {
      StrandedMeans(d, nets, ps);
      StrandedSomewhere(d, nets, ps);
    }
  }

  lemma {:induction false} StrandedSomewhere(d: DesiredInput, nets: seq<Prefix>, ps: seq<Profile>)
    requires Stranded(d, nets, ps)
    ensures exists p :: p in ps && Stops(d, nets, p, NoVpn)
  {
    var r :| IncludeRule(d, ps, nets, r) && VpnFor(d, r.target.fam).iface == "";
    var p, fam :| p in ps && IsInclude(d, p, nets, fam, r);
    RulesToKeys(MaximalBlocks(Included(p, nets, fam)), IncludeTarget(d, fam), p.id, r);
    IncludedIff(d, p, nets, fam);
    assert r in RuleKeys(IncludeFamily(d, p, nets, fam));
    assert Stops(d, nets, p, NoVpn);
  }

  /** There is a result exactly if no enabled profile stops the build: each include profile
      has policy routing, and a VPN for each family it reaches; each exclude profile with a
      destination has a gateway that can be read, and that carries one of them. */
  lemma {:induction false} BuiltUnlessStopped(d: DesiredInput)
    ensures BuildDesired(d).Built? <==> forall p, why :: p in d.profiles ==> !Stops(d, Plan(d.net).nets, p, why)
  {
    hide Plan, BuildProfiles, SortProfiles, Stops, BuildDesired;
    if BuildDesired(d).Failed? {
      FailureIsTrue(d);
    } else {
      forall p, why | p in d.profiles
        ensures !Stops(d, Plan(d.net).nets, p, why)
      {
        if Stops(d, Plan(d.net).nets, p, why) { StoppedFails(d, p, why); }
      }
    }
  }

  lemma {:induction false} StoppedFails(d: DesiredInput, p: Profile, why: Failure)
    requires p in d.profiles && Stops(d, Plan(d.net).nets, p, why)
    ensures BuildDesired(d).Failed?
  {
    var nets, ps := Plan(d.net).nets, SortProfiles(d.profiles);
    SortProfilesMembers(d.profiles);
    BuiltFromProfiles(d);
    hide Plan, BuildProfiles, SortProfiles, BuildDesired, Stranded;
    if why.NoVpn? && d.platform.Linux? && BuildProfiles(d, nets, ps).Built? {
      StrandedHere(d, nets, ps, p);
    } else if BuildProfiles(d, nets, ps).Built? {
      ProfilesStop(d, nets, ps, p, why);
    }
  }

  lemma {:induction false} StrandedHere(d: DesiredInput, nets: seq<Prefix>, ps: seq<Profile>, p: Profile)
    requires p in ps && Stops(d, nets, p, NoVpn)
    ensures Stranded(d, nets, ps)
  {
    var fam: Family :| (if fam.V4? then d.vpn4 else d.vpn6).iface == "" && ReachesOutside(p, nets, fam);
    IncludedIff(d, p, nets, fam);
    var m := IncludeFamily(d, p, nets, fam)[0];
    assert m in IncludeFamily(d, p, nets, fam);
    assert m.rule in RuleKeys(IncludeFamily(d, p, nets, fam));
    RulesToKeys(MaximalBlocks(Included(p, nets, fam)), IncludeTarget(d, fam), p.id, m.rule);
    assert IsInclude(d, p, nets, fam, m.rule);
  }

  lemma {:induction false} BuiltFromProfiles(d: DesiredInput)
    ensures var nets, ps := Plan(d.net).nets, SortProfiles(d.profiles);
            BuildDesired(d).Built? ==> BuildProfiles(d, nets, ps).Built? && (d.platform.Linux? ==> !Stranded(d, nets, ps))
  {
    var nets, ps := Plan(d.net).nets, SortProfiles(d.profiles);
    hide Plan, BuildProfiles, SortProfiles, Stranded, NeedsVpn, Place, AddRoutes, Defaults;
    if BuildProfiles(d, nets, ps).Built? { StrandedMeans(d, nets, ps); }
  }
}
