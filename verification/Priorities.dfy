/** Profiles are built in order of priority, but the result is sorted by key: priorities, and
the order profiles are listed in, decide neither a next hop nor a rule, nor whether there
is a result (internal/routing/engine.go).
 */
module Priorities {
  import opened KeyOrder
  import opened Prefixes
  import opened Aggregation
  import opened Routes
  import opened Planner
  import opened Desired
  import opened Incremental
  import opened Preference

  /** Different addresses are written differently. */
  ghost predicate TellsApart(w: Writing) {
    forall x: Addr, y: Addr :: w.addr(x) == w.addr(y) ==> x == y
  }

  /** The two lists have the same profiles, but for their order and priorities. */
  ghost predicate SameProfiles(ps: seq<Profile>, qs: seq<Profile>) {
    && (forall p :: p in ps ==> Listing(qs, p))
    && (forall q :: q in qs ==> Listing(ps, q))
  }

  ghost predicate Listing(ps: seq<Profile>, q: Profile) {
    exists p :: p in ps && SameButPriority(p, q)
  }

  predicate SameButPriority(p: Profile, q: Profile) {
    p.(priority := q.priority) == q
  }

  function Reordered(d: DesiredInput, qs: seq<Profile>): DesiredInput {
    d.(profiles := qs)
  }

  // ---------- keys of one address's candidates ----------

  lemma {:induction false} CancelPrefix(p: string, x: string, y: string)
    requires p + x == p + y
    ensures x == y
  {
    assert x == (p + x)[|p|..] && y == (p + y)[|p|..];
  }

  lemma {:induction false} CancelSuffix(x: string, y: string, s: string)
    requires x + s == y + s
    ensures x == y
  {
    assert |x + s| == |y + s|;
    assert x == (x + s)[..|x|] && y == (y + s)[..|y|];
  }

  /** Two routes that differ in their gateways at most have one key only if they are one. */
  lemma {:induction false} KeyTellsGateway(w: Writing, r: Route, s: Route)
    requires TellsApart(w) && RouteKey(w, r) == RouteKey(w, s)
    requires r.table == s.table && r.dst == s.dst && r.hop.Via? && s.hop.Via? && r.hop.iface == s.hop.iface
    ensures r == s
  {
    var front := FamilyText(r.dst.fam) + "|" + r.table + "|" + w.cidr(r.dst) + "|";
    var back := "|" + r.hop.iface;
    var x, y := w.addr(r.hop.gateway), w.addr(s.hop.gateway);
    assert RouteKey(w, r) == front + (x + back) by { assert x + "|" + r.hop.iface == x + back; }
    assert RouteKey(w, s) == front + (y + back) by { assert y + "|" + s.hop.iface == y + back; }
    CancelPrefix(front, x + back, y + back);
    CancelSuffix(x, y, back);
  }

  /** A profile's route for an address: around it, through a gateway, on the physical
      interface. */
  lemma {:induction false} CandidateIs(d: DesiredInput, cut: seq<Prefix>, p: Profile, a: Addr)
    ensures var r := ProfileRoute(d, cut, p, a);
            r.Some? ==> r.value.table == MAIN && Contains(r.value.dst, a) && r.value.hop.Via? &&
                        r.value.hop.iface == PhysIface(d.net, a.fam)
  {
    AroundMeans(MaximalBlocks(Excluded(p, cut, a.fam)), a);
  }

  // ---------- the preferred candidate ----------

  /** r is a candidate for the address. */
  ghost predicate Candidate(d: DesiredInput, cut: seq<Prefix>, ps: seq<Profile>, a: Addr, r: Route) {
    exists p :: p in ps && ProfileRoute(d, cut, p, a) == Some(r)
  }

  /** The preferred route is a candidate, and no candidate is ahead of it. */
  lemma {:induction false} PreferredMeans(d: DesiredInput, cut: seq<Prefix>, ps: seq<Profile>, a: Addr)
    ensures var best := Preferred(d, cut, ps, a);
            && (best.Some? ==> Candidate(d, cut, ps, a, best.value))
            && forall r :: Candidate(d, cut, ps, a, r) ==> Ahead(d.writing, best, Some(r)) == best
  {
    hide ProfileRoute, RouteKey, Ahead;
    if ps != [] {
      var k := |ps| - 1;
      var b, l := Preferred(d, cut, ps[..k], a), ProfileRoute(d, cut, ps[k], a);
      PreferredMeans(d, cut, ps[..k], a);
      EitherAhead(d.writing, b, l);
      assert ps == ps[..k] + [ps[k]];
      forall r | Candidate(d, cut, ps, a, r)
        ensures Ahead(d.writing, Preferred(d, cut, ps, a), Some(r)) == Preferred(d, cut, ps, a)
      {
        var p :| p in ps && ProfileRoute(d, cut, p, a) == Some(r);
        assert p in ps[..k] ==> Candidate(d, cut, ps[..k], a, r);
        StillSettled(d.writing, b, l, Some(r));
      }
    }
  }

  lemma {:induction false} EitherAhead(w: Writing, b: Option<Route>, l: Option<Route>)
    ensures Ahead(w, b, l) == b || Ahead(w, b, l) == l
  {
  }

  /** Of two candidates of one address, neither ahead of the other, there is one only. */
  lemma {:induction false} OneBest(d: DesiredInput, cut: seq<Prefix>, ps: seq<Profile>, a: Addr, r: Route, s: Route)
    requires TellsApart(d.writing) && Candidate(d, cut, ps, a, r) && Candidate(d, cut, ps, a, s)
    requires Ahead(d.writing, Some(r), Some(s)) == Some(r) && Ahead(d.writing, Some(s), Some(r)) == Some(s)
    ensures r == s
  {
    var p :| p in ps && ProfileRoute(d, cut, p, a) == Some(r);
    var q :| q in ps && ProfileRoute(d, cut, q, a) == Some(s);
    CandidateIs(d, cut, p, a);
    CandidateIs(d, cut, q, a);
    hide ProfileRoute, RouteKey, TextLess, TellsApart;
    if r != s {
      SharedAddress(r.dst, s.dst, a);
      TextTotal(RouteKey(d.writing, r), RouteKey(d.writing, s));
      assert |r.dst.bits| == |s.dst.bits|;
      KeyTellsGateway(d.writing, r, s);
    }
  }

  lemma {:induction false} SameCandidates(d: DesiredInput, qs: seq<Profile>, cut: seq<Prefix>, ps: seq<Profile>,
      rs: seq<Profile>, a: Addr, r: Route)
    requires SameProfiles(ps, rs) && Candidate(d, cut, ps, a, r)
    ensures Candidate(Reordered(d, qs), cut, rs, a, r)
  {
    hide ProfileRoute;
    var p :| p in ps && ProfileRoute(d, cut, p, a) == Some(r);
    assert Listing(rs, p);
    var q :| q in rs && SameButPriority(q, p);
    RouteAlike(d, qs, cut, p, q, a);
  }

  lemma {:induction false} RouteAlike(d: DesiredInput, qs: seq<Profile>, cut: seq<Prefix>, p: Profile, q: Profile, a: Addr)
    requires SameButPriority(q, p)
    ensures ProfileRoute(Reordered(d, qs), cut, q, a) == ProfileRoute(d, cut, p, a)
  {
    hide MaximalBlocks, BlockAround;
    assert Excluded(q, cut, a.fam) == Excluded(p, cut, a.fam);
  }

  /** The same profiles, ordered and prioritised otherwise, are preferred alike. */
  lemma {:induction false} OrderNeverDecides(d: DesiredInput, qs: seq<Profile>, cut: seq<Prefix>, ps: seq<Profile>,
      rs: seq<Profile>, a: Addr)
    requires TellsApart(d.writing) && SameProfiles(ps, rs)
    ensures Preferred(d, cut, ps, a) == Preferred(Reordered(d, qs), cut, rs, a)
  {
    var e := Reordered(d, qs);
    PreferredMeans(d, cut, ps, a);
    PreferredMeans(e, cut, rs, a);
    var x, y := Preferred(d, cut, ps, a), Preferred(e, cut, rs, a);
    hide Preferred, Candidate, RouteKey, TextLess, TellsApart;
    if x.Some? { SameCandidates(d, qs, cut, ps, rs, a, x.value); }
    SameAgain(ps, rs);
    if y.Some? { SameCandidates(e, d.profiles, cut, rs, ps, a, y.value); }
    assert Reordered(e, d.profiles) == d;
    if x.Some? && y.Some? {
      OneBest(d, cut, ps, a, x.value, y.value);
    }
  }

  // ---------- whether there is a result ----------

  /** A profile that cannot be built, whatever the others are. */
  predicate Fails(d: DesiredInput, nets: seq<Prefix>, p: Profile) {
    BuildProfile(d, nets, p, Built([], [])).Failed?
  }

  lemma {:induction false} FailsAnywhere(d: DesiredInput, nets: seq<Prefix>, p: Profile, o: Outcome)
    requires o.Built?
    ensures BuildProfile(d, nets, p, o).Failed? <==> Fails(d, nets, p)
  {
    hide IncludeFamily, ExcludeFamily, AddRoutes, AddRules, NeedsVpn, Unroutable, HasDestinations;
  }

  ghost predicate SomeFails(d: DesiredInput, nets: seq<Prefix>, ps: seq<Profile>) {
    exists p :: p in ps && Fails(d, nets, p)
  }

  lemma {:induction false} BuiltUnlessFails(d: DesiredInput, nets: seq<Prefix>, ps: seq<Profile>)
    ensures BuildProfiles(d, nets, ps).Built? <==> !SomeFails(d, nets, ps)
  {
    hide Fails;
    if ps != [] {
      var k := |ps| - 1;
      BuiltUnlessFails(d, nets, ps[..k]);
      assert ps == ps[..k] + [ps[k]];
      var o := BuildProfiles(d, nets, ps[..k]);
      if o.Built? { FailsAnywhere(d, nets, ps[k], o); }
    }
  }

  lemma {:induction false} FailsAlike(d: DesiredInput, qs: seq<Profile>, nets: seq<Prefix>, p: Profile, q: Profile)
    requires SameButPriority(p, q)
    ensures Fails(d, nets, p) <==> Fails(Reordered(d, qs), nets, q)
  {
    hide SortBy, MaximalBlocks;
    var e := Reordered(d, qs);
    forall fam
      ensures Excluded(p, nets, fam) == Excluded(q, nets, fam)
      ensures ResolveGateway(p.gateway, fam, d.net) == ResolveGateway(q.gateway, fam, e.net)
      ensures IncludeFamily(d, p, nets, fam) == IncludeFamily(e, q, nets, fam)
    {
      assert Included(p, nets, fam) == Included(q, nets, fam);
      assert IncludeTarget(d, fam) == IncludeTarget(e, fam);
    }
    hide Excluded, IncludeFamily, ResolveGateway;
    forall rules
      ensures NeedsVpn(d, rules) <==> NeedsVpn(e, rules)
    {
      assert forall fam :: VpnFor(d, fam) == VpnFor(e, fam);
    }
  }

  lemma {:induction false} ListedAgain(ps: seq<Profile>, rs: seq<Profile>, p: Profile)
    requires SameProfiles(ps, rs) && p in ps
    ensures Listing(rs, p)
  {
  }

  lemma {:induction false} SomeFailsAlike(d: DesiredInput, qs: seq<Profile>, nets: seq<Prefix>, ps: seq<Profile>,
      rs: seq<Profile>)
    requires SameProfiles(ps, rs) && SomeFails(d, nets, ps)
    ensures SomeFails(Reordered(d, qs), nets, rs)
  {
    hide Fails, SameProfiles;
    var p :| p in ps && Fails(d, nets, p);
    ListedAgain(ps, rs, p);
    assert Listing(rs, p);
    var q :| q in rs && SameButPriority(q, p);
    assert SameButPriority(p, q);
    FailsAlike(d, qs, nets, p, q);
  }

  lemma {:induction false} IncludesAlike(d: DesiredInput, qs: seq<Profile>, nets: seq<Prefix>, ps: seq<Profile>,
      rs: seq<Profile>, r: Rule)
    requires SameProfiles(ps, rs) && IncludeRule(d, ps, nets, r)
    ensures IncludeRule(Reordered(d, qs), rs, nets, r)
  {
    hide IsInclude;
    var p, fam :| p in ps && IsInclude(d, p, nets, fam, r);
    assert Listing(rs, p);
    var q :| q in rs && SameButPriority(q, p);
    IncludeAlike(d, qs, nets, p, q, fam, r);
  }

  lemma {:induction false} IncludeAlike(d: DesiredInput, qs: seq<Profile>, nets: seq<Prefix>, p: Profile, q: Profile,
      fam: Family, r: Rule)
    requires SameButPriority(q, p) && IsInclude(d, p, nets, fam, r)
    ensures IsInclude(Reordered(d, qs), q, nets, fam, r)
  {
    hide MaximalBlocks;
    assert Included(p, nets, fam) == Included(q, nets, fam);
    assert IncludeTarget(d, fam) == IncludeTarget(Reordered(d, qs), fam);
  }

  /** Some rule to be built has no VPN to go into. */
  ghost predicate Stranded(d: DesiredInput, nets: seq<Prefix>, ps: seq<Profile>) {
    exists r :: IncludeRule(d, ps, nets, r) && VpnFor(d, r.target.fam).iface == ""
  }

  lemma {:induction false} StrandedMeans(d: DesiredInput, nets: seq<Prefix>, ps: seq<Profile>)
    requires BuildProfiles(d, nets, ps).Built?
    ensures NeedsVpn(d, BuildProfiles(d, nets, ps).rules) <==> Stranded(d, nets, ps)
  {
    var rules := BuildProfiles(d, nets, ps).rules;
    hide BuildProfiles, IncludeRule;
    if NeedsVpn(d, rules) {
      var m :| m in rules && VpnFor(d, m.rule.target.fam).iface == "";
      assert m.rule in RuleKeys(rules);
      ProfileRules(d, nets, ps, m.rule);
    }
    if Stranded(d, nets, ps) {
      var r :| IncludeRule(d, ps, nets, r) && VpnFor(d, r.target.fam).iface == "";
      ProfileRules(d, nets, ps, r);
      var m :| m in rules && m.rule == r;
    }
  }

  /** There is a result exactly when no profile fails and, but on macOS, none of its rules
      is stranded. */
  lemma {:induction false} BuiltIff(d: DesiredInput)
    ensures var nets, ps := Plan(d.net).nets, SortProfiles(d.profiles);
            BuildDesired(d).Built? <==> !SomeFails(d, nets, ps) && (d.platform.Darwin? || !Stranded(d, nets, ps))
  {
    hide Plan, BuildProfiles, SortProfiles, SomeFails, Stranded, NeedsVpn, Place, AddRoutes, Defaults, SortBy;
    var nets, ps := Plan(d.net).nets, SortProfiles(d.profiles);
    BuiltUnlessFails(d, nets, ps);
    if BuildProfiles(d, nets, ps).Built? { StrandedMeans(d, nets, ps); }
  }

  lemma {:induction false} SameAgain(ps: seq<Profile>, qs: seq<Profile>)
    requires SameProfiles(ps, qs)
    ensures SameProfiles(qs, ps)
  {
  }

  lemma {:induction false} SortedSame(ps: seq<Profile>, qs: seq<Profile>)
    requires SameProfiles(ps, qs)
    ensures SameProfiles(SortProfiles(ps), SortProfiles(qs))
  {
    SortProfilesMembers(ps);
    SortProfilesMembers(qs);
    hide SortProfiles;
    forall p | p in SortProfiles(ps)
      ensures Listing(SortProfiles(qs), p)
    {
      assert Listing(qs, p);
      var q :| q in qs && SameButPriority(q, p);
      assert q in SortProfiles(qs);
    }
    forall q | q in SortProfiles(qs)
      ensures Listing(SortProfiles(ps), q)
    {
      assert Listing(ps, q);
      var p :| p in ps && SameButPriority(p, q);
      assert p in SortProfiles(ps);
    }
  }

  lemma {:induction false} StillBuilt(d: DesiredInput, qs: seq<Profile>)
    requires SameProfiles(d.profiles, qs) && BuildDesired(d).Built?
    ensures BuildDesired(Reordered(d, qs)).Built?
  {
    hide Plan, BuildDesired, SortProfiles, SomeFails, IncludeRule, SameProfiles;
    var e, nets := Reordered(d, qs), Plan(d.net).nets;
    var ps, rs := SortProfiles(d.profiles), SortProfiles(qs);
    SortedSame(d.profiles, qs);
    SameAgain(ps, rs);
    BuiltIff(d);
    BuiltIff(e);
    assert Reordered(e, d.profiles) == d;
    if SomeFails(e, nets, rs) { SomeFailsAlike(e, d.profiles, nets, rs, ps); }
    if Stranded(e, nets, rs) {
      var r :| IncludeRule(e, rs, nets, r) && VpnFor(e, r.target.fam).iface == "";
      IncludesAlike(e, d.profiles, nets, rs, ps, r);
      assert VpnFor(d, r.target.fam) == VpnFor(e, r.target.fam);
    }
  }

  // ---------- the theorem ----------

  /** Profiles ordered and prioritised otherwise give a result if they did, with the same
      rules and the same next hop for every address. */
  lemma {:induction false} PriorityNeverDecides(d: DesiredInput, qs: seq<Profile>, a: Addr)
    requires TellsApart(d.writing) && SameProfiles(d.profiles, qs) && BuildDesired(d).Built?
    ensures var e := Reordered(d, qs);
            && BuildDesired(e).Built?
            && NextHop(BuildDesired(e).routes, a) == NextHop(BuildDesired(d).routes, a)
            && RuleKeys(BuildDesired(e).rules) == RuleKeys(BuildDesired(d).rules)
  {
    var e, nets := Reordered(d, qs), Plan(d.net).nets;
    var ps, rs := SortProfiles(d.profiles), SortProfiles(qs);
    hide Plan, BuildDesired, SortProfiles, SameProfiles, TellsApart, NextHop, Preferred, IncludeRule, RuleKeys;
    StillBuilt(d, qs);
    SortedSame(d.profiles, qs);
    SameAgain(ps, rs);
    FullLead(d, a);
    FullLead(e, a);
    OrderNeverDecides(d, qs, nets, ps, rs, a);
    assert Reordered(e, d.profiles) == d;
    forall r
      ensures r in RuleKeys(BuildDesired(e).rules) <==> r in RuleKeys(BuildDesired(d).rules)
    {
      FullRules(d, r);
      FullRules(e, r);
      if IncludeRule(d, ps, nets, r) { IncludesAlike(d, qs, nets, ps, rs, r); }
      if IncludeRule(e, rs, nets, r) { IncludesAlike(e, d.profiles, nets, rs, ps, r); }
    }
  }

  /** The same when only the tunnels' part is rebuilt. */
  lemma {:induction false} PriorityNeverDecidesBeside(d: DesiredInput, qs: seq<Profile>, a: Addr)
    requires TellsApart(d.writing) && SameProfiles(d.profiles, qs) && BuildDesired(Bare(d)).Built?
    ensures var e := Reordered(d, qs);
            && BuildDesired(Bare(e)).Built?
            && NextHop(Beside(Plan(e.net), BuildDesired(Bare(e)).routes), a) ==
               NextHop(Beside(Plan(d.net), BuildDesired(Bare(d)).routes), a)
  {
    var e := Reordered(d, qs);
    var ps, rs := SortProfiles(d.profiles), SortProfiles(qs);
    hide Plan, BuildDesired, SortProfiles, SameProfiles, TellsApart, NextHop, Preferred, Beside;
    assert Bare(e) == Reordered(Bare(d), qs);
    StillBuilt(Bare(d), qs);
    SortedSame(d.profiles, qs);
    BesideLead(d, a);
    BesideLead(e, a);
    OrderNeverDecides(d, qs, [], ps, rs, a);
  }

  // ---------- a way of writing that tells addresses apart ----------

  function BitText(bits: seq<bool>): string {
    if bits == [] then "" else BitText(bits[..|bits| - 1]) + [if bits[|bits| - 1] then '1' else '0']
  }

  lemma {:induction false} BitTextTells(x: seq<bool>, y: seq<bool>)
    requires BitText(x) == BitText(y)
    ensures x == y
  {
    BitTextLength(x);
    BitTextLength(y);
    if x != [] {
      var n := |x| - 1;
      var s, t := BitText(x[..n]), BitText(y[..n]);
      assert s == BitText(x)[..|s|] && t == BitText(y)[..|t|];
      BitTextLength(x[..n]);
      BitTextLength(y[..n]);
      BitTextTells(x[..n], y[..n]);
      assert BitText(x)[n] == BitText(y)[n];
      assert x == x[..n] + [x[n]] && y == y[..n] + [y[n]];
    }
  }

  lemma {:induction false} BitTextLength(x: seq<bool>)
    ensures |BitText(x)| == |x|
  {
    if x != [] { BitTextLength(x[..|x| - 1]); }
  }

  /** Writing out the bits does: addresses of different families differ in length. */
  lemma {:induction false} BitsTellApart(cidr: Prefix -> string, number: int -> string)
    ensures TellsApart(Writing(cidr, (a: Addr) => BitText(a.bits), number))
  {
    forall x: Addr, y: Addr | BitText(x.bits) == BitText(y.bits)
      ensures x == y
    {
      BitTextTells(x.bits, y.bits);
      assert |x.bits| == Width(x.fam) && |y.bits| == Width(y.fam);
    }
  }
}
