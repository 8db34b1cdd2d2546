/** What every tunnel plan guarantees, whatever the network and the tunnels. */
module PlannerSafety {
  import opened Prefixes
  import opened Aggregation
  import opened Subtraction
  import opened Routes
  import opened Planner

  // ---------- membership ----------

  lemma {:induction false} InsertTunnelMembers(ts: seq<TunnelInput>, t: TunnelInput)
    ensures forall u :: u in InsertTunnel(ts, t) <==> u == t || u in ts
  {
    if ts != [] && Before(ts[0], t) {
      InsertTunnelMembers(ts[1..], t);
      assert ts == [ts[0]] + ts[1..];
    }
  }

  lemma {:induction false} SortTunnelsMembers(ts: seq<TunnelInput>)
    ensures forall u :: u in SortTunnels(ts) <==> u in ts
  {
    if ts != [] {
      SortTunnelsMembers(ts[1..]);
      InsertTunnelMembers(SortTunnels(ts[1..]), ts[0]);
      assert ts == [ts[0]] + ts[1..];
    }
  }

  lemma {:induction false} UnheldMembers(addrs: seq<Addr>, held: set<Addr>, a: Addr)
    ensures a in Unheld(addrs, held) <==> a in addrs && a !in held
  {
    if addrs != [] {
      UnheldMembers(addrs[..|addrs| - 1], held, a);
      assert addrs == addrs[..|addrs| - 1] + [addrs[|addrs| - 1]];
    }
  }

  lemma {:induction false} AllServersMembers(ts: seq<TunnelInput>, t: TunnelInput, a: Addr)
    requires t in ts && a in ServersOf(t)
    ensures a in AllServers(ts)
  {
    var k := |ts| - 1;
    assert ts == ts[..k] + [ts[k]];
    if t in ts[..k] {
      AllServersMembers(ts[..k], t, a);
    }
  }

  lemma {:induction false} KeptInMembers(pfx: Prefix, addrs: seq<Addr>, a: Addr)
    requires a in addrs && Contains(pfx, a)
    ensures Kept(a, None) in KeptIn(pfx, addrs)
  {
    var k := |addrs| - 1;
    assert addrs == addrs[..k] + [addrs[k]];
    if a in addrs[..k] {
      KeptInMembers(pfx, addrs[..k], a);
    }
  }

  lemma {:induction false} KeptInSound(pfx: Prefix, addrs: seq<Addr>, k: Kept)
    requires k in KeptIn(pfx, addrs)
    ensures k.net.None? && Contains(pfx, k.addr) && k.addr in addrs
  {
    var n := |addrs| - 1;
    assert addrs == addrs[..n] + [addrs[n]];
    if k in KeptIn(pfx, addrs[..n]) {
      KeptInSound(pfx, addrs[..n], k);
    }
  }

  lemma {:induction false} FirstOfEachSound(ks: seq<Kept>, k: Kept)
    requires k in FirstOfEach(ks)
    ensures k in ks
  {
    var n := |ks| - 1;
    assert ks == ks[..n] + [ks[n]];
    if k in FirstOfEach(ks[..n]) {
      FirstOfEachSound(ks[..n], k);
    }
  }

  lemma {:induction false} FirstOfEachComplete(ks: seq<Kept>, k: Kept)
    requires k in ks
    ensures exists j :: j in FirstOfEach(ks) && j.addr == k.addr
  {
    var n := |ks| - 1;
    assert ks == ks[..n] + [ks[n]];
    if k in ks[..n] {
      FirstOfEachComplete(ks[..n], k);
      var j :| j in FirstOfEach(ks[..n]) && j.addr == k.addr;
      assert j in FirstOfEach(ks);
    } else if exists j :: j in FirstOfEach(ks[..n]) && j.addr == k.addr {
      assert FirstOfEach(ks) == FirstOfEach(ks[..n]);
    } else {
      assert k in FirstOfEach(ks);
    }
  }

  /** How many of the first n are of a family. */
  function Earlier(addrs: seq<Addr>, n: nat, fam: Family): set<nat>
    requires n <= |addrs|
  {
    set i: nat | i < n && addrs[i].fam == fam
  }

  lemma {:induction false} CountIsSize(addrs: seq<Addr>, n: nat, fam: Family)
    requires n <= |addrs|
    ensures CountFamily(addrs[..n], fam) == |Earlier(addrs, n, fam)|
  {
    if n > 0 {
      CountIsSize(addrs, n - 1, fam);
      assert addrs[..n][..n - 1] == addrs[..n - 1];
      var before := Earlier(addrs, n - 1, fam);
      assert Earlier(addrs, n, fam) == if addrs[n - 1].fam == fam then before + {n - 1} else before;
    }
  }

  /** The i-th is a, with fewer than eight of its family before it. */
  ghost predicate AmongFirst(addrs: seq<Addr>, a: Addr, i: nat) {
    i < |addrs| && addrs[i] == a && |Earlier(addrs, i, a.fam)| < 8
  }

  lemma {:induction false} AmongFirstBefore(addrs: seq<Addr>, a: Addr, n: nat, i: nat)
    requires n <= |addrs|
    ensures AmongFirst(addrs[..n], a, i) <==> i < n && AmongFirst(addrs, a, i)
  {
    if i < n { assert Earlier(addrs[..n], i, a.fam) == Earlier(addrs, i, a.fam); }
  }

  lemma {:induction false} AmongFirstLast(addrs: seq<Addr>, a: Addr)
    requires addrs != []
    ensures var n := |addrs| - 1;
            (exists i: nat :: AmongFirst(addrs, a, i)) <==>
            (exists i: nat :: AmongFirst(addrs[..n], a, i)) || AmongFirst(addrs, a, n)
  {
    var n := |addrs| - 1;
    forall i: nat
      ensures AmongFirst(addrs, a, i) <==> AmongFirst(addrs[..n], a, i) || (i == n && AmongFirst(addrs, a, n))
    {
      AmongFirstBefore(addrs, a, n, i);
    }
    hide AmongFirst;
  }

  lemma {:induction false} FirstResolversLast(addrs: seq<Addr>, a: Addr)
    requires addrs != []
    ensures var n := |addrs| - 1;
            a in FirstResolvers(addrs) <==> a in FirstResolvers(addrs[..n]) || AmongFirst(addrs, a, n)
  {
    CountIsSize(addrs, |addrs| - 1, a.fam);
    hide CountFamily, Earlier;
  }

  /** The first resolvers: those with fewer than eight of their family before them. */
  lemma {:induction false} FirstResolversIff(addrs: seq<Addr>, a: Addr)
    ensures a in FirstResolvers(addrs) <==> exists i: nat :: AmongFirst(addrs, a, i)
  {
    if addrs != [] {
      hide FirstResolvers, AmongFirst;
      FirstResolversIff(addrs[..|addrs| - 1], a);
      FirstResolversLast(addrs, a);
      AmongFirstLast(addrs, a);
    }
  }

  // ---------- kept out ----------

  /** What no destination of a tunnel may hold: the router of the family, and the guarded
      addresses — for a blocking tunnel, only the tunnels' servers among them. */
  function Must(w: Network, ts: seq<TunnelInput>, held: set<Addr>, fam: Family, essential: bool): seq<Addr> {
    (match Gateway(w, fam) case None => [] case Some(gw) => [gw]) + Guarded(w, ts, held, essential)
  }

  ghost predicate Avoids(p: Prefix, addrs: seq<Addr>) {
    forall a :: a in addrs ==> !Contains(p, a)
  }

  lemma {:induction false} KeepOutComplete(pfx: Prefix, w: Network, ts: seq<TunnelInput>, held: set<Addr>,
      essential: bool, a: Addr)
    requires a in Must(w, ts, held, pfx.fam, essential) && Contains(pfx, a)
    ensures exists k :: k in KeepOut(pfx, w, ts, held, essential) && k.addr == a
  {
    var guarded := KeptIn(pfx, Guarded(w, ts, held, essential));
    var all := RouterKept(pfx, w) + guarded;
    if a in Guarded(w, ts, held, essential) {
      KeptInMembers(pfx, Guarded(w, ts, held, essential), a);
      FirstOfEachComplete(all, Kept(a, None));
    } else {
      assert RouterKept(pfx, w)[0].addr == a && RouterKept(pfx, w)[0] in all;
      FirstOfEachComplete(all, RouterKept(pfx, w)[0]);
    }
  }

  lemma {:induction false} KeepOutSound(pfx: Prefix, w: Network, ts: seq<TunnelInput>, held: set<Addr>,
      essential: bool, k: Kept)
    requires k in KeepOut(pfx, w, ts, held, essential)
    ensures Contains(pfx, k.addr)
    ensures k.net.Some? ==> Contains(k.net.value, k.addr)
    ensures k.addr in Must(w, ts, held, pfx.fam, essential)
  {
    var guarded := KeptIn(pfx, Guarded(w, ts, held, essential));
    FirstOfEachSound(RouterKept(pfx, w) + guarded, k);
    if k in guarded {
      KeptInSound(pfx, Guarded(w, ts, held, essential), k);
    }
  }

  lemma {:induction false} NarrowestHolds(a: Addr, others: seq<Prefix>)
    ensures Narrowest(a, others).Some? ==> Narrowest(a, others).value in others && Contains(Narrowest(a, others).value, a)
    ensures forall o :: o in others && Contains(o, a) ==>
                        Narrowest(a, others).Some? && |o.bits| <= |Narrowest(a, others).value.bits|
  {
    if others != [] {
      NarrowestHolds(a, others[..|others| - 1]);
      assert others == others[..|others| - 1] + [others[|others| - 1]];
    }
  }

  lemma {:induction false} HolesMembers(keep: seq<Kept>, others: seq<Prefix>)
    ensures forall k :: k in keep ==> HoleFor(k, others) in Holes(keep, others)
    ensures forall h :: h in Holes(keep, others) ==> exists k :: k in keep && h == HoleFor(k, others)
  {
    if keep != [] {
      var n := |keep| - 1;
      HolesMembers(keep[..n], others);
      assert keep == keep[..n] + [keep[n]];
      forall h | h in Holes(keep, others)
        ensures exists k :: k in keep && h == HoleFor(k, others)
      {
        if h in Holes(keep[..n], others) {
          var k :| k in keep[..n] && h == HoleFor(k, others);
          assert k in keep;
        } else {
          assert keep[n] in keep && h == HoleFor(keep[n], others);
        }
      }
    }
  }

  lemma {:induction false} FreePartsMembers(ps: seq<Prefix>, others: seq<Prefix>, taken: Claims, p: Prefix)
    ensures p in FreeParts(ps, others, taken) <==> p in ps && Free(p, others, taken)
  {
    if ps != [] {
      FreePartsMembers(ps[..|ps| - 1], others, taken, p);
      assert ps == ps[..|ps| - 1] + [ps[|ps| - 1]];
    }
  }

  /** A carved part holds none of the kept addresses. */
  lemma {:induction false} CarveAvoids(pfx: Prefix, keep: seq<Kept>, others: seq<Prefix>, taken: Claims, p: Prefix,
      k: Kept)
    requires p in Carve(pfx, keep, others, taken) && k in keep
    requires k.net.Some? ==> Contains(k.net.value, k.addr)
    ensures !Contains(p, k.addr)
  {
    var holes := Holes(keep, others);
    FreePartsMembers(SubtractNets(pfx, holes), others, taken, p);
    HolesMembers(keep, others);
    NarrowestHolds(k.addr, others);
    assert Contains(HoleFor(k, others), k.addr);
    PiecesCover(pfx, holes, k.addr);
    assert Covers(holes, k.addr);
  }

  lemma {:induction false} CarveInside(pfx: Prefix, keep: seq<Kept>, others: seq<Prefix>, taken: Claims, p: Prefix)
    requires p in Carve(pfx, keep, others, taken)
    ensures Contains(pfx, p) && Free(p, others, taken)
  {
    FreePartsMembers(SubtractNets(pfx, Holes(keep, others)), others, taken, p);
    PiecesInside(pfx, Holes(keep, others));
  }

  lemma {:induction false} StrictlyInMembers(pfx: Prefix, qs: seq<Prefix>, q: Prefix)
    ensures q in StrictlyIn(pfx, qs) <==> q in qs && StrictlyContains(pfx, q)
  {
    if qs != [] {
      StrictlyInMembers(pfx, qs[..|qs| - 1], q);
      assert qs == qs[..|qs| - 1] + [qs[|qs| - 1]];
    }
  }

  /** The others' routes inside pfx: the destinations of other owners, and what tunnels of
      another name list, strictly inside it. */
  lemma {:induction false} OthersInsideIff(pfx: Prefix, name: string, ts: seq<TunnelInput>, occupied: seq<Prefix>, q: Prefix)
    ensures q in OthersInside(pfx, name, ts, occupied) <==>
            StrictlyContains(pfx, q) && (q in occupied || exists t :: t in ts && t.name != name && q in t.routes)
  {
    StrictlyInMembers(pfx, occupied, q);
    OtherTunnelsMembers(pfx, name, ts, q);
  }

  lemma {:induction false} OtherTunnelsMembers(pfx: Prefix, name: string, ts: seq<TunnelInput>, q: Prefix)
    ensures q in OtherTunnelsIn(pfx, name, ts) <==>
            StrictlyContains(pfx, q) && exists t :: t in ts && t.name != name && q in t.routes
  {
    if ts != [] {
      var n := |ts| - 1;
      assert ts == ts[..n] + [ts[n]];
      OtherTunnelsMembers(pfx, name, ts[..n], q);
      StrictlyInMembers(pfx, ts[n].routes, q);
      if t :| t in ts[..n] && t.name != name && q in t.routes { assert t in ts; }
    }
  }

  // ---------- one listed route ----------

  /** What a part may be: unclaimed, no one else's destination, and clear of what must
      not go in. */
  ghost predicate PartOk(w: Network, ts: seq<TunnelInput>, t: TunnelInput, taken: Claims, held: set<Addr>, p: Prefix) {
    && p !in taken
    && p !in w.occupied
    && Avoids(p, Must(w, ts, held, p.fam, t.block))
    && (Refuses(t, p.fam) && Live(t) ==> t.block)
  }

  lemma {:induction false} CarvePartOk(w: Network, ts: seq<TunnelInput>, t: TunnelInput, taken: Claims,
      held: set<Addr>, pfx: Prefix, essential: bool, p: Prefix)
    requires pfx !in w.occupied && (essential ==> t.block)
    requires p in Carve(pfx, KeepOut(pfx, w, ts, held, essential), OthersInside(pfx, t.name, ts, w.occupied), taken)
    ensures p !in taken && p !in w.occupied && Contains(pfx, p)
    ensures Avoids(p, Must(w, ts, held, p.fam, t.block))
  {
    var keep := KeepOut(pfx, w, ts, held, essential);
    var others := OthersInside(pfx, t.name, ts, w.occupied);
    CarveInside(pfx, keep, others, taken, p);
    assert Contains(p, p) && (p != pfx ==> StrictlyContains(pfx, p));
    StrictlyInMembers(pfx, w.occupied, p);
    assert p in StrictlyIn(pfx, w.occupied) ==> p in others;
    forall a | a in Must(w, ts, held, p.fam, t.block)
      ensures !Contains(p, a)
    {
      if Contains(p, a) {
        ContainsTransitive(pfx, p, a);
        assert a in Must(w, ts, held, p.fam, essential);
        KeepOutComplete(pfx, w, ts, held, essential, a);
        var k :| k in keep && k.addr == a;
        KeepOutSound(pfx, w, ts, held, essential, k);
        CarveAvoids(pfx, keep, others, taken, p, k);
      }
    }
  }

  lemma {:induction false} DecideOk(w: Network, ts: seq<TunnelInput>, t: TunnelInput, taken: Claims, held: set<Addr>,
      pfx: Prefix, p: Prefix)
    requires p in Decide(w, ts, t, taken, held, pfx).parts
    ensures PartOk(w, ts, t, taken, held, p) && Contains(pfx, p)
  {
    if KeepOut(pfx, w, ts, held, false) == [] {
      forall a | a in Must(w, ts, held, p.fam, t.block)
        ensures !Contains(p, a)
      {
        if Contains(p, a) { KeepOutComplete(pfx, w, ts, held, false, a); }
      }
    } else {
      var others := OthersInside(pfx, t.name, ts, w.occupied);
      var first := Carve(pfx, KeepOut(pfx, w, ts, held, false), others, taken);
      CarvePartOk(w, ts, t, taken, held, pfx, t.block && TooFewOrMany(first), p);
    }
  }

  lemma {:induction false} GatherOk(w: Network, ts: seq<TunnelInput>, t: TunnelInput, taken: Claims, held: set<Addr>,
      fam: Family, n: nat, p: Prefix)
    requires n <= |t.routes| && p in Gather(w, ts, t, taken, held, fam, n)
    ensures PartOk(w, ts, t, taken, held, p) && p.fam == fam
  {
    var pfx := t.routes[n - 1];
    if p in Gather(w, ts, t, taken, held, fam, n - 1) {
      GatherOk(w, ts, t, taken, held, fam, n - 1, p);
    } else {
      DecideOk(w, ts, t, taken, held, pfx, p);
    }
  }

  // ---------- aggregation around claims ----------

  lemma {:induction false} AppendNewMembers(out: seq<Prefix>, ps: seq<Prefix>)
    ensures forall p :: p in AppendNew(out, ps) <==> p in out || p in ps
    ensures NoRepeats(out) ==> NoRepeats(AppendNew(out, ps))
  {
    if ps != [] {
      AppendNewMembers(out, ps[..|ps| - 1]);
      assert ps == ps[..|ps| - 1] + [ps[|ps| - 1]];
    }
  }

  ghost predicate NoRepeats(ps: seq<Prefix>) {
    forall i, j :: 0 <= i < j < |ps| ==> ps[i] != ps[j]
  }

  lemma {:induction false} Within1Members(agg: Prefix, ps: seq<Prefix>, p: Prefix)
    ensures p in Within1(agg, ps) <==> p in ps && Contains(agg, p)
  {
    if ps != [] {
      Within1Members(agg, ps[..|ps| - 1], p);
      assert ps == ps[..|ps| - 1] + [ps[|ps| - 1]];
    }
  }

  lemma {:induction false} UnclaimedOfMembers(aggs: seq<Prefix>, ps: seq<Prefix>, taken: Claims)
    ensures NoRepeats(UnclaimedOf(aggs, ps, taken))
    ensures forall u :: u in UnclaimedOf(aggs, ps, taken) ==> (u in aggs && u !in taken) || u in ps
    ensures forall agg, p :: agg in aggs && p in ps && Contains(agg, p) ==>
                             (if agg in taken then p else agg) in UnclaimedOf(aggs, ps, taken)
  {
    if aggs != [] {
      var k := |aggs| - 1;
      UnclaimedOfMembers(aggs[..k], ps, taken);
      assert aggs == aggs[..k] + [aggs[k]];
      var more := if aggs[k] in taken then Within1(aggs[k], ps) else [aggs[k]];
      AppendNewMembers(UnclaimedOf(aggs[..k], ps, taken), more);
      forall p
        ensures p in Within1(aggs[k], ps) <==> p in ps && Contains(aggs[k], p)
      {
        Within1Members(aggs[k], ps, p);
      }
    }
  }

  /** Each destination placed holds nothing the parts did not hold, is unclaimed, and is
      a host only if it was listed as one. */
  lemma {:induction false} UnclaimedOk(ps: seq<Prefix>, taken: Claims, u: Prefix)
    requires u in Unclaimed(ps, taken)
    requires forall p :: p in ps ==> p !in taken
    ensures u !in taken
    ensures IsHost(u) ==> u in ps
    ensures forall a: Addr :: Contains(u, a) ==> Covers(ps, a)
  {
    UnclaimedOfMembers(MaximalBlocks(ps), ps, taken);
    MaximalBlocksExact(ps);
    if u in MaximalBlocks(ps) {
      if IsHost(u) { HostBlockListed(ps, u); }
      forall a: Addr | Contains(u, a)
        ensures Covers(ps, a)
      {
        assert Covers(MaximalBlocks(ps), a);
      }
    }
  }

  /** Nothing gathered is lost: each part lies in a destination placed. */
  lemma {:induction false} UnclaimedKeepsAll(ps: seq<Prefix>, taken: Claims, p: Prefix)
    requires p in ps
    ensures InsideOne(Unclaimed(ps, taken), p)
  {
    ListedInside(ps, p);
    var agg :| agg in MaximalBlocks(ps) && Contains(agg, p);
    UnclaimedOfMembers(MaximalBlocks(ps), ps, taken);
    assert Contains(p, p);
  }

  lemma {:induction false} UnclaimedFamily(ps: seq<Prefix>, taken: Claims, fam: Family, u: Prefix)
    requires u in Unclaimed(ps, taken) && forall p :: p in ps ==> p.fam == fam && p !in taken
    ensures u.fam == fam
  {
    UnclaimedOk(ps, taken, u);
    assert Covers(ps, First(u));
  }

  // ---------- the invariant of the plan ----------

  predicate IsPin(m: Managed) {
    m.route.hop.Via?
  }

  ghost predicate DistinctDsts(rs: seq<Managed>) {
    forall i, j :: 0 <= i < j < |rs| ==> rs[i].route.dst != rs[j].route.dst
  }

  /** A pin: a server of one of the tunnels, via the physical gateway, no one else's. */
  ghost predicate PinOk(w: Network, ts: seq<TunnelInput>, m: Managed) {
    exists t :: t in ts && PinOf(w, t, m)
  }

  ghost predicate PinOf(w: Network, t: TunnelInput, m: Managed) {
    && IsHost(m.route.dst)
    && m.route.dst in t.bypass
    && m.route.dst !in w.occupied
    && m.origin == OfTunnel(t.name)
    && AutoHop(w, m.route.dst.fam) == Some(m.route.hop)
  }

  /** A destination: into its live tunnel, or refused for a blocking one, and clear of
      what must not go in. */
  ghost predicate DestinationOk(w: Network, ts: seq<TunnelInput>, held: set<Addr>, m: Managed) {
    exists t :: t in ts && DestinationOf(w, ts, held, t, m)
  }

  ghost predicate DestinationOf(w: Network, ts: seq<TunnelInput>, held: set<Addr>, t: TunnelInput, m: Managed) {
    && m.origin == OfTunnel(t.name)
    && (if Refuses(t, m.route.dst.fam) then t.block && m.route.hop == Reject else m.route.hop == Dev(t.iface))
    && Avoids(m.route.dst, Must(w, ts, held, m.route.dst.fam, t.block))
    && (IsHost(m.route.dst) ==> m.route.dst !in w.occupied)
    && (m.route.dst in w.occupied ==> (Live(t) || t.block) && Enclosed(t, m.route.dst))
  }

  /** The tunnel lists every address of u, in routes strictly inside u. */
  ghost predicate Enclosed(t: TunnelInput, u: Prefix) {
    CoversAll(StrictlyIn(u, t.routes), u)
  }

  ghost predicate StaysOut(w: Network, s: TunnelPlan, a: Addr) {
    a in w.occupied || exists m :: m in s.routes && IsPin(m) && m.route.dst == a
  }

  /** Claims and routes agree, and no destination is routed twice. */
  ghost predicate ClaimsInv(s: TunnelPlan) {
    && DistinctDsts(s.routes)
    && (forall m :: m in s.routes ==> m.route.dst in s.taken)
    && (forall p :: p in s.taken ==> RoutesTo(s.routes, p))
  }

  ghost predicate RoutesTo(rs: seq<Managed>, p: Prefix) {
    exists m :: m in rs && m.route.dst == p
  }

  ghost predicate SendsInto(rs: seq<Managed>, p: Prefix) {
    exists m :: m in rs && m.route.dst == p && !IsPin(m)
  }

  /** The nets are exactly the destinations that are not pins. */
  ghost predicate NetsInv(s: TunnelPlan) {
    && (forall m :: m in s.routes ==> (IsPin(m) <==> m.route.dst !in s.nets))
    && (forall p :: p in s.nets ==> SendsInto(s.routes, p))
  }

  ghost predicate RouteOk(w: Network, ts: seq<TunnelInput>, held: set<Addr>, m: Managed) {
    m.route.table == MAIN && if IsPin(m) then PinOk(w, ts, m) else DestinationOk(w, ts, held, m)
  }

  ghost predicate RoutesInv(w: Network, ts: seq<TunnelInput>, s: TunnelPlan) {
    forall m :: m in s.routes ==> RouteOk(w, ts, s.held, m)
  }

  ghost predicate HeldInv(w: Network, s: TunnelPlan) {
    forall a :: a in s.held ==> StaysOut(w, s, a)
  }

  ghost predicate PlanInv(w: Network, ts: seq<TunnelInput>, s: TunnelPlan) {
    ClaimsInv(s) && NetsInv(s) && RoutesInv(w, ts, s) && HeldInv(w, s)
  }

  function Added(s: TunnelPlan, m: Managed, c: Claim): TunnelPlan {
    s.(taken := s.taken[m.route.dst := c], routes := s.routes + [m],
       nets := if IsPin(m) then s.nets else s.nets + [m.route.dst])
  }

  lemma {:induction false} AddedClaims(s: TunnelPlan, m: Managed, c: Claim)
    requires ClaimsInv(s) && m.route.dst !in s.taken
    ensures ClaimsInv(Added(s, m, c))
  {
    var rs := s.routes + [m];
    forall p | p in s.taken || p == m.route.dst
      ensures RoutesTo(rs, p)
    {
      var x :| (x in s.routes || x == m) && x.route.dst == p;
      assert x in rs;
    }
    forall i, j | 0 <= i < j < |rs|
      ensures rs[i].route.dst != rs[j].route.dst
    {
      assert rs[i] in s.routes;
    }
  }

  lemma {:induction false} AddedNets(s: TunnelPlan, m: Managed, c: Claim)
    requires ClaimsInv(s) && NetsInv(s) && m.route.dst !in s.taken
    ensures NetsInv(Added(s, m, c))
  {
    var s1 := Added(s, m, c);
    forall p | p in s.nets
      ensures p in s.taken
    {
      var x :| x in s.routes && x.route.dst == p && !IsPin(x);
    }
    forall p | p in s1.nets
      ensures SendsInto(s1.routes, p)
    {
      if p in s.nets {
        var x :| x in s.routes && x.route.dst == p && !IsPin(x);
        assert x in s1.routes;
      } else {
        assert m in s1.routes;
      }
    }
    forall x | x in s1.routes
      ensures IsPin(x) <==> x.route.dst !in s1.nets
    {
      assert x in s.routes || x == m;
    }
  }

  lemma {:induction false} AddedHeld(w: Network, s: TunnelPlan, m: Managed, c: Claim)
    requires HeldInv(w, s)
    ensures HeldInv(w, Added(s, m, c))
  {
    var s1 := Added(s, m, c);
    forall a | a in s1.held
      ensures StaysOut(w, s1, a)
    {
      assert StaysOut(w, s, a);
      if a !in w.occupied {
        var x :| x in s.routes && IsPin(x) && x.route.dst == a;
        assert x in s1.routes;
      }
    }
  }

  lemma {:induction false} AddedInv(w: Network, ts: seq<TunnelInput>, s: TunnelPlan, m: Managed, c: Claim)
    requires PlanInv(w, ts, s) && RouteOk(w, ts, s.held, m) && m.route.dst !in s.taken
    ensures PlanInv(w, ts, Added(s, m, c))
  {
    AddedClaims(s, m, c);
    AddedNets(s, m, c);
    AddedHeld(w, s, m, c);
  }

  // ---------- the pins ----------

  /** While pins are placed there are no destinations yet, so holding more servers off the
      tunnels changes nothing else. */
  lemma {:induction false} PinOneInv(w: Network, ts: seq<TunnelInput>, t: TunnelInput, s: TunnelPlan, a: Addr)
    requires PlanInv(w, ts, s) && s.nets == [] && t in ts && a in t.bypass
    ensures PlanInv(w, ts, PinOne(w, t, s, a)) && PinOne(w, t, s, a).nets == []
    ensures s.held <= PinOne(w, t, s, a).held
  {
    if AutoHop(w, a.fam).Some? && a !in w.occupied {
      var m := Ours(Route(MAIN, a, AutoHop(w, a.fam).value), t.name);
      assert PinOf(w, t, m);
      var s1 := s;
      if a !in s.taken {
        AddedInv(w, ts, s, m, Pin(t.name));
        s1 := Added(s, m, Pin(t.name));
        assert m in s1.routes;
      } else {
        assert RoutesTo(s.routes, a);
      }
      var p :| p in s1.routes && p.route.dst == a;
      assert IsPin(p);
      HoldMore(w, ts, s1, {a});
      assert PinOne(w, t, s, a) == s1.(held := s1.held + {a});
    }
  }

  lemma {:induction false} HoldMore(w: Network, ts: seq<TunnelInput>, s: TunnelPlan, more: set<Addr>)
    requires PlanInv(w, ts, s) && s.nets == [] && forall a :: a in more ==> StaysOut(w, s, a)
    ensures PlanInv(w, ts, s.(held := s.held + more))
  {
    var s1 := s.(held := s.held + more);
    assert forall a :: StaysOut(w, s, a) ==> StaysOut(w, s1, a);
    forall m | m in s1.routes
      ensures RouteOk(w, ts, s1.held, m)
    {
      assert IsPin(m);
    }
  }

  lemma {:induction false} PinsInv(w: Network, ts: seq<TunnelInput>, t: TunnelInput, s: TunnelPlan, n: nat)
    requires PlanInv(w, ts, s) && s.nets == [] && t in ts && n <= |t.bypass|
    ensures PlanInv(w, ts, Pins(w, t, s, n)) && Pins(w, t, s, n).nets == []
    ensures s.held <= Pins(w, t, s, n).held
  {
    if n > 0 {
      PinsInv(w, ts, t, s, n - 1);
      PinOneInv(w, ts, t, Pins(w, t, s, n - 1), t.bypass[n - 1]);
    }
  }

  /** After the pins, every server someone else routes is held as well. */
  lemma {:induction false} PinPhaseInv(w: Network, ts: seq<TunnelInput>, n: nat)
    requires n <= |ts|
    ensures PlanInv(w, ts, PinPhase(w, ts, n)) && PinPhase(w, ts, n).nets == []
    ensures forall i, a :: 0 <= i < n && a in ServersOf(ts[i]) && a in w.occupied ==> a in PinPhase(w, ts, n).held
  {
    if n > 0 {
      PinPhaseInv(w, ts, n - 1);
      var t, s := ts[n - 1], PinPhase(w, ts, n - 1);
      PinsInv(w, ts, t, s, |t.bypass|);
      HoldMore(w, ts, Pins(w, t, s, |t.bypass|), OccupiedServers(w, ServersOf(t)));
    }
  }

  /** Every server a tunnel asks to pin is held, where it can be pinned. */
  lemma {:induction false} PinsHold(w: Network, ts: seq<TunnelInput>, t: TunnelInput, s: TunnelPlan, n: nat)
    requires PlanInv(w, ts, s) && s.nets == [] && t in ts && n <= |t.bypass|
    ensures forall i :: 0 <= i < n && AutoHop(w, t.bypass[i].fam).Some? && t.bypass[i] !in w.occupied ==>
                        t.bypass[i] in Pins(w, t, s, n).held
  {
    hide PlanInv;
    if n > 0 {
      PinsHold(w, ts, t, s, n - 1);
      PinsInv(w, ts, t, s, n - 1);
      PinOneInv(w, ts, t, Pins(w, t, s, n - 1), t.bypass[n - 1]);
    }
  }

  lemma {:induction false} PinnedIsHeld(w: Network, ts: seq<TunnelInput>, n: nat, a: Addr)
    requires n <= |ts| && AutoHop(w, a.fam).Some? && a !in w.occupied
    requires exists i :: 0 <= i < n && a in ts[i].bypass
    ensures a in PinPhase(w, ts, n).held
  {
    var t, s := ts[n - 1], PinPhase(w, ts, n - 1);
    PinPhaseInv(w, ts, n - 1);
    PinsInv(w, ts, t, s, |t.bypass|);
    if a in t.bypass {
      PinsHold(w, ts, t, s, |t.bypass|);
      var i :| 0 <= i < |t.bypass| && t.bypass[i] == a;
    } else {
      PinnedIsHeld(w, ts, n - 1, a);
    }
  }

  // ---------- the destinations ----------

  /** What a tunnel may be given besides the claims it already has. */
  ghost predicate GoodFor(w: Network, ts: seq<TunnelInput>, t: TunnelInput, held: set<Addr>, u: Prefix) {
    && Avoids(u, Must(w, ts, held, u.fam, t.block))
    && (IsHost(u) ==> u !in w.occupied)
    && (Refuses(t, u.fam) ==> t.block)
    && (u in w.occupied ==> (Live(t) || t.block) && Enclosed(t, u))
  }

  /** A part inside an occupied destination is of a route listed strictly inside it. */
  lemma {:induction false} PartInOccupied(w: Network, ts: seq<TunnelInput>, t: TunnelInput, taken: Claims,
      held: set<Addr>, pfx: Prefix, p: Prefix, u: Prefix)
    requires p in Decide(w, ts, t, taken, held, pfx).parts && u in w.occupied && Contains(u, p)
    ensures StrictlyContains(u, pfx) && Contains(pfx, p)
  {
    DecideOk(w, ts, t, taken, held, pfx, p);
    NotAroundOccupied(w, ts, t, taken, held, pfx, p, u);
    hide Decide, PartOk;
    ContainsFirst(p);
    ContainsTransitive(u, p, First(p));
    ContainsTransitive(pfx, p, First(p));
    SharedAddress(u, pfx, First(p));
  }

  lemma {:induction false} NotAroundOccupied(w: Network, ts: seq<TunnelInput>, t: TunnelInput, taken: Claims,
      held: set<Addr>, pfx: Prefix, p: Prefix, u: Prefix)
    requires p in Decide(w, ts, t, taken, held, pfx).parts && u in w.occupied && Contains(u, p)
    ensures pfx != u && !StrictlyContains(pfx, u)
  {
    hide Carve, KeepOut;
    if KeepOut(pfx, w, ts, held, false) != [] {
      var others := OthersInside(pfx, t.name, ts, w.occupied);
      var essential := t.block && TooFewOrMany(Carve(pfx, KeepOut(pfx, w, ts, held, false), others, taken));
      assert p in Carve(pfx, KeepOut(pfx, w, ts, held, essential), others, taken);
      CarveInside(pfx, KeepOut(pfx, w, ts, held, essential), others, taken, p);
      StrictlyInMembers(pfx, w.occupied, u);
    }
  }

  lemma {:induction false} ContainsFirst(p: Prefix)
    ensures Contains(p, First(p))
  {
  }

  lemma {:induction false} GatheredFrom(w: Network, ts: seq<TunnelInput>, t: TunnelInput, taken: Claims,
      held: set<Addr>, fam: Family, n: nat, p: Prefix)
    requires n <= |t.routes| && p in Gather(w, ts, t, taken, held, fam, n)
    ensures exists pfx :: pfx in t.routes && p in Decide(w, ts, t, taken, held, pfx).parts
  {
    if p in Gather(w, ts, t, taken, held, fam, n - 1) {
      GatheredFrom(w, ts, t, taken, held, fam, n - 1, p);
    } else {
      assert t.routes[n - 1] in t.routes;
    }
  }

  /** An occupied destination can only come from aggregating: all of it is listed, in
      routes strictly inside it. */
  lemma {:induction false} OccupiedIsEnclosed(w: Network, ts: seq<TunnelInput>, t: TunnelInput, s: TunnelPlan,
      fam: Family, taken: Claims, u: Prefix)
    requires u in Unclaimed(TunnelParts(w, ts, t, s, fam), taken) && u in w.occupied
    ensures Enclosed(t, u)
  {
    var ps := TunnelParts(w, ts, t, s, fam);
    UnclaimedOfMembers(MaximalBlocks(ps), ps, taken);
    MaximalBlocksExact(ps);
    if u in ps { GatherOk(w, ts, t, s.taken, s.held, fam, |t.routes|, u); }
    hide Gather, MaximalBlocks, Unclaimed, PartOk;
    forall a: Addr | Contains(u, a)
      ensures Covers(StrictlyIn(u, t.routes), a)
    {
      assert Covers(MaximalBlocks(ps), a);
      var p :| p in ps && Contains(p, a);
      PartOfBlock(ps, p, u, a);
      GatheredFrom(w, ts, t, s.taken, s.held, fam, |t.routes|, p);
      var pfx :| pfx in t.routes && p in Decide(w, ts, t, s.taken, s.held, pfx).parts;
      PartInOccupied(w, ts, t, s.taken, s.held, pfx, p, u);
      StrictlyInMembers(u, t.routes, pfx);
      ContainsTransitive(pfx, p, a);
    }
  }

  /** A listed prefix that shares an address with a block of the aggregate lies in it. */
  lemma {:induction false} PartOfBlock(ps: seq<Prefix>, p: Prefix, u: Prefix, a: Addr)
    requires p in ps && u in MaximalBlocks(ps) && Contains(p, a) && Contains(u, a)
    ensures Contains(u, p)
  {
    ListedInside(ps, p);
    MaximalBlocksExact(ps);
    var c :| c in MaximalBlocks(ps) && Contains(c, p);
    ContainsTransitive(c, p, a);
    SharedAddress(c, u, a);
    AntichainEqual(MaximalBlocks(ps), c, u);
  }

  lemma {:induction false} DestinationsGood(w: Network, ts: seq<TunnelInput>, t: TunnelInput, s: TunnelPlan,
      fam: Family, taken: Claims, u: Prefix)
    requires Live(t) || t.block
    requires forall p :: p in taken && p.fam == fam ==> p in s.taken
    requires u in Unclaimed(TunnelParts(w, ts, t, s, fam), taken)
    ensures GoodFor(w, ts, t, s.held, u) && u !in taken && u.fam == fam
  {
    var ps := TunnelParts(w, ts, t, s, fam);
    forall p | p in ps
      ensures PartOk(w, ts, t, s.taken, s.held, p) && p.fam == fam && p !in taken
    {
      GatherOk(w, ts, t, s.taken, s.held, fam, |t.routes|, p);
    }
    UnclaimedOk(ps, taken, u);
    UnclaimedFamily(ps, taken, fam, u);
    forall a | a in Must(w, ts, s.held, u.fam, t.block)
      ensures !Contains(u, a)
    {
      forall p | p in ps
        ensures !Contains(p, a)
      {
        assert PartOk(w, ts, t, s.taken, s.held, p);
      }
    }
    assert Covers(ps, First(u));
    var p :| p in ps && Contains(p, First(u));
    assert PartOk(w, ts, t, s.taken, s.held, p);
    if u in w.occupied { OccupiedIsEnclosed(w, ts, t, s, fam, taken, u); }
  }

  lemma {:induction false} InstallInv(w: Network, ts: seq<TunnelInput>, t: TunnelInput, s: TunnelPlan, ps: seq<Prefix>)
    requires PlanInv(w, ts, s) && t in ts && NoRepeats(ps)
    requires forall p :: p in ps ==> p !in s.taken && GoodFor(w, ts, t, s.held, p)
    ensures PlanInv(w, ts, Install(t, s, ps)) && Install(t, s, ps).held == s.held
    ensures forall p :: p in Install(t, s, ps).taken <==> p in s.taken || p in ps
    ensures forall m :: m in s.routes ==> m in Install(t, s, ps).routes
    ensures forall p :: p in ps ==> exists m :: m in Install(t, s, ps).routes && m.route.dst == p && m.origin == OfTunnel(t.name) && !IsPin(m)
  {
    if ps != [] {
      var k := |ps| - 1;
      var p := ps[k];
      assert ps == ps[..k] + [p];
      assert p !in ps[..k];
      InstallInv(w, ts, t, s, ps[..k]);
      var s1 := Install(t, s, ps[..k]);
      var m := Ours(Route(MAIN, p, if Refuses(t, p.fam) then Reject else Dev(t.iface)), t.name);
      var c := if Refuses(t, p.fam) then Refuse(t.name) else Into(t.name);
      assert DestinationOf(w, ts, s1.held, t, m);
      AddedInv(w, ts, s1, m, c);
      assert Install(t, s, ps) == Added(s1, m, c);
      assert m in Install(t, s, ps).routes;
      forall q | q in ps
        ensures exists x :: x in Install(t, s, ps).routes && x.route.dst == q && x.origin == OfTunnel(t.name) && !IsPin(x)
      {
        if q in ps[..k] {
          var x :| x in s1.routes && x.route.dst == q && x.origin == OfTunnel(t.name) && !IsPin(x);
          assert x in Install(t, s, ps).routes;
        }
      }
    }
  }

  lemma {:induction false} PlanTunnelInv(w: Network, ts: seq<TunnelInput>, t: TunnelInput, s: TunnelPlan)
    requires PlanInv(w, ts, s) && t in ts
    ensures PlanInv(w, ts, PlanTunnel(w, ts, t, s)) && PlanTunnel(w, ts, t, s).held == s.held
    ensures forall m :: m in s.routes ==> m in PlanTunnel(w, ts, t, s).routes
  {
    var s0 := Reported(w, ts, t, s);
    assert PlanInv(w, ts, s0);
    if Live(t) || t.block {
      var u4 := Unclaimed(TunnelParts(w, ts, t, s, V4), s0.taken);
      InstallFamily(w, ts, t, s, s0, V4);
      var s4 := Install(t, s0, u4);
      InstallFamily(w, ts, t, s, s4, V6);
    }
  }

  /** One family's destinations keep the invariant, when what was claimed meanwhile is of
      the other family. */
  lemma {:induction false} InstallFamily(w: Network, ts: seq<TunnelInput>, t: TunnelInput, s: TunnelPlan,
      s1: TunnelPlan, fam: Family)
    requires PlanInv(w, ts, s1) && t in ts && (Live(t) || t.block) && s1.held == s.held
    requires forall p :: p in s1.taken && p.fam == fam ==> p in s.taken
    ensures var us := Unclaimed(TunnelParts(w, ts, t, s, fam), s1.taken);
            var s2 := Install(t, s1, us);
            && PlanInv(w, ts, s2) && s2.held == s.held
            && (forall m :: m in s1.routes ==> m in s2.routes)
            && (forall p :: p in s2.taken && p.fam != fam ==> p in s1.taken)
            && (forall p :: p in us ==> exists m :: m in s2.routes && m.route.dst == p && m.origin == OfTunnel(t.name) && !IsPin(m))
  {
    var us := Unclaimed(TunnelParts(w, ts, t, s, fam), s1.taken);
    forall u | u in us
      ensures GoodFor(w, ts, t, s.held, u) && u !in s1.taken && u.fam == fam
    {
      DestinationsGood(w, ts, t, s, fam, s1.taken, u);
    }
    UnclaimedOfMembers(MaximalBlocks(TunnelParts(w, ts, t, s, fam)), TunnelParts(w, ts, t, s, fam), s1.taken);
    InstallInv(w, ts, t, s1, us);
  }

  ghost predicate PlannedFrom(w: Network, ts: seq<TunnelInput>, pins: TunnelPlan, s: TunnelPlan) {
    PlanInv(w, ts, s) && s.held == pins.held
  }

  lemma {:induction false} RoutePhaseInv(w: Network, ts: seq<TunnelInput>, n: nat)
    requires n <= |ts|
    ensures PlannedFrom(w, ts, PinPhase(w, ts, |ts|), RoutePhase(w, ts, n))
  {
    hide *;
    if n == 0 {
      PlanStart(w, ts);
    } else {
      RoutePhaseInv(w, ts, n - 1);
      PlanStep(w, ts, n, PinPhase(w, ts, |ts|), RoutePhase(w, ts, n - 1));
    }
  }

  lemma {:induction false} PlanStart(w: Network, ts: seq<TunnelInput>)
    ensures PlannedFrom(w, ts, PinPhase(w, ts, |ts|), RoutePhase(w, ts, 0))
  {
    PinPhaseInv(w, ts, |ts|);
  }

  lemma {:induction false} PlanStep(w: Network, ts: seq<TunnelInput>, n: nat, pins: TunnelPlan, s: TunnelPlan)
    requires 0 < n <= |ts| && s == RoutePhase(w, ts, n - 1) && PlannedFrom(w, ts, pins, s)
    ensures PlannedFrom(w, ts, pins, RoutePhase(w, ts, n))
  {
    PlanTunnelInv(w, ts, ts[n - 1], s);
  }

  // ---------- the guarantees ----------

  lemma {:induction false} PlanIsSafe(w: Network)
    ensures PlanInv(w, SortTunnels(w.tunnels), Plan(w))
  {
    var ts := SortTunnels(w.tunnels);
    RoutePhaseInv(w, ts, |ts|);
  }

  /** No destination of the plan, refused or into a tunnel, holds the physical gateway of
      its family or a server that is not held; and unless its tunnel blocks,
      none holds an anchor or one of the first resolvers. */
  lemma {:induction false} KeptOutStaysOut(w: Network, m: Managed)
    requires m in Plan(w).routes && !IsPin(m)
    ensures m.route.dst in Plan(w).nets
    ensures Gateway(w, m.route.dst.fam).Some? ==> !Contains(m.route.dst, Gateway(w, m.route.dst.fam).value)
    ensures exists t :: t in w.tunnels && m.origin == OfTunnel(t.name) && (m.route.hop == Reject ==> t.block) &&
                        (m.route.hop != Reject ==> Live(t) && m.route.hop == Dev(t.iface)) &&
                        (t.block || (Avoids(m.route.dst, FirstResolvers(w.dnsServers)) && Avoids(m.route.dst, w.anchors)))
    ensures forall t, a :: t in w.tunnels && (a in t.bypass || a in t.servers) && a !in Plan(w).held ==> !Contains(m.route.dst, a)
  {
    var ts, s := SortTunnels(w.tunnels), Plan(w);
    PlanIsSafe(w);
    SortTunnelsMembers(w.tunnels);
    var t :| t in ts && DestinationOf(w, ts, s.held, t, m);
    var must := Must(w, ts, s.held, m.route.dst.fam, t.block);
    assert Gateway(w, m.route.dst.fam).Some? ==> Gateway(w, m.route.dst.fam).value in must;
    assert !t.block ==> forall a :: a in FirstResolvers(w.dnsServers) || a in w.anchors ==> a in must;
    forall u, a | u in w.tunnels && (a in u.bypass || a in u.servers) && a !in s.held
      ensures !Contains(m.route.dst, a)
    {
      AllServersMembers(ts, u, a);
      UnheldMembers(AllServers(ts), s.held, a);
      assert a in must;
    }
  }

  /** A destination someone else routes is handed out only if one live or blocking tunnel
      lists all of its addresses in routes strictly inside it. */
  lemma {:induction false} OccupiedOnlyIfEnclosed(w: Network, u: Prefix)
    requires u in Plan(w).nets && u in w.occupied
    ensures !IsHost(u) && exists t :: t in w.tunnels && (Live(t) || t.block) && Enclosed(t, u)
  {
    var ts, s := SortTunnels(w.tunnels), Plan(w);
    PlanIsSafe(w);
    SortTunnelsMembers(w.tunnels);
    hide Plan, SortTunnels, Enclosed;
    var m :| m in s.routes && m.route.dst == u && !IsPin(m);
    assert RouteOk(w, ts, s.held, m);
    var t :| t in ts && DestinationOf(w, ts, s.held, t, m);
  }

  /** So a plan takes no destination of another owner's — pins included — unless a tunnel
      lists some such destination in parts. */
  lemma {:induction false} PlanAvoidsOccupied(w: Network)
    requires forall t, u :: t in w.tunnels && (Live(t) || t.block) && u in w.occupied ==> !Enclosed(t, u)
    ensures forall m :: m in Plan(w).routes ==> m.route.dst !in w.occupied
  {
    PlanIsSafe(w);
    var ts, s := SortTunnels(w.tunnels), Plan(w);
    forall m | m in s.routes
      ensures m.route.dst !in w.occupied
    {
      assert RouteOk(w, ts, s.held, m);
      if !IsPin(m) && m.route.dst in w.occupied { OccupiedOnlyIfEnclosed(w, m.route.dst); }
    }
  }

  /** Tunnel connections never loop: with other owners' routes beside the plan, traffic to
      a server of any tunnel takes another owner's route or the server's own pin — never a
      route into a tunnel, never a refusal. */
  lemma {:induction false} ServersNeverLoop(w: Network, t: TunnelInput, a: Addr, foreign: seq<Managed>)
    requires t in w.tunnels && (a in t.bypass || a in t.servers)
    requires forall p :: p in w.occupied ==> exists m :: m in foreign && m.route.dst == p
    ensures var best := Lpm(Plan(w).routes + foreign, a);
            best.None? || best.value in foreign || (IsPin(best.value) && best.value.route.dst == a)
  {
    var ts, s := SortTunnels(w.tunnels), Plan(w);
    var all := s.routes + foreign;
    PlanIsSafe(w);
    SortTunnelsMembers(w.tunnels);
    LpmMeans(all, a);
    var best := Lpm(all, a);
    if best.Some? && best.value !in foreign {
      var m := best.value;
      assert m in s.routes && RouteOk(w, ts, s.held, m);
      if IsPin(m) {
        assert m.route.dst.bits == a.bits;
      } else {
        KeptOutStaysOut(w, m);
        assert a in s.held && StaysOut(w, s, a);
        if a in w.occupied {
          var f :| f in foreign && f.route.dst == a;
          assert f in all && Contains(a, a);
          HostLike(m.route.dst, a);
        } else {
          var p :| p in s.routes && IsPin(p) && p.route.dst == a;
          assert p in all && Contains(a, a);
          HostLike(m.route.dst, a);
          SameDestination(s.routes, m, p);
        }
      }
    }
  }

  /** An address asked to be pinned that is no one else's has its pin in the plan. */
  lemma {:induction false} PinIsPlanned(w: Network, t: TunnelInput, a: Addr)
    requires t in w.tunnels && a in t.bypass && AutoHop(w, a.fam).Some? && a !in w.occupied
    ensures exists m :: m in Plan(w).routes && IsPin(m) && m.route.dst == a
  {
    var ts := SortTunnels(w.tunnels);
    SortTunnelsMembers(w.tunnels);
    var i :| 0 <= i < |ts| && ts[i] == t;
    PinnedIsHeld(w, ts, |ts|, a);
    RoutePhaseInv(w, ts, |ts|);
    assert StaysOut(w, Plan(w), a);
  }

  /** A pin goes out through the physical gateway of its own family, on that family's
      interface. */
  lemma {:induction false} PinsGoOut(w: Network, m: Managed)
    requires m in Plan(w).routes && IsPin(m)
    ensures IsHost(m.route.dst) && exists t :: t in w.tunnels && m.route.dst in t.bypass && m.origin == OfTunnel(t.name)
    ensures m.route.dst.fam.V4? ==> w.gateway4.Some? && m.route.hop == Via(w.gateway4.value, w.physIface4)
    ensures m.route.dst.fam.V6? ==> w.gateway6.Some? && m.route.hop == Via(w.gateway6.value, w.physIface6)
  {
    PlanIsSafe(w);
    SortTunnelsMembers(w.tunnels);
    var ts := SortTunnels(w.tunnels);
    assert RouteOk(w, ts, Plan(w).held, m);
    var t :| t in ts && PinOf(w, t, m);
  }

  lemma {:induction false} PinsHeld(w: Network, t: TunnelInput, s: TunnelPlan, n: nat, a: Addr)
    requires n <= |t.bypass|
    ensures a in Pins(w, t, s, n).held <==> a in s.held || (a in t.bypass[..n] && Gateway(w, a.fam).Some? && a !in w.occupied)
  {
    if n > 0 {
      PinsHeld(w, t, s, n - 1, a);
      assert t.bypass[..n] == t.bypass[..n - 1] + [t.bypass[n - 1]];
    } else {
      assert t.bypass[..0] == [];
    }
  }

  /** t keeps a off the tunnels: by a pin, or because someone else routes it. */
  ghost predicate HeldFor(w: Network, t: TunnelInput, a: Addr) {
    || (a in t.bypass && (if a.fam.V4? then w.gateway4 else w.gateway6).Some? && a !in w.occupied)
    || ((a in t.bypass || a in t.servers) && a in w.occupied)
  }

  lemma {:induction false} PinPhaseHeld(w: Network, ts: seq<TunnelInput>, n: nat, a: Addr)
    requires n <= |ts|
    ensures a in PinPhase(w, ts, n).held <==> exists i :: 0 <= i < n && HeldFor(w, ts[i], a)
  {
    if n > 0 {
      PinPhaseHeld(w, ts, n - 1, a);
      var t := ts[n - 1];
      PinsHeld(w, t, PinPhase(w, ts, n - 1), |t.bypass|, a);
      assert t.bypass[..|t.bypass|] == t.bypass;
      hide Pins, PinPhase;
    }
  }

  /** The servers held off the tunnels are exactly those a host route can keep off them: a
      pin the gateway can carry, or another owner's route. */
  lemma {:induction false} HeldIff(w: Network, a: Addr)
    ensures a in Plan(w).held <==> exists t :: t in w.tunnels && HeldFor(w, t, a)
  {
    var ts := SortTunnels(w.tunnels);
    RoutePhaseInv(w, ts, |ts|);
    PinPhaseHeld(w, ts, |ts|, a);
    SortTunnelsMembers(w.tunnels);
    hide SortTunnels, RoutePhase, PinPhase, HeldFor, PlanInv;
    if a in Plan(w).held {
      var i :| 0 <= i < |ts| && HeldFor(w, ts[i], a);
      assert ts[i] in ts;
    }
  }

  lemma {:induction false} SameDestination(rs: seq<Managed>, m: Managed, n: Managed)
    requires DistinctDsts(rs) && m in rs && n in rs && m.route.dst == n.route.dst
    ensures m == n
  {
    var i :| 0 <= i < |rs| && rs[i] == m;
    var j :| 0 <= j < |rs| && rs[j] == n;
    assert i == j;
  }

  /** The plan hands out each destination once. */
  lemma {:induction false} PlanRoutesDistinct(w: Network)
    ensures DistinctDsts(Plan(w).routes)
    ensures forall m :: m in Plan(w).routes ==> m.route.table == MAIN && m.origin.OfTunnel?
    ensures forall p :: p in Plan(w).nets ==> SendsInto(Plan(w).routes, p)
    ensures forall m :: m in Plan(w).routes && !IsPin(m) ==> m.route.dst in Plan(w).nets
    ensures forall m :: m in Plan(w).routes && IsPin(m) ==> IsHost(m.route.dst) && AutoHop(w, m.route.dst.fam) == Some(m.route.hop)
  {
    PlanIsSafe(w);
    var ts, s := SortTunnels(w.tunnels), Plan(w);
    forall m | m in s.routes
      ensures m.route.table == MAIN && m.origin.OfTunnel?
      ensures IsPin(m) ==> IsHost(m.route.dst) && AutoHop(w, m.route.dst.fam) == Some(m.route.hop)
    {
      assert RouteOk(w, ts, s.held, m);
    }
  }
}
