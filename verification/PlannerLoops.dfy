/** The planner's loops (internal/routing/tunnels.go), each proved to compute what
Planner.dfy says it computes.
 */
module PlannerLoops {
  import opened Prefixes
  import opened Aggregation
  import opened Subtraction
  import opened Routes
  import opened Planner

  // ---------- keepOut ----------

  lemma {:induction false} KeptInConcat(pfx: Prefix, x: seq<Addr>, y: seq<Addr>)
    ensures KeptIn(pfx, x + y) == KeptIn(pfx, x) + KeptIn(pfx, y)
  {
    if y == [] {
      assert x + y == x;
    } else {
      var k := |y| - 1;
      KeptInConcat(pfx, x, y[..k]);
      assert (x + y)[..|x + y| - 1] == x + y[..k];
    }
  }

  lemma {:induction false} KeptInSnoc(pfx: Prefix, x: seq<Addr>, a: Addr)
    ensures KeptIn(pfx, x + [a]) == KeptIn(pfx, x) + if Contains(pfx, a) then [Kept(a, None)] else []
  {
    assert (x + [a])[..|x|] == x;
  }

  function Capped(n: nat): nat {
    if n < MAX_KEPT_RESOLVERS then n else MAX_KEPT_RESOLVERS
  }

  lemma {:induction false} ResolverStep(pfx: Prefix, dns: seq<Addr>, i: nat)
    requires i < |dns|
    ensures forall fam :: CountFamily(dns[..i + 1], fam) == CountFamily(dns[..i], fam) + if dns[i].fam == fam then 1 else 0
    ensures KeptIn(pfx, FirstResolvers(dns[..i + 1])) ==
            KeptIn(pfx, FirstResolvers(dns[..i])) +
            if CountFamily(dns[..i], dns[i].fam) < MAX_KEPT_RESOLVERS && Contains(pfx, dns[i]) then [Kept(dns[i], None)] else []
  {
    assert dns[..i + 1][..i] == dns[..i];
    KeptInSnoc(pfx, FirstResolvers(dns[..i]), dns[i]);
  }

  method KeepResolvers(pfx: Prefix, dns: seq<Addr>, essential: bool) returns (out: seq<Kept>)
    ensures out == KeptIn(pfx, if essential then [] else FirstResolvers(dns))
  {
    out := [];
    if essential {
      return;
    }
    var v4, v6 := 0, 0; // resolvers seen, by family
    for i := 0 to |dns|
      invariant out == KeptIn(pfx, FirstResolvers(dns[..i]))
      invariant v4 == Capped(CountFamily(dns[..i], V4)) && v6 == Capped(CountFamily(dns[..i], V6))
    {
      var a := dns[i];
      ResolverStep(pfx, dns, i);
      hide KeptIn, FirstResolvers, CountFamily;
      if (if a.fam.V4? then v4 else v6) >= MAX_KEPT_RESOLVERS {
        continue;
      }
      if a.fam.V4? {
        v4 := v4 + 1;
      } else {
        v6 := v6 + 1;
      }
      if Contains(pfx, a) {
        out := out + [Kept(a, None)];
      }
    }
    assert dns[..|dns|] == dns;
  }

  method KeepAnchors(pfx: Prefix, anchors: seq<Addr>, essential: bool) returns (out: seq<Kept>)
    ensures out == KeptIn(pfx, if essential then [] else anchors)
  {
    out := [];
    for i := 0 to |anchors|
      invariant out == KeptIn(pfx, if essential then [] else anchors[..i])
    {
      assert anchors[..i + 1] == anchors[..i] + [anchors[i]];
      KeptInSnoc(pfx, anchors[..i], anchors[i]);
      if !essential && Contains(pfx, anchors[i]) {
        out := out + [Kept(anchors[i], None)];
      }
    }
    assert anchors[..|anchors|] == anchors;
  }

  lemma {:induction false} UnheldConcat(x: seq<Addr>, y: seq<Addr>, held: set<Addr>)
    ensures Unheld(x + y, held) == Unheld(x, held) + Unheld(y, held)
  {
    if y == [] {
      assert x + y == x;
    } else {
      var k := |y| - 1;
      UnheldConcat(x, y[..k], held);
      assert (x + y)[..|x + y| - 1] == x + y[..k];
    }
  }

  lemma {:induction false} ServerStep(pfx: Prefix, x: seq<Addr>, held: set<Addr>, a: Addr)
    ensures KeptIn(pfx, Unheld(x + [a], held)) ==
            KeptIn(pfx, Unheld(x, held)) + if Contains(pfx, a) && a !in held then [Kept(a, None)] else []
  {
    assert (x + [a])[..|x|] == x;
    KeptInSnoc(pfx, Unheld(x, held), a);
  }

  method KeepServersOf(pfx: Prefix, addrs: seq<Addr>, held: set<Addr>) returns (out: seq<Kept>)
    ensures out == KeptIn(pfx, Unheld(addrs, held))
  {
    out := [];
    for j := 0 to |addrs|
      invariant out == KeptIn(pfx, Unheld(addrs[..j], held))
    {
      var a := addrs[j];
      assert addrs[..j + 1] == addrs[..j] + [a];
      ServerStep(pfx, addrs[..j], held, a);
      if !Contains(pfx, a) || a in held {
        continue;
      }
      out := out + [Kept(a, None)];
    }
    assert addrs[..|addrs|] == addrs;
  }

  method KeepServers(pfx: Prefix, ts: seq<TunnelInput>, held: set<Addr>) returns (out: seq<Kept>)
    ensures out == KeptIn(pfx, Unheld(AllServers(ts), held))
  {
    out := [];
    for i := 0 to |ts|
      invariant out == KeptIn(pfx, Unheld(AllServers(ts[..i]), held))
    {
      assert ts[..i + 1][..i] == ts[..i];
      UnheldConcat(AllServers(ts[..i]), ServersOf(ts[i]), held);
      KeptInConcat(pfx, Unheld(AllServers(ts[..i]), held), Unheld(ServersOf(ts[i]), held));
      var more := KeepServersOf(pfx, ServersOf(ts[i]), held);
      out := out + more;
    }
    assert ts[..|ts|] == ts;
  }

  /** One address, said once. */
  method SayOnce(all: seq<Kept>) returns (out: seq<Kept>)
    ensures out == FirstOfEach(all)
  {
    out := [];
    var seen: set<Addr> := {};
    for i := 0 to |all|
      invariant out == FirstOfEach(all[..i])
      invariant seen == set k | k in out :: k.addr
    {
      assert all[..i + 1][..i] == all[..i];
      assert all[i].addr in seen <==> exists k :: k in out && k.addr == all[i].addr;
      if all[i].addr !in seen {
        seen := seen + {all[i].addr};
        out := out + [all[i]];
      }
    }
    assert all[..|all|] == all;
  }

  /** keepOut. */
  method KeepOutOf(pfx: Prefix, w: Network, ts: seq<TunnelInput>, held: set<Addr>, essential: bool)
    returns (out: seq<Kept>)
    ensures out == KeepOut(pfx, w, ts, held, essential)
  {
    var router := RouterKept(pfx, w);
    var resolvers := KeepResolvers(pfx, w.dnsServers, essential);
    var anchors := KeepAnchors(pfx, w.anchors, essential);
    var servers := KeepServers(pfx, ts, held);
    KeptParts(pfx, w, ts, held, essential);
    hide RouterKept, KeptIn, FirstOfEach, Guarded;
    out := SayOnce(router + (resolvers + anchors + servers));
  }

  lemma {:induction false} KeptParts(pfx: Prefix, w: Network, ts: seq<TunnelInput>, held: set<Addr>, essential: bool)
    ensures KeptIn(pfx, Guarded(w, ts, held, essential)) ==
            KeptIn(pfx, if essential then [] else FirstResolvers(w.dnsServers)) +
            KeptIn(pfx, if essential then [] else w.anchors) +
            KeptIn(pfx, Unheld(AllServers(ts), held))
  {
    var resolvers := if essential then [] else FirstResolvers(w.dnsServers);
    var anchors := if essential then [] else w.anchors;
    var servers := Unheld(AllServers(ts), held);
    assert Guarded(w, ts, held, essential) == resolvers + anchors + servers;
    KeptInConcat(pfx, resolvers + anchors, servers);
    KeptInConcat(pfx, resolvers, anchors);
  }

  // ---------- carve ----------

  method HoleOf(k: Kept, others: seq<Prefix>) returns (hole: Prefix)
    ensures hole == HoleFor(k, others)
  {
    hole := k.addr;
    if k.net.Some? {
      return k.net.value;
    }
    var found := false;
    for i := 0 to |others|
      invariant Narrowest(k.addr, others[..i]) == if found then Some(hole) else None
      invariant !found ==> hole == k.addr
    {
      assert others[..i + 1][..i] == others[..i];
      if !Contains(others[i], k.addr) || (found && |others[i].bits| <= |hole.bits|) {
        continue;
      }
      hole, found := others[i], true;
    }
    assert others[..|others|] == others;
  }

  /** carve. */
  method CarveOut(pfx: Prefix, keep: seq<Kept>, others: seq<Prefix>, taken: Claims) returns (parts: seq<Prefix>)
    ensures parts == Carve(pfx, keep, others, taken)
  {
    var holes: seq<Prefix> := [];
    for i := 0 to |keep|
      invariant holes == Holes(keep[..i], others)
    {
      assert keep[..i + 1][..i] == keep[..i];
      var hole := HoleOf(keep[i], others);
      if hole !in holes {
        holes := holes + [hole];
      }
    }
    assert keep[..|keep|] == keep;
    var pieces := SubtractNets(pfx, holes);
    parts := [];
    for i := 0 to |pieces|
      invariant parts == FreeParts(pieces[..i], others, taken)
    {
      assert pieces[..i + 1][..i] == pieces[..i];
      var theirs := Within(pieces[i], others);
      if !theirs && pieces[i] !in taken {
        parts := parts + [pieces[i]];
      }
    }
    assert pieces[..|pieces|] == pieces;
  }

  // ---------- unclaimedAggregate ----------

  /** A masked prefix as callers hand it over. */
  function AsRaw(p: Prefix): (r: RawPrefix)
    ensures IsValid(r) && Masked(r) == p
  {
    assert First(p).bits[..|p.bits|] == p.bits;
    Raw(First(p), |p.bits|)
  }

  function AllRaw(ps: seq<Prefix>): seq<RawPrefix> {
    if ps == [] then [] else AllRaw(ps[..|ps| - 1]) + [AsRaw(ps[|ps| - 1])]
  }

  lemma {:induction false} RawIsNormal(ps: seq<Prefix>)
    ensures Normal(AllRaw(ps)) == ps
  {
    if ps != [] {
      var k := |ps| - 1;
      RawIsNormal(ps[..k]);
      var rest := AllRaw(ps[..k]);
      assert (rest + [AsRaw(ps[k])])[..|rest|] == rest;
      assert ps == ps[..k] + [ps[k]];
    }
  }

  method ListedWithin(agg: Prefix, prefixes: seq<Prefix>) returns (parts: seq<Prefix>)
    ensures parts == Within1(agg, prefixes)
  {
    parts := [];
    for j := 0 to |prefixes|
      invariant parts == Within1(agg, prefixes[..j])
    {
      assert prefixes[..j + 1][..j] == prefixes[..j];
      if Contains(agg, prefixes[j]) {
        parts := parts + [prefixes[j]];
      }
    }
    assert prefixes[..|prefixes|] == prefixes;
  }

  method AppendUnseen(out: seq<Prefix>, parts: seq<Prefix>) returns (out1: seq<Prefix>)
    ensures out1 == AppendNew(out, parts)
  {
    out1 := out;
    for j := 0 to |parts|
      invariant out1 == AppendNew(out, parts[..j])
    {
      assert parts[..j + 1][..j] == parts[..j];
      if parts[j] !in out1 {
        out1 := out1 + [parts[j]];
      }
    }
    assert parts[..|parts|] == parts;
  }

  /** unclaimedAggregate. */
  method UnclaimedAggregate(prefixes: seq<Prefix>, taken: Claims) returns (out: seq<Prefix>)
    ensures out == Unclaimed(prefixes, taken)
  {
    var aggs := Aggregate(AllRaw(prefixes));
    RawIsNormal(prefixes);
    hide MaximalBlocks, AppendNew, Within1;
    out := [];
    for i := 0 to |aggs|
      invariant out == UnclaimedOf(aggs[..i], prefixes, taken)
    {
      assert aggs[..i + 1][..i] == aggs[..i];
      var parts := [aggs[i]];
      if aggs[i] in taken {
        parts := ListedWithin(aggs[i], prefixes);
      }
      out := AppendUnseen(out, parts);
    }
    assert aggs[..|aggs|] == aggs;
  }

  // ---------- PlanTunnels ----------

  method PinServers(w: Network, ts: seq<TunnelInput>) returns (s: TunnelPlan)
    ensures s == PinPhase(w, ts, |ts|)
  {
    s := NO_PLAN;
    for i := 0 to |ts|
      invariant s == PinPhase(w, ts, i)
    {
      var t := ts[i];
      ghost var before := s;
      for j := 0 to |t.bypass|
        invariant s == Pins(w, t, before, j)
      {
        s := PinOne(w, t, s, t.bypass[j]);
      }
      ghost var pinned := s;
      var addrs := ServersOf(t);
      for j := 0 to |addrs|
        invariant s == pinned.(held := pinned.held + OccupiedServers(w, addrs[..j]))
      {
        assert addrs[..j + 1] == addrs[..j] + [addrs[j]];
        if addrs[j] in w.occupied {
          s := s.(held := s.held + {addrs[j]});
        }
      }
      assert addrs[..|addrs|] == addrs;
    }
  }

  /** What becomes of one listed route. */
  method DecideRoute(w: Network, ts: seq<TunnelInput>, t: TunnelInput, taken: Claims, held: set<Addr>,
      pfx: Prefix) returns (d: Decision)
    ensures d == Decide(w, ts, t, taken, held, pfx)
  {
    hide KeepOut, Carve, OthersInside;
    var noV6 := Live(t) && pfx.fam.V6? && !t.v6;
    var why := None;
    if noV6 && !t.block {
      why := Some(NoV6);
    }
    if why.None? && pfx in w.occupied {
      why := Some(Occupied);
    }
    if why.None? && pfx in taken {
      why := Some(Claimed);
    }
    if why.Some? {
      return Decision([], why, false);
    }
    var parts, narrowed := [pfx], false;
    var keep := KeepOutOf(pfx, w, ts, held, false);
    if |keep| > 0 {
      var others := OthersInside(pfx, t.name, ts, w.occupied);
      parts := CarveOut(pfx, keep, others, taken);
      if t.block && (|parts| == 0 || |parts| > MAX_CARVED) {
        keep := KeepOutOf(pfx, w, ts, held, true);
        parts := CarveOut(pfx, keep, others, taken);
      }
      if |parts| == 0 {
        return Decision([], Some(NothingLeft), false);
      }
      if |parts| > MAX_CARVED {
        return Decision([], Some(TooMany), false);
      }
      narrowed := true;
    }
    d := Decision(parts, if noV6 then Some(RefusedV6) else None, narrowed);
  }

  method InstallAll(t: TunnelInput, s: TunnelPlan, ps: seq<Prefix>) returns (s1: TunnelPlan)
    ensures s1 == Install(t, s, ps)
  {
    s1 := s;
    for i := 0 to |ps|
      invariant s1 == Install(t, s, ps[..i])
    {
      assert ps[..i + 1][..i] == ps[..i];
      s1 := InstallOne(t, s1, ps[i]);
    }
    assert ps[..|ps|] == ps;
  }

  method PlanOne(w: Network, ts: seq<TunnelInput>, t: TunnelInput, s: TunnelPlan) returns (s1: TunnelPlan)
    ensures s1 == PlanTunnel(w, ts, t, s)
  {
    hide Decide, Unclaimed, Install;
    var v4: seq<Prefix>, v6: seq<Prefix> := [], [];
    s1 := s;
    for i := 0 to |t.routes|
      invariant v4 == Gather(w, ts, t, s.taken, s.held, V4, i)
      invariant v6 == Gather(w, ts, t, s.taken, s.held, V6, i)
      invariant s1 == s.(blocked := s.blocked + BlockedOf(w, ts, t, s.taken, s.held, i),
                         narrowed := s.narrowed + NarrowedOf(w, ts, t, s.taken, s.held, i))
    {
      var pfx := t.routes[i];
      var d := DecideRoute(w, ts, t, s.taken, s.held, pfx);
      if pfx.fam.V4? {
        v4 := v4 + d.parts;
      } else {
        v6 := v6 + d.parts;
      }
      if d.why.Some? {
        s1 := s1.(blocked := s1.blocked + [Report(t.name, pfx, d.why.value)]);
      }
      if d.narrowed {
        s1 := s1.(narrowed := s1.narrowed + [(t.name, pfx)]);
      }
    }
    if !Live(t) && !t.block {
      return;
    }
    var us := UnclaimedAggregate(v4, s1.taken);
    s1 := InstallAll(t, s1, us);
    us := UnclaimedAggregate(v6, s1.taken);
    s1 := InstallAll(t, s1, us);
  }

  /** PlanTunnels. */
  method PlanTunnels(w: Network) returns (s: TunnelPlan)
    ensures s == Plan(w)
  {
    hide PlanTunnel;
    var ts := SortTunnels(w.tunnels);
    s := PinServers(w, ts);
    for i := 0 to |ts|
      invariant s == RoutePhase(w, ts, i)
    {
      s := PlanOne(w, ts, ts[i], s);
    }
  }
}
