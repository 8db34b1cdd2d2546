/** Checking the records against the kernel (internal/routing/tunnels.go): VerifyRoutes and
the index of a kernel table it uses, and what a reconcile makes of the result.
 */
module Verification {
  import opened Prefixes
  import opened Routes
  import opened Reconciling

  /** A route as a kernel table lists it. */
  datatype Listed = Listed(route: Route, metric: nat, cloned: bool, scoped: bool)

  // ---------- what a table holds ----------

  /** The kernel's entry, no clone, has the route's destination and counts as it. */
  predicate Carries(k: Listed, r: Route) {
    !k.cloned && DstKey(k.route) == DstKey(r) && Carried(k.route.hop, r.hop)
  }

  function EffectiveMetric(m: Managed): nat {
    if m.metric > 0 then m.metric else if m.route.dst.fam.V6? then 1024 else 0
  }

  /** The kernel's entry leaves the route no place: same destination, metric no higher. */
  predicate Outranks(k: Listed, m: Managed) {
    !k.cloned && !k.scoped && DstKey(k.route) == DstKey(m.route) && k.metric <= EffectiveMetric(m)
  }

  predicate Holding(table: seq<Listed>, r: Route) {
    exists k :: k in table && Carries(k, r)
  }

  predicate Outranked(table: seq<Listed>, m: Managed) {
    exists k :: k in table && Outranks(k, m)
  }

  /** The entry the kernel uses for a destination: of those that are no clones and not bound
      to an interface, the first of the lowest metric. */
  function Used(table: seq<Listed>, x: Dst): Option<Listed> {
    if table == [] then None
    else
      var best := Used(table[..|table| - 1], x);
      var k := table[|table| - 1];
      if k.cloned || k.scoped || DstKey(k.route) != x || (best.Some? && best.value.metric <= k.metric) then best
      else Some(k)
  }

  lemma {:induction false} UsedMeans(table: seq<Listed>, x: Dst)
    ensures Used(table, x).None? <==> forall k :: k in table ==> k.cloned || k.scoped || DstKey(k.route) != x
    ensures Used(table, x).Some? ==>
              && Used(table, x).value in table
              && DstKey(Used(table, x).value.route) == x && !Used(table, x).value.cloned && !Used(table, x).value.scoped
              && forall k :: k in table && !k.cloned && !k.scoped && DstKey(k.route) == x ==> Used(table, x).value.metric <= k.metric
  {
    if table != [] {
      UsedMeans(table[..|table| - 1], x);
      assert table == table[..|table| - 1] + [table[|table| - 1]];
    }
  }

  /** The kernel gives a route its own metric, or without one 1024 for IPv6 and 0 for IPv4. */
  predicate GivenMetric(m: Managed, metric: nat) {
    && (m.metric > 0 ==> metric == m.metric)
    && (m.metric == 0 && m.route.dst.fam.V4? ==> metric == 0)
    && (m.metric == 0 && m.route.dst.fam.V6? ==> metric == 1024)
  }

  /** A route is outranked exactly if adding it — with the metric the kernel gives it — would
      leave its destination to the entry in use already. */
  lemma {:induction false} OutrankedMeans(table: seq<Listed>, m: Managed, metric: nat)
    requires GivenMetric(m, metric)
    ensures var x, added := DstKey(m.route), Listed(m.route, metric, false, false);
            Outranked(table, m) <==> Used(table, x).Some? && Used(table + [added], x) == Used(table, x)
  {
    var x, added := DstKey(m.route), Listed(m.route, metric, false, false);
    assert (table + [added])[..|table|] == table;
    UsedMeans(table, x);
    if Used(table, x).Some? && Used(table, x).value.metric <= EffectiveMetric(m) {
      assert Outranks(Used(table, x).value, m);
    } else {
      assert Used(table + [added], x) == Some(added);
    }
  }

  // ---------- the index ----------

  datatype Entry = Refused(dst: Dst) | OnIface(dst: Dst, iface: string) | ThroughGateway(dst: Dst, gateway: Addr)

  datatype Index = Index(entries: set<Entry>, lowest: map<Dst, nat>)

  function EntriesOf(k: Listed): set<Entry> {
    var x := DstKey(k.route);
    match k.route.hop
    case Reject => {Refused(x)}
    case Via(gw, iface) => {OnIface(x, iface), ThroughGateway(x, gw)}
    case Dev(iface) => {OnIface(x, iface)}
  }

  function EntryFor(r: Route): Entry {
    match r.hop
    case Reject => Refused(DstKey(r))
    case Via(gw, _) => ThroughGateway(DstKey(r), gw)
    case Dev(iface) => OnIface(DstKey(r), iface)
  }

  /** Has. */
  predicate Has(ix: Index, r: Route) {
    EntryFor(r) in ix.entries
  }

  /** Outranked. */
  predicate OutrankedBy(ix: Index, m: Managed) {
    DstKey(m.route) in ix.lowest && ix.lowest[DstKey(m.route)] <= EffectiveMetric(m)
  }

  /** lowest is the lowest metric to each destination. */
  ghost predicate Lowest(table: seq<Listed>, lowest: map<Dst, nat>) {
    && (forall k :: k in table && !k.cloned && !k.scoped ==>
                    DstKey(k.route) in lowest && lowest[DstKey(k.route)] <= k.metric)
    && (forall x :: x in lowest ==>
                    exists k :: k in table && !k.cloned && !k.scoped && DstKey(k.route) == x && k.metric == lowest[x])
  }

  ghost predicate Entered(table: seq<Listed>, entries: set<Entry>) {
    forall e :: e in entries <==> exists k :: k in table && !k.cloned && e in EntriesOf(k)
  }

  lemma {:induction false} LowestGrows(table: seq<Listed>, lowest: map<Dst, nat>, k: Listed)
    requires Lowest(table, lowest)
    ensures var x := DstKey(k.route);
            Lowest(table + [k], if k.cloned || k.scoped || (x in lowest && lowest[x] <= k.metric) then lowest else lowest[x := k.metric])
  {
    var x := DstKey(k.route);
    var next := if k.cloned || k.scoped || (x in lowest && lowest[x] <= k.metric) then lowest else lowest[x := k.metric];
    forall y | y in next
      ensures exists e :: e in table + [k] && !e.cloned && !e.scoped && DstKey(e.route) == y && e.metric == next[y]
    {
      if y in lowest && next[y] == lowest[y] {
        var e :| e in table && !e.cloned && !e.scoped && DstKey(e.route) == y && e.metric == lowest[y];
        assert e in table + [k];
      } else {
        assert k in table + [k];
      }
    }
  }

  lemma {:induction false} EnteredGrows(table: seq<Listed>, entries: set<Entry>, k: Listed)
    requires Entered(table, entries)
    ensures Entered(table + [k], if k.cloned then entries else entries + EntriesOf(k))
  {
    assert forall e :: e in table + [k] <==> e in table || e == k;
  }

  /** IndexInstalled: the index answers for the table. */
  method IndexInstalled(table: seq<Listed>) returns (ix: Index)
    ensures forall r :: Has(ix, r) <==> Holding(table, r)
    ensures forall m :: OutrankedBy(ix, m) <==> Outranked(table, m)
  {
    var entries: set<Entry> := {};
    var lowest: map<Dst, nat> := map[];
    for i := 0 to |table|
      invariant Entered(table[..i], entries) && Lowest(table[..i], lowest)
    {
      var k := table[i];
      assert table[..i + 1] == table[..i] + [k];
      LowestGrows(table[..i], lowest, k);
      EnteredGrows(table[..i], entries, k);
      if k.cloned {
        continue;
      }
      var x := DstKey(k.route);
      if !k.scoped && (x !in lowest || k.metric < lowest[x]) {
        lowest := lowest[x := k.metric];
      }
      entries := entries + EntriesOf(k);
    }
    assert table[..|table|] == table;
    ix := Index(entries, lowest);
    IndexAnswers(table, ix);
  }

  lemma {:induction false} IndexAnswers(table: seq<Listed>, ix: Index)
    requires Entered(table, ix.entries) && Lowest(table, ix.lowest)
    ensures forall r :: Has(ix, r) <==> Holding(table, r)
    ensures forall m :: OutrankedBy(ix, m) <==> Outranked(table, m)
  {
    forall r
      ensures Has(ix, r) <==> Holding(table, r)
    {
      assert forall k :: k in table ==> (Carries(k, r) <==> !k.cloned && EntryFor(r) in EntriesOf(k));
    }
    forall m
      ensures OutrankedBy(ix, m) <==> Outranked(table, m)
    {
      if OutrankedBy(ix, m) {
        var x := DstKey(m.route);
        var k :| k in table && !k.cloned && !k.scoped && DstKey(k.route) == x && k.metric == ix.lowest[x];
        assert Outranks(k, m);
      }
    }
  }

  // ---------- VerifyRoutes ----------

  datatype Verdict = Keep | Taken | Missing

  /** What one owned route comes to: checked only when it is wanted and its table was read. */
  function Judge(desired: set<Route>, read: Family -> Option<seq<Listed>>, held: set<Route>, only: Managed -> bool,
      o: Managed): Verdict {
    match read(o.route.dst.fam)
    case None => Keep
    case Some(table) =>
      if o.route !in desired || !only(o) || Holding(table, o.route) then Keep
      else if Outranked(table, o) then Taken
      else if o.route in held && !o.origin.OfTunnel? then Keep
      else Missing
  }

  function Judged(desired: set<Route>, read: Family -> Option<seq<Listed>>, held: set<Route>, only: Managed -> bool,
      owned: seq<Managed>, v: set<Verdict>): seq<Managed> {
    if owned == [] then []
    else
      var rest := Judged(desired, read, held, only, owned[..|owned| - 1], v);
      var o := owned[|owned| - 1];
      if Judge(desired, read, held, only, o) in v then rest + [o] else rest
  }

  /** VerifyRoutes: owned in order, split into what stands and what is missing; no table is
      read twice, nor one of a family without a wanted route. */
  method VerifyRoutes(owned: seq<Managed>, desired: seq<Managed>, read: Family -> Option<seq<Listed>>,
      held: set<Route>, only: Managed -> bool)
    returns (kept: seq<Managed>, missing: seq<Managed>, taken: seq<Managed>, looked: seq<Family>)
    ensures kept == Judged(Keys(desired), read, held, only, owned, {Keep, Taken})
    ensures missing == Judged(Keys(desired), read, held, only, owned, {Missing})
    ensures taken == Judged(Keys(desired), read, held, only, owned, {Taken})
    ensures forall i, j :: 0 <= i < j < |looked| ==> looked[i] != looked[j]
    ensures forall fam :: fam in looked ==> exists o :: o in owned && o.route.dst.fam == fam && o.route in Keys(desired) && only(o)
  {
    hide Holding, Outranked, Has, OutrankedBy;
    kept, missing, taken, looked := [], [], [], [];
    var wanted := Keys(desired);
    var kernel: map<Family, Option<Index>> := map[];
    for i := 0 to |owned|
      invariant kept == Judged(wanted, read, held, only, owned[..i], {Keep, Taken})
      invariant missing == Judged(wanted, read, held, only, owned[..i], {Missing})
      invariant taken == Judged(wanted, read, held, only, owned[..i], {Taken})
      invariant forall fam :: fam in looked <==> fam in kernel
      invariant forall fam :: fam in kernel ==> IndexOf(read(fam), kernel[fam])
      invariant forall i, j :: 0 <= i < j < |looked| ==> looked[i] != looked[j]
      invariant forall fam :: fam in looked ==> exists o :: o in owned && o.route.dst.fam == fam && o.route in wanted && only(o)
    {
      var o := owned[i];
      assert owned[..i + 1][..i] == owned[..i];
      var index: Option<Index> := None;
      if o.route in wanted && only(o) {
        var fam := o.route.dst.fam;
        if fam !in kernel {
          var rs := read(fam);
          if rs.Some? {
            var found := IndexInstalled(rs.value);
            index := Some(found);
          }
          kernel := kernel[fam := index];
          assert o in owned;
          looked := looked + [fam];
        }
        index := kernel[fam];
      }
      if index.None? || Has(index.value, o.route) {
      } else if OutrankedBy(index.value, o) {
        taken := taken + [o];
      } else if o.route in held && !o.origin.OfTunnel? {
      } else {
        missing := missing + [o];
        continue;
      }
      kept := kept + [o];
    }
    assert owned[..|owned|] == owned;
  }

  ghost predicate IndexOf(table: Option<seq<Listed>>, index: Option<Index>) {
    match table
    case None => index.None?
    case Some(t) =>
      && index.Some?
      && (forall r :: Has(index.value, r) <==> Holding(t, r))
      && (forall m :: OutrankedBy(index.value, m) <==> Outranked(t, m))
  }

  lemma {:induction false} JudgedMembers(desired: set<Route>, read: Family -> Option<seq<Listed>>, held: set<Route>,
      only: Managed -> bool, owned: seq<Managed>, v: set<Verdict>, o: Managed)
    ensures o in Judged(desired, read, held, only, owned, v) <==> o in owned && Judge(desired, read, held, only, o) in v
  {
    if owned != [] {
      JudgedMembers(desired, read, held, only, owned[..|owned| - 1], v, o);
      assert owned == owned[..|owned| - 1] + [owned[|owned| - 1]];
    }
  }

  /** The route is wanted and checked, its table could be read, and does not hold it. */
  ghost predicate Absent(desired: set<Route>, read: Family -> Option<seq<Listed>>, only: Managed -> bool, o: Managed) {
    o.route in desired && only(o) && read(o.route.dst.fam).Some? && !Holding(read(o.route.dst.fam).value, o.route)
  }

  /** An absent route is taken exactly if another entry outranks it, and otherwise missing,
      unless it is held and no tunnel's; every other route is kept. */
  lemma {:induction false} JudgedIff(desired: set<Route>, read: Family -> Option<seq<Listed>>, held: set<Route>,
      only: Managed -> bool, owned: seq<Managed>, o: Managed)
    ensures o in Judged(desired, read, held, only, owned, {Taken}) <==>
            o in owned && Absent(desired, read, only, o) && Outranked(read(o.route.dst.fam).value, o)
    ensures o in Judged(desired, read, held, only, owned, {Missing}) <==>
            && o in owned && Absent(desired, read, only, o) && !Outranked(read(o.route.dst.fam).value, o)
            && (o.route in held ==> o.origin.OfTunnel?)
  {
    hide Holding, Outranked;
    JudgedMembers(desired, read, held, only, owned, {Taken}, o);
    JudgedMembers(desired, read, held, only, owned, {Missing}, o);
  }

  /** Nothing is lost: kept and missing together are owned. */
  lemma {:induction false} KeptAndMissing(desired: set<Route>, read: Family -> Option<seq<Listed>>, held: set<Route>,
      only: Managed -> bool, owned: seq<Managed>)
    ensures multiset(Judged(desired, read, held, only, owned, {Keep, Taken})) +
            multiset(Judged(desired, read, held, only, owned, {Missing})) == multiset(owned)
  {
    hide Judge;
    if owned != [] {
      var k := |owned| - 1;
      KeptAndMissing(desired, read, held, only, owned[..k]);
      var v := Judge(desired, read, held, only, owned[k]);
      assert v in {Keep, Taken} <==> v !in {Missing} by { assert v.Keep? || v.Taken? || v.Missing?; }
      assert owned == owned[..k] + [owned[k]];
    }
  }

  /** A failed read changes nothing: the family's records all stand. And a tunnel's route
      the kernel lost, that nothing displaced, is missing however often it was lost. */
  lemma {:induction false} FailedReadKeeps(desired: set<Route>, read: Family -> Option<seq<Listed>>,
      held: set<Route>, only: Managed -> bool, owned: seq<Managed>, o: Managed)
    requires o in owned
    ensures read(o.route.dst.fam).None? ==> o in Judged(desired, read, held, only, owned, {Keep, Taken})
    ensures o.origin.OfTunnel? && o.route in desired && only(o) && read(o.route.dst.fam).Some? &&
            !Holding(read(o.route.dst.fam).value, o.route) && !Outranked(read(o.route.dst.fam).value, o) ==>
              o in Judged(desired, read, held, only, owned, {Missing})
  {
    JudgedMembers(desired, read, held, only, owned, {Keep, Taken}, o);
    JudgedMembers(desired, read, held, only, owned, {Missing}, o);
  }

  // ---------- reconciling against what is kept ----------

  lemma {:induction false} JudgedUnique(desired: set<Route>, read: Family -> Option<seq<Listed>>, held: set<Route>,
      only: Managed -> bool, owned: seq<Managed>, v: set<Verdict>)
    requires UniqueDsts(owned)
    ensures UniqueDsts(Judged(desired, read, held, only, owned, v))
  {
    if owned != [] {
      var k := |owned| - 1;
      JudgedUnique(desired, read, held, only, owned[..k], v);
      var rest := Judged(desired, read, held, only, owned[..k], v);
      forall m | m in rest
        ensures DstKey(m.route) != DstKey(owned[k].route)
      {
        JudgedMembers(desired, read, held, only, owned[..k], v, m);
        var i :| 0 <= i < k && owned[i] == m;
      }
    }
  }

  /** What an operation of a reconcile is about: a desired route that is not actual, or an
      actual one that is not desired. */
  ghost predicate OpMeans(c: Change, op: Op) {
    match op
    case AddRouteOp(d) => d in c.desired && d.route !in Keys(c.actual)
    case DelRouteOp(a) => a in c.actual && a.route !in Keys(c.desired)
    case _ => true
  }

  lemma {:induction false} OldAtMeans(actual: seq<Managed>, desired: set<Route>, x: Dst)
    ensures forall a :: a in OldAt(actual, desired, x) ==> a in actual && a.route !in desired
  {
    if actual != [] {
      OldAtMeans(actual[..|actual| - 1], desired, x);
    }
  }

  lemma {:induction false} ReplaceMeans(c: Change, s: Adds, olds: seq<Managed>)
    requires (forall op :: op in s.ops ==> OpMeans(c, op)) && forall a :: a in olds ==> a in c.actual && a.route !in Keys(c.desired)
    ensures forall op :: op in Replace(s, olds).ops ==> OpMeans(c, op)
    ensures forall op :: op in s.ops ==> op in Replace(s, olds).ops
  {
    if olds != [] {
      var k := |olds| - 1;
      assert forall a :: a in olds[..k] ==> a in olds;
      ReplaceMeans(c, s, olds[..k]);
      assert olds[k] in olds;
    }
  }

  lemma {:induction false} AddsMean(c: Change, n: nat)
    requires n <= |c.desired|
    ensures forall op :: op in RouteAdds(c.desired, c.actual, n).ops ==> OpMeans(c, op)
    ensures forall i :: 0 <= i < n && c.desired[i].route !in Keys(c.actual) ==>
                        AddRouteOp(c.desired[i]) in RouteAdds(c.desired, c.actual, n).ops
  {
    if n > 0 {
      AddsMean(c, n - 1);
      var d := c.desired[n - 1];
      OldAtMeans(c.actual, Keys(c.desired), DstKey(d.route));
      ReplaceMeans(c, RouteAdds(c.desired, c.actual, n - 1), OldAt(c.actual, Keys(c.desired), DstKey(d.route)));
    }
  }

  lemma {:induction false} DelsMean(actual: seq<Managed>, desired: set<Route>, replaced: set<Route>)
    ensures forall op :: op in RouteDels(actual, desired, replaced) ==>
                         op.DelRouteOp? && op.route in actual && op.route.route !in desired
  {
    if actual != [] {
      DelsMean(actual[..|actual| - 1], desired, replaced);
      assert actual == actual[..|actual| - 1] + [actual[|actual| - 1]];
    }
  }

  lemma {:induction false} RuleOpsAreRules(c: Change)
    ensures forall op :: op in RuleOps(c) ==> op.AddRuleOp? || op.DelRuleOp?
  {
    RuleAddsAreRules(c.desiredRules, RuleKeys(c.actualRules));
    RuleDelsAreRules(c.actualRules, RuleKeys(c.desiredRules));
  }

  lemma {:induction false} RuleAddsAreRules(desired: seq<ManagedRule>, actual: set<Rule>)
    ensures forall op :: op in RuleAdds(desired, actual) ==> op.AddRuleOp?
  {
    if desired != [] { RuleAddsAreRules(desired[..|desired| - 1], actual); }
  }

  lemma {:induction false} RuleDelsAreRules(actual: seq<ManagedRule>, desired: set<Rule>)
    ensures forall op :: op in RuleDels(actual, desired) ==> op.DelRuleOp?
  {
    if actual != [] { RuleDelsAreRules(actual[..|actual| - 1], desired); }
  }

  lemma {:induction false} OpsMean(c: Change)
    ensures forall op :: op in Ops(c) ==> OpMeans(c, op)
    ensures forall d :: d in c.desired && d.route !in Keys(c.actual) ==> AddRouteOp(d) in Ops(c)
  {
    AddsMean(c, |c.desired|);
    DelsMean(c.actual, Keys(c.desired), RouteAdds(c.desired, c.actual, |c.desired|).replaced);
    RuleOpsAreRules(c);
    forall d | d in c.desired && d.route !in Keys(c.actual)
      ensures AddRouteOp(d) in Ops(c)
    {
      var i :| 0 <= i < |c.desired| && c.desired[i] == d;
      assert AddRouteOp(d) in AddOps(c);
    }
  }

  /** A wanted route that is kept — still there, displaced by another's, or held — is left
      alone, with its destination. */
  lemma {:induction false} KeptIsUntouched(c: Change, t: Managed)
    requires UniqueDsts(c.desired) && UniqueDsts(c.actual) && t in c.actual && t.route in Keys(c.desired)
    ensures forall op :: op in Ops(c) ==> !Touches(op, DstKey(t.route))
  {
    OpsMean(c);
    var d :| d in c.desired && d.route == t.route;
    assert t.route in Keys(c.actual);
    forall op | op in Ops(c)
      ensures !Touches(op, DstKey(t.route))
    {
      match op
      case AddRouteOp(m) => if DstKey(m.route) == DstKey(t.route) { SameKey(c.desired, m, d); }
      case DelRouteOp(m) => if DstKey(m.route) == DstKey(t.route) { SameKey(c.actual, m, t); }
      case _ =>
    }
  }

  /** Reconciling the desired set against what is kept puts back every missing route, and
      does nothing at a destination another program took or that is held. */
  lemma {:induction false} RepairPutsBack(owned: seq<Managed>, desired: seq<Managed>, rules: seq<ManagedRule>,
      actualRules: seq<ManagedRule>, read: Family -> Option<seq<Listed>>, held: set<Route>, only: Managed -> bool,
      o: Managed)
    requires UniqueDsts(owned) && UniqueDsts(desired) && o in owned && o.route in Keys(desired)
    ensures var kept := Judged(Keys(desired), read, held, only, owned, {Keep, Taken});
            var ops := Ops(Change(desired, kept, rules, actualRules));
            if Judge(Keys(desired), read, held, only, o).Missing?
            then exists d :: d in desired && d.route == o.route && AddRouteOp(d) in ops
            else forall op :: op in ops ==> !Touches(op, DstKey(o.route))
  {
    var kept := Judged(Keys(desired), read, held, only, owned, {Keep, Taken});
    var c := Change(desired, kept, rules, actualRules);
    JudgedUnique(Keys(desired), read, held, only, owned, {Keep, Taken});
    JudgedMembers(Keys(desired), read, held, only, owned, {Keep, Taken}, o);
    if Judge(Keys(desired), read, held, only, o).Missing? {
      var d :| d in desired && d.route == o.route;
      forall m | m in kept
        ensures m.route != o.route
      {
        JudgedMembers(Keys(desired), read, held, only, owned, {Keep, Taken}, m);
        if m.route == o.route { SameKey(owned, m, o); }
      }
      OpsMean(c);
    } else {
      KeptIsUntouched(c, o);
    }
  }
}
