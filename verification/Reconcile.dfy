/** Reconcile and its inverse (internal/routing/engine.go), over a kernel that keeps one
route per table and destination: adding onto a held destination does nothing, and a
managed delete takes the destination's entry only while that is still the route
(internal/provider/macos/macos_mutate.go).

What a list of operations does is read off destination by destination: the operations
touching one destination are at most two, and the others leave it alone.
 */
module Reconciling {
  import opened Prefixes
  import opened Routes

  datatype Op =
    | AddRouteOp(route: Managed)
    | DelRouteOp(route: Managed)
    | AddRuleOp(rule: ManagedRule)
    | DelRuleOp(rule: ManagedRule)

  datatype Kernel = Kernel(routes: map<Dst, Hop>, rules: set<Rule>)

  /** Deleting m takes an entry with next hop h: one that is still the route, or any when
      the delete is not of a managed route. */
  predicate Takes(m: Managed, h: Hop) {
    m.origin.NoProfile? || Carried(h, m.route.hop)
  }

  /** What the kernel holds after an operation. */
  function Do(k: Kernel, op: Op): Kernel {
    match op
    case AddRouteOp(m) =>
      if DstKey(m.route) in k.routes then k else k.(routes := k.routes[DstKey(m.route) := m.route.hop])
    case DelRouteOp(m) =>
      var x := DstKey(m.route);
      if x in k.routes && Takes(m, k.routes[x]) then k.(routes := k.routes - {x}) else k
    case AddRuleOp(m) => k.(rules := k.rules + {m.rule})
    case DelRuleOp(m) => k.(rules := k.rules - {m.rule})
  }

  function Run(k: Kernel, ops: seq<Op>): Kernel {
    if ops == [] then k else Do(Run(k, ops[..|ops| - 1]), ops[|ops| - 1])
  }

  /** inverseOp, and each step of invert. */
  function Inverse(op: Op): Op {
    match op
    case AddRouteOp(m) => DelRouteOp(m)
    case DelRouteOp(m) => AddRouteOp(m)
    case AddRuleOp(m) => DelRuleOp(m)
    case DelRuleOp(m) => AddRuleOp(m)
  }

  /** invert: the inverses, last first. */
  function Invert(ops: seq<Op>): (inv: seq<Op>)
    ensures |inv| == |ops|
  {
    if ops == [] then [] else [Inverse(ops[|ops| - 1])] + Invert(ops[..|ops| - 1])
  }

  // ---------- the plan ----------

  datatype Adds = Adds(ops: seq<Op>, replaced: set<Route>)

  /** The actual routes to x that are not desired. */
  function OldAt(actual: seq<Managed>, desired: set<Route>, x: Dst): seq<Managed> {
    if actual == [] then []
    else
      var rest := OldAt(actual[..|actual| - 1], desired, x);
      var a := actual[|actual| - 1];
      if a.route !in desired && DstKey(a.route) == x then rest + [a] else rest
  }

  function Replace(s: Adds, olds: seq<Managed>): Adds {
    if olds == [] then s
    else
      var s1 := Replace(s, olds[..|olds| - 1]);
      var a := olds[|olds| - 1];
      if a.route in s1.replaced then s1
      else Adds(s1.ops + [DelRouteOp(a)], s1.replaced + {a.route})
  }

  /** The additions, each new next hop of a destination after the delete of its old one. */
  function RouteAdds(desired: seq<Managed>, actual: seq<Managed>, n: nat): Adds
    requires n <= |desired|
  {
    if n == 0 then Adds([], {})
    else
      var s := RouteAdds(desired, actual, n - 1);
      var d := desired[n - 1];
      if d.route in Keys(actual) then s
      else
        var s1 := Replace(s, OldAt(actual, Keys(desired), DstKey(d.route)));
        s1.(ops := s1.ops + [AddRouteOp(d)])
  }

  function RouteDels(actual: seq<Managed>, desired: set<Route>, replaced: set<Route>): seq<Op> {
    if actual == [] then []
    else
      var rest := RouteDels(actual[..|actual| - 1], desired, replaced);
      var a := actual[|actual| - 1];
      if a.route !in desired && a.route !in replaced then rest + [DelRouteOp(a)] else rest
  }

  function RuleAdds(desired: seq<ManagedRule>, actual: set<Rule>): seq<Op> {
    if desired == [] then []
    else
      var rest := RuleAdds(desired[..|desired| - 1], actual);
      if desired[|desired| - 1].rule in actual then rest else rest + [AddRuleOp(desired[|desired| - 1])]
  }

  function RuleDels(actual: seq<ManagedRule>, desired: set<Rule>): seq<Op> {
    if actual == [] then []
    else
      var rest := RuleDels(actual[..|actual| - 1], desired);
      if actual[|actual| - 1].rule in desired then rest else rest + [DelRuleOp(actual[|actual| - 1])]
  }

  datatype Change = Change(
    desired: seq<Managed>, actual: seq<Managed>, desiredRules: seq<ManagedRule>, actualRules: seq<ManagedRule>)

  function AddOps(c: Change): seq<Op> {
    RouteAdds(c.desired, c.actual, |c.desired|).ops
  }

  function RuleOps(c: Change): seq<Op> {
    RuleAdds(c.desiredRules, RuleKeys(c.actualRules)) + RuleDels(c.actualRules, RuleKeys(c.desiredRules))
  }

  function DelOps(c: Change): seq<Op> {
    RouteDels(c.actual, Keys(c.desired), RouteAdds(c.desired, c.actual, |c.desired|).replaced)
  }

  /** Reconcile's operations: add routes, add rules, delete rules, delete routes. */
  function Ops(c: Change): seq<Op> {
    AddOps(c) + RuleOps(c) + DelOps(c)
  }

  // ---------- Reconcile, as the program builds it ----------

  method IndexByDst(actual: seq<Managed>, desired: set<Route>) returns (byDst: map<Dst, seq<Managed>>)
    ensures forall x :: OldAt(actual, desired, x) == if x in byDst then byDst[x] else []
  {
    byDst := map[];
    for i := 0 to |actual|
      invariant forall x :: OldAt(actual[..i], desired, x) == if x in byDst then byDst[x] else []
    {
      var a := actual[i];
      assert actual[..i + 1][..i] == actual[..i];
      if a.route !in desired {
        var x := DstKey(a.route);
        byDst := byDst[x := (if x in byDst then byDst[x] else []) + [a]];
      }
    }
    assert actual[..|actual|] == actual;
  }

  method ReplaceAll(ops: seq<Op>, replaced: set<Route>, olds: seq<Managed>) returns (ops1: seq<Op>,
      replaced1: set<Route>)
    ensures Adds(ops1, replaced1) == Replace(Adds(ops, replaced), olds)
  {
    ops1, replaced1 := ops, replaced;
    for i := 0 to |olds|
      invariant Adds(ops1, replaced1) == Replace(Adds(ops, replaced), olds[..i])
    {
      assert olds[..i + 1][..i] == olds[..i];
      if olds[i].route !in replaced1 {
        replaced1 := replaced1 + {olds[i].route};
        ops1 := ops1 + [DelRouteOp(olds[i])];
      }
    }
    assert olds[..|olds|] == olds;
  }

  method DiffRules(from: seq<ManagedRule>, against: set<Rule>) returns (out: seq<ManagedRule>)
    ensures RuleAdds(from, against) == seq(|out|, i requires 0 <= i < |out| => AddRuleOp(out[i]))
    ensures RuleDels(from, against) == seq(|out|, i requires 0 <= i < |out| => DelRuleOp(out[i]))
  {
    out := [];
    for i := 0 to |from|
      invariant RuleAdds(from[..i], against) == seq(|out|, j requires 0 <= j < |out| => AddRuleOp(out[j]))
      invariant RuleDels(from[..i], against) == seq(|out|, j requires 0 <= j < |out| => DelRuleOp(out[j]))
    {
      assert from[..i + 1][..i] == from[..i];
      if from[i].rule !in against {
        out := out + [from[i]];
      }
    }
    assert from[..|from|] == from;
  }

  /** Reconcile. */
  method Reconcile(c: Change) returns (ops: seq<Op>, inverse: seq<Op>)
    ensures ops == Ops(c) && inverse == Invert(ops)
  {
    var dr, ar := Keys(c.desired), Keys(c.actual);
    var byDst := IndexByDst(c.actual, dr);
    var adds: seq<Op> := [];
    var replaced: set<Route> := {};
    for i := 0 to |c.desired|
      invariant Adds(adds, replaced) == RouteAdds(c.desired, c.actual, i)
    {
      var d := c.desired[i];
      if d.route in ar {
        continue;
      }
      var x := DstKey(d.route);
      adds, replaced := ReplaceAll(adds, replaced, if x in byDst then byDst[x] else []);
      adds := adds + [AddRouteOp(d)];
    }
    var dels: seq<Op> := [];
    for i := 0 to |c.actual|
      invariant dels == RouteDels(c.actual[..i], dr, replaced)
    {
      assert c.actual[..i + 1][..i] == c.actual[..i];
      if c.actual[i].route !in dr && c.actual[i].route !in replaced {
        dels := dels + [DelRouteOp(c.actual[i])];
      }
    }
    assert c.actual[..|c.actual|] == c.actual;
    var newRules := DiffRules(c.desiredRules, RuleKeys(c.actualRules));
    var oldRules := DiffRules(c.actualRules, RuleKeys(c.desiredRules));
    var ruleAdds := seq(|newRules|, i requires 0 <= i < |newRules| => AddRuleOp(newRules[i]));
    var ruleDels := seq(|oldRules|, i requires 0 <= i < |oldRules| => DelRuleOp(oldRules[i]));
    ops := adds + (ruleAdds + ruleDels) + dels;
    inverse := InvertAll(ops);
  }

  /** invert. */
  method InvertAll(ops: seq<Op>) returns (inv: seq<Op>)
    ensures inv == Invert(ops)
  {
    inv := [];
    var i := |ops|;
    assert ops[..i] == ops;
    while i > 0
      invariant 0 <= i <= |ops|
      invariant inv + Invert(ops[..i]) == Invert(ops)
    {
      i := i - 1;
      assert ops[..i + 1][..i] == ops[..i];
      inv := inv + [Inverse(ops[i])];
    }
  }

  lemma {:induction false} InvertAt(ops: seq<Op>, i: nat)
    requires i < |ops|
    ensures Invert(ops)[i] == Inverse(ops[|ops| - 1 - i])
  {
    if i > 0 {
      InvertAt(ops[..|ops| - 1], i - 1);
    }
  }

  lemma {:induction false} InvertConcat(x: seq<Op>, y: seq<Op>)
    ensures Invert(x + y) == Invert(y) + Invert(x)
  {
    if y == [] {
      assert x + y == x;
    } else {
      InvertConcat(x, y[..|y| - 1]);
      assert (x + y)[..|x + y| - 1] == x + y[..|y| - 1];
    }
  }

  // ---------- one destination at a time ----------

  function At(k: Kernel, x: Dst): Option<Hop> {
    if x in k.routes then Some(k.routes[x]) else None
  }

  predicate Touches(op: Op, x: Dst) {
    (op.AddRouteOp? || op.DelRouteOp?) && DstKey(op.route.route) == x
  }

  /** The operations at x, in order. */
  function Touching(ops: seq<Op>, x: Dst): seq<Op> {
    if ops == [] then []
    else
      var rest := Touching(ops[..|ops| - 1], x);
      if Touches(ops[|ops| - 1], x) then rest + [ops[|ops| - 1]] else rest
  }

  /** What an operation at a destination makes of its entry. */
  function DoAt(h: Option<Hop>, op: Op): Option<Hop> {
    match op
    case AddRouteOp(m) => if h.Some? then h else Some(m.route.hop)
    case DelRouteOp(m) => if h.Some? && Takes(m, h.value) then None else h
    case _ => h
  }

  function RunAt(h: Option<Hop>, ops: seq<Op>): Option<Hop> {
    if ops == [] then h else DoAt(RunAt(h, ops[..|ops| - 1]), ops[|ops| - 1])
  }

  lemma {:induction false} AtRun(k: Kernel, ops: seq<Op>, x: Dst)
    ensures At(Run(k, ops), x) == RunAt(At(k, x), Touching(ops, x))
  {
    if ops != [] {
      var n := |ops| - 1;
      AtRun(k, ops[..n], x);
      var t := Touching(ops[..n], x);
      assert (t + [ops[n]])[..|t|] == t;
    }
  }

  lemma {:induction false} TouchingConcat(a: seq<Op>, b: seq<Op>, x: Dst)
    ensures Touching(a + b, x) == Touching(a, x) + Touching(b, x)
  {
    if b == [] {
      assert a + b == a;
    } else {
      TouchingConcat(a, b[..|b| - 1], x);
      assert (a + b)[..|a + b| - 1] == a + b[..|b| - 1];
    }
  }

  lemma {:induction false} TouchingOne(op: Op, x: Dst)
    ensures Touching([op], x) == if Touches(op, x) then [op] else []
  {
    assert [op][..0] == [];
  }

  lemma {:induction false} TouchingInvert(ops: seq<Op>, x: Dst)
    ensures Touching(Invert(ops), x) == Invert(Touching(ops, x))
  {
    if ops != [] {
      var n := |ops| - 1;
      var first, rest := [Inverse(ops[n])], Invert(ops[..n]);
      TouchingInvert(ops[..n], x);
      TouchingConcat(first, rest, x);
      TouchingOne(Inverse(ops[n]), x);
      var t := Touching(ops[..n], x);
      assert (t + [ops[n]])[..|t|] == t;
    }
  }

  /** The operations at x done by some point are the first of those at x. */
  lemma {:induction false} TouchingPrefix(ops: seq<Op>, n: nat, x: Dst)
    requires n <= |ops|
    ensures Touching(ops, x) == Touching(ops[..n], x) + Touching(ops[n..], x)
  {
    assert ops == ops[..n] + ops[n..];
    TouchingConcat(ops[..n], ops[n..], x);
  }

  lemma {:induction false} SameKernels(k: Kernel, k1: Kernel)
    requires k.rules == k1.rules && forall x :: At(k, x) == At(k1, x)
    ensures k == k1
  {
    forall x
      ensures x in k.routes <==> x in k1.routes
      ensures x in k.routes ==> k.routes[x] == k1.routes[x]
    {
      assert At(k, x) == At(k1, x);
    }
    assert k.routes == k1.routes;
  }

  // ---------- the operations Reconcile makes at one destination ----------

  /** The route of a list to x. */
  function RouteTo(rs: seq<Managed>, x: Dst): Option<Managed> {
    if rs == [] then None
    else if DstKey(rs[|rs| - 1].route) == x then Some(rs[|rs| - 1])
    else RouteTo(rs[..|rs| - 1], x)
  }

  lemma {:induction false} RouteToMeans(rs: seq<Managed>, x: Dst)
    ensures RouteTo(rs, x).Some? ==> RouteTo(rs, x).value in rs && DstKey(RouteTo(rs, x).value.route) == x
    ensures RouteTo(rs, x).None? <==> x !in Dsts(rs)
  {
    if rs != [] {
      RouteToMeans(rs[..|rs| - 1], x);
      assert rs == rs[..|rs| - 1] + [rs[|rs| - 1]];
    }
  }

  lemma {:induction false} RouteToOnly(rs: seq<Managed>, m: Managed)
    requires UniqueDsts(rs) && m in rs
    ensures RouteTo(rs, DstKey(m.route)) == Some(m)
  {
    var k := |rs| - 1;
    assert rs == rs[..k] + [rs[k]];
    if m != rs[k] {
      var i :| 0 <= i < k && rs[i] == m;
      assert m in rs[..k];
      RouteToOnly(rs[..k], m);
    }
  }

  lemma {:induction false} SameKey(rs: seq<Managed>, m: Managed, n: Managed)
    requires UniqueDsts(rs) && m in rs && n in rs && DstKey(m.route) == DstKey(n.route)
    ensures m == n
  {
    RouteToOnly(rs, m);
    RouteToOnly(rs, n);
  }

  /** Nothing is done where the same route is desired and actual; elsewhere the actual route
      is deleted and the desired one added. */
  function Steps(a: Option<Managed>, d: Option<Managed>): seq<Op> {
    if a.Some? && d.Some? && a.value.route == d.value.route then []
    else (if a.Some? then [DelRouteOp(a.value)] else []) + (if d.Some? then [AddRouteOp(d.value)] else [])
  }

  ghost predicate UniqueChange(c: Change) {
    UniqueDsts(c.desired) && UniqueDsts(c.actual)
  }

  lemma {:induction false} LastIsNew(rs: seq<Managed>, n: nat)
    requires UniqueDsts(rs) && n < |rs|
    ensures RouteTo(rs[..n], DstKey(rs[n].route)).None? && DstKey(rs[n].route) !in Dsts(rs[..n])
  {
    forall m | m in rs[..n]
      ensures DstKey(m.route) != DstKey(rs[n].route)
    {
      var i :| 0 <= i < n && rs[i] == m;
    }
    RouteToMeans(rs[..n], DstKey(rs[n].route));
  }

  /** The old routes of a destination: at most the one. */
  lemma {:induction false} OldAtOne(actual: seq<Managed>, desired: set<Route>, x: Dst)
    requires UniqueDsts(actual)
    ensures OldAt(actual, desired, x) ==
            match RouteTo(actual, x) case None => [] case Some(a) => if a.route in desired then [] else [a]
  {
    if actual != [] {
      var k := |actual| - 1;
      OldAtOne(actual[..k], desired, x);
      LastIsNew(actual, k);
    }
  }

  /** Where something else than the actual route is desired, neither is on the other list. */
  lemma {:induction false} KeysDiffer(c: Change, x: Dst)
    requires UniqueChange(c)
    ensures var a, d := RouteTo(c.actual, x), RouteTo(c.desired, x);
            && (a.Some? ==> (a.value.route in Keys(c.desired) <==> d.Some? && a.value.route == d.value.route))
            && (d.Some? ==> (d.value.route in Keys(c.actual) <==> a.Some? && a.value.route == d.value.route))
  {
    var a, d := RouteTo(c.actual, x), RouteTo(c.desired, x);
    RouteToMeans(c.actual, x);
    RouteToMeans(c.desired, x);
    if a.Some? && a.value.route in Keys(c.desired) {
      var m :| m in c.desired && m.route == a.value.route;
      RouteToOnly(c.desired, m);
    }
    if d.Some? && d.value.route in Keys(c.actual) {
      var m :| m in c.actual && m.route == d.value.route;
      RouteToOnly(c.actual, m);
    }
  }

  /** Of the operations up to the n-th desired route. */
  ghost predicate AddedUpTo(c: Change, n: nat, s: Adds)
    requires n <= |c.desired|
  {
    && (forall x :: Touching(s.ops, x) ==
                    var d := RouteTo(c.desired[..n], x);
                    if d.None? then [] else Steps(RouteTo(c.actual, x), d))
    && (forall r :: r in s.replaced <==>
                    r in Keys(c.actual) && r !in Keys(c.desired) && DstKey(r) in Dsts(c.desired[..n]))
  }

  lemma {:induction false} NotYet(rs: seq<Managed>, n: nat)
    requires UniqueDsts(rs) && n < |rs|
    ensures RouteTo(rs[..n], DstKey(rs[n].route)).None?
    ensures DstKey(rs[n].route) !in Dsts(rs[..n])
    ensures RouteTo(rs, DstKey(rs[n].route)) == Some(rs[n])
    ensures Dsts(rs[..n + 1]) == Dsts(rs[..n]) + {DstKey(rs[n].route)}
    ensures forall x :: RouteTo(rs[..n + 1], x) ==
                        if x == DstKey(rs[n].route) then Some(rs[n]) else RouteTo(rs[..n], x)
  {
    LastIsNew(rs, n);
    assert rs[n] in rs;
    RouteToOnly(rs, rs[n]);
    assert rs[..n + 1] == rs[..n] + [rs[n]];
    assert rs[..n + 1][..n] == rs[..n];
  }

  lemma {:induction false} RouteAddsUnfold(desired: seq<Managed>, actual: seq<Managed>, n: nat)
    requires n < |desired|
    ensures RouteAdds(desired, actual, n + 1) ==
            var s, d := RouteAdds(desired, actual, n), desired[n];
            if d.route in Keys(actual) then s
            else
              var s1 := Replace(s, OldAt(actual, Keys(desired), DstKey(d.route)));
              s1.(ops := s1.ops + [AddRouteOp(d)])
  {
    hide Replace, OldAt, Keys, DstKey;
  }

  /** The actual keys at a destination: at most the one. */
  lemma {:induction false} KeysAt(actual: seq<Managed>, x: Dst)
    requires UniqueDsts(actual)
    ensures (set r | r in Keys(actual) && DstKey(r) == x) ==
            match RouteTo(actual, x) case None => {} case Some(a) => {a.route}
  {
    RouteToMeans(actual, x);
    forall r | r in Keys(actual) && DstKey(r) == x
      ensures RouteTo(actual, x).Some? && r == RouteTo(actual, x).value.route
    {
      var m :| m in actual && m.route == r;
      RouteToOnly(actual, m);
    }
  }

  /** What replacing at x adds: the delete of the actual route there, unless it is desired. */
  lemma {:induction false} Replaced(c: Change, n: nat, s: Adds)
    requires n < |c.desired| && UniqueChange(c) && AddedUpTo(c, n, s)
    ensures var x := DstKey(c.desired[n].route);
            var a := RouteTo(c.actual, x);
            Replace(s, OldAt(c.actual, Keys(c.desired), x)) ==
            if a.Some? && a.value.route !in Keys(c.desired)
            then Adds(s.ops + [DelRouteOp(a.value)], s.replaced + {a.value.route}) else s
  {
    var x := DstKey(c.desired[n].route);
    var a := RouteTo(c.actual, x);
    NotYet(c.desired, n);
    RouteToMeans(c.actual, x);
    OldAtOne(c.actual, Keys(c.desired), x);
    if a.Some? && a.value.route !in Keys(c.desired) {
      assert a.value.route !in s.replaced;
      ReplaceOne(s, a.value);
    }
  }

  lemma {:induction false} RouteAddsStep(c: Change, n: nat)
    requires n < |c.desired| && UniqueChange(c) && AddedUpTo(c, n, RouteAdds(c.desired, c.actual, n))
    ensures var s, x := RouteAdds(c.desired, c.actual, n), DstKey(c.desired[n].route);
            && var next := RouteAdds(c.desired, c.actual, n + 1);
            && next.ops == s.ops + Steps(RouteTo(c.actual, x), Some(c.desired[n]))
            && next.replaced == s.replaced + (set r | r in Keys(c.actual) && r !in Keys(c.desired) && DstKey(r) == x)
  {
    hide RouteAdds, Replace, OldAt, RouteTo, AddedUpTo, Keys, DstKey, UniqueDsts;
    var s, x := RouteAdds(c.desired, c.actual, n), DstKey(c.desired[n].route);
    NotYet(c.desired, n);
    KeysDiffer(c, x);
    RouteAddsUnfold(c.desired, c.actual, n);
    Replaced(c, n, s);
    KeysAt(c.actual, x);
    var some := set r | r in Keys(c.actual) && DstKey(r) == x;
    assert (set r | r in Keys(c.actual) && r !in Keys(c.desired) && DstKey(r) == x) == some - Keys(c.desired);
  }

  lemma {:induction false} ReplaceOne(s: Adds, a: Managed)
    requires a.route !in s.replaced
    ensures Replace(s, [a]) == Adds(s.ops + [DelRouteOp(a)], s.replaced + {a.route})
  {
    assert [a][..0] == [];
  }

  lemma {:induction false} RouteAddsMean(c: Change, n: nat)
    requires UniqueChange(c) && n <= |c.desired|
    ensures AddedUpTo(c, n, RouteAdds(c.desired, c.actual, n))
  {
    hide AddedUpTo, RouteAdds, RouteTo, Steps, UniqueDsts;
    if n == 0 {
      NoneAdded(c);
    } else {
      RouteAddsMean(c, n - 1);
      RouteAddsStep(c, n - 1);
      AddedNext(c, n - 1, RouteAdds(c.desired, c.actual, n - 1), RouteAdds(c.desired, c.actual, n));
    }
  }

  lemma {:induction false} NoneAdded(c: Change)
    ensures AddedUpTo(c, 0, RouteAdds(c.desired, c.actual, 0))
  {
    assert c.desired[..0] == [];
  }

  lemma {:induction false} AddedNext(c: Change, n: nat, s: Adds, next: Adds)
    requires n < |c.desired| && UniqueChange(c) && AddedUpTo(c, n, s)
    requires var x := DstKey(c.desired[n].route);
             && next.ops == s.ops + Steps(RouteTo(c.actual, x), Some(c.desired[n]))
             && next.replaced == s.replaced + (set r | r in Keys(c.actual) && r !in Keys(c.desired) && DstKey(r) == x)
    ensures AddedUpTo(c, n + 1, next)
  {
    hide RouteTo, Steps, Touching, UniqueDsts, Keys, Dsts;
    var d := c.desired[n];
    var x := DstKey(d.route);
    var a := RouteTo(c.actual, x);
    NotYet(c.desired, n);
    RouteToMeans(c.actual, x);
    forall y
      ensures Touching(next.ops, y) ==
              var e := RouteTo(c.desired[..n + 1], y);
              if e.None? then [] else Steps(RouteTo(c.actual, y), e)
    {
      TouchingConcat(s.ops, Steps(a, Some(d)), y);
      StepsTouch(a, Some(d), x, y);
    }
  }

  lemma {:induction false} StepsTouch(a: Option<Managed>, d: Option<Managed>, x: Dst, y: Dst)
    requires (a.Some? ==> DstKey(a.value.route) == x) && (d.Some? ==> DstKey(d.value.route) == x)
    ensures Touching(Steps(a, d), y) == if x == y then Steps(a, d) else []
  {
    var dels, adds := if a.Some? then [DelRouteOp(a.value)] else [], if d.Some? then [AddRouteOp(d.value)] else [];
    TouchingConcat(dels, adds, y);
    if a.Some? { TouchingOne(DelRouteOp(a.value), y); }
    if d.Some? { TouchingOne(AddRouteOp(d.value), y); }
  }

  lemma {:induction false} RuleOpsTouchNothing(desired: seq<ManagedRule>, actual: set<Rule>, x: Dst)
    ensures Touching(RuleAdds(desired, actual), x) == [] && Touching(RuleDels(desired, actual), x) == []
  {
    if desired != [] {
      var k := |desired| - 1;
      RuleOpsTouchNothing(desired[..k], actual, x);
      TouchingConcat(RuleAdds(desired[..k], actual), [AddRuleOp(desired[k])], x);
      TouchingConcat(RuleDels(desired[..k], actual), [DelRuleOp(desired[k])], x);
      TouchingOne(AddRuleOp(desired[k]), x);
      TouchingOne(DelRuleOp(desired[k]), x);
    }
  }

  lemma {:induction false} RouteDelsTouch(actual: seq<Managed>, desired: set<Route>, replaced: set<Route>, x: Dst)
    requires UniqueDsts(actual)
    ensures Touching(RouteDels(actual, desired, replaced), x) ==
            match RouteTo(actual, x)
            case None => []
            case Some(a) => if a.route in desired || a.route in replaced then [] else [DelRouteOp(a)]
  {
    if actual != [] {
      var k := |actual| - 1;
      RouteDelsTouch(actual[..k], desired, replaced, x);
      NotYet(actual, k);
      assert actual[..k + 1] == actual;
      TouchingConcat(RouteDels(actual[..k], desired, replaced), [DelRouteOp(actual[k])], x);
      TouchingOne(DelRouteOp(actual[k]), x);
    }
  }

  /** What the additions do at x: all that is done there, if something is desired there;
      otherwise nothing. */
  lemma {:induction false} AddOpsTouch(c: Change, x: Dst)
    requires UniqueChange(c)
    ensures Touching(AddOps(c), x) ==
            if RouteTo(c.desired, x).None? then [] else Steps(RouteTo(c.actual, x), RouteTo(c.desired, x))
  {
    RouteAddsMean(c, |c.desired|);
    assert c.desired[..|c.desired|] == c.desired;
  }

  lemma {:induction false} RuleOpsTouch(c: Change, x: Dst)
    ensures Touching(RuleOps(c), x) == []
  {
    RuleOpsTouchNothing(c.desiredRules, RuleKeys(c.actualRules), x);
    RuleOpsTouchNothing(c.actualRules, RuleKeys(c.desiredRules), x);
    TouchingConcat(RuleAdds(c.desiredRules, RuleKeys(c.actualRules)), RuleDels(c.actualRules, RuleKeys(c.desiredRules)), x);
  }

  lemma {:induction false} DelOpsTouch(c: Change, x: Dst)
    requires UniqueChange(c)
    ensures Touching(DelOps(c), x) == if RouteTo(c.desired, x).None? then Steps(RouteTo(c.actual, x), None) else []
  {
    var s := RouteAdds(c.desired, c.actual, |c.desired|);
    var a, d := RouteTo(c.actual, x), RouteTo(c.desired, x);
    RouteAddsMean(c, |c.desired|);
    assert c.desired[..|c.desired|] == c.desired;
    RouteDelsTouch(c.actual, Keys(c.desired), s.replaced, x);
    KeysDiffer(c, x);
    RouteToMeans(c.actual, x);
    RouteToMeans(c.desired, x);
    if a.Some? { assert a.value.route in Keys(c.actual); }
  }

  lemma {:induction false} OpsTouch(c: Change, x: Dst)
    requires UniqueChange(c)
    ensures Touching(Ops(c), x) == Steps(RouteTo(c.actual, x), RouteTo(c.desired, x))
  {
    AddOpsTouch(c, x);
    RuleOpsTouch(c, x);
    DelOpsTouch(c, x);
    TouchingConcat(AddOps(c), RuleOps(c), x);
    TouchingConcat(AddOps(c) + RuleOps(c), DelOps(c), x);
  }

  // ---------- rules ----------

  function AddedRules(ops: seq<Op>): set<Rule> {
    set op | op in ops && op.AddRuleOp? :: op.rule.rule
  }

  function DeletedRules(ops: seq<Op>): set<Rule> {
    set op | op in ops && op.DelRuleOp? :: op.rule.rule
  }

  /** Operations that delete none of the rules they add. */
  lemma {:induction false} RunRules(k: Kernel, ops: seq<Op>)
    requires AddedRules(ops) !! DeletedRules(ops)
    ensures Run(k, ops).rules == k.rules + AddedRules(ops) - DeletedRules(ops)
  {
    if ops != [] {
      var n := |ops| - 1;
      assert ops == ops[..n] + [ops[n]];
      assert AddedRules(ops) == AddedRules(ops[..n]) + AddedRules([ops[n]]);
      assert DeletedRules(ops) == DeletedRules(ops[..n]) + DeletedRules([ops[n]]);
      RunRules(k, ops[..n]);
    }
  }

  lemma {:induction false} InvertRules(ops: seq<Op>)
    ensures AddedRules(Invert(ops)) == DeletedRules(ops) && DeletedRules(Invert(ops)) == AddedRules(ops)
  {
    if ops != [] {
      var n := |ops| - 1;
      InvertRules(ops[..n]);
      assert ops == ops[..n] + [ops[n]];
      assert AddedRules([Inverse(ops[n])] + Invert(ops[..n])) == AddedRules([Inverse(ops[n])]) + AddedRules(Invert(ops[..n]));
      assert DeletedRules([Inverse(ops[n])] + Invert(ops[..n])) ==
             DeletedRules([Inverse(ops[n])]) + DeletedRules(Invert(ops[..n]));
    }
  }

  lemma {:induction false} RulesConcat(x: seq<Op>, y: seq<Op>)
    ensures AddedRules(x + y) == AddedRules(x) + AddedRules(y)
    ensures DeletedRules(x + y) == DeletedRules(x) + DeletedRules(y)
  {
  }

  lemma {:induction false} RuleAddsMean(from: seq<ManagedRule>, against: set<Rule>)
    ensures AddedRules(RuleAdds(from, against)) == RuleKeys(from) - against
    ensures DeletedRules(RuleAdds(from, against)) == {}
    ensures AddedRules(RuleDels(from, against)) == {}
    ensures DeletedRules(RuleDels(from, against)) == RuleKeys(from) - against
  {
    if from != [] {
      var k := |from| - 1;
      RuleAddsMean(from[..k], against);
      assert from == from[..k] + [from[k]];
      assert RuleKeys(from) == RuleKeys(from[..k]) + {from[k].rule};
      RulesConcat(RuleAdds(from[..k], against), [AddRuleOp(from[k])]);
      RulesConcat(RuleDels(from[..k], against), [DelRuleOp(from[k])]);
    }
  }

  ghost predicate RouteOpsOnly(ops: seq<Op>) {
    forall op :: op in ops ==> op.AddRouteOp? || op.DelRouteOp?
  }

  lemma {:induction false} ReplaceIsRouteOps(s: Adds, olds: seq<Managed>)
    requires RouteOpsOnly(s.ops)
    ensures RouteOpsOnly(Replace(s, olds).ops)
  {
    if olds != [] {
      ReplaceIsRouteOps(s, olds[..|olds| - 1]);
    }
  }

  lemma {:induction false} AddsAreRouteOps(desired: seq<Managed>, actual: seq<Managed>, n: nat)
    requires n <= |desired|
    ensures RouteOpsOnly(RouteAdds(desired, actual, n).ops)
  {
    if n > 0 {
      AddsAreRouteOps(desired, actual, n - 1);
      ReplaceIsRouteOps(RouteAdds(desired, actual, n - 1), OldAt(actual, Keys(desired), DstKey(desired[n - 1].route)));
    }
  }

  lemma {:induction false} DelsAreRouteOps(actual: seq<Managed>, desired: set<Route>, replaced: set<Route>)
    ensures RouteOpsOnly(RouteDels(actual, desired, replaced))
  {
    if actual != [] {
      DelsAreRouteOps(actual[..|actual| - 1], desired, replaced);
    }
  }

  function NewRules(c: Change): set<Rule> {
    RuleKeys(c.desiredRules) - RuleKeys(c.actualRules)
  }

  function OldRules(c: Change): set<Rule> {
    RuleKeys(c.actualRules) - RuleKeys(c.desiredRules)
  }

  lemma {:induction false} OpsRules(c: Change)
    ensures AddedRules(RuleOps(c)) == NewRules(c) && DeletedRules(RuleOps(c)) == OldRules(c)
    ensures AddedRules(Ops(c)) == NewRules(c) && DeletedRules(Ops(c)) == OldRules(c)
    ensures RouteOpsOnly(AddOps(c)) && RouteOpsOnly(DelOps(c))
  {
    RuleAddsMean(c.desiredRules, RuleKeys(c.actualRules));
    RuleAddsMean(c.actualRules, RuleKeys(c.desiredRules));
    RulesConcat(RuleAdds(c.desiredRules, RuleKeys(c.actualRules)), RuleDels(c.actualRules, RuleKeys(c.desiredRules)));
    AddsAreRouteOps(c.desired, c.actual, |c.desired|);
    DelsAreRouteOps(c.actual, Keys(c.desired), RouteAdds(c.desired, c.actual, |c.desired|).replaced);
    RulesConcat(AddOps(c), RuleOps(c));
    RulesConcat(AddOps(c) + RuleOps(c), DelOps(c));
  }

  // ---------- what a reconcile reaches ----------

  /** From whatever the kernel holds: what is reached at each destination, and the rules. */
  lemma {:induction false} Reached(c: Change, k: Kernel, x: Dst)
    requires UniqueChange(c)
    ensures At(Run(k, Ops(c)), x) == RunAt(At(k, x), Steps(RouteTo(c.actual, x), RouteTo(c.desired, x)))
    ensures Run(k, Ops(c)).rules == k.rules + NewRules(c) - OldRules(c)
  {
    AtRun(k, Ops(c), x);
    OpsTouch(c, x);
    OpsRules(c);
    RunRules(k, Ops(c));
  }

  /** What another program put in a route's place stays: an entry that does not count as the
      recorded route is neither deleted nor replaced. */
  lemma {:induction false} OthersEntryStays(c: Change, k: Kernel, x: Dst, h: Hop)
    requires UniqueChange(c) && At(k, x) == Some(h)
    requires forall a :: a in c.actual && DstKey(a.route) == x ==> a.origin != NoProfile && !Carried(h, a.route.hop)
    ensures At(Run(k, Ops(c)), x) == Some(h)
  {
    Reached(c, k, x);
    RouteToMeans(c.actual, x);
    var a, d := RouteTo(c.actual, x), RouteTo(c.desired, x);
    hide Ops, Run, RouteTo;
    RunTwo(Some(h), Steps(a, d));
  }

  /** Going forth and back leaves an entry as it was: nothing is done there; or the entry is
      the actual route's; or another's that neither delete takes; or there is none and none
      is recorded. */
  predicate Undoable(h: Option<Hop>, a: Option<Managed>, d: Option<Managed>) {
    || (a.None? && d.None?)
    || (a.Some? && d.Some? && a.value.route == d.value.route)
    || (a.Some? && h == Some(a.value.route.hop))
    || (a.None? && h.None?)
    || (h.Some? && (a.Some? ==> !Takes(a.value, h.value)) && (d.Some? ==> !Takes(d.value, h.value)))
  }

  /** The same for every destination and rule. */
  ghost predicate Reversible(c: Change, k: Kernel) {
    && (forall x :: Undoable(At(k, x), RouteTo(c.actual, x), RouteTo(c.desired, x)))
    && NewRules(c) !! k.rules && OldRules(c) <= k.rules
  }

  lemma {:induction false} ForthAndBack(h: Option<Hop>, a: Option<Managed>, d: Option<Managed>)
    ensures RunAt(RunAt(h, Steps(a, d)), Invert(Steps(a, d))) == h <==> Undoable(h, a, d)
  {
    RunTwo(h, Steps(a, d));
    RunTwo(RunAt(h, Steps(a, d)), Invert(Steps(a, d)));
    InvertTwo(Steps(a, d));
  }

  lemma {:induction false} RunTwo(h: Option<Hop>, ops: seq<Op>)
    requires |ops| <= 2
    ensures RunAt(h, ops) ==
            if |ops| == 0 then h else if |ops| == 1 then DoAt(h, ops[0]) else DoAt(DoAt(h, ops[0]), ops[1])
  {
    if |ops| == 1 {
      assert ops[..0] == [];
    } else if |ops| == 2 {
      assert ops[..1] == [ops[0]] && ops[..1][..0] == [];
      assert RunAt(h, ops[..1]) == DoAt(RunAt(h, []), ops[0]);
    }
  }

  lemma {:induction false} InvertTwo(ops: seq<Op>)
    requires |ops| <= 2
    ensures Invert(ops) ==
            if |ops| == 0 then [] else if |ops| == 1 then [Inverse(ops[0])] else [Inverse(ops[1]), Inverse(ops[0])]
  {
    if |ops| > 0 { InvertAt(ops, 0); }
    if |ops| > 1 { InvertAt(ops, 1); }
  }

  /** From whatever the kernel holds, the inverse restores it exactly if the change is
      reversible. */
  lemma {:induction false} RestoredIff(c: Change, k: Kernel)
    requires UniqueChange(c)
    ensures Run(Run(k, Ops(c)), Invert(Ops(c))) == k <==> Reversible(c, k)
  {
    var ops := Ops(c);
    var back := Run(Run(k, ops), Invert(ops));
    forall x
      ensures At(back, x) == At(k, x) <==> Undoable(At(k, x), RouteTo(c.actual, x), RouteTo(c.desired, x))
    {
      Reached(c, k, x);
      AtRun(Run(k, ops), Invert(ops), x);
      TouchingInvert(ops, x);
      OpsTouch(c, x);
      ForthAndBack(At(k, x), RouteTo(c.actual, x), RouteTo(c.desired, x));
    }
    OpsRules(c);
    RunRules(k, ops);
    InvertRules(ops);
    RunRules(Run(k, ops), Invert(ops));
    hide Run, Ops, Undoable, RouteTo, Invert, NewRules, OldRules;
    assert back.rules == k.rules + NewRules(c) - OldRules(c) + OldRules(c) - NewRules(c);
    if Reversible(c, k) { SameKernels(back, k); }
    if back == k {
      forall x
        ensures Undoable(At(k, x), RouteTo(c.actual, x), RouteTo(c.desired, x))
      {
        assert At(back, x) == At(k, x);
      }
    }
  }

  // ---------- beside other owners ----------

  function Table(rs: seq<Managed>): map<Dst, Hop> {
    if rs == [] then map[]
    else Table(rs[..|rs| - 1])[DstKey(rs[|rs| - 1].route) := rs[|rs| - 1].route.hop]
  }

  lemma {:induction false} TableAt(rs: seq<Managed>, x: Dst)
    ensures x in Table(rs) <==> RouteTo(rs, x).Some?
    ensures x in Table(rs) ==> Table(rs)[x] == RouteTo(rs, x).value.route.hop
  {
    if rs != [] {
      TableAt(rs[..|rs| - 1], x);
    }
  }

  /** The kernel holds the routes and rules beside what others hold; where both would have
      a destination it is theirs. */
  ghost predicate Holds(k: Kernel, foreign: Kernel, routes: seq<Managed>, rules: seq<ManagedRule>) {
    && k.routes == Table(routes) + foreign.routes
    && k.rules == foreign.rules + RuleKeys(rules)
  }

  /** The kernel holds exactly what is recorded, beside what others hold. */
  ghost predicate Recorded(c: Change, k: Kernel, foreign: Kernel) {
    && Holds(k, foreign, c.actual, c.actualRules)
    && foreign.routes.Keys !! Dsts(c.actual) && foreign.rules !! RuleKeys(c.actualRules)
  }

  /** No desired route is one another owner has at that very next hop, and no desired rule
      is another's. */
  ghost predicate NothingAdopted(c: Change, foreign: Kernel) {
    && (forall m :: m in c.desired && DstKey(m.route) in foreign.routes ==> !Takes(m, foreign.routes[DstKey(m.route)]))
    && foreign.rules !! RuleKeys(c.desiredRules)
  }

  /** Reconcile is exact: what others hold is untouched, and beside it is what is desired.
      And it is reversible exactly when nothing of another owner's is adopted: the inverse
      would delete that as if it had been added. */
  lemma {:induction false} ReconcileExact(c: Change, k: Kernel, foreign: Kernel)
    requires UniqueChange(c) && Recorded(c, k, foreign)
    ensures Holds(Run(k, Ops(c)), foreign, c.desired, c.desiredRules)
    ensures Run(Run(k, Ops(c)), Invert(Ops(c))) == k <==> NothingAdopted(c, foreign)
  {
    var k1 := Run(k, Ops(c));
    forall x
      ensures At(k1, x) == At(Kernel(Table(c.desired) + foreign.routes, {}), x)
    {
      Reached(c, k, x);
      ReachedAt(c, k, foreign, x);
    }
    Reached(c, k, Dst(MAIN, Root(V4)));
    assert k.rules + NewRules(c) - OldRules(c) == foreign.rules + RuleKeys(c.desiredRules);
    SameKernels(k1, Kernel(Table(c.desired) + foreign.routes, k1.rules));
    RestoredIff(c, k);
    AdoptedIff(c, k, foreign);
  }

  lemma {:induction false} ReachedAt(c: Change, k: Kernel, foreign: Kernel, x: Dst)
    requires UniqueChange(c) && Recorded(c, k, foreign)
    ensures RunAt(At(k, x), Steps(RouteTo(c.actual, x), RouteTo(c.desired, x))) ==
            At(Kernel(Table(c.desired) + foreign.routes, {}), x)
  {
    TableAt(c.actual, x);
    TableAt(c.desired, x);
    RouteToMeans(c.actual, x);
    assert RouteTo(c.actual, x).Some? ==> x !in foreign.routes && At(k, x) == Some(RouteTo(c.actual, x).value.route.hop);
    assert RouteTo(c.actual, x).None? ==> At(k, x) == At(foreign, x);
    var a, d := RouteTo(c.actual, x), RouteTo(c.desired, x);
    RunTwo(At(k, x), Steps(a, d));
    hide RouteTo, Table;
    if a.Some? {
      assert Takes(a.value, a.value.route.hop);
    } else if d.Some? {
      assert Steps(a, d) == [AddRouteOp(d.value)];
    }
  }

  lemma {:induction false} AdoptedIff(c: Change, k: Kernel, foreign: Kernel)
    requires UniqueChange(c) && Recorded(c, k, foreign)
    ensures Reversible(c, k) <==> NothingAdopted(c, foreign)
  {
    forall x
      ensures Undoable(At(k, x), RouteTo(c.actual, x), RouteTo(c.desired, x)) <==>
              var d := RouteTo(c.desired, x);
              d.Some? && x in foreign.routes ==> !Takes(d.value, foreign.routes[x])
    {
      TableAt(c.actual, x);
      RouteToMeans(c.actual, x);
    }
    if NothingAdopted(c, foreign) {
      forall x
        ensures Undoable(At(k, x), RouteTo(c.actual, x), RouteTo(c.desired, x))
      {
        RouteToMeans(c.desired, x);
      }
    }
    if Reversible(c, k) {
      forall m | m in c.desired && DstKey(m.route) in foreign.routes
        ensures !Takes(m, foreign.routes[DstKey(m.route)])
      {
        RouteToOnly(c.desired, m);
        assert Undoable(At(k, DstKey(m.route)), RouteTo(c.actual, DstKey(m.route)), RouteTo(c.desired, DstKey(m.route)));
      }
    }
  }

  /** Adding a route another owner has at the same next hop changes nothing; undoing that
      deletes it. */
  lemma {:induction false} AdoptedRouteIsDeleted(m: Managed)
    ensures var k := Kernel(map[DstKey(m.route) := m.route.hop], {});
            var c := Change([m], [], [], []);
            Run(k, Ops(c)) == k && Run(k, Invert(Ops(c))) == Kernel(map[], {})
  {
    var k := Kernel(map[DstKey(m.route) := m.route.hop], {});
    var c := Change([m], [], [], []);
    assert RouteAdds([m], [], 0) == Adds([], {}) && OldAt([], Keys([m]), DstKey(m.route)) == [];
    assert RouteAdds([m], [], 1).ops == [AddRouteOp(m)];
    assert Ops(c) == [AddRouteOp(m)];
    InvertTwo(Ops(c));
    assert [AddRouteOp(m)][..0] == [] && [DelRouteOp(m)][..0] == [];
    assert Run(k, [DelRouteOp(m)]) == Do(Run(k, []), DelRouteOp(m));
    assert Takes(m, m.route.hop);
    assert k.routes - {DstKey(m.route)} == map[];
  }
}
