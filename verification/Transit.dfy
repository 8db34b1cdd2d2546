/** What holds at every step of a change, forwards and backwards: no live rule points at a
table without a route (internal/routing/engine.go), but for the one operation between the
delete and the add of a replacement in that table.
 */
module Transit {
  import opened Prefixes
  import opened Routes
  import opened Reconciling

  /** The rule's table holds a route of its family (a rule without a table needs none). */
  ghost predicate Served(k: Kernel, r: Rule) {
    r.target.table == "" || exists x :: x in k.routes && Serves(x, r)
  }

  predicate Serves(x: Dst, r: Rule) {
    x.table == r.target.table && x.net.fam == r.target.fam
  }

  ghost predicate AllServed(k: Kernel) {
    forall r :: r in k.rules ==> Served(k, r)
  }

  /** After j operations: between the delete and the add of a replacement at x. */
  ghost predicate Replacing(ops: seq<Op>, j: nat, x: Dst) {
    && 0 < j < |ops|
    && ops[j - 1].DelRouteOp? && DstKey(ops[j - 1].route.route) == x
    && ops[j].AddRouteOp? && DstKey(ops[j].route.route) == x
  }

  ghost predicate ReplacingFor(ops: seq<Op>, j: nat, r: Rule) {
    exists x :: Replacing(ops, j, x) && Serves(x, r)
  }

  // ---------- replacements ----------

  /** Among the additions, a destination with one of its two operations done is between
      them. */
  lemma {:induction false} HalfDone(c: Change, n: nat, p: nat, x: Dst)
    requires UniqueChange(c) && n <= |c.desired| && p <= |RouteAdds(c.desired, c.actual, n).ops|
    ensures var ops := RouteAdds(c.desired, c.actual, n).ops;
            HalfDoneAt(ops, p, x) ==> Replacing(ops, p, x)
  {
    hide *;
    if n == 0 {
      NoneHalfDone(c, p, x);
    } else {
      var before := RouteAdds(c.desired, c.actual, n - 1).ops;
      var y := DstKey(c.desired[n - 1].route);
      var steps := Steps(RouteTo(c.actual, y), Some(c.desired[n - 1]));
      RouteAddsMean(c, n - 1);
      UntouchedYet(c, n - 1);
      RouteAddsStep(c, n - 1);
      StepsAt(c, n - 1, x);
      if p <= |before| {
        HalfDone(c, n - 1, p, x);
        EarlierHalf(before, steps, y, p, x);
      } else {
        LaterHalf(before, steps, y, p, x);
      }
    }
  }

  lemma {:induction false} NoneHalfDone(c: Change, p: nat, x: Dst)
    requires p <= |RouteAdds(c.desired, c.actual, 0).ops|
    ensures !HalfDoneAt(RouteAdds(c.desired, c.actual, 0).ops, p, x)
  {
  }

  lemma {:induction false} UntouchedYet(c: Change, n: nat)
    requires UniqueChange(c) && n < |c.desired| && AddedUpTo(c, n, RouteAdds(c.desired, c.actual, n))
    ensures Touching(RouteAdds(c.desired, c.actual, n).ops, DstKey(c.desired[n].route)) == []
  {
    NotYet(c.desired, n);
  }

  ghost predicate HalfDoneAt(ops: seq<Op>, p: nat, x: Dst)
    requires p <= |ops|
  {
    |Touching(ops, x)| == 2 && |Touching(ops[..p], x)| == 1
  }

  lemma {:induction false} StepsAt(c: Change, n: nat, x: Dst)
    requires UniqueChange(c) && n < |c.desired|
    ensures var y := DstKey(c.desired[n].route);
            var steps := Steps(RouteTo(c.actual, y), Some(c.desired[n]));
            && Touching(steps, x) == (if x == y then steps else [])
            && |steps| <= 2
            && (|steps| == 2 ==> steps[0].DelRouteOp? && steps[1].AddRouteOp? && Touches(steps[0], y) && Touches(steps[1], y))
  {
    var y := DstKey(c.desired[n].route);
    RouteToMeans(c.actual, y);
    StepsTouch(RouteTo(c.actual, y), Some(c.desired[n]), y, x);
  }

  lemma {:induction false} EarlierHalf(before: seq<Op>, steps: seq<Op>, y: Dst, p: nat, x: Dst)
    requires Touching(before, y) == [] && Touching(steps, x) == (if x == y then steps else []) && p <= |before|
    requires HalfDoneAt(before, p, x) ==> Replacing(before, p, x)
    ensures HalfDoneAt(before + steps, p, x) ==> Replacing(before + steps, p, x)
  {
    hide Touching;
    TouchingConcat(before, steps, x);
    assert (before + steps)[..p] == before[..p];
    TouchingPrefix(before, p, x);
    if HalfDoneAt(before + steps, p, x) {
      assert x != y;
      assert Replacing(before, p, x);
    }
  }

  lemma {:induction false} LaterHalf(before: seq<Op>, steps: seq<Op>, y: Dst, p: nat, x: Dst)
    requires Touching(before, y) == [] && Touching(steps, x) == (if x == y then steps else []) && |before| < p <= |before + steps|
    requires |steps| <= 2
    requires |steps| == 2 ==> steps[0].DelRouteOp? && steps[1].AddRouteOp? && Touches(steps[0], y) && Touches(steps[1], y)
    ensures HalfDoneAt(before + steps, p, x) ==> Replacing(before + steps, p, x)
  {
    hide Touching;
    var i := p - |before|;
    TouchingConcat(before, steps, x);
    assert (before + steps)[..p] == before + steps[..i];
    TouchingConcat(before, steps[..i], x);
    assert i == |steps| ==> steps[..i] == steps;
    if HalfDoneAt(before + steps, p, x) {
      TouchingPrefix(steps, i, x);
      assert x == y && i == 1;
      assert (before + steps)[p - 1] == steps[0] && (before + steps)[p] == steps[1];
    }
  }

  /** A destination with one of its two operations done is inside its replacement. */
  lemma {:induction false} Window(c: Change, p: nat, x: Dst)
    requires UniqueChange(c) && p <= |Ops(c)|
    requires |Touching(Ops(c)[..p], x)| == 1 && |Steps(RouteTo(c.actual, x), RouteTo(c.desired, x))| == 2
    ensures Replacing(Ops(c), p, x)
  {
    var adds, rest := AddOps(c), RuleOps(c) + DelOps(c);
    assert Ops(c) == adds + rest;
    AddOpsTouch(c, x);
    HalfDoneEarly(c, p, x);
    assert Ops(c)[..p] == adds[..p];
    HalfDone(c, |c.desired|, p, x);
  }

  lemma {:induction false} HalfDoneEarly(c: Change, p: nat, x: Dst)
    requires UniqueChange(c) && p <= |Ops(c)| && RouteTo(c.desired, x).Some?
    ensures |Touching(Ops(c)[..p], x)| < |Steps(RouteTo(c.actual, x), RouteTo(c.desired, x))| ==> p < |AddOps(c)|
  {
    if p >= |AddOps(c)| { DoneAfterAdds(c, p, x); }
  }

  lemma {:induction false} DoneAfterAdds(c: Change, p: nat, x: Dst)
    requires UniqueChange(c) && |AddOps(c)| <= p <= |Ops(c)| && RouteTo(c.desired, x).Some?
    ensures Touching(Ops(c)[..p], x) == Steps(RouteTo(c.actual, x), RouteTo(c.desired, x))
  {
    var adds := AddOps(c);
    assert Ops(c)[..p] == adds + Ops(c)[..p][|adds|..];
    TouchingConcat(adds, Ops(c)[..p][|adds|..], x);
    TouchingPrefix(Ops(c), p, x);
    AddOpsTouch(c, x);
    OpsTouch(c, x);
  }

  // ---------- a destination on the way ----------

  /** On the way forth, before routes are deleted: what was routed is, but for windows. */
  lemma {:induction false} RoutedWhileAdding(c: Change, k: Kernel, p: nat, x: Dst)
    requires UniqueChange(c) && p <= |AddOps(c)| + |RuleOps(c)| && x in k.routes
    ensures x in Run(k, Ops(c)[..p]).routes || Replacing(Ops(c), p, x)
  {
    var a, d, done := RouteTo(c.actual, x), RouteTo(c.desired, x), Touching(Ops(c)[..p], x);
    AtRun(k, Ops(c)[..p], x);
    DoneByThen(c, p, x);
    RunTwo(At(k, x), done);
    hide Run, Ops, Touching, RouteTo;
    if |done| == 1 && |Steps(a, d)| == 2 {
      Window(c, p, x);
    } else {
      assert done == [] || done == Steps(a, d);
    }
  }

  /** What is done at x by then: the first of what there is to do; nothing before routes
      are deleted, if nothing is desired there. */
  lemma {:induction false} DoneByThen(c: Change, p: nat, x: Dst)
    requires UniqueChange(c) && p <= |Ops(c)|
    ensures var s, done := Steps(RouteTo(c.actual, x), RouteTo(c.desired, x)), Touching(Ops(c)[..p], x);
            && s == done + Touching(Ops(c)[p..], x)
            && (p <= |AddOps(c)| + |RuleOps(c)| && RouteTo(c.desired, x).None? ==> done == [])
            && (p >= |AddOps(c)| && RouteTo(c.desired, x).Some? ==> done == s)
  {
    OpsTouch(c, x);
    TouchingPrefix(Ops(c), p, x);
    if RouteTo(c.desired, x).Some? {
      if p >= |AddOps(c)| { DoneAfterAdds(c, p, x); }
    } else if p <= |AddOps(c)| + |RuleOps(c)| {
      var before := AddOps(c) + RuleOps(c);
      AddOpsTouch(c, x);
      RuleOpsTouch(c, x);
      TouchingConcat(AddOps(c), RuleOps(c), x);
      assert Ops(c)[..p] == before[..p];
      TouchingPrefix(before, p, x);
    }
  }

  /** Once they are added: what will be routed is. */
  lemma {:induction false} RoutedOnceAdded(c: Change, k: Kernel, p: nat, x: Dst)
    requires UniqueChange(c) && |AddOps(c)| <= p <= |Ops(c)| && x in Run(k, Ops(c)).routes
    ensures x in Run(k, Ops(c)[..p]).routes
  {
    var a, d, done := RouteTo(c.actual, x), RouteTo(c.desired, x), Touching(Ops(c)[..p], x);
    AtRun(k, Ops(c)[..p], x);
    Reached(c, k, x);
    DoneByThen(c, p, x);
    RunTwo(At(k, x), done);
    RunTwo(At(k, x), Steps(a, d));
    hide Run, Ops, Touching, RouteTo;
    assert done == [] || done == Steps(a, d);
  }

  lemma {:induction false} InvertTail(ops: seq<Op>, j: nat)
    requires j <= |ops|
    ensures Invert(ops)[..j] == Invert(ops[|ops| - j..])
  {
    var p := |ops| - j;
    assert ops == ops[..p] + ops[p..];
    InvertConcat(ops[..p], ops[p..]);
  }

  /** What x is on the way back. */
  lemma {:induction false} BackAt(c: Change, k1: Kernel, j: nat, x: Dst)
    requires j <= |Ops(c)|
    ensures At(Run(k1, Invert(Ops(c))[..j]), x) == RunAt(At(k1, x), Invert(Touching(Ops(c)[|Ops(c)| - j..], x)))
  {
    InvertTail(Ops(c), j);
    AtRun(k1, Invert(Ops(c))[..j], x);
    TouchingInvert(Ops(c)[|Ops(c)| - j..], x);
  }

  /** On the way back, until the additions are undone: what was routed is. */
  lemma {:induction false} RoutedWhileUndeleting(c: Change, k: Kernel, j: nat, x: Dst)
    requires UniqueChange(c) && j <= |Ops(c)| - |AddOps(c)| && x in Run(k, Ops(c)).routes
    ensures x in Run(Run(k, Ops(c)), Invert(Ops(c))[..j]).routes
  {
    hide Run, Ops, Touching, RouteTo, UniqueChange, Invert, AddOps;
    var p, k1 := |Ops(c)| - j, Run(k, Ops(c));
    var left := Touching(Ops(c)[p..], x);
    DoneByThen(c, p, x);
    BackAt(c, k1, j, x);
    InvertTwo(left);
    RunTwo(At(k1, x), Invert(left));
    var s := Steps(RouteTo(c.actual, x), RouteTo(c.desired, x));
    assert |s| == |Touching(Ops(c)[..p], x)| + |left|;
    assert left != [] ==> RouteTo(c.desired, x).None? && left[0] == s[|s| - |left|];
  }

  /** Once the deletes are undone: what will be routed at the end is, but for windows. */
  lemma {:induction false} RoutedOnceUndeleted(c: Change, k: Kernel, j: nat, x: Dst)
    requires UniqueChange(c) && |DelOps(c)| <= j <= |Ops(c)|
    requires x in Run(Run(k, Ops(c)), Invert(Ops(c))).routes
    ensures x in Run(Run(k, Ops(c)), Invert(Ops(c))[..j]).routes || Replacing(Invert(Ops(c)), j, x)
  {
    hide Run, Ops, Touching, RouteTo, UniqueChange, Invert, AddOps, RuleOps, DelOps;
    OpsLength(c);
    var p, k1 := |Ops(c)| - j, Run(k, Ops(c));
    var a, d := RouteTo(c.actual, x), RouteTo(c.desired, x);
    var done, left := Touching(Ops(c)[..p], x), Touching(Ops(c)[p..], x);
    DoneByThen(c, p, x);
    Reached(c, k, x);
    BackAt(c, k1, j, x);
    AtRun(k1, Invert(Ops(c)), x);
    TouchingInvert(Ops(c), x);
    OpsTouch(c, x);
    RunTwo(At(k, x), Steps(a, d));
    if |done| == 1 && |Steps(a, d)| == 2 {
      Window(c, p, x);
      MirroredWindow(Ops(c), p, x);
    } else if done == [] {
      assert left == Steps(a, d);
    } else {
      assert done == Steps(a, d) && left == [];
      InvertTwo(left);
      RunTwo(At(k1, x), Invert(left));
    }
  }

  lemma {:induction false} MirroredWindow(ops: seq<Op>, p: nat, x: Dst)
    requires Replacing(ops, p, x)
    ensures Replacing(Invert(ops), |ops| - p, x)
  {
    InvertAt(ops, |ops| - p - 1);
    InvertAt(ops, |ops| - p);
  }

  /** Undoing what was done last at a destination leads to what was before it. */
  lemma {:induction false} LastUndone(h: Option<Hop>, a: Option<Managed>, d: Option<Managed>, done: seq<Op>,
      left: seq<Op>)
    requires Undoable(h, a, d) && done + left == Steps(a, d)
    ensures RunAt(RunAt(h, Steps(a, d)), Invert(left)) == RunAt(h, done)
  {
    if done == [] {
      assert left == Steps(a, d);
      ForthAndBack(h, a, d);
    } else if left == [] {
      assert done == Steps(a, d);
    } else {
      assert done == [Steps(a, d)[0]] && left == [Steps(a, d)[1]];
      SecondUndone(h, a, d);
    }
  }

  lemma {:induction false} SecondUndone(h: Option<Hop>, a: Option<Managed>, d: Option<Managed>)
    requires Undoable(h, a, d) && |Steps(a, d)| == 2
    ensures RunAt(RunAt(h, Steps(a, d)), Invert([Steps(a, d)[1]])) == RunAt(h, [Steps(a, d)[0]])
  {
    var steps := Steps(a, d);
    RunTwo(h, steps);
    RunTwo(h, [steps[0]]);
    InvertTwo([steps[1]]);
    RunTwo(RunAt(h, steps), Invert([steps[1]]));
  }

  /** Running a reversible change back mirrors running it forth: after j steps back the
      kernel is as it was j steps before the end. */
  lemma {:induction false} InverseMirrors(c: Change, k: Kernel, j: nat)
    requires UniqueChange(c) && UniqueRuleKeys(c.desiredRules) && UniqueRuleKeys(c.actualRules)
    requires Reversible(c, k) && j <= |Ops(c)|
    ensures Run(Run(k, Ops(c)), Invert(Ops(c))[..j]) == Run(k, Ops(c)[..|Ops(c)| - j])
  {
    var p, k1 := |Ops(c)| - j, Run(k, Ops(c));
    var back, before := Run(k1, Invert(Ops(c))[..j]), Run(k, Ops(c)[..p]);
    forall x
      ensures At(back, x) == At(before, x)
    {
      BackAt(c, k1, j, x);
      Reached(c, k, x);
      AtRun(k, Ops(c)[..p], x);
      DoneByThen(c, p, x);
      LastUndone(At(k, x), RouteTo(c.actual, x), RouteTo(c.desired, x), Touching(Ops(c)[..p], x), Touching(Ops(c)[p..], x));
    }
    MirroredRules(c, k, j);
    SameKernels(back, before);
  }

  /** No rule is added twice, nor deleted twice. */
  ghost predicate EachRuleOnce(ops: seq<Op>) {
    forall i, j :: 0 <= i < j < |ops| ==>
                   && (ops[i].AddRuleOp? && ops[j].AddRuleOp? ==> ops[i].rule.rule != ops[j].rule.rule)
                   && (ops[i].DelRuleOp? && ops[j].DelRuleOp? ==> ops[i].rule.rule != ops[j].rule.rule)
  }

  lemma {:induction false} OnceConcat(x: seq<Op>, y: seq<Op>)
    requires EachRuleOnce(x) && EachRuleOnce(y)
    requires AddedRules(x) !! AddedRules(y) && DeletedRules(x) !! DeletedRules(y)
    ensures EachRuleOnce(x + y)
  {
    var z := x + y;
    forall i, j | 0 <= i < j < |z|
      ensures z[i].AddRuleOp? && z[j].AddRuleOp? ==> z[i].rule.rule != z[j].rule.rule
      ensures z[i].DelRuleOp? && z[j].DelRuleOp? ==> z[i].rule.rule != z[j].rule.rule
    {
      if i < |x| <= j {
        assert z[i] in x && z[j] in y;
        assert z[i].AddRuleOp? ==> z[i].rule.rule in AddedRules(x);
        assert z[j].AddRuleOp? ==> z[j].rule.rule in AddedRules(y);
        assert z[i].DelRuleOp? ==> z[i].rule.rule in DeletedRules(x);
        assert z[j].DelRuleOp? ==> z[j].rule.rule in DeletedRules(y);
      }
    }
  }

  lemma {:induction false} RuleDiffOnce(from: seq<ManagedRule>, against: set<Rule>)
    requires UniqueRuleKeys(from)
    ensures EachRuleOnce(RuleAdds(from, against)) && EachRuleOnce(RuleDels(from, against))
  {
    if from != [] {
      var k := |from| - 1;
      RuleDiffOnce(from[..k], against);
      RuleAddsMean(from[..k], against);
      forall m | m in from[..k]
        ensures m.rule != from[k].rule
      {
        var i :| 0 <= i < k && from[i] == m;
      }
      assert from[k].rule !in RuleKeys(from[..k]);
      OnceConcat(RuleAdds(from[..k], against), [AddRuleOp(from[k])]);
      OnceConcat(RuleDels(from[..k], against), [DelRuleOp(from[k])]);
    }
  }

  lemma {:induction false} OpsOnce(c: Change)
    requires UniqueRuleKeys(c.desiredRules) && UniqueRuleKeys(c.actualRules)
    ensures EachRuleOnce(Ops(c))
  {
    var adds, dels := RuleAdds(c.desiredRules, RuleKeys(c.actualRules)), RuleDels(c.actualRules, RuleKeys(c.desiredRules));
    RuleDiffOnce(c.desiredRules, RuleKeys(c.actualRules));
    RuleDiffOnce(c.actualRules, RuleKeys(c.desiredRules));
    RuleAddsMean(c.desiredRules, RuleKeys(c.actualRules));
    RuleAddsMean(c.actualRules, RuleKeys(c.desiredRules));
    OnceConcat(adds, dels);
    OpsRules(c);
    NoRuleOps(AddOps(c));
    NoRuleOps(DelOps(c));
    hide AddOps, DelOps, RuleAdds, RuleDels, UniqueRuleKeys, RuleKeys, NewRules, OldRules;
    assert forall op :: op in AddOps(c) ==> !op.AddRuleOp? && !op.DelRuleOp?;
    assert forall op :: op in DelOps(c) ==> !op.AddRuleOp? && !op.DelRuleOp?;
    OnceConcat(AddOps(c), RuleOps(c));
    RulesConcat(AddOps(c), RuleOps(c));
    OnceConcat(AddOps(c) + RuleOps(c), DelOps(c));
  }

  lemma {:induction false} OnceParts(ops: seq<Op>, p: nat)
    requires EachRuleOnce(ops) && p <= |ops|
    ensures AddedRules(ops[..p]) !! AddedRules(ops[p..]) && DeletedRules(ops[..p]) !! DeletedRules(ops[p..])
  {
    forall x, y | x in ops[..p] && y in ops[p..]
      ensures x.AddRuleOp? && y.AddRuleOp? ==> x.rule.rule != y.rule.rule
      ensures x.DelRuleOp? && y.DelRuleOp? ==> x.rule.rule != y.rule.rule
    {
      var i :| 0 <= i < p && ops[i] == x;
      var j :| p <= j < |ops| && ops[j] == y;
    }
  }

  lemma {:induction false} SetsMirrored(k: set<Rule>, a1: set<Rule>, a2: set<Rule>, d1: set<Rule>, d2: set<Rule>)
    requires a1 + a2 !! d1 + d2 && a1 !! a2 && d1 !! d2 && (a1 + a2) !! k && d1 + d2 <= k
    ensures k + (a1 + a2) - (d1 + d2) + d2 - a2 == k + a1 - d1
  {
  }

  lemma {:induction false} MirroredRules(c: Change, k: Kernel, j: nat)
    requires UniqueRuleKeys(c.desiredRules) && UniqueRuleKeys(c.actualRules)
    requires NewRules(c) !! k.rules && OldRules(c) <= k.rules && j <= |Ops(c)|
    ensures Run(Run(k, Ops(c)), Invert(Ops(c))[..j]).rules == Run(k, Ops(c)[..|Ops(c)| - j]).rules
  {
    hide *;
    var p := |Ops(c)| - j;
    var done, left := Ops(c)[..p], Ops(c)[p..];
    RulesOfParts(c, p);
    OpsRules(c);
    OpsOnce(c);
    OnceParts(Ops(c), p);
    InvertTail(Ops(c), j);
    InvertRules(left);
    RunRules(k, Ops(c));
    RunRules(k, done);
    RunRules(Run(k, Ops(c)), Invert(left));
    SetsMirrored(k.rules, AddedRules(done), AddedRules(left), DeletedRules(done), DeletedRules(left));
  }

  // ---------- rules on the way ----------

  lemma {:induction false} NoRuleOps(ops: seq<Op>)
    requires RouteOpsOnly(ops)
    ensures AddedRules(ops) == {} && DeletedRules(ops) == {}
  {
  }

  /** Which rules are live after p operations. */
  lemma {:induction false} RulesOnTheWay(c: Change, k: Kernel, p: nat)
    requires p <= |Ops(c)|
    ensures Run(k, Ops(c)[..p]).rules <= k.rules + Run(k, Ops(c)).rules
    ensures p <= |AddOps(c)| ==> Run(k, Ops(c)[..p]).rules == k.rules
    ensures p >= |AddOps(c)| + |RuleOps(c)| ==> Run(k, Ops(c)[..p]).rules == Run(k, Ops(c)).rules
  {
    var done, left := Ops(c)[..p], Ops(c)[p..];
    RulesOfParts(c, p);
    RunRules(k, done);
    RunRules(k, Ops(c));
  }

  lemma {:induction false} RulesOfParts(c: Change, p: nat)
    requires p <= |Ops(c)|
    ensures var done, left := Ops(c)[..p], Ops(c)[p..];
            && AddedRules(Ops(c)) == AddedRules(done) + AddedRules(left)
            && DeletedRules(Ops(c)) == DeletedRules(done) + DeletedRules(left)
            && AddedRules(Ops(c)) !! DeletedRules(Ops(c))
            && (p <= |AddOps(c)| ==> AddedRules(done) == {} && DeletedRules(done) == {})
            && (p >= |AddOps(c)| + |RuleOps(c)| ==> AddedRules(left) == {} && DeletedRules(left) == {})
  {
    var done, left := Ops(c)[..p], Ops(c)[p..];
    assert Ops(c) == done + left;
    RulesConcat(done, left);
    OpsRules(c);
    if p <= |AddOps(c)| {
      assert done == AddOps(c)[..p];
      assert RouteOpsOnly(done);
      NoRuleOps(done);
    }
    if p >= |AddOps(c)| + |RuleOps(c)| {
      assert left == DelOps(c)[p - |AddOps(c)| - |RuleOps(c)|..];
      assert RouteOpsOnly(left);
      NoRuleOps(left);
    }
  }

  /** And after j on the way back from k1. */
  lemma {:induction false} RulesOnTheWayBack(c: Change, k1: Kernel, j: nat)
    requires j <= |Ops(c)|
    ensures Run(k1, Invert(Ops(c))[..j]).rules <= k1.rules + Run(k1, Invert(Ops(c))).rules
    ensures j <= |DelOps(c)| ==> Run(k1, Invert(Ops(c))[..j]).rules == k1.rules
    ensures j >= |DelOps(c)| + |RuleOps(c)| ==> Run(k1, Invert(Ops(c))[..j]).rules == Run(k1, Invert(Ops(c))).rules
  {
    hide *;
    var left := Ops(c)[|Ops(c)| - j..];
    OpsLength(c);
    RulesOfParts(c, |Ops(c)| - j);
    InvertTail(Ops(c), j);
    InvertRules(left);
    InvertRules(Ops(c));
    RunRules(k1, Invert(left));
    RunRules(k1, Invert(Ops(c)));
  }

  // ---------- the whole change ----------

  /** At every step of a change, from whatever the kernel holds, each live rule's table has
      a route, but for the step inside a replacement in that table — provided it does before
      and after. */
  lemma {:induction false} RulesAlwaysServed(c: Change, k: Kernel, p: nat, r: Rule)
    requires UniqueChange(c) && AllServed(k) && AllServed(Run(k, Ops(c)))
    requires p <= |Ops(c)| && r in Run(k, Ops(c)[..p]).rules
    ensures Served(Run(k, Ops(c)[..p]), r) || ReplacingFor(Ops(c), p, r)
  {
    RulesOnTheWay(c, k, p);
    hide Run, Ops, UniqueChange, Replacing, AddOps, RuleOps;
    if r.target.table != "" {
      if r in k.rules && p <= |AddOps(c)| + |RuleOps(c)| {
        assert Served(k, r);
        var x :| x in k.routes && Serves(x, r);
        RoutedWhileAdding(c, k, p, x);
      } else {
        assert r in Run(k, Ops(c)).rules && Served(Run(k, Ops(c)), r);
        var x :| x in Run(k, Ops(c)).routes && Serves(x, r);
        RoutedOnceAdded(c, k, p, x);
      }
    }
  }

  /** The same on the way back, provided the rules are served when it starts and ends. */
  lemma {:induction false} RulesServedOnRollback(c: Change, k: Kernel, j: nat, r: Rule)
    requires UniqueChange(c) && AllServed(Run(k, Ops(c))) && AllServed(Run(Run(k, Ops(c)), Invert(Ops(c))))
    requires j <= |Ops(c)| && r in Run(Run(k, Ops(c)), Invert(Ops(c))[..j]).rules
    ensures Served(Run(Run(k, Ops(c)), Invert(Ops(c))[..j]), r) || ReplacingFor(Invert(Ops(c)), j, r)
  {
    var k1 := Run(k, Ops(c));
    var k2 := Run(k1, Invert(Ops(c)));
    RulesOnTheWayBack(c, k1, j);
    OpsLength(c);
    hide Run, Ops, UniqueChange, Replacing, AddOps, RuleOps, DelOps, Invert;
    if r.target.table != "" {
      if r in k1.rules && j <= |Ops(c)| - |AddOps(c)| {
        assert Served(k1, r);
        var x :| x in k1.routes && Serves(x, r);
        RoutedWhileUndeleting(c, k, j, x);
      } else {
        assert r in k2.rules && Served(k2, r);
        var x :| x in k2.routes && Serves(x, r);
        RoutedOnceUndeleted(c, k, j, x);
      }
    }
  }

  lemma {:induction false} OpsLength(c: Change)
    ensures |Ops(c)| == |AddOps(c)| + |RuleOps(c)| + |DelOps(c)|
  {
  }
}
