/** The executor (internal/safety/executor.go): a plan applied as an atomic unit. Each
operation either takes place or fails without effect; which ones fail is a parameter.
 */
module Execution {
  import opened Prefixes
  import opened Routes
  import opened Reconciling

  /** What the kernel holds after ops, those that fail left out; op i is the (from + i)th
      operation attempted. */
  function BestEffort(k: Kernel, ops: seq<Op>, fails: nat -> bool, from: nat): Kernel {
    if ops == [] then k
    else
      var n := |ops| - 1;
      var k1 := BestEffort(k, ops[..n], fails, from);
      if fails(from + n) then k1 else Do(k1, ops[n])
  }

  class Executor {
    var kernel: Kernel

    constructor (k: Kernel)
      ensures kernel == k
    {
      kernel := k;
    }

    /** do. */
    method Attempt(op: Op, fails: bool) returns (ok: bool)
      modifies this
      ensures ok == !fails
      ensures kernel == if fails then old(kernel) else Do(old(kernel), op)
    {
      ok := !fails;
      if ok {
        kernel := Do(kernel, op);
      }
    }

    /** Apply: on the first failure, the operations applied so far are rolled back. */
    method Apply(ops: seq<Op>, fails: nat -> bool) returns (failed: Option<nat>)
      modifies this
      ensures failed.None? <==> forall i :: 0 <= i < |ops| ==> !fails(i)
      ensures failed.None? ==> kernel == Run(old(kernel), ops)
      ensures failed.Some? ==> failed.value < |ops| && fails(failed.value) && forall i :: 0 <= i < failed.value ==> !fails(i)
      ensures failed.Some? ==>
                kernel == BestEffort(Run(old(kernel), ops[..failed.value]), Invert(ops[..failed.value]), fails, failed.value + 1)
    {
      var applied: seq<Op> := [];
      for i := 0 to |ops|
        invariant applied == ops[..i] && kernel == Run(old(kernel), applied)
        invariant forall j :: 0 <= j < i ==> !fails(j)
      {
        var ok := Attempt(ops[i], fails(i));
        if !ok {
          Rollback(applied, fails, i + 1);
          return Some(i);
        }
        assert ops[..i + 1][..i] == ops[..i];
        applied := applied + [ops[i]];
      }
      assert ops[..|ops|] == ops;
      failed := None;
    }

    /** RunOps: every operation is attempted; the first failure is returned. */
    method RunOps(ops: seq<Op>, fails: nat -> bool) returns (failed: Option<nat>)
      modifies this
      ensures failed.None? <==> forall i :: 0 <= i < |ops| ==> !fails(i)
      ensures failed.Some? ==> failed.value < |ops| && fails(failed.value) && forall i :: 0 <= i < failed.value ==> !fails(i)
      ensures kernel == BestEffort(old(kernel), ops, fails, 0)
    {
      failed := None;
      for i := 0 to |ops|
        invariant kernel == BestEffort(old(kernel), ops[..i], fails, 0)
        invariant failed.None? <==> forall j :: 0 <= j < i ==> !fails(j)
        invariant failed.Some? ==> failed.value < i && fails(failed.value) && forall j :: 0 <= j < failed.value ==> !fails(j)
      {
        assert ops[..i + 1][..i] == ops[..i];
        var ok := Attempt(ops[i], fails(i));
        if !ok && failed.None? {
          failed := Some(i);
        }
      }
      assert ops[..|ops|] == ops;
    }

    /** rollback: the inverse of each applied operation, last first, best-effort. */
    method Rollback(applied: seq<Op>, fails: nat -> bool, from: nat)
      modifies this
      ensures kernel == BestEffort(old(kernel), Invert(applied), fails, from)
    {
      ghost var inv := Invert(applied);
      var i := |applied|;
      while i > 0
        invariant 0 <= i <= |applied|
        invariant kernel == BestEffort(old(kernel), inv[..|applied| - i], fails, from)
      {
        var n := |applied| - i;
        i := i - 1;
        InvertAt(applied, n);
        assert inv[..n + 1][..n] == inv[..n];
        var ok := Attempt(Inverse(applied[i]), fails(from + n));
      }
      assert inv[..|applied|] == inv;
    }
  }

  lemma {:induction false} NoFailureRuns(k: Kernel, ops: seq<Op>, fails: nat -> bool, from: nat)
    requires forall i :: from <= i < from + |ops| ==> !fails(i)
    ensures BestEffort(k, ops, fails, from) == Run(k, ops)
  {
    if ops != [] {
      NoFailureRuns(k, ops[..|ops| - 1], fails, from);
    }
  }

  /** Rolling back n applied operations is running the last n of the precomputed inverse. */
  lemma {:induction false} RollbackIsInverseTail(ops: seq<Op>, n: nat)
    requires n <= |ops|
    ensures Invert(ops[..n]) == Invert(ops)[|ops| - n..]
  {
    hide Inverse;
    assert ops == ops[..n] + ops[n..];
    InvertConcat(ops[..n], ops[n..]);
  }

  /** Part of what is done at a destination, undone. */
  lemma {:induction false} PartUndone(h: Option<Hop>, a: Option<Managed>, d: Option<Managed>, done: seq<Op>,
      left: seq<Op>)
    requires Undoable(h, a, d) && done + left == Steps(a, d)
    ensures RunAt(RunAt(h, done), Invert(done)) == h
  {
    if left == [] {
      assert done == Steps(a, d);
      ForthAndBack(h, a, d);
    } else {
      assert |done| <= 1 && (|done| == 1 ==> done[0] == Steps(a, d)[0]);
      RunTwo(h, done);
      InvertTwo(done);
      RunTwo(RunAt(h, done), Invert(done));
    }
  }

  /** Undoing the first n operations, from whatever the kernel held. */
  lemma {:induction false} PrefixUndone(c: Change, k: Kernel, n: nat)
    requires UniqueChange(c) && Reversible(c, k) && n <= |Ops(c)|
    ensures Run(Run(k, Ops(c)[..n]), Invert(Ops(c)[..n])) == k
  {
    var ops := Ops(c)[..n];
    var back := Run(Run(k, ops), Invert(ops));
    forall x
      ensures At(back, x) == At(k, x)
    {
      AtRun(k, ops, x);
      AtRun(Run(k, ops), Invert(ops), x);
      TouchingInvert(ops, x);
      TouchingPrefix(Ops(c), n, x);
      OpsTouch(c, x);
      PartUndone(At(k, x), RouteTo(c.actual, x), RouteTo(c.desired, x), Touching(ops, x), Touching(Ops(c)[n..], x));
    }
    OpsRules(c);
    assert Ops(c) == ops + Ops(c)[n..];
    RulesConcat(ops, Ops(c)[n..]);
    RunRules(k, ops);
    InvertRules(ops);
    RunRules(Run(k, ops), Invert(ops));
    hide Run, Ops, Invert, AddedRules, DeletedRules;
    SameKernels(back, k);
  }

  /** All or nothing: whichever operation of a reversible reconcile fails, if those of the
      rollback do not, the kernel is left as it was — as the precomputed inverse would
      leave it. */
  lemma {:induction false} ApplyIsAtomic(c: Change, k: Kernel, n: nat, fails: nat -> bool)
    requires UniqueChange(c) && Reversible(c, k) && n <= |Ops(c)|
    requires forall i :: n < i <= n + n ==> !fails(i)
    ensures BestEffort(Run(k, Ops(c)[..n]), Invert(Ops(c)[..n]), fails, n + 1) == k
    ensures Run(Run(k, Ops(c)[..n]), Invert(Ops(c))[|Ops(c)| - n..]) == k
  {
    hide Ops, Run, Invert, Reversible, UniqueChange;
    PrefixUndone(c, k, n);
    RollbackIsInverseTail(Ops(c), n);
    NoFailureRuns(Run(k, Ops(c)[..n]), Invert(Ops(c)[..n]), fails, n + 1);
  }

  /** From whatever the kernel holds: rolling back after any number of operations restores
      it, if and only if the change is reversible. */
  lemma {:induction false} UndoneAnywhereIff(c: Change, k: Kernel)
    requires UniqueChange(c)
    ensures (forall n: nat :: n <= |Ops(c)| ==> Run(Run(k, Ops(c)[..n]), Invert(Ops(c)[..n])) == k) <==> Reversible(c, k)
  {
    if Reversible(c, k) {
      forall n: nat | n <= |Ops(c)| { PrefixUndone(c, k, n); }
    } else {
      assert Ops(c)[..|Ops(c)|] == Ops(c);
      RestoredIff(c, k);
    }
  }

  /** So beside other owners an apply is all or nothing whenever it adopts nothing of
      theirs. */
  lemma {:induction false} AtomicBesideOthers(c: Change, k: Kernel, foreign: Kernel, n: nat, fails: nat -> bool)
    requires UniqueChange(c) && Recorded(c, k, foreign) && NothingAdopted(c, foreign) && n <= |Ops(c)|
    requires forall i :: n < i <= n + n ==> !fails(i)
    ensures BestEffort(Run(k, Ops(c)[..n]), Invert(Ops(c)[..n]), fails, n + 1) == k
  {
    AdoptedIff(c, k, foreign);
    ApplyIsAtomic(c, k, n, fails);
  }
}
