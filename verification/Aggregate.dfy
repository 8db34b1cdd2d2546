/** Aggregation of destinations (internal/routing/aggregate.go).

MaximalBlocks is the reference: walk the binary tree of blocks from the root and take
a block as soon as its addresses are all covered. Aggregate is the program's algorithm
(sort, drop what is covered, merge sibling pairs until nothing changes), proved to
return exactly the reference list.
 */
module Aggregation {
  import opened Prefixes
  import opened Ordering

  /** The maximal blocks of s inside p, in order. */
  function Blocks(s: seq<Prefix>, p: Prefix): seq<Prefix>
    decreases Width(p.fam) - |p.bits|
  {
    if exists q :: q in s && Contains(q, p) then [p]
    else if IsHost(p) || !exists q :: q in s && Contains(p, q) then []
    else
      var lo, hi := Half(p, false), Half(p, true);
      var l, r := Blocks(s, lo), Blocks(s, hi);
      if l == [lo] && r == [hi] then [p] else l + r
  }

  function MaximalBlocks(s: seq<Prefix>): seq<Prefix> {
    Blocks(s, Root(V4)) + Blocks(s, Root(V6))
  }

  lemma {:induction false} BlocksInside(s: seq<Prefix>, p: Prefix)
    ensures forall q :: q in Blocks(s, p) ==> Contains(p, q)
    decreases Width(p.fam) - |p.bits|
  {
    if !IsHost(p) {
      BlocksInside(s, Half(p, false));
      BlocksInside(s, Half(p, true));
      forall q | q in Blocks(s, Half(p, false)) + Blocks(s, Half(p, true))
        ensures Contains(p, q)
      {
        ContainsTransitive(p, if q in Blocks(s, Half(p, false)) then Half(p, false) else Half(p, true), q);
      }
    }
  }

  lemma {:induction false} BlocksCover(s: seq<Prefix>, p: Prefix, a: Addr)
    requires Contains(p, a)
    ensures Covers(Blocks(s, p), a) <==> Covers(s, a)
    decreases Width(p.fam) - |p.bits|
  {
    if exists q :: q in s && Contains(q, p) {
      InsideOneCovers(s, p);
      assert p in Blocks(s, p);
    } else if IsHost(p) {
      assert p == a;
    } else if !exists q :: q in s && Contains(p, q) {
      forall q | q in s
        ensures !Contains(q, a)
      {
        if Contains(q, a) { SharedAddress(p, q, a); }
      }
    } else {
      InOneHalf(p, a);
      var bit := a.bits[|p.bits|];
      var h := Half(p, bit);
      BlocksCover(s, h, a);
      var l, r := Blocks(s, Half(p, false)), Blocks(s, Half(p, true));
      var other := Blocks(s, Half(p, !bit));
      BlocksInside(s, Half(p, !bit));
      forall q | q in other
        ensures !Contains(q, a)
      {
        if Contains(q, a) { ContainsTransitive(Half(p, !bit), q, a); }
      }
      CoversConcat(l, r, a);
      assert Blocks(s, p) == [p] ==> Covers(Blocks(s, p), a) by { assert p in [p]; }
      if l == [Half(p, false)] && r == [Half(p, true)] {
        assert h in Blocks(s, h);
      }
    }
  }

  /** Siblings in different halves of p are the halves themselves. */
  lemma {:induction false} SiblingsAcross(p: Prefix, x: Prefix, y: Prefix)
    requires !IsHost(p) && Contains(Half(p, false), x) && Contains(Half(p, true), y) && Siblings(x, y)
    ensures x == Half(p, false) && y == Half(p, true)
  {
    var n := |p.bits|;
    assert x.bits[n] == Half(p, false).bits[n] && y.bits[n] == Half(p, true).bits[n];
    assert forall k :: 0 <= k < |x.bits| - 1 ==> x.bits[k] == Parent(x).bits[k] == Parent(y).bits[k] == y.bits[k];
    assert |x.bits| == n + 1;
  }

  lemma {:induction false} HoldsTopOnly(s: seq<Prefix>, p: Prefix)
    requires Antichain(s) && p in s && forall q :: q in s ==> Contains(p, q)
    ensures s == [p]
  {
    assert |s| <= 1 || !Nested(s[0], s[1]);
    forall i | 0 <= i < |s|
      ensures s[i] == p
    {
      AntichainEqual(s, s[i], p);
    }
  }

  /** Lists from the two halves of p join into a canonical, ordered list. */
  lemma {:induction false} JoinHalves(p: Prefix, l: seq<Prefix>, r: seq<Prefix>)
    requires !IsHost(p)
    requires Canonical(l) && StrictlyOrdered(l) && forall q :: q in l ==> Contains(Half(p, false), q)
    requires Canonical(r) && StrictlyOrdered(r) && forall q :: q in r ==> Contains(Half(p, true), q)
    requires !(l == [Half(p, false)] && r == [Half(p, true)])
    ensures Canonical(l + r) && StrictlyOrdered(l + r)
  {
    var s := l + r;
    forall x, y | x in l && y in r
      ensures Less(x, y) && !Nested(x, y) && !Siblings(x, y) && !Siblings(y, x)
    {
      HalvesOrdered(p, x, y);
      LessTotal(x, y);
      assert x.bits[|p.bits|] == Half(p, false).bits[|p.bits|];
      assert y.bits[|p.bits|] == Half(p, true).bits[|p.bits|];
      assert Siblings(x, y) == Siblings(y, x);
      if Siblings(x, y) {
        SiblingsAcross(p, x, y);
        HoldsTopOnly(l, x);
        HoldsTopOnly(r, y);
      }
    }
    forall i, j | 0 <= i < j < |s|
      ensures Less(s[i], s[j]) && !Nested(s[i], s[j])
    {
      assert s[i] == if i < |l| then l[i] else r[i - |l|];
      assert s[j] == if j < |l| then l[j] else r[j - |l|];
    }
    forall x, y | x in s && y in s
      ensures !Siblings(x, y)
    {
      assert (x in l || x in r) && (y in l || y in r);
    }
  }

  lemma {:induction false} BlocksCanonical(s: seq<Prefix>, p: Prefix)
    ensures Canonical(Blocks(s, p)) && StrictlyOrdered(Blocks(s, p))
    decreases Width(p.fam) - |p.bits|
  {
    if !IsHost(p) {
      var lo, hi := Half(p, false), Half(p, true);
      BlocksCanonical(s, lo);
      BlocksCanonical(s, hi);
      BlocksInside(s, lo);
      BlocksInside(s, hi);
      if !(Blocks(s, lo) == [lo] && Blocks(s, hi) == [hi]) {
        JoinHalves(p, Blocks(s, lo), Blocks(s, hi));
      }
    }
  }

  lemma {:induction false} JoinFamilies(l: seq<Prefix>, r: seq<Prefix>)
    requires Canonical(l) && StrictlyOrdered(l) && forall q :: q in l ==> q.fam == V4
    requires Canonical(r) && StrictlyOrdered(r) && forall q :: q in r ==> q.fam == V6
    ensures Canonical(l + r) && StrictlyOrdered(l + r)
  {
    var t := l + r;
    forall i, j | 0 <= i < j < |t|
      ensures Less(t[i], t[j]) && !Nested(t[i], t[j])
    {
      assert t[i] == if i < |l| then l[i] else r[i - |l|];
      assert t[j] == if j < |l| then l[j] else r[j - |l|];
    }
    forall x, y | x in t && y in t
      ensures !Siblings(x, y)
    {
      assert (x in l || x in r) && (y in l || y in r);
    }
  }

  /** The reference covers exactly what s covers, with maximal blocks, in order. */
  lemma {:induction false} MaximalBlocksExact(s: seq<Prefix>)
    ensures Canonical(MaximalBlocks(s)) && StrictlyOrdered(MaximalBlocks(s))
    ensures SameCover(MaximalBlocks(s), s)
  {
    var l, r := Blocks(s, Root(V4)), Blocks(s, Root(V6));
    BlocksCanonical(s, Root(V4));
    BlocksCanonical(s, Root(V6));
    BlocksInside(s, Root(V4));
    BlocksInside(s, Root(V6));
    JoinFamilies(l, r);
    forall a: Addr
      ensures Covers(MaximalBlocks(s), a) <==> Covers(s, a)
    {
      CoversConcat(l, r, a);
      BlocksCover(s, Root(a.fam), a);
    }
  }

  /** Any canonical ordered list with s's cover is the reference list. */
  lemma {:induction false} MaximalBlocksUnique(s: seq<Prefix>, t: seq<Prefix>)
    requires Canonical(t) && StrictlyOrdered(t) && SameCover(t, s)
    ensures t == MaximalBlocks(s)
  {
    MaximalBlocksExact(s);
    forall p
      ensures p in t <==> p in MaximalBlocks(s)
    {
      CanonicalMembers(t, MaximalBlocks(s), p);
    }
    OrderedUnique(t, MaximalBlocks(s));
  }

  /** Aggregation depends only on the addresses covered, however they are listed. */
  lemma {:induction false} SameCoverSameBlocks(s: seq<Prefix>, t: seq<Prefix>)
    requires SameCover(s, t)
    ensures MaximalBlocks(s) == MaximalBlocks(t)
  {
    MaximalBlocksExact(s);
    MaximalBlocksUnique(t, MaximalBlocks(s));
  }

  /** within, and what it is for: one of the aggregated prefixes contains p exactly when
      every address of p is in the union they were aggregated from. */
  method Within(p: Prefix, aggregated: seq<Prefix>) returns (inside: bool)
    ensures inside <==> InsideOne(aggregated, p)
  {
    for i := 0 to |aggregated|
      invariant forall j :: 0 <= j < i ==> !Contains(aggregated[j], p)
    {
      if Contains(aggregated[i], p) {
        assert aggregated[i] in aggregated;
        return true;
      }
    }
    return false;
  }

  lemma {:induction false} WithinMeansCovered(p: Prefix, s: seq<Prefix>)
    ensures InsideOne(MaximalBlocks(s), p) <==> CoversAll(s, p)
  {
    MaximalBlocksExact(s);
    if InsideOne(MaximalBlocks(s), p) {
      InsideOneCovers(MaximalBlocks(s), p);
    }
    if CoversAll(s, p) {
      WithinOne(MaximalBlocks(s), p);
    }
  }

  /** A listed prefix lies whole in one of its aggregate's blocks. */
  lemma {:induction false} ListedInside(s: seq<Prefix>, p: Prefix)
    requires p in s
    ensures InsideOne(MaximalBlocks(s), p)
  {
    assert Contains(p, p);
    InsideOneCovers(s, p);
    WithinMeansCovered(p, s);
  }

  /** A host route in the aggregate was listed as such. */
  lemma {:induction false} HostBlockListed(s: seq<Prefix>, a: Addr)
    requires a in MaximalBlocks(s)
    ensures a in s
  {
    MaximalBlocksExact(s);
    assert Contains(a, a) && Covers(MaximalBlocks(s), a);
    var p :| p in s && Contains(p, a);
    ListedInside(s, p);
    var q :| q in MaximalBlocks(s) && Contains(q, p);
    ContainsTransitive(q, p, a);
    AntichainEqual(MaximalBlocks(s), q, a);
    assert p.bits == a.bits;
  }

  // ---------- the program's algorithm ----------

  /** One merging pass over in[i..]. */
  function MergePass(s: seq<Prefix>, i: nat): seq<Prefix>
    requires i <= |s|
    decreases |s| - i
  {
    if i == |s| then []
    else if i + 1 < |s| && Siblings(s[i], s[i + 1]) then [Parent(s[i])] + MergePass(s, i + 2)
    else [s[i]] + MergePass(s, i + 1)
  }

  lemma {:induction false} MergePassCover(s: seq<Prefix>, i: nat, a: Addr)
    requires i <= |s|
    ensures Covers(MergePass(s, i), a) <==> Covers(s[i..], a)
    decreases |s| - i
  {
    if i == |s| {
    } else if i + 1 < |s| && Siblings(s[i], s[i + 1]) {
      MergePassCover(s, i + 2, a);
      assert s[i..] == [s[i], s[i + 1]] + s[i + 2..];
      CoversConcat([s[i], s[i + 1]], s[i + 2..], a);
      CoversConcat([Parent(s[i])], MergePass(s, i + 2), a);
      ParentCover(s[i], s[i + 1], a);
    } else {
      MergePassCover(s, i + 1, a);
      assert s[i..] == [s[i]] + s[i + 1..];
      CoversConcat([s[i]], s[i + 1..], a);
      CoversConcat([s[i]], MergePass(s, i + 1), a);
    }
  }

  lemma {:induction false} ParentCover(p: Prefix, q: Prefix, a: Addr)
    requires Siblings(p, q)
    ensures Covers([Parent(p)], a) <==> Covers([p, q], a)
  {
    var n := |p.bits| - 1;
    assert p.bits == Parent(p).bits + [p.bits[n]] && q.bits == Parent(p).bits + [q.bits[n]];
    assert p == Half(Parent(p), p.bits[n]) && q == Half(Parent(p), q.bits[n]);
    assert p in [p, q] && q in [p, q] && Parent(p) in [Parent(p)];
    if Contains(Parent(p), a) {
      InOneHalf(Parent(p), a);
    }
    if Contains(p, a) { ContainsTransitive(Parent(p), p, a); }
    if Contains(q, a) { ContainsTransitive(Parent(p), q, a); }
  }

  /** What is nested with the parent of p and q is nested with one of them. */
  lemma {:induction false} NestedWithParent(p: Prefix, q: Prefix, z: Prefix)
    requires Siblings(p, q) && Nested(Parent(p), z)
    ensures Nested(p, z) || Nested(q, z)
  {
    var n := |p.bits| - 1;
    assert p == Half(Parent(p), p.bits[n]) && q == Half(Parent(p), q.bits[n]);
    if Contains(z, Parent(p)) {
      ContainsTransitive(z, Parent(p), p);
    } else {
      InOneHalf(Parent(p), z);
    }
  }

  /** Each output block stands for one or two input blocks from index i on. */
  ghost predicate Stands(s: seq<Prefix>, i: nat, p: Prefix) {
    exists k: nat :: StandsAt(s, i, p, k)
  }

  ghost predicate StandsAt(s: seq<Prefix>, i: nat, p: Prefix, k: nat) {
    && i <= k < |s|
    && (s[k] == p || (k + 1 < |s| && Siblings(s[k], s[k + 1]) && Parent(s[k]) == p))
  }

  lemma {:induction false} MergePassStands(s: seq<Prefix>, i: nat)
    requires i <= |s|
    ensures forall p :: p in MergePass(s, i) ==> Stands(s, i, p)
    decreases |s| - i
  {
    if i < |s| {
      var next := if i + 1 < |s| && Siblings(s[i], s[i + 1]) then i + 2 else i + 1;
      MergePassStands(s, next);
      forall p | p in MergePass(s, i)
        ensures Stands(s, i, p)
      {
        if p in MergePass(s, next) {
          var k: nat :| StandsAt(s, next, p, k);
          assert StandsAt(s, i, p, k);
        } else {
          assert StandsAt(s, i, p, i);
        }
      }
    }
  }

  lemma {:induction false} StandsApart(s: seq<Prefix>, i: nat, z: Prefix, p: Prefix)
    requires Stands(s, i, p) && forall k :: i <= k < |s| ==> !Nested(s[k], z)
    ensures !Nested(p, z)
  {
    var k: nat :| StandsAt(s, i, p, k);
    if s[k] != p && Nested(p, z) {
      NestedWithParent(s[k], s[k + 1], z);
    }
  }

  lemma {:induction false} MergePassAntichain(s: seq<Prefix>, i: nat)
    requires Antichain(s) && i <= |s|
    ensures Antichain(MergePass(s, i))
    decreases |s| - i
  {
    if i < |s| {
      var merged := i + 1 < |s| && Siblings(s[i], s[i + 1]);
      var next := if merged then i + 2 else i + 1;
      var head := if merged then Parent(s[i]) else s[i];
      var rest := MergePass(s, next);
      MergePassAntichain(s, next);
      MergePassStands(s, next);
      forall k | next <= k < |s|
        ensures !Nested(s[k], head)
      {
        assert !Nested(s[i], s[k]);
        if merged && Nested(head, s[k]) {
          NestedWithParent(s[i], s[i + 1], s[k]);
        }
      }
      forall p | p in rest
        ensures !Nested(p, head)
      {
        StandsApart(s, next, head, p);
      }
      var out := [head] + rest;
      assert MergePass(s, i) == out;
      forall j, k | 0 <= j < k < |out|
        ensures !Nested(out[j], out[k])
      {
        assert out[k] == rest[k - 1] && rest[k - 1] in rest;
        assert j > 0 ==> out[j] == rest[j - 1];
      }
    }
  }

  /** Some adjacent pair from index i on is a sibling pair. */
  ghost predicate AdjacentSiblings(s: seq<Prefix>, i: nat) {
    exists k :: i <= k < |s| - 1 && Siblings(s[k], s[k + 1])
  }

  lemma {:induction false} MergePassShrinks(s: seq<Prefix>, i: nat)
    requires i <= |s|
    ensures |MergePass(s, i)| <= |s| - i
    decreases |s| - i
  {
    if i < |s| {
      MergePassShrinks(s, if i + 1 < |s| && Siblings(s[i], s[i + 1]) then i + 2 else i + 1);
    }
  }

  /** A pass that merged nothing left the list as it was, for want of siblings. */
  lemma {:induction false} MergePassUnchanged(s: seq<Prefix>, i: nat)
    requires i <= |s| && |MergePass(s, i)| == |s| - i
    ensures MergePass(s, i) == s[i..]
    ensures !AdjacentSiblings(s, i)
    decreases |s| - i
  {
    if i < |s| {
      if i + 1 < |s| && Siblings(s[i], s[i + 1]) {
        MergePassShrinks(s, i + 2);
      } else {
        MergePassUnchanged(s, i + 1);
        assert s[i..] == [s[i]] + s[i + 1..];
      }
    }
  }

  /** In an ordered antichain, siblings stand next to each other. */
  lemma {:induction false} SiblingsAdjacent(s: seq<Prefix>, i: nat, j: nat)
    requires Antichain(s) && StrictlyOrdered(s) && i < j < |s| && Siblings(s[i], s[j])
    ensures j == i + 1
  {
    var p, q := s[i], s[j];
    var n := |p.bits| - 1;
    assert p == Half(Parent(p), p.bits[n]) && q == Half(Parent(p), q.bits[n]);
    assert Less(p, q) && !Nested(s[i], s[i + 1]);
    if p.bits[n] { HalvesOrdered(Parent(p), q, p); LessTotal(p, q); }
    if i + 1 < j {
      Between(Parent(p), s[i + 1]);
    }
  }

  lemma {:induction false} NoAdjacentNoSiblings(s: seq<Prefix>)
    requires Antichain(s) && StrictlyOrdered(s) && !AdjacentSiblings(s, 0)
    ensures NoSiblings(s)
  {
    forall p, q | p in s && q in s
      ensures !Siblings(p, q)
    {
      if Siblings(p, q) {
        var i :| 0 <= i < |s| && s[i] == p;
        var j :| 0 <= j < |s| && s[j] == q;
        if i < j { SiblingsAdjacent(s, i, j); } else { SiblingsAdjacent(s, j, i); }
      }
    }
  }

  /** mergeOnce's loop over the sorted blocks. */
  method MergeSorted(s: seq<Prefix>) returns (out: seq<Prefix>, changed: bool)
    ensures out == MergePass(s, 0)
    ensures if changed then |out| < |s| else |out| == |s|
  {
    hide MergePass;
    var used := new bool[|s|](_ => false);
    out, changed := [], false;
    var i := 0;
    ghost var next := 0;
    while i < |s|
      invariant 0 <= i <= next <= |s| && next <= i + 1
      invariant i < |s| ==> used[i] == (next == i + 1)
      invariant forall k :: i < k < |s| ==> !used[k]
      invariant out + MergePass(s, next) == MergePass(s, 0)
      invariant if changed then |out| < next else |out| == next == i
    {
      if used[i] {
        i := i + 1;
        continue;
      }
      var p := s[i];
      if p.bits != [] && i + 1 < |s| && !used[i + 1] {
        var q := s[i + 1];
        if |p.bits| == |q.bits| {
          var parent := Parent(p);
          HalvesOfParent(p, q);
          if Contains(parent, p) && Contains(parent, q) && p != q {
            MergeStep(s, i, out);
            out := out + [parent];
            used[i], used[i + 1] := true, true;
            changed := true;
            i, next := i + 1, i + 2;
            continue;
          }
        }
      }
      MergeStep(s, i, out);
      out := out + [p];
      used[i] := true;
      i, next := i + 1, i + 1;
    }
    assert MergePass(s, |s|) == [] by { MergePassShrinks(s, |s|); }
  }

  lemma {:induction false} MergeStep(s: seq<Prefix>, i: nat, out: seq<Prefix>)
    requires i < |s| && out + MergePass(s, i) == MergePass(s, 0)
    ensures if i + 1 < |s| && Siblings(s[i], s[i + 1])
            then out + [Parent(s[i])] + MergePass(s, i + 2) == MergePass(s, 0)
            else out + [s[i]] + MergePass(s, i + 1) == MergePass(s, 0)
  {
    if i + 1 < |s| && Siblings(s[i], s[i + 1]) {
      assert out + [Parent(s[i])] + MergePass(s, i + 2) == out + ([Parent(s[i])] + MergePass(s, i + 2));
    } else {
      assert out + [s[i]] + MergePass(s, i + 1) == out + ([s[i]] + MergePass(s, i + 1));
    }
  }

  lemma {:induction false} HalvesOfParent(p: Prefix, q: Prefix)
    requires p.bits != [] && |p.bits| == |q.bits|
    ensures Siblings(p, q) <==> Contains(Parent(p), p) && Contains(Parent(p), q) && p != q
  {
    assert Parent(q).bits == q.bits[..|p.bits| - 1];
  }

  /** mergeOnce: sort, then merge each pair of adjacent halves. */
  method MergeOnce(input: seq<Prefix>) returns (out: seq<Prefix>, changed: bool)
    requires Antichain(input)
    ensures Antichain(out) && SameCover(out, input)
    ensures if changed then |out| < |input| else |out| == |input|
    ensures !changed ==> StrictlyOrdered(out) && NoSiblings(out)
  {
    var s := Sort(input);
    SortAntichain(input);
    SortIsPermutation(input);
    SortMembers(input);
    out, changed := MergeSorted(s);
    MergePassAntichain(s, 0);
    assert s[0..] == s;
    forall a: Addr
      ensures Covers(out, a) <==> Covers(input, a)
    {
      MergePassCover(s, 0, a);
    }
    if !changed {
      MergePassUnchanged(s, 0);
      NoAdjacentNoSiblings(s);
    }
  }

  /** The masked valid entries of a list. */
  function Normal(prefixes: seq<RawPrefix>): seq<Prefix> {
    if prefixes == [] then []
    else
      var rest := Normal(prefixes[..|prefixes| - 1]);
      var p := prefixes[|prefixes| - 1];
      if IsValid(p) then rest + [Masked(p)] else rest
  }

  method Normalize(prefixes: seq<RawPrefix>) returns (norm: seq<Prefix>)
    ensures norm == Normal(prefixes)
  {
    norm := [];
    for i := 0 to |prefixes|
      invariant norm == Normal(prefixes[..i])
    {
      assert prefixes[..i + 1][..i] == prefixes[..i];
      if IsValid(prefixes[i]) {
        norm := norm + [Masked(prefixes[i])];
      }
    }
    assert prefixes[..|prefixes|] == prefixes;
  }

  /** Drops what an earlier (shorter) prefix of a sorted list contains. */
  method DropCovered(norm: seq<Prefix>) returns (kept: seq<Prefix>)
    requires Ordered(norm)
    ensures Antichain(kept) && SameCover(kept, norm)
  {
    kept := [];
    for i := 0 to |norm|
      invariant Antichain(kept)
      invariant forall p :: p in kept ==> p in norm[..i]
      invariant forall p :: p in norm[..i] ==> InsideOne(kept, p)
    {
      var p := norm[i];
      var covered := Within(p, kept);
      assert norm[..i + 1] == norm[..i] + [p];
      if !covered {
        Uncovered(norm, i, kept);
        GrowsInside(kept, p, norm[..i]);
        kept := kept + [p];
      }
    }
    assert norm[..|norm|] == norm;
    KeptCover(kept, norm);
  }

  /** In a sorted list, what nothing earlier contains contains nothing earlier. */
  lemma {:induction false} Uncovered(norm: seq<Prefix>, i: nat, kept: seq<Prefix>)
    requires Ordered(norm) && i < |norm| && !InsideOne(kept, norm[i])
    requires Antichain(kept) && forall p :: p in kept ==> p in norm[..i]
    ensures Antichain(kept + [norm[i]])
  {
    forall k | 0 <= k < |kept|
      ensures !Nested(kept[k], norm[i])
    {
      assert kept[k] in kept && !Contains(kept[k], norm[i]);
      var m :| 0 <= m < i && norm[m] == kept[k];
      if Contains(norm[i], kept[k]) {
        assert StrictlyContains(norm[i], kept[k]);
        ContainerFirst(norm[i], kept[k]);
      }
    }
  }

  /** Aggregate. */
  method Aggregate(prefixes: seq<RawPrefix>) returns (kept: seq<Prefix>)
    ensures kept == MaximalBlocks(Normal(prefixes))
  {
    var norm := Normalize(prefixes);
    SortIsPermutation(norm);
    SortMembers(norm);
    kept := DropCovered(Sort(norm));
    var changed := true;
    while changed
      invariant Antichain(kept) && SameCover(kept, norm)
      invariant !changed ==> StrictlyOrdered(kept) && NoSiblings(kept)
      decreases |kept|, changed
    {
      kept, changed := MergeOnce(kept);
    }
    MaximalBlocksUnique(norm, kept);
  }

  lemma {:induction false} GrowsInside(kept: seq<Prefix>, p: Prefix, listed: seq<Prefix>)
    requires forall q :: q in listed ==> InsideOne(kept, q)
    ensures forall q :: q in listed + [p] ==> InsideOne(kept + [p], q)
  {
    forall q | q in listed + [p]
      ensures InsideOne(kept + [p], q)
    {
      if q in listed {
        var r :| r in kept && Contains(r, q);
        assert r in kept + [p];
      } else {
        assert p in kept + [p] && Contains(p, q);
      }
    }
  }

  lemma {:induction false} KeptCover(kept: seq<Prefix>, norm: seq<Prefix>)
    requires forall p :: p in kept ==> p in norm
    requires forall p :: p in norm ==> InsideOne(kept, p)
    ensures SameCover(kept, norm)
  {
    forall a: Addr | Covers(norm, a)
      ensures Covers(kept, a)
    {
      var p :| p in norm && Contains(p, a);
      InsideOneCovers(kept, p);
    }
  }
}
