/** CIDR prefixes as bit strings, and the theory of canonical block sets.

A masked prefix is its family and its leading bits; an address is a prefix of full
length (so an address and its host prefix are one value). Containment is "is a prefix
of", and the halves of a block append one bit. Everything that aggregates, cuts or
places destinations rests on one fact proved here: a set of blocks in which none
contains another and no two are halves of one parent is determined by the addresses
it covers.
 */
module Prefixes {

  datatype Family = V4 | V6

  function Width(f: Family): nat {
    if f.V4? then 32 else 128
  }

  datatype Block = Block(fam: Family, bits: seq<bool>)

  /** A masked prefix. */
  type Prefix = p: Block | |p.bits| <= Width(p.fam) witness Block(V4, [])

  /** An address, which is also its own host prefix. */
  type Addr = p: Block | |p.bits| == Width(p.fam) witness Block(V4, seq(32, _ => false))

  /** netip.Prefix as callers hold it: perhaps not valid, perhaps not masked. */
  datatype RawPrefix = Invalid | Raw(addr: Addr, len: nat)

  predicate IsValid(r: RawPrefix) {
    r.Raw? && r.len <= Width(r.addr.fam)
  }

  function Masked(r: RawPrefix): Prefix
    requires IsValid(r)
  {
    Block(r.addr.fam, r.addr.bits[..r.len])
  }

  function Root(f: Family): Prefix {
    Block(f, [])
  }

  /** q lies in p (q an address or a prefix): netip's Contains with the length check. */
  predicate Contains(p: Prefix, q: Prefix) {
    p.fam == q.fam && p.bits <= q.bits
  }

  predicate StrictlyContains(p: Prefix, q: Prefix) {
    Contains(p, q) && |p.bits| < |q.bits|
  }

  predicate Nested(p: Prefix, q: Prefix) {
    Contains(p, q) || Contains(q, p)
  }

  predicate IsHost(p: Prefix) {
    |p.bits| == Width(p.fam)
  }

  function Half(p: Prefix, bit: bool): (h: Prefix)
    requires !IsHost(p)
    ensures StrictlyContains(p, h)
  {
    Block(p.fam, p.bits + [bit])
  }

  function Parent(p: Prefix): (q: Prefix)
    requires p.bits != []
    ensures StrictlyContains(q, p)
  {
    Block(p.fam, p.bits[..|p.bits| - 1])
  }

  /** The two halves of one parent. */
  predicate Siblings(p: Prefix, q: Prefix) {
    p.bits != [] && q.bits != [] && p != q && |p.bits| == |q.bits| && Parent(p) == Parent(q)
  }

  /** The network address of a prefix. */
  function First(p: Prefix): (a: Addr)
    ensures Contains(p, a)
  {
    Block(p.fam, p.bits + seq(Width(p.fam) - |p.bits|, _ => false))
  }

  ghost predicate Covers(s: seq<Prefix>, a: Addr) {
    exists p :: p in s && Contains(p, a)
  }

  /** Every address of p is covered by s. */
  ghost predicate CoversAll(s: seq<Prefix>, p: Prefix) {
    forall a: Addr :: Contains(p, a) ==> Covers(s, a)
  }

  ghost predicate SameCover(s: seq<Prefix>, t: seq<Prefix>) {
    forall a: Addr :: Covers(s, a) <==> Covers(t, a)
  }

  /** One of s contains p whole. */
  ghost predicate InsideOne(s: seq<Prefix>, p: Prefix) {
    exists q :: q in s && Contains(q, p)
  }

  /** No block contains another, and none is listed twice. */
  ghost predicate Antichain(s: seq<Prefix>) {
    forall i, j :: 0 <= i < j < |s| ==> !Nested(s[i], s[j])
  }

  ghost predicate NoSiblings(s: seq<Prefix>) {
    forall p, q :: p in s && q in s ==> !Siblings(p, q)
  }

  ghost predicate Canonical(s: seq<Prefix>) {
    Antichain(s) && NoSiblings(s)
  }

  lemma {:induction false} AntichainEqual(s: seq<Prefix>, p: Prefix, q: Prefix)
    requires Antichain(s) && p in s && q in s && Nested(p, q)
    ensures p == q
  {
    var i :| 0 <= i < |s| && s[i] == p;
    var j :| 0 <= j < |s| && s[j] == q;
    assert i == j;
  }

  /** Two blocks that share an address are nested. */
  lemma {:induction false} SharedAddress(p: Prefix, q: Prefix, a: Addr)
    requires Contains(p, a) && Contains(q, a)
    ensures Nested(p, q)
    ensures |p.bits| == |q.bits| ==> p == q
  {
    if |p.bits| <= |q.bits| {
      assert p.bits == q.bits[..|p.bits|];
    } else {
      assert q.bits == p.bits[..|q.bits|];
    }
  }

  /** Containing something no longer is being it. */
  lemma {:induction false} HostLike(p: Prefix, q: Prefix)
    requires Contains(p, q) && |q.bits| <= |p.bits|
    ensures p == q
  {
    assert p.bits == q.bits;
  }

  lemma {:induction false} ContainsTransitive(p: Prefix, q: Prefix, r: Prefix)
    requires Contains(p, q) && Contains(q, r)
    ensures Contains(p, r)
  {
    assert p.bits == r.bits[..|p.bits|];
  }

  /** What is inside p and longer is inside exactly one half of p. */
  lemma {:induction false} InOneHalf(p: Prefix, q: Prefix)
    requires StrictlyContains(p, q)
    ensures Contains(Half(p, q.bits[|p.bits|]), q)
    ensures !Contains(Half(p, !q.bits[|p.bits|]), q)
  {
    var h := Half(p, q.bits[|p.bits|]);
    assert h.bits == q.bits[..|h.bits|];
    assert Half(p, !q.bits[|p.bits|]).bits[|p.bits|] != q.bits[|p.bits|];
  }

  lemma {:induction false} HalvesAreSiblings(p: Prefix)
    requires !IsHost(p)
    ensures Siblings(Half(p, false), Half(p, true))
    ensures !Nested(Half(p, false), Half(p, true))
  {
    var lo, hi := Half(p, false), Half(p, true);
    assert lo.bits[..|p.bits|] == p.bits == hi.bits[..|p.bits|];
    assert lo.bits[|p.bits|] != hi.bits[|p.bits|];
  }

  /** A block holding a half of p holds p, or is that half. */
  lemma {:induction false} HoldsHalf(q: Prefix, p: Prefix, bit: bool)
    requires !IsHost(p) && Contains(q, Half(p, bit))
    ensures Contains(q, p) || q == Half(p, bit)
  {
    var h := Half(p, bit);
    assert q.bits == h.bits[..|q.bits|];
    if |q.bits| <= |p.bits| {
      assert q.bits == p.bits[..|q.bits|];
    }
  }

  /** A block inside the union of canonical blocks lies inside one of them. */
  lemma {:induction false} WithinOne(s: seq<Prefix>, p: Prefix)
    requires Canonical(s) && CoversAll(s, p)
    ensures InsideOne(s, p)
    decreases Width(p.fam) - |p.bits|
  {
    if IsHost(p) {
      assert Contains(p, p);
      assert Covers(s, p);
    } else {
      var lo, hi := Half(p, false), Half(p, true);
      forall bit: bool, a: Addr | Contains(Half(p, bit), a)
        ensures Covers(s, a)
      {
        ContainsTransitive(p, Half(p, bit), a);
      }
      assert CoversAll(s, lo) && CoversAll(s, hi);
      WithinOne(s, lo);
      WithinOne(s, hi);
      var q :| q in s && Contains(q, lo);
      var r :| r in s && Contains(r, hi);
      HoldsHalf(q, p, false);
      HoldsHalf(r, p, true);
      HalvesAreSiblings(p);
      assert Contains(q, p) || Contains(r, p);
    }
  }

  lemma {:induction false} InsideOneCovers(s: seq<Prefix>, p: Prefix)
    requires InsideOne(s, p)
    ensures CoversAll(s, p)
  {
    var q :| q in s && Contains(q, p);
    forall a: Addr | Contains(p, a)
      ensures Covers(s, a)
    {
      ContainsTransitive(q, p, a);
    }
  }

  /** Canonical blocks are determined by the addresses they cover. */
  lemma {:induction false} CanonicalMembers(s: seq<Prefix>, t: seq<Prefix>, p: Prefix)
    requires Canonical(s) && Canonical(t) && SameCover(s, t)
    ensures p in s <==> p in t
  {
    if p in s { MemberCarries(s, t, p); }
    if p in t { MemberCarries(t, s, p); }
  }

  lemma {:induction false} MemberCarries(s: seq<Prefix>, t: seq<Prefix>, p: Prefix)
    requires Canonical(s) && Canonical(t) && SameCover(s, t) && p in s
    ensures p in t
  {
    assert InsideOne(s, p) by { assert Contains(p, p); }
    InsideOneCovers(s, p);
    assert CoversAll(t, p);
    WithinOne(t, p);
    var q :| q in t && Contains(q, p);
    assert InsideOne(t, q) by { assert Contains(q, q); }
    InsideOneCovers(t, q);
    assert CoversAll(s, q);
    WithinOne(s, q);
    var r :| r in s && Contains(r, q);
    ContainsTransitive(r, q, p);
    AntichainEqual(s, r, p);
    assert q.bits == p.bits;
  }

  lemma {:induction false} CoversConcat(s: seq<Prefix>, t: seq<Prefix>, a: Addr)
    ensures Covers(s + t, a) <==> Covers(s, a) || Covers(t, a)
  {
    assert forall p :: p in s + t <==> p in s || p in t;
  }
}
