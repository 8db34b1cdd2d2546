/** Cutting destinations around networks (internal/routing/tunnels.go): subtractNets,
aroundTunnels and outsideTunnels.
 */
module Subtraction {
  import opened Prefixes
  import opened Ordering
  import opened Aggregation

  datatype Verdict = Clear | Inside | Split

  /** What the first of nets that meets p says of it. */
  function Meets(p: Prefix, nets: seq<Prefix>): Verdict {
    if nets == [] then Clear
    else if Contains(nets[0], p) then Inside
    else if StrictlyContains(p, nets[0]) then Split
    else Meets(p, nets[1..])
  }

  /** subtractNets: halving p until each half lies in a net or meets none. */
  function SubtractNets(p: Prefix, nets: seq<Prefix>): seq<Prefix>
    decreases Width(p.fam) - |p.bits|
  {
    match Meets(p, nets)
    case Inside => []
    case Clear => [p]
    case Split =>
      if IsHost(p) then [] // nothing is longer than a host
      else SubtractNets(Half(p, false), nets) + SubtractNets(Half(p, true), nets)
  }

  /** The verdict in terms of all of nets: a block in a net is Inside or Split, and one
      disjoint from them all is Clear. */
  lemma {:induction false} MeetsMeans(p: Prefix, nets: seq<Prefix>)
    ensures Meets(p, nets).Inside? ==> InsideOne(nets, p)
    ensures Meets(p, nets).Split? ==> !IsHost(p) && exists n :: n in nets && StrictlyContains(p, n)
    ensures Meets(p, nets).Clear? <==> forall n :: n in nets ==> !Nested(p, n)
  {
    if nets != [] {
      MeetsMeans(p, nets[1..]);
      assert nets == [nets[0]] + nets[1..];
      assert nets[0] in nets;
      if Meets(p, nets) == Meets(p, nets[1..]) && !Nested(p, nets[0]) {
        if Meets(p, nets).Inside? {
          var n :| n in nets[1..] && Contains(n, p);
          assert n in nets;
        }
        if Meets(p, nets).Split? {
          var n :| n in nets[1..] && StrictlyContains(p, n);
          assert n in nets;
        }
      }
    }
  }

  lemma {:induction false} PiecesInside(p: Prefix, nets: seq<Prefix>)
    ensures forall q :: q in SubtractNets(p, nets) ==> Contains(p, q)
    decreases Width(p.fam) - |p.bits|
  {
    if Meets(p, nets).Split? && !IsHost(p) {
      var lo, hi := Half(p, false), Half(p, true);
      PiecesInside(lo, nets);
      PiecesInside(hi, nets);
      forall q | q in SubtractNets(p, nets)
        ensures Contains(p, q)
      {
        ContainsTransitive(p, if q in SubtractNets(lo, nets) then lo else hi, q);
      }
    }
  }

  /** The pieces cover exactly p less the nets. */
  lemma {:induction false} PiecesCover(p: Prefix, nets: seq<Prefix>, a: Addr)
    ensures Covers(SubtractNets(p, nets), a) <==> Contains(p, a) && !Covers(nets, a)
    decreases Width(p.fam) - |p.bits|
  {
    MeetsMeans(p, nets);
    match Meets(p, nets)
    case Inside =>
      InsideOneCovers(nets, p);
    case Clear =>
      assert p in SubtractNets(p, nets);
      forall n | n in nets
        ensures !(Contains(p, a) && Contains(n, a))
      {
        if Contains(p, a) && Contains(n, a) { SharedAddress(p, n, a); }
      }
    case Split =>
      var lo, hi := Half(p, false), Half(p, true);
      PiecesCover(lo, nets, a);
      PiecesCover(hi, nets, a);
      CoversConcat(SubtractNets(lo, nets), SubtractNets(hi, nets), a);
      if Contains(lo, a) { ContainsTransitive(p, lo, a); }
      if Contains(hi, a) { ContainsTransitive(p, hi, a); }
      if Contains(p, a) { InOneHalf(p, a); }
  }

  /** The pieces are disjoint, in order, and no two are the halves of one parent. */
  lemma {:induction false} PiecesCanonical(p: Prefix, nets: seq<Prefix>)
    ensures Canonical(SubtractNets(p, nets)) && StrictlyOrdered(SubtractNets(p, nets))
    decreases Width(p.fam) - |p.bits|
  {
    MeetsMeans(p, nets);
    if Meets(p, nets).Split? {
      var lo, hi := Half(p, false), Half(p, true);
      PiecesCanonical(lo, nets);
      PiecesCanonical(hi, nets);
      PiecesInside(lo, nets);
      PiecesInside(hi, nets);
      var n :| n in nets && StrictlyContains(p, n);
      InOneHalf(p, n);
      var h := Half(p, n.bits[|p.bits|]);
      PiecesCover(h, nets, First(n));
      ContainsTransitive(h, n, First(n));
      assert Covers(nets, First(n));
      assert SubtractNets(h, nets) != [h] by {
        assert Covers([h], First(n)) by { assert h in [h]; }
      }
      JoinHalves(p, SubtractNets(lo, nets), SubtractNets(hi, nets));
    }
  }

  /** Hence cutting p yields the maximal blocks of what is left of p, whatever order the
      nets are listed in. */
  lemma {:induction false} PiecesAreMaximal(p: Prefix, nets: seq<Prefix>, left: seq<Prefix>)
    requires forall a: Addr :: Covers(left, a) <==> Contains(p, a) && !Covers(nets, a)
    ensures SubtractNets(p, nets) == MaximalBlocks(left)
  {
    PiecesCanonical(p, nets);
    forall a: Addr
      ensures Covers(SubtractNets(p, nets), a) <==> Covers(left, a)
    {
      PiecesCover(p, nets, a);
    }
    MaximalBlocksUnique(left, SubtractNets(p, nets));
  }

  /** How much longer than p the nets strictly inside it are, summed. */
  function Excess(p: Prefix, nets: seq<Prefix>): nat {
    if nets == [] then 0
    else (if StrictlyContains(p, nets[0]) then |nets[0].bits| - |p.bits| else 0) + Excess(p, nets[1..])
  }

  /** How many of nets lie in p (or are p). */
  function CountIn(p: Prefix, nets: seq<Prefix>): nat {
    if nets == [] then 0 else (if Contains(p, nets[0]) then 1 else 0) + CountIn(p, nets[1..])
  }

  lemma {:induction false} ExcessOfHalves(p: Prefix, nets: seq<Prefix>)
    requires !IsHost(p)
    ensures Excess(p, nets) ==
            Excess(Half(p, false), nets) + CountIn(Half(p, false), nets) +
            Excess(Half(p, true), nets) + CountIn(Half(p, true), nets)
  {
    if nets != [] {
      ExcessOfHalves(p, nets[1..]);
      var n := nets[0];
      if StrictlyContains(p, n) {
        InOneHalf(p, n);
        assert n.bits[|p.bits|] == false || n.bits[|p.bits|] == true;
      } else {
        assert forall bit: bool :: Contains(Half(p, bit), n) ==> Contains(p, n) by {
          forall bit: bool | Contains(Half(p, bit), n)
            ensures Contains(p, n)
          {
            ContainsTransitive(p, Half(p, bit), n);
          }
        }
        assert !Contains(Half(p, false), n) && !Contains(Half(p, true), n);
      }
    }
  }

  lemma {:induction false} CountPositive(p: Prefix, nets: seq<Prefix>)
    ensures CountIn(p, nets) > 0 <==> exists n :: n in nets && Contains(p, n)
  {
    if nets != [] {
      CountPositive(p, nets[1..]);
      assert nets == [nets[0]] + nets[1..] && nets[0] in nets;
      if CountIn(p, nets[1..]) > 0 {
        var n :| n in nets[1..] && Contains(p, n);
        assert n in nets;
      }
    }
  }

  /** Cutting some net out of p takes at most Excess pieces; otherwise at most one. */
  lemma {:induction false} PiecesBound(p: Prefix, nets: seq<Prefix>)
    ensures |SubtractNets(p, nets)| <= if CountIn(p, nets) > 0 then Excess(p, nets) else 1
    decreases Width(p.fam) - |p.bits|
  {
    MeetsMeans(p, nets);
    CountPositive(p, nets);
    match Meets(p, nets)
    case Inside =>
    case Clear =>
    case Split =>
      var lo, hi := Half(p, false), Half(p, true);
      PiecesBound(lo, nets);
      PiecesBound(hi, nets);
      ExcessOfHalves(p, nets);
      CountPositive(lo, nets);
      CountPositive(hi, nets);
      var n :| n in nets && StrictlyContains(p, n);
      InOneHalf(p, n);
      assert CountIn(lo, nets) > 0 || CountIn(hi, nets) > 0;
  }

  /** aroundTunnels: each prefix cut around the nets. */
  function Around(prefixes: seq<Prefix>, nets: seq<Prefix>): seq<Prefix> {
    if prefixes == [] then []
    else Around(prefixes[..|prefixes| - 1], nets) + SubtractNets(prefixes[|prefixes| - 1], nets)
  }

  lemma {:induction false} AroundMembers(prefixes: seq<Prefix>, nets: seq<Prefix>, q: Prefix)
    ensures q in Around(prefixes, nets) <==> exists p :: p in prefixes && q in SubtractNets(p, nets)
  {
    if prefixes != [] {
      var k := |prefixes| - 1;
      AroundMembers(prefixes[..k], nets, q);
      assert prefixes == prefixes[..k] + [prefixes[k]] && prefixes[k] in prefixes;
      if q in Around(prefixes[..k], nets) {
        var p :| p in prefixes[..k] && q in SubtractNets(p, nets);
        assert p in prefixes;
      }
    }
  }

  lemma {:induction false} AroundCover(prefixes: seq<Prefix>, nets: seq<Prefix>, a: Addr)
    ensures Covers(Around(prefixes, nets), a) <==> Covers(prefixes, a) && !Covers(nets, a)
  {
    if Covers(Around(prefixes, nets), a) {
      var q :| q in Around(prefixes, nets) && Contains(q, a);
      AroundMembers(prefixes, nets, q);
      var p :| p in prefixes && q in SubtractNets(p, nets);
      PiecesCover(p, nets, a);
      assert Covers(SubtractNets(p, nets), a);
    }
    if Covers(prefixes, a) && !Covers(nets, a) {
      var p :| p in prefixes && Contains(p, a);
      PiecesCover(p, nets, a);
      var q :| q in SubtractNets(p, nets) && Contains(q, a);
      AroundMembers(prefixes, nets, q);
    }
  }

  /** aroundTunnels. */
  method AroundTunnels(prefixes: seq<Prefix>, nets: seq<Prefix>) returns (out: seq<Prefix>)
    ensures nets != [] ==> out == Around(prefixes, nets)
    ensures nets == [] ==> out == prefixes
    ensures forall a: Addr :: Covers(out, a) <==> Covers(prefixes, a) && !Covers(nets, a)
  {
    if nets == [] {
      return prefixes;
    }
    out := [];
    for i := 0 to |prefixes|
      invariant out == Around(prefixes[..i], nets)
    {
      assert prefixes[..i + 1][..i] == prefixes[..i];
      out := out + SubtractNets(prefixes[i], nets);
    }
    assert prefixes[..|prefixes|] == prefixes;
    forall a: Addr
      ensures Covers(out, a) <==> Covers(prefixes, a) && !Covers(nets, a)
    {
      AroundCover(prefixes, nets, a);
    }
  }

  /** outsideTunnels: the prefixes that lie inside none of the nets. */
  function Outside(prefixes: seq<Prefix>, nets: seq<Prefix>): seq<Prefix> {
    if prefixes == [] then []
    else
      var rest := Outside(prefixes[..|prefixes| - 1], nets);
      var p := prefixes[|prefixes| - 1];
      if exists n :: n in nets && Contains(n, p) then rest else rest + [p]
  }

  lemma {:induction false} OutsideMembers(prefixes: seq<Prefix>, nets: seq<Prefix>, p: Prefix)
    ensures p in Outside(prefixes, nets) <==> p in prefixes && !InsideOne(nets, p)
  {
    if prefixes != [] {
      var k := |prefixes| - 1;
      OutsideMembers(prefixes[..k], nets, p);
      assert prefixes == prefixes[..k] + [prefixes[k]];
    }
  }

  /** outsideTunnels. */
  method OutsideTunnels(prefixes: seq<Prefix>, nets: seq<Prefix>) returns (out: seq<Prefix>)
    ensures out == Outside(prefixes, nets)
  {
    if nets == [] {
      OutsideNothing(prefixes);
      return prefixes;
    }
    out := [];
    for i := 0 to |prefixes|
      invariant out == Outside(prefixes[..i], nets)
    {
      assert prefixes[..i + 1][..i] == prefixes[..i];
      var inside := Within(prefixes[i], nets);
      if !inside {
        out := out + [prefixes[i]];
      }
    }
    assert prefixes[..|prefixes|] == prefixes;
  }

  lemma {:induction false} OutsideNothing(prefixes: seq<Prefix>)
    ensures Outside(prefixes, []) == prefixes
  {
    if prefixes != [] {
      OutsideNothing(prefixes[..|prefixes| - 1]);
      assert prefixes == prefixes[..|prefixes| - 1] + [prefixes[|prefixes| - 1]];
    }
  }

  /** Outside the nets, dropping the prefixes inside them loses nothing. */
  lemma {:induction false} OutsideCover(prefixes: seq<Prefix>, nets: seq<Prefix>, a: Addr)
    requires !Covers(nets, a)
    ensures Covers(Outside(prefixes, nets), a) <==> Covers(prefixes, a)
  {
    if Covers(prefixes, a) {
      var p :| p in prefixes && Contains(p, a);
      OutsideMembers(prefixes, nets, p);
      if InsideOne(nets, p) { InsideOneCovers(nets, p); }
    }
    if Covers(Outside(prefixes, nets), a) {
      var p :| p in Outside(prefixes, nets) && Contains(p, a);
      OutsideMembers(prefixes, nets, p);
    }
  }

  /** Aggregating what stayed outside the nets never merges into one of them. */
  lemma {:induction false} AggregateStaysOutside(prefixes: seq<Prefix>, nets: seq<Prefix>, q: Prefix)
    requires q in MaximalBlocks(Outside(prefixes, nets))
    ensures !InsideOne(nets, q)
  {
    var s := Outside(prefixes, nets);
    MaximalBlocksExact(s);
    var a := First(q);
    assert Covers(MaximalBlocks(s), a);
    var p :| p in s && Contains(p, a);
    OutsideMembers(prefixes, nets, p);
    ListedInside(s, p);
    var r :| r in MaximalBlocks(s) && Contains(r, p);
    ContainsTransitive(r, p, a);
    SharedAddress(r, q, a);
    AntichainEqual(MaximalBlocks(s), r, q);
    if InsideOne(nets, q) {
      var n :| n in nets && Contains(n, q);
      ContainsTransitive(n, q, p);
    }
  }

  /** The pieces cut from canonical blocks are canonical together. */
  lemma {:induction false} AroundCanonical(s: seq<Prefix>, nets: seq<Prefix>, p: Prefix, q: Prefix)
    requires Canonical(s) && p in Around(s, nets) && q in Around(s, nets)
    ensures Nested(p, q) ==> p == q
    ensures !Siblings(p, q)
  {
    AroundMembers(s, nets, p);
    AroundMembers(s, nets, q);
    var b :| b in s && p in SubtractNets(b, nets);
    var c :| c in s && q in SubtractNets(c, nets);
    PiecesInside(b, nets);
    PiecesInside(c, nets);
    PiecesCanonical(b, nets);
    if Nested(p, q) {
      var a := if Contains(p, q) then First(q) else First(p);
      ContainsTransitive(b, p, a);
      ContainsTransitive(c, q, a);
      SharedAddress(b, c, a);
      AntichainEqual(s, b, c);
      AntichainEqual(SubtractNets(b, nets), p, q);
    }
    if Siblings(p, q) {
      SiblingBlocks(b, c, p, q);
      if Nested(b, c) { AntichainEqual(s, b, c); }
    }
  }

  /** Blocks holding two siblings are nested, or are those siblings. */
  lemma {:induction false} SiblingBlocks(b: Prefix, c: Prefix, p: Prefix, q: Prefix)
    requires Siblings(p, q) && Contains(b, p) && Contains(c, q)
    ensures Nested(b, c) || (b == p && c == q)
  {
    var n := |p.bits| - 1;
    assert p == Half(Parent(p), p.bits[n]) && q == Half(Parent(p), q.bits[n]);
    HoldsHalf(b, Parent(p), p.bits[n]);
    HoldsHalf(c, Parent(p), q.bits[n]);
    if Contains(b, Parent(p)) {
      ContainsTransitive(b, Parent(p), q);
      ContainsTransitive(b, q, First(q));
      ContainsTransitive(c, q, First(q));
      SharedAddress(b, c, First(q));
    } else if Contains(c, Parent(p)) {
      ContainsTransitive(c, Parent(p), p);
      ContainsTransitive(c, p, First(p));
      ContainsTransitive(b, p, First(p));
      SharedAddress(b, c, First(p));
    }
  }

  /** Cutting aggregated blocks gives the same blocks as aggregating the cut prefixes. */
  lemma {:induction false} CutThenAggregate(prefixes: seq<Prefix>, nets: seq<Prefix>, p: Prefix)
    ensures p in Around(MaximalBlocks(prefixes), nets) <==> p in MaximalBlocks(Around(prefixes, nets))
  {
    var blocks := MaximalBlocks(prefixes);
    var cut, agg := Around(blocks, nets), MaximalBlocks(Around(prefixes, nets));
    MaximalBlocksExact(prefixes);
    MaximalBlocksExact(Around(prefixes, nets));
    forall a: Addr
      ensures Covers(cut, a) <==> Covers(agg, a)
    {
      AroundCover(blocks, nets, a);
      AroundCover(prefixes, nets, a);
    }
    SetCanonicalMembers(cut, agg, p) by {
      forall x, y | x in cut && y in cut
        ensures (Nested(x, y) ==> x == y) && !Siblings(x, y)
      {
        AroundCanonical(blocks, nets, x, y);
      }
    }
  }

  /** Canonical up to repetition. */
  ghost predicate SetCanonical(s: seq<Prefix>) {
    forall p, q :: p in s && q in s ==> (Nested(p, q) ==> p == q) && !Siblings(p, q)
  }

  lemma {:induction false} SetCanonicalMembers(s: seq<Prefix>, t: seq<Prefix>, p: Prefix)
    requires SetCanonical(s) && Canonical(t) && SameCover(s, t)
    ensures p in s <==> p in t
  {
    var u := Distinct(s);
    DistinctMembers(s);
    DistinctAntichain(s);
    CanonicalMembers(u, t, p);
  }

  function Distinct(s: seq<Prefix>): seq<Prefix> {
    if s == [] then []
    else
      var rest := Distinct(s[..|s| - 1]);
      if s[|s| - 1] in rest then rest else rest + [s[|s| - 1]]
  }

  lemma {:induction false} DistinctMembers(s: seq<Prefix>)
    ensures forall p :: p in Distinct(s) <==> p in s
  {
    if s != [] {
      DistinctMembers(s[..|s| - 1]);
      assert s == s[..|s| - 1] + [s[|s| - 1]];
    }
  }

  lemma {:induction false} DistinctAntichain(s: seq<Prefix>)
    requires forall p, q :: p in s && q in s ==> (Nested(p, q) ==> p == q)
    ensures Antichain(Distinct(s))
  {
    if s != [] {
      var k := |s| - 1;
      assert s == s[..k] + [s[k]];
      DistinctMembers(s[..k]);
      DistinctAntichain(s[..k]);
      forall p | p in Distinct(s[..k])
        ensures p in s
      {
      }
      var t := Distinct(s);
      forall i, j | 0 <= i < j < |t|
        ensures !Nested(t[i], t[j])
      {
        if j == |Distinct(s[..k])| {
          assert t[i] == Distinct(s[..k])[i] && t[i] in s && t[j] == s[k];
        }
      }
    }
  }
}
