/** The order prefixes are sorted in: IPv4 before IPv6, then by network address, then
shorter first. On bit strings that is the lexicographic order.
 */
module Ordering {
  import opened Prefixes

  predicate Lex(x: seq<bool>, y: seq<bool>)
    decreases |x|
  {
    if y == [] then false
    else if x == [] then true
    else if x[0] != y[0] then y[0]
    else Lex(x[1..], y[1..])
  }

  predicate Less(p: Prefix, q: Prefix) {
    if p.fam != q.fam then p.fam.V4? else Lex(p.bits, q.bits)
  }

  ghost predicate Ordered(s: seq<Prefix>) {
    forall i, j :: 0 <= i < j < |s| ==> !Less(s[j], s[i])
  }

  ghost predicate StrictlyOrdered(s: seq<Prefix>) {
    forall i, j :: 0 <= i < j < |s| ==> Less(s[i], s[j])
  }

  lemma {:induction false} LexTransitive(x: seq<bool>, y: seq<bool>, z: seq<bool>)
    requires Lex(x, y) && Lex(y, z)
    ensures Lex(x, z)
    decreases |x|
  {
    if x != [] && x[0] == y[0] == z[0] {
      LexTransitive(x[1..], y[1..], z[1..]);
    }
  }

  lemma {:induction false} LexTotal(x: seq<bool>, y: seq<bool>)
    ensures !(Lex(x, y) && Lex(y, x))
    ensures Lex(x, y) || Lex(y, x) || x == y
    decreases |x|
  {
    if x != [] && y != [] && x[0] == y[0] {
      LexTotal(x[1..], y[1..]);
      assert x == [x[0]] + x[1..] && y == [y[0]] + y[1..];
    }
  }

  lemma {:induction false} LessTransitive(p: Prefix, q: Prefix, r: Prefix)
    requires Less(p, q) && Less(q, r)
    ensures Less(p, r)
  {
    if p.fam == q.fam == r.fam {
      LexTransitive(p.bits, q.bits, r.bits);
    }
  }

  lemma {:induction false} LessTotal(p: Prefix, q: Prefix)
    ensures !(Less(p, q) && Less(q, p))
    ensures Less(p, q) || Less(q, p) || p == q
  {
    LexTotal(p.bits, q.bits);
  }

  /** A common beginning does not matter. */
  lemma {:induction false} LexAppend(c: seq<bool>, x: seq<bool>, y: seq<bool>)
    ensures Lex(c + x, c + y) == Lex(x, y)
  {
    if c == [] {
      assert c + x == x && c + y == y;
    } else {
      LexAppend(c[1..], x, y);
      assert (c + x)[1..] == c[1..] + x && (c + y)[1..] == c[1..] + y;
    }
  }

  /** A block comes before what it contains. */
  lemma {:induction false} ContainerFirst(p: Prefix, q: Prefix)
    requires StrictlyContains(p, q)
    ensures Less(p, q)
  {
    LexAppend(p.bits, [], q.bits[|p.bits|..]);
    assert p.bits + [] == p.bits && p.bits + q.bits[|p.bits|..] == q.bits;
  }

  /** Everything in the lower half comes before everything in the upper half. */
  lemma {:induction false} HalvesOrdered(p: Prefix, x: Prefix, y: Prefix)
    requires !IsHost(p) && Contains(Half(p, false), x) && Contains(Half(p, true), y)
    ensures Less(x, y)
  {
    var n := |p.bits|;
    assert x.bits == p.bits + x.bits[n..] && y.bits == p.bits + y.bits[n..];
    LexAppend(p.bits, x.bits[n..], y.bits[n..]);
    assert x.bits[n] == Half(p, false).bits[n] && y.bits[n] == Half(p, true).bits[n];
  }

  /** What sorts between the two halves of a block lies in the lower one. */
  lemma {:induction false} LexBetween(c: seq<bool>, z: seq<bool>)
    requires Lex(c + [false], z) && Lex(z, c + [true])
    ensures c + [false] <= z
  {
    if c == [] {
    } else {
      assert (c + [false])[1..] == c[1..] + [false] && (c + [true])[1..] == c[1..] + [true];
      LexBetween(c[1..], z[1..]);
      assert z == [z[0]] + z[1..] && c + [false] == [c[0]] + (c[1..] + [false]);
    }
  }

  lemma {:induction false} Between(p: Prefix, z: Prefix)
    requires !IsHost(p) && Less(Half(p, false), z) && Less(z, Half(p, true))
    ensures Contains(Half(p, false), z)
  {
    LexBetween(p.bits, z.bits);
  }

  function Insert(s: seq<Prefix>, p: Prefix): seq<Prefix> {
    if s == [] || Less(p, s[0]) then [p] + s else [s[0]] + Insert(s[1..], p)
  }

  /** sortPrefixes: the sorted permutation. */
  function Sort(s: seq<Prefix>): seq<Prefix> {
    if s == [] then [] else Insert(Sort(s[1..]), s[0])
  }

  lemma {:induction false} InsertMembers(s: seq<Prefix>, p: Prefix)
    ensures multiset(Insert(s, p)) == multiset(s) + multiset{p}
    ensures forall q :: q in Insert(s, p) <==> q == p || q in s
  {
    if s == [] || Less(p, s[0]) {
    } else {
      InsertMembers(s[1..], p);
      assert s == [s[0]] + s[1..];
    }
  }

  lemma {:induction false} InsertOrdered(s: seq<Prefix>, p: Prefix)
    requires Ordered(s)
    ensures Ordered(Insert(s, p))
  {
    if s == [] {
    } else if Less(p, s[0]) {
      forall q | q in s
        ensures !Less(q, p)
      {
        var j :| 0 <= j < |s| && s[j] == q;
        LessTotal(q, p);
        LessTotal(p, s[0]);
        if Less(q, p) { LessTransitive(q, p, s[0]); }
      }
    } else {
      InsertOrdered(s[1..], p);
      InsertMembers(s[1..], p);
      var t := Insert(s[1..], p);
      forall q | q in t
        ensures !Less(q, s[0])
      {
        if q != p {
          var j :| 1 <= j < |s| && s[j] == q;
        }
      }
    }
  }

  lemma {:induction false} SortIsPermutation(s: seq<Prefix>)
    ensures multiset(Sort(s)) == multiset(s) && Ordered(Sort(s))
    ensures |Sort(s)| == |s|
  {
    if s != [] {
      SortIsPermutation(s[1..]);
      InsertMembers(Sort(s[1..]), s[0]);
      InsertOrdered(Sort(s[1..]), s[0]);
      assert s == [s[0]] + s[1..];
    }
    assert |multiset(Sort(s))| == |multiset(s)|;
  }

  lemma {:induction false} SortMembers(s: seq<Prefix>)
    ensures forall p :: p in Sort(s) <==> p in s
  {
    if s != [] {
      SortMembers(s[1..]);
      InsertMembers(Sort(s[1..]), s[0]);
      assert s == [s[0]] + s[1..];
    }
  }

  lemma {:induction false} InsertAntichain(s: seq<Prefix>, p: Prefix)
    requires Antichain(s) && forall q :: q in s ==> !Nested(p, q)
    ensures Antichain(Insert(s, p))
  {
    if s == [] || Less(p, s[0]) {
    } else {
      InsertAntichain(s[1..], p);
      InsertMembers(s[1..], p);
      var t := Insert(s[1..], p);
      assert !Nested(p, s[0]);
      forall q | q in t
        ensures !Nested(s[0], q)
      {
        if q != p {
          var j :| 1 <= j < |s| && s[j] == q;
        }
      }
    }
  }

  lemma {:induction false} SortAntichain(s: seq<Prefix>)
    requires Antichain(s)
    ensures Antichain(Sort(s)) && StrictlyOrdered(Sort(s))
  {
    if s != [] {
      SortAntichain(s[1..]);
      SortMembers(s[1..]);
      InsertAntichain(Sort(s[1..]), s[0]);
    }
    SortIsPermutation(s);
    var t := Sort(s);
    forall i, j | 0 <= i < j < |t|
      ensures Less(t[i], t[j])
    {
      LessTotal(t[i], t[j]);
      assert !Nested(t[i], t[j]);
    }
  }

  /** Strictly ordered lists with the same members are the same list. */
  lemma {:induction false} OrderedUnique(s: seq<Prefix>, t: seq<Prefix>)
    requires StrictlyOrdered(s) && StrictlyOrdered(t)
    requires forall p :: p in s <==> p in t
    ensures s == t
  {
    assert t != [] ==> t[0] in s;
    if s != [] {
      assert s[0] in t;
      LessTotal(s[0], t[0]);
      assert s[0] == t[0];
      forall p
        ensures p in s[1..] <==> p in t[1..]
      {
        if p in s[1..] { NotHead(s, p); assert p in t; }
        if p in t[1..] { NotHead(t, p); assert p in s; }
      }
      OrderedUnique(s[1..], t[1..]);
      assert s == [s[0]] + s[1..] && t == [t[0]] + t[1..];
    }
  }

  lemma {:induction false} NotHead(s: seq<Prefix>, p: Prefix)
    requires StrictlyOrdered(s) && s != [] && p in s[1..]
    ensures p != s[0] && p in s
  {
    var j :| 0 <= j < |s[1..]| && s[1..][j] == p;
    assert Less(s[0], s[j + 1]);
    LessTotal(s[0], p);
  }

  function Zeros(n: nat): (z: seq<bool>)
    ensures |z| == n
  {
    seq(n, _ => false)
  }

  lemma {:induction false} LexZeros(n: nat, y: seq<bool>)
    requires |y| == n
    ensures Lex(Zeros(n), y) <==> y != Zeros(n)
  {
    if n > 0 {
      assert Zeros(n)[1..] == Zeros(n - 1);
      LexZeros(n - 1, y[1..]);
      assert y == [y[0]] + y[1..] && Zeros(n) == [false] + Zeros(n - 1);
    } else {
      assert y == Zeros(0);
    }
  }

  lemma {:induction false} LexPadded(x: seq<bool>, m: nat, y: seq<bool>, n: nat)
    requires |x| + m == |y| + n
    ensures Lex(x, y) <==> if x + Zeros(m) != y + Zeros(n) then Lex(x + Zeros(m), y + Zeros(n)) else |x| < |y|
    decreases |x|
  {
    if x == [] {
      assert x + Zeros(m) == Zeros(m);
      LexZeros(m, y + Zeros(n));
      LexTotal(Zeros(m), y + Zeros(n));
    } else if y == [] {
      assert y + Zeros(n) == Zeros(n);
      LexZeros(n, x + Zeros(m));
      LexTotal(Zeros(n), x + Zeros(m));
    } else {
      assert (x + Zeros(m))[1..] == x[1..] + Zeros(m) && (y + Zeros(n))[1..] == y[1..] + Zeros(n);
      if x[0] == y[0] {
        LexPadded(x[1..], m, y[1..], n);
        assert x + Zeros(m) == [x[0]] + (x[1..] + Zeros(m)) && y + Zeros(n) == [y[0]] + (y[1..] + Zeros(n));
      } else {
        assert (x + Zeros(m))[0] != (y + Zeros(n))[0];
      }
    }
  }

  /** The comparison sortPrefixes makes, spelled as it makes it: by family, then by network
      address (compared bit by bit, most significant first), then by length. */
  lemma {:induction false} LessIsByteOrder(p: Prefix, q: Prefix)
    ensures Less(p, q) <==>
            if p.fam != q.fam then p.fam.V4?
            else if First(p) != First(q) then Lex(First(p).bits, First(q).bits)
            else |p.bits| < |q.bits|
  {
    if p.fam == q.fam {
      var m, n := Width(p.fam) - |p.bits|, Width(q.fam) - |q.bits|;
      assert First(p).bits == p.bits + Zeros(m) && First(q).bits == q.bits + Zeros(n);
      LexPadded(p.bits, m, q.bits, n);
    }
  }
}
