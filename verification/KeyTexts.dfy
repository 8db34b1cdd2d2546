/** Keys as texts (RouteKey and RuleKey in internal/routing/engine.go): with parts that hold
no bar, two routes or rules have one key only if they are one.
 */
module KeyTexts {
  import opened Prefixes
  import opened Routes
  import opened Desired
  import KeyOrder
  import Priorities

  predicate BarFree(s: string) {
    '|' !in s
  }

  lemma {:induction false} BarsApart(x: string, y: string, x1: string, y1: string)
    requires BarFree(x1) && |x| < |x1|
    ensures x + "|" + y != x1 + "|" + y1
  {
    assert (x + "|" + y)[|x|] == '|';
    assert (x1 + "|" + y1)[|x|] == x1[|x|];
  }

  lemma {:induction false} SplitAtBar(x: string, y: string, x1: string, y1: string)
    requires BarFree(x) && BarFree(x1) && x + "|" + y == x1 + "|" + y1
    ensures x == x1 && y == y1
  {
    assert |x| == |x1| by {
      if |x| < |x1| { BarsApart(x, y, x1, y1); }
      if |x1| < |x| { BarsApart(x1, y1, x, y); }
    }
    var s := x + "|" + y;
    assert s[..|x|] == x && (x1 + "|" + y1)[..|x1|] == x1;
    assert s[|x| + 1..] == y && (x1 + "|" + y1)[|x1| + 1..] == y1;
  }

  lemma {:induction false} NoBarInside(x: string, y: string, z: string)
    requires BarFree(x)
    ensures x != y + "|" + z
  {
    assert (y + "|" + z)[|y|] == '|';
  }

  /** Prefixes, addresses and numbers are written without bars, each its own way, and no
      address as nothing. */
  ghost predicate Distinguishes(w: Writing) {
    && (forall p :: BarFree(w.cidr(p))) && (forall p, q :: w.cidr(p) == w.cidr(q) ==> p == q)
    && (forall a :: BarFree(w.addr(a)) && w.addr(a) != "") && (forall a, b :: w.addr(a) == w.addr(b) ==> a == b)
    && (forall n :: BarFree(w.number(n))) && (forall m, n :: w.number(m) == w.number(n) ==> m == n)
  }

  predicate PlainHop(h: Hop) {
    h.Reject? || BarFree(h.iface)
  }

  predicate PlainRoute(r: Route) {
    BarFree(r.table) && PlainHop(r.hop)
  }

  function HopText(w: Writing, h: Hop): string {
    match h
    case Via(gw, iface) => w.addr(gw) + "|" + iface
    case Dev(iface) => "|" + iface
    case Reject => "||reject"
  }

  lemma {:induction false} HopTold(w: Writing, h: Hop, k: Hop)
    requires Distinguishes(w) && PlainHop(h) && PlainHop(k) && HopText(w, h) == HopText(w, k)
    ensures h == k
  {
    var x := if h.Via? then w.addr(h.gateway) else "";
    var x1 := if k.Via? then w.addr(k.gateway) else "";
    var y := if h.Reject? then "|reject" else h.iface;
    var y1 := if k.Reject? then "|reject" else k.iface;
    assert HopText(w, h) == x + "|" + y && HopText(w, k) == x1 + "|" + y1;
    SplitAtBar(x, y, x1, y1);
    assert "|reject"[0] == '|';
  }

  function AfterFamily(w: Writing, r: Route): string {
    r.table + "|" + (w.cidr(r.dst) + "|" + HopText(w, r.hop))
  }

  lemma {:induction false} RouteKeyParts(w: Writing, r: Route)
    ensures RouteKey(w, r) == FamilyText(r.dst.fam) + "|" + AfterFamily(w, r)
  {
    var hop := HopText(w, r.hop);
    assert RouteKey(w, r) == FamilyText(r.dst.fam) + "|" + r.table + "|" + w.cidr(r.dst) + "|" + hop;
    hide RouteKey, HopText, FamilyText;
    var f, t, c := FamilyText(r.dst.fam), r.table, w.cidr(r.dst);
    assert f + "|" + t + "|" + c + "|" + hop == f + "|" + (t + "|" + (c + "|" + hop));
  }

  /** A route's key tells it apart: from every route with another table, destination or next
      hop. */
  lemma {:induction false} RouteKeyTells(w: Writing, r: Route, s: Route)
    requires Distinguishes(w) && PlainRoute(r) && PlainRoute(s)
    ensures RouteKey(w, r) == RouteKey(w, s) <==> r == s
  {
    hide RouteKey, FamilyText, HopText;
    if RouteKey(w, r) == RouteKey(w, s) {
      RouteKeyParts(w, r);
      RouteKeyParts(w, s);
      FamilyBarFree(r.dst.fam);
      FamilyBarFree(s.dst.fam);
      SplitAtBar(FamilyText(r.dst.fam), AfterFamily(w, r), FamilyText(s.dst.fam), AfterFamily(w, s));
      var r1, s1 := HopText(w, r.hop), HopText(w, s.hop);
      SplitAtBar(r.table, w.cidr(r.dst) + "|" + r1, s.table, w.cidr(s.dst) + "|" + s1);
      SplitAtBar(w.cidr(r.dst), r1, w.cidr(s.dst), s1);
      HopTold(w, r.hop, s.hop);
    }
  }

  lemma {:induction false} FamilyBarFree(fam: Family)
    ensures BarFree(FamilyText(fam))
    ensures forall g :: FamilyText(fam) == FamilyText(g) ==> fam == g
  {
    assert "v4"[1] != "v6"[1];
  }

  /** A built set lists its IPv4 routes before its IPv6 ones. */
  lemma {:induction false} FamiliesInOrder(d: DesiredInput)
    requires BuildDesired(d).Built?
    ensures forall i, j :: 0 <= i < j < |BuildDesired(d).routes| && BuildDesired(d).routes[i].route.dst.fam.V6? ==>
                           BuildDesired(d).routes[j].route.dst.fam.V6?
  {
    hide BuildUnsorted, KeyOrder.SortBy, KeyOrder.TextLess, RouteKey;
    var rs, key := BuildDesired(d).routes, ByRouteKey(d.writing);
    KeyOrder.SortBySorts(key, BuildUnsorted(d).routes);
    forall i, j | 0 <= i < j < |rs| && rs[i].route.dst.fam.V6?
      ensures rs[j].route.dst.fam.V6?
    {
      assert !KeyOrder.TextLess(key(rs[j]), key(rs[i]));
      if rs[j].route.dst.fam.V4? { FamilyDecides(d.writing, rs[j].route, rs[i].route); }
    }
  }

  lemma {:induction false} FamilyDecides(w: Writing, r: Route, s: Route)
    requires r.dst.fam.V4? && s.dst.fam.V6?
    ensures KeyOrder.TextLess(RouteKey(w, r), RouteKey(w, s))
  {
    RouteKeyParts(w, r);
    RouteKeyParts(w, s);
    var x, y := RouteKey(w, r), RouteKey(w, s);
    hide RouteKey, AfterFamily;
    assert x[0] == 'v' == y[0] && x[1] == '4' && y[1] == '6';
    assert KeyOrder.TextLess(x[1..], y[1..]);
  }

  function SelectorText(w: Writing, s: Selector): string {
    match s case To(net) => "to " + w.cidr(net) case Other(text) => text
  }

  /** No bars in the rule's texts; a selector that is no network is not written as one; and
      a gateway only where there is an interface. */
  ghost predicate PlainRule(w: Writing, r: Rule) {
    && BarFree(r.target.table) && BarFree(r.target.iface) && (r.target.iface == "" ==> r.target.gateway.None?)
    && (r.selector.Other? ==> BarFree(r.selector.text) && forall p :: r.selector.text != "to " + w.cidr(p))
  }

  lemma {:induction false} SelectorTold(w: Writing, s: Selector, t: Selector)
    requires Distinguishes(w) && SelectorText(w, s) == SelectorText(w, t)
    requires s.Other? ==> forall p :: s.text != "to " + w.cidr(p)
    requires t.Other? ==> forall p :: t.text != "to " + w.cidr(p)
    ensures s == t
  {
    if s.To? && t.To? {
      assert SelectorText(w, s)[3..] == w.cidr(s.net) && SelectorText(w, t)[3..] == w.cidr(t.net);
    }
  }

  function WhereText(w: Writing, t: Target): string {
    t.iface + "|" + match t.gateway case Some(gw) => w.addr(gw) case None => ""
  }

  /** What follows the table in a rule's key. */
  function TailText(w: Writing, t: Target): string {
    FamilyText(t.fam) + if t.iface == "" then "" else "|" + WhereText(w, t)
  }

  lemma {:induction false} TailTold(w: Writing, t: Target, u: Target)
    requires Distinguishes(w) && BarFree(t.iface) && BarFree(u.iface) && TailText(w, t) == TailText(w, u)
    requires (t.iface == "" ==> t.gateway.None?) && (u.iface == "" ==> u.gateway.None?)
    ensures t.fam == u.fam && t.iface == u.iface && t.gateway == u.gateway
  {
    FamilyBarFree(t.fam);
    FamilyBarFree(u.fam);
    var f, g := FamilyText(t.fam), FamilyText(u.fam);
    hide FamilyText;
    var x := match t.gateway case Some(gw) => w.addr(gw) case None => "";
    var y := match u.gateway case Some(gw) => w.addr(gw) case None => "";
    assert TailText(w, t) == if t.iface == "" then f else f + "|" + (t.iface + "|" + x);
    assert TailText(w, u) == if u.iface == "" then g else g + "|" + (u.iface + "|" + y);
    NoBarInside(f, g, u.iface + "|" + y);
    NoBarInside(g, f, t.iface + "|" + x);
    if t.iface != "" && u.iface != "" {
      SplitAtBar(f, t.iface + "|" + x, g, u.iface + "|" + y);
      SplitAtBar(t.iface, x, u.iface, y);
    }
  }

  function AfterPriority(w: Writing, r: Rule): string {
    SelectorText(w, r.selector) + "|" + (r.target.table + "|" + TailText(w, r.target))
  }

  lemma {:induction false} Regroup(n: string, s: string, t: string, f: string, e: string)
    ensures n + "|" + s + "|" + t + "|" + f + e == n + "|" + (s + "|" + (t + "|" + (f + e)))
  {
    assert t + "|" + (f + e) == t + "|" + f + e;
    assert s + "|" + (t + "|" + f + e) == s + "|" + t + "|" + f + e;
    assert n + "|" + (s + "|" + t + "|" + f + e) == n + "|" + s + "|" + t + "|" + f + e;
  }

  lemma {:induction false} RuleKeyParts(w: Writing, r: Rule)
    ensures RuleKey(w, r) == w.number(r.target.priority) + "|" + AfterPriority(w, r)
  {
    var t := r.target;
    var e := if t.iface == "" then "" else "|" + t.iface + "|" + match t.gateway case Some(gw) => w.addr(gw) case None => "";
    Regroup(w.number(t.priority), SelectorText(w, r.selector), t.table, FamilyText(t.fam), e);
    if t.iface != "" {
      var g := match t.gateway case Some(gw) => w.addr(gw) case None => "";
      assert "|" + t.iface + "|" + g == "|" + (t.iface + "|" + g);
    }
    assert TailText(w, t) == FamilyText(t.fam) + e;
  }

  /** A rule's key tells it apart too. */
  lemma {:induction false} RuleKeyTells(w: Writing, r: Rule, s: Rule)
    requires Distinguishes(w) && PlainRule(w, r) && PlainRule(w, s)
    ensures RuleKey(w, r) == RuleKey(w, s) <==> r == s
  {
    hide RuleKey, SelectorText, TailText;
    if RuleKey(w, r) == RuleKey(w, s) {
      RuleKeyParts(w, r);
      RuleKeyParts(w, s);
      SelectorBarFree(w, r);
      SelectorBarFree(w, s);
      var r1, s1 := TailText(w, r.target), TailText(w, s.target);
      SplitAtBar(w.number(r.target.priority), AfterPriority(w, r), w.number(s.target.priority), AfterPriority(w, s));
      SplitAtBar(SelectorText(w, r.selector), r.target.table + "|" + r1, SelectorText(w, s.selector), s.target.table + "|" + s1);
      SplitAtBar(r.target.table, r1, s.target.table, s1);
      SelectorTold(w, r.selector, s.selector);
      TailTold(w, r.target, s.target);
    }
  }

  lemma {:induction false} SelectorBarFree(w: Writing, r: Rule)
    requires Distinguishes(w) && PlainRule(w, r)
    ensures BarFree(SelectorText(w, r.selector))
  {
    if r.selector.To? { assert BarFree(w.cidr(r.selector.net)); }
  }

  // ---------- such a way of writing ----------

  function Unary(n: int): string {
    if n < 0 then "-" + seq(-n, _ => '1') else seq(n, _ => '1')
  }

  lemma {:induction false} UnaryTells(m: int, n: int)
    ensures BarFree(Unary(n)) && (Unary(m) == Unary(n) ==> m == n)
  {
    assert m < 0 ==> Unary(m)[0] == '-';
    assert n < 0 ==> Unary(n)[0] == '-';
    assert n > 0 ==> Unary(n)[0] == '1';
    assert m > 0 ==> Unary(m)[0] == '1';
  }

  lemma {:induction false} BitTextPlain(bits: seq<bool>)
    ensures BarFree(Priorities.BitText(bits)) && |Priorities.BitText(bits)| == |bits|
  {
    if bits != [] { BitTextPlain(bits[..|bits| - 1]); }
  }

  function CidrText(p: Prefix): string {
    FamilyText(p.fam) + Priorities.BitText(p.bits)
  }

  lemma {:induction false} CidrTells(p: Prefix, q: Prefix)
    ensures BarFree(CidrText(p)) && (CidrText(p) == CidrText(q) ==> p == q)
  {
    BitTextPlain(p.bits);
    assert BarFree("v4") && BarFree("v6");
    if CidrText(p) == CidrText(q) {
      assert CidrText(p)[..2] == FamilyText(p.fam) && CidrText(q)[..2] == FamilyText(q.fam);
      assert CidrText(p)[2..] == Priorities.BitText(p.bits) && CidrText(q)[2..] == Priorities.BitText(q.bits);
      FamilyBarFree(p.fam);
      Priorities.BitTextTells(p.bits, q.bits);
    }
  }

  /** Writing out the bits, and numbers in strokes, is one. */
  lemma {:induction false} StrokesDistinguish()
    ensures Distinguishes(Writing((p: Prefix) => CidrText(p), (a: Addr) => Priorities.BitText(a.bits), (n: int) => Unary(n)))
  {
    hide CidrText, Unary;
    forall p: Prefix, q: Prefix { CidrTells(p, q); }
    forall a: Addr { BitTextPlain(a.bits); }
    forall a: Addr, b: Addr | Priorities.BitText(a.bits) == Priorities.BitText(b.bits)
      ensures a == b
    {
      Priorities.BitTextTells(a.bits, b.bits);
    }
    forall m: int, n: int { UnaryTells(m, n); }
  }
}
