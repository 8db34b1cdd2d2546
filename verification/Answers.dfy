/** The learned answers (internal/dnsproxy/answers.go): rule, name, addresses, each address
with the time it was last seen. Addresses expire, and names and addresses are capped.
 */
module Answers {
  import opened Prefixes
  import opened Routes

  datatype Seen = Seen(addr: Addr, at: int)

  datatype NameEntry = NameEntry(addrs: seq<Seen>, lastSeen: int)

  type Names = map<string, NameEntry>

  type Learned = map<string, Names>

  datatype Bounds = Bounds(maxNames: nat, maxAddrs: nat, ttl: int)

  // ---------- one name's addresses ----------

  /** touch: refresh the address, or add it. */
  function Touch(addrs: seq<Seen>, a: Addr, now: int): seq<Seen> {
    if addrs == [] then [Seen(a, now)]
    else if addrs[0].addr == a then [Seen(a, now)] + addrs[1..]
    else [addrs[0]] + Touch(addrs[1..], a, now)
  }

  function TouchAll(addrs: seq<Seen>, observed: seq<Addr>, now: int): seq<Seen> {
    if observed == [] then addrs
    else Touch(TouchAll(addrs, observed[..|observed| - 1], now), observed[|observed| - 1], now)
  }

  /** expire. */
  function Expire(addrs: seq<Seen>, now: int, ttl: int): seq<Seen> {
    if addrs == [] then []
    else
      var rest := Expire(addrs[..|addrs| - 1], now, ttl);
      if now - addrs[|addrs| - 1].at < ttl then rest + [addrs[|addrs| - 1]] else rest
  }

  /** Latest first; a stable sort. */
  function InsertLatest(addrs: seq<Seen>, s: Seen): seq<Seen> {
    if addrs == [] || addrs[0].at <= s.at then [s] + addrs else [addrs[0]] + InsertLatest(addrs[1..], s)
  }

  function LatestFirst(addrs: seq<Seen>): seq<Seen> {
    if addrs == [] then [] else InsertLatest(LatestFirst(addrs[1..]), addrs[0])
  }

  /** Latest first. */
  ghost predicate Descending(addrs: seq<Seen>) {
    forall i, j :: 0 <= i < j < |addrs| ==> addrs[i].at >= addrs[j].at
  }

  ghost predicate LatestOrder(addrs: seq<Seen>, sorted: seq<Seen>) {
    multiset(sorted) == multiset(addrs) && |sorted| == |addrs| && Descending(sorted)
  }

  /** capAddrs: the first max once sorted latest first, in whichever order equal times
      come. */
  ghost predicate CapsTo(addrs: seq<Seen>, max: nat, out: seq<Seen>) {
    if max == 0 || |addrs| <= max then out == addrs
    else exists sorted :: LatestOrder(addrs, sorted) && out == sorted[..max]
  }

  /** One such choice. */
  function CapAddrs(addrs: seq<Seen>, max: nat): seq<Seen> {
    if max == 0 || |addrs| <= max then addrs
    else
      var sorted := LatestFirst(addrs);
      if |sorted| <= max then sorted else sorted[..max]
  }

  function Active(addrs: seq<Seen>, now: int, ttl: int): seq<Addr> {
    if addrs == [] then []
    else
      var rest := Active(addrs[..|addrs| - 1], now, ttl);
      if now - addrs[|addrs| - 1].at < ttl then rest + [addrs[|addrs| - 1].addr] else rest
  }

  /** A name's addresses once observed ones have been recorded. */
  ghost predicate Observes(addrs: seq<Seen>, observed: seq<Addr>, now: int, b: Bounds, after: seq<Seen>) {
    CapsTo(Expire(TouchAll(addrs, observed, now), now, b.ttl), b.maxAddrs, after)
  }

  // ---------- the whole store ----------

  /** IPs: the live addresses of a rule. */
  ghost predicate Live(m: Learned, rule: string, a: Addr, now: int, ttl: int) {
    rule in m && exists fqdn :: fqdn in m[rule] && a in Active(m[rule][fqdn].addrs, now, ttl)
  }

  ghost predicate SameIPs(m: Learned, m1: Learned, now: int, ttl: int) {
    forall rule, a :: Live(m, rule, a, now, ttl) <==> Live(m1, rule, a, now, ttl)
  }

  ghost predicate IsOldest(names: Names, fqdn: string) {
    fqdn in names && forall n :: n in names ==> names[fqdn].lastSeen <= names[n].lastSeen
  }

  /** evictOldestName: one of the least recently seen goes — but never the empty name. */
  ghost predicate Evicted(names: Names, names1: Names) {
    if names == map[] then names1 == names
    else exists fqdn :: IsOldest(names, fqdn) && names1 == if fqdn == "" then names else names - {fqdn}
  }

  function NamesOf(m: Learned, rule: string): Names {
    if rule in m then m[rule] else map[]
  }

  function AddrsOf(names: Names, fqdn: string): seq<Seen> {
    if fqdn in names then names[fqdn].addrs else []
  }

  /** The names an entry is added to: as they are, or with the oldest evicted. */
  ghost predicate MadeRoom(names: Names, fqdn: string, room: Names, b: Bounds) {
    if fqdn in names || |names| < b.maxNames then room == names else Evicted(names, room)
  }

  /** What Add makes of the store. */
  ghost predicate Adds(m: Learned, rule: string, fqdn: string, observed: seq<Addr>, now: int, b: Bounds, m1: Learned,
      changed: bool) {
    if observed == [] then m1 == m && !changed
    else exists room, after :: AddsWith(m, rule, fqdn, observed, now, b, m1, changed, room, after)
  }

  ghost predicate AddsWith(m: Learned, rule: string, fqdn: string, observed: seq<Addr>, now: int, b: Bounds,
      m1: Learned, changed: bool, room: Names, after: seq<Seen>) {
    var names := NamesOf(m, rule);
    var before := AddrsOf(names, fqdn);
    && Observes(before, observed, now, b, after)
    && MadeRoom(names, fqdn, room, b)
    && m1 == m[rule := room[fqdn := NameEntry(after, now)]]
    && changed == (multiset(Active(before, now, b.ttl)) != multiset(Active(after, now, b.ttl)))
  }

  function CollectNames(names: Names, now: int, ttl: int): Names {
    map fqdn | fqdn in names && Expire(names[fqdn].addrs, now, ttl) != [] ::
      names[fqdn].(addrs := Expire(names[fqdn].addrs, now, ttl))
  }

  /** GC, and what Load makes of Marshal's output: expired addresses, then names without
      addresses, then rules without names are dropped. */
  function Collect(m: Learned, now: int, ttl: int): Learned {
    map rule | rule in m && CollectNames(m[rule], now, ttl) != map[] :: CollectNames(m[rule], now, ttl)
  }

  function Lower(s: string): string {
    if s == [] then []
    else
      var c := s[|s| - 1];
      Lower(s[..|s| - 1]) + [if 'A' <= c <= 'Z' then c + (32 as char) else c]
  }

  function Pruned(m: Learned, active: seq<string>): Learned {
    map rule | rule in m && (exists r :: r in active && Lower(r) == Lower(rule)) :: m[rule]
  }

  class AnswerStore {
    var m: Learned
    const b: Bounds

    constructor (maxNames: int)
      ensures m == map[]
      ensures b == Bounds(if maxNames <= 0 then 256 else maxNames, 16, 21_600_000_000_000)
    {
      m := map[];
      b := Bounds(if maxNames <= 0 then 256 else maxNames, 16, 21_600_000_000_000);
    }

    /** Add; now is the clock. */
    method Add(rule: string, fqdn: string, observed: seq<Addr>, now: int) returns (changed: bool)
      modifies this`m
      ensures Adds(old(m), rule, fqdn, observed, now, b, m, changed)
    {
      if |observed| == 0 {
        return false;
      }
      var names := NamesOf(m, rule);
      ghost var start := names;
      if fqdn !in names && |names| >= b.maxNames {
        names := EvictOldest(names);
      }
      ghost var room := names;
      var addrs := AddrsOf(names, fqdn);
      assert addrs == AddrsOf(start, fqdn) by { EvictionSpares(start, names, fqdn); }
      var before := Active(addrs, now, b.ttl);
      for i := 0 to |observed|
        invariant addrs == TouchAll(AddrsOf(start, fqdn), observed[..i], now)
      {
        assert observed[..i + 1][..i] == observed[..i];
        addrs := Touch(addrs, observed[i], now);
      }
      assert observed[..|observed|] == observed;
      CapAddrsCaps(Expire(addrs, now, b.ttl), b.maxAddrs);
      addrs := CapAddrs(Expire(addrs, now, b.ttl), b.maxAddrs);
      m := m[rule := names[fqdn := NameEntry(addrs, now)]];
      changed := multiset(before) != multiset(Active(addrs, now, b.ttl));
      assert AddsWith(old(m), rule, fqdn, observed, now, b, m, changed, room, addrs);
    }

    /** evictOldestName: whichever of the oldest is met first. */
    method EvictOldest(names: Names) returns (names1: Names)
      ensures Evicted(names, names1)
    {
      var left := names.Keys;
      var found := false;
      var oldest := "";
      while left != {}
        invariant left <= names.Keys
        invariant !found <==> left == names.Keys
        invariant found ==> oldest in names && forall n :: n in names.Keys - left ==> names[oldest].lastSeen <= names[n].lastSeen
        decreases |left|
      {
        var fqdn :| fqdn in left;
        if !found || names[fqdn].lastSeen < names[oldest].lastSeen {
          oldest, found := fqdn, true;
        }
        left := left - {fqdn};
      }
      if !found {
        assert names == map[];
        return names;
      }
      assert IsOldest(names, oldest);
      if oldest != "" {
        names1 := names - {oldest};
      } else {
        names1 := names;
      }
    }

    /** GC. */
    method GC(now: int) returns (changed: bool)
      modifies this`m
      ensures m == Collect(old(m), now, b.ttl)
      ensures changed <==> exists rule :: rule in old(m) && SomeShrinks(old(m)[rule], now, b.ttl)
      ensures changed <==> exists rule, fqdn :: HasName(old(m), rule, fqdn) && !SameEntry(old(m), m, rule, fqdn)
    {
      ghost var before := m;
      m, changed := CollectAll(m, now);
      ShrinksIffChanged(before, now, b.ttl);
    }

    method CollectAll(all: Learned, now: int) returns (kept: Learned, changed: bool)
      ensures kept == Collect(all, now, b.ttl)
      ensures changed <==> exists rule :: rule in all && SomeShrinks(all[rule], now, b.ttl)
    {
      hide CollectNames, SomeShrinks;
      kept, changed := map[], false;
      var left := all.Keys;
      while left != {}
        invariant left <= all.Keys
        invariant kept == map rule | rule in all.Keys - left && CollectNames(all[rule], now, b.ttl) != map[] :: CollectNames(all[rule], now, b.ttl)
        invariant changed <==> exists rule :: rule in all.Keys - left && SomeShrinks(all[rule], now, b.ttl)
        decreases |left|
      {
        var rule :| rule in left;
        var names, shrunk := CollectRule(all[rule], now);
        changed := changed || shrunk;
        if names != map[] {
          kept := kept[rule := names];
        }
        left := left - {rule};
      }
    }

    method CollectRule(names: Names, now: int) returns (kept: Names, shrunk: bool)
      ensures kept == CollectNames(names, now, b.ttl)
      ensures shrunk <==> SomeShrinks(names, now, b.ttl)
    {
      kept, shrunk := map[], false;
      var left := names.Keys;
      while left != {}
        invariant left <= names.Keys
        invariant kept == map fqdn | fqdn in names.Keys - left && Expire(names[fqdn].addrs, now, b.ttl) != [] ::
                            names[fqdn].(addrs := Expire(names[fqdn].addrs, now, b.ttl))
        invariant shrunk <==> exists fqdn :: fqdn in names.Keys - left && Shrinks(names[fqdn], now, b.ttl)
        decreases |left|
      {
        var fqdn :| fqdn in left;
        var addrs := Expire(names[fqdn].addrs, now, b.ttl);
        if |addrs| != |names[fqdn].addrs| || |addrs| == 0 {
          shrunk := true;
        }
        if |addrs| != 0 {
          kept := kept[fqdn := names[fqdn].(addrs := addrs)];
        }
        left := left - {fqdn};
      }
    }

    /** Load of what Marshal gave for a store holding saved. */
    method Load(saved: Learned, now: int)
      modifies this`m
      ensures m == Collect(saved, now, b.ttl)
    {
      var kept, changed := CollectAll(saved, now);
      m := kept;
    }

    /** Prune. */
    method Prune(active: seq<string>) returns (changed: bool)
      modifies this`m
      ensures m == Pruned(old(m), active)
      ensures changed <==> m != old(m)
    {
      var keep := set r | r in active :: Lower(r);
      var before := m;
      m := map rule | rule in m && Lower(rule) in keep :: m[rule];
      changed := exists rule :: rule in before && rule !in m;
    }
  }

  predicate Shrinks(e: NameEntry, now: int, ttl: int) {
    Expire(e.addrs, now, ttl) == [] || |Expire(e.addrs, now, ttl)| != |e.addrs|
  }

  ghost predicate SomeShrinks(names: Names, now: int, ttl: int) {
    exists fqdn :: fqdn in names && Shrinks(names[fqdn], now, ttl)
  }

  predicate HasName(m: Learned, rule: string, fqdn: string) {
    rule in m && fqdn in m[rule]
  }

  /** The name is still there, with what it had. */
  predicate SameEntry(m: Learned, m1: Learned, rule: string, fqdn: string)
    requires HasName(m, rule, fqdn)
  {
    HasName(m1, rule, fqdn) && m1[rule][fqdn] == m[rule][fqdn]
  }

  lemma {:induction false} ExpireAll(addrs: seq<Seen>, now: int, ttl: int)
    ensures |Expire(addrs, now, ttl)| <= |addrs|
    ensures |Expire(addrs, now, ttl)| == |addrs| ==> Expire(addrs, now, ttl) == addrs
  {
    if addrs != [] {
      ExpireAll(addrs[..|addrs| - 1], now, ttl);
      assert addrs == addrs[..|addrs| - 1] + [addrs[|addrs| - 1]];
    }
  }

  lemma {:induction false} EntryCollected(m: Learned, rule: string, fqdn: string, now: int, ttl: int)
    requires HasName(m, rule, fqdn)
    ensures SameEntry(m, Collect(m, now, ttl), rule, fqdn) <==> !Shrinks(m[rule][fqdn], now, ttl)
  {
    var e := m[rule][fqdn];
    ExpireAll(e.addrs, now, ttl);
    if Expire(e.addrs, now, ttl) != [] {
      assert fqdn in CollectNames(m[rule], now, ttl);
    }
  }

  /** GC reports a change exactly if some name is gone or has lost an address. */
  lemma {:induction false} ShrinksIffChanged(m: Learned, now: int, ttl: int)
    ensures (exists rule :: rule in m && SomeShrinks(m[rule], now, ttl)) <==>
            exists rule, fqdn :: HasName(m, rule, fqdn) && !SameEntry(m, Collect(m, now, ttl), rule, fqdn)
  {
    hide Collect, Shrinks;
    forall rule, fqdn | HasName(m, rule, fqdn)
      ensures SameEntry(m, Collect(m, now, ttl), rule, fqdn) <==> !Shrinks(m[rule][fqdn], now, ttl)
    {
      EntryCollected(m, rule, fqdn, now, ttl);
    }
    hide SameEntry;
    if rule :| rule in m && SomeShrinks(m[rule], now, ttl) {
      var fqdn :| fqdn in m[rule] && Shrinks(m[rule][fqdn], now, ttl);
      assert HasName(m, rule, fqdn);
    }
    if rule, fqdn :| HasName(m, rule, fqdn) && !SameEntry(m, Collect(m, now, ttl), rule, fqdn) {
      assert SomeShrinks(m[rule], now, ttl);
    }
  }

  lemma {:induction false} EvictionSpares(names: Names, room: Names, fqdn: string)
    requires if fqdn in names then room == names else room == names || Evicted(names, room)
    ensures AddrsOf(room, fqdn) == AddrsOf(names, fqdn)
  {
  }

  /** One letter, in either case. */
  predicate SameLetter(c: char, d: char) {
    c == d || ('a' <= c <= 'z' && 'A' <= d <= 'Z' && c as int == d as int + 32) ||
    ('A' <= c <= 'Z' && 'a' <= d <= 'z' && d as int == c as int + 32)
  }

  ghost predicate SameText(x: string, y: string) {
    |x| == |y| && forall i :: 0 <= i < |x| ==> SameLetter(x[i], y[i])
  }

  lemma {:induction false} LowerAt(s: string)
    ensures |Lower(s)| == |s|
    ensures forall i :: 0 <= i < |s| ==> Lower(s)[i] == if 'A' <= s[i] <= 'Z' then s[i] + (32 as char) else s[i]
  {
    if s != [] { LowerAt(s[..|s| - 1]); }
  }

  lemma {:induction false} LowerTells(x: string, y: string)
    ensures Lower(x) == Lower(y) <==> SameText(x, y)
  {
    LowerAt(x);
    LowerAt(y);
    if Lower(x) == Lower(y) {
      forall i | 0 <= i < |x|
        ensures SameLetter(x[i], y[i])
      {
        assert Lower(x)[i] == Lower(y)[i];
      }
    }
    if SameText(x, y) {
      forall i | 0 <= i < |x|
        ensures Lower(x)[i] == Lower(y)[i]
      {
        assert SameLetter(x[i], y[i]);
      }
    }
  }

  /** Prune keeps a rule, as it is, exactly if an active one is spelled like it but for
      case. */
  lemma {:induction false} PruneKeeps(m: Learned, active: seq<string>, rule: string)
    ensures rule in Pruned(m, active) <==> rule in m && exists r :: r in active && SameText(r, rule)
    ensures rule in Pruned(m, active) ==> Pruned(m, active)[rule] == m[rule]
  {
    hide Lower, SameText;
    forall r { LowerTells(r, rule); }
  }

  // ---------- nothing changes unseen ----------

  lemma {:induction false} ActiveMembers(addrs: seq<Seen>, now: int, ttl: int, a: Addr)
    ensures a in Active(addrs, now, ttl) <==> exists s :: s in addrs && s.addr == a && now - s.at < ttl
  {
    if addrs != [] {
      var n := |addrs| - 1;
      ActiveMembers(addrs[..n], now, ttl, a);
      assert addrs == addrs[..n] + [addrs[n]];
      if a in Active(addrs[..n], now, ttl) {
        var s :| s in addrs[..n] && s.addr == a && now - s.at < ttl;
        assert s in addrs;
      }
    }
  }

  lemma {:induction false} ExpireMembers(addrs: seq<Seen>, now: int, ttl: int, s: Seen)
    ensures s in Expire(addrs, now, ttl) <==> s in addrs && now - s.at < ttl
  {
    if addrs != [] {
      ExpireMembers(addrs[..|addrs| - 1], now, ttl, s);
      assert addrs == addrs[..|addrs| - 1] + [addrs[|addrs| - 1]];
    }
  }

  /** Expiring changes nothing that is live now or later. */
  lemma {:induction false} ExpireKeepsActive(addrs: seq<Seen>, now: int, t: int, ttl: int, a: Addr)
    requires now <= t
    ensures a in Active(Expire(addrs, now, ttl), t, ttl) <==> a in Active(addrs, t, ttl)
  {
    ActiveMembers(addrs, t, ttl, a);
    ActiveMembers(Expire(addrs, now, ttl), t, ttl, a);
    if exists s :: s in addrs && s.addr == a && t - s.at < ttl {
      var s :| s in addrs && s.addr == a && t - s.at < ttl;
      ExpireMembers(addrs, now, ttl, s);
    }
    if exists s :: s in Expire(addrs, now, ttl) && s.addr == a && t - s.at < ttl {
      var s :| s in Expire(addrs, now, ttl) && s.addr == a && t - s.at < ttl;
      ExpireMembers(addrs, now, ttl, s);
    }
  }

  /** GC hides nothing, and neither does saving the store and loading it again: every rule
      has the addresses it had, at that moment and at every later one. */
  lemma {:induction false} CollectKeepsIPs(m: Learned, now: int, t: int, ttl: int)
    requires now <= t
    ensures SameIPs(m, Collect(m, now, ttl), t, ttl)
  {
    var m1 := Collect(m, now, ttl);
    forall rule, a
      ensures Live(m, rule, a, t, ttl) <==> Live(m1, rule, a, t, ttl)
    {
      if Live(m, rule, a, t, ttl) {
        var fqdn :| fqdn in m[rule] && a in Active(m[rule][fqdn].addrs, t, ttl);
        ExpireKeepsActive(m[rule][fqdn].addrs, now, t, ttl, a);
        assert Expire(m[rule][fqdn].addrs, now, ttl) != [];
        assert fqdn in CollectNames(m[rule], now, ttl);
        assert rule in m1 && fqdn in m1[rule];
      }
      if Live(m1, rule, a, t, ttl) {
        var fqdn :| fqdn in m1[rule] && a in Active(m1[rule][fqdn].addrs, t, ttl);
        ExpireKeepsActive(m[rule][fqdn].addrs, now, t, ttl, a);
      }
    }
  }

  lemma {:induction false} TouchAddsSeen(addrs: seq<Seen>, a: Addr, now: int)
    ensures Seen(a, now) in Touch(addrs, a, now)
    ensures |addrs| <= |Touch(addrs, a, now)|
  {
    if addrs != [] && addrs[0].addr != a {
      TouchAddsSeen(addrs[1..], a, now);
    }
  }

  lemma {:induction false} InsertLatestMembers(addrs: seq<Seen>, s: Seen)
    ensures |InsertLatest(addrs, s)| == |addrs| + 1
    ensures multiset(InsertLatest(addrs, s)) == multiset(addrs) + multiset{s}
    ensures forall x :: x in InsertLatest(addrs, s) <==> x == s || x in addrs
  {
    if addrs != [] && addrs[0].at > s.at {
      InsertLatestMembers(addrs[1..], s);
      assert addrs == [addrs[0]] + addrs[1..];
    }
  }

  lemma {:induction false} LatestFirstMembers(addrs: seq<Seen>)
    ensures |LatestFirst(addrs)| == |addrs| && multiset(LatestFirst(addrs)) == multiset(addrs)
  {
    if addrs != [] {
      LatestFirstMembers(addrs[1..]);
      InsertLatestMembers(LatestFirst(addrs[1..]), addrs[0]);
      assert addrs == [addrs[0]] + addrs[1..];
    }
  }

  lemma {:induction false} InsertLatestDescending(addrs: seq<Seen>, s: Seen)
    requires Descending(addrs)
    ensures Descending(InsertLatest(addrs, s))
  {
    if addrs != [] && addrs[0].at > s.at {
      InsertLatestDescending(addrs[1..], s);
      InsertLatestMembers(addrs[1..], s);
      var t := InsertLatest(addrs[1..], s);
      forall x | x in t
        ensures addrs[0].at >= x.at
      {
        if x != s {
          var j :| 1 <= j < |addrs| && addrs[j] == x;
        }
      }
    }
  }

  lemma {:induction false} LatestFirstDescending(addrs: seq<Seen>)
    ensures Descending(LatestFirst(addrs))
  {
    if addrs != [] {
      LatestFirstDescending(addrs[1..]);
      InsertLatestDescending(LatestFirst(addrs[1..]), addrs[0]);
    }
  }

  /** The head of a descending list is no earlier than the rest. */
  lemma {:induction false} HeadIsLatest(sorted: seq<Seen>, max: nat, s: Seen, d: Seen)
    requires Descending(sorted) && max <= |sorted| && s in sorted[..max] && d in sorted && d !in sorted[..max]
    ensures s.at >= d.at
  {
    var i :| 0 <= i < max && sorted[i] == s;
    var j :| 0 <= j < |sorted| && sorted[j] == d;
    assert forall k :: 0 <= k < max ==> sorted[k] in sorted[..max];
  }

  lemma {:induction false} CapAddrsCaps(addrs: seq<Seen>, max: nat)
    ensures CapsTo(addrs, max, CapAddrs(addrs, max))
  {
    LatestFirstMembers(addrs);
    LatestFirstDescending(addrs);
    assert LatestOrder(addrs, LatestFirst(addrs));
  }

  /** The cap keeps the most recently seen: at most max, all of them seen no earlier than
      any that is dropped, whichever of equally old ones go. */
  lemma {:induction false} CapKeepsLatest(addrs: seq<Seen>, max: nat, out: seq<Seen>)
    requires max > 0 && CapsTo(addrs, max, out)
    ensures |out| <= max && (|addrs| <= max ==> out == addrs) && (|addrs| > max ==> |out| == max)
    ensures multiset(out) <= multiset(addrs) && forall s :: s in out ==> s in addrs
    ensures forall s: Seen, d: Seen :: s in out && d in addrs && d !in out ==> s.at >= d.at
  {
    if |addrs| > max {
      var sorted :| LatestOrder(addrs, sorted) && out == sorted[..max];
      assert sorted == sorted[..max] + sorted[max..];
      assert multiset(sorted) == multiset(sorted[..max]) + multiset(sorted[max..]);
      forall s | s in out
        ensures s in addrs
      {
        assert s in multiset(addrs);
      }
      forall s: Seen, d: Seen | s in sorted[..max] && d in addrs && d !in sorted[..max]
        ensures s.at >= d.at
      {
        assert d in multiset(sorted);
        HeadIsLatest(sorted, max, s, d);
      }
    }
  }

  lemma {:induction false} CapKeepsSome(addrs: seq<Seen>, max: nat, out: seq<Seen>)
    requires addrs != [] && CapsTo(addrs, max, out)
    ensures out != [] && out[0] in addrs
  {
    if max > 0 {
      CapKeepsLatest(addrs, max, out);
      assert out[0] in out;
    }
  }

  /** Whatever is observed, something of it stays live. */
  lemma {:induction false} ObservedIsLive(addrs: seq<Seen>, observed: seq<Addr>, now: int, b: Bounds, after: seq<Seen>)
    requires observed != [] && b.ttl > 0 && Observes(addrs, observed, now, b, after)
    ensures Active(after, now, b.ttl) != []
  {
    hide CapsTo, Touch, Expire, Active;
    var n := |observed| - 1;
    var touched := TouchAll(addrs, observed, now);
    var expired := Expire(touched, now, b.ttl);
    TouchAddsSeen(TouchAll(addrs, observed[..n], now), observed[n], now);
    hide TouchAll;
    ExpireMembers(touched, now, b.ttl, Seen(observed[n], now));
    assert Seen(observed[n], now) in expired;
    CapKeepsSome(expired, b.maxAddrs, after);
    ExpireMembers(touched, now, b.ttl, after[0]);
    assert after[0] in after;
    ActiveMembers(after, now, b.ttl, after[0].addr);
  }

  /** Add never hides a change: when it reports none, every rule has exactly the addresses it
      had at that moment. */
  lemma {:induction false} SilentAddKeepsIPs(m: Learned, rule: string, fqdn: string, observed: seq<Addr>, now: int,
      b: Bounds, m1: Learned)
    requires b.ttl > 0 && Adds(m, rule, fqdn, observed, now, b, m1, false)
    ensures SameIPs(m, m1, now, b.ttl)
  {
    hide AddsWith;
    if observed != [] {
      var room, after :| AddsWith(m, rule, fqdn, observed, now, b, m1, false, room, after);
      SilentWith(m, rule, fqdn, observed, now, b, m1, room, after);
    }
  }

  lemma {:induction false} SilentWith(m: Learned, rule: string, fqdn: string, observed: seq<Addr>, now: int, b: Bounds,
      m1: Learned, room: Names, after: seq<Seen>)
    requires b.ttl > 0 && observed != [] && AddsWith(m, rule, fqdn, observed, now, b, m1, false, room, after)
    ensures SameIPs(m, m1, now, b.ttl)
  {
    hide Observes, Active, MadeRoom;
    var names := NamesOf(m, rule);
    var before := AddrsOf(names, fqdn);
    ObservedIsLive(before, observed, now, b, after);
    var x, y := Active(before, now, b.ttl), Active(after, now, b.ttl);
    assert multiset(x) == multiset(y) && |multiset(y)| > 0;
    assert |multiset(x)| > 0;
    SameRoom(names, fqdn, room, b, now);
    forall a
      ensures a in x <==> a in y
    {
      assert a in x <==> a in multiset(x);
      assert a in y <==> a in multiset(y);
    }
    forall r, a
      ensures Live(m, r, a, now, b.ttl) <==> Live(m1, r, a, now, b.ttl)
    {
      if r == rule {
        SameNameLive(m[rule], m1[rule], fqdn, a, now, b.ttl);
      } else {
        assert r in m ==> m1[r] == m[r];
      }
    }
  }

  lemma {:induction false} SameRoom(names: Names, fqdn: string, room: Names, b: Bounds, now: int)
    requires MadeRoom(names, fqdn, room, b)
    ensures Active(AddrsOf(names, fqdn), now, b.ttl) != [] ==> fqdn in names && room == names
  {
  }

  lemma {:induction false} SameNameLive(names: Names, names1: Names, fqdn: string, a: Addr, now: int, ttl: int)
    requires fqdn in names && fqdn in names1 && names1 == names[fqdn := names1[fqdn]]
    requires a in Active(names[fqdn].addrs, now, ttl) <==> a in Active(names1[fqdn].addrs, now, ttl)
    ensures (exists n :: n in names && a in Active(names[n].addrs, now, ttl)) <==>
            exists n :: n in names1 && a in Active(names1[n].addrs, now, ttl)
  {
    if exists n :: n in names && a in Active(names[n].addrs, now, ttl) {
      var n :| n in names && a in Active(names[n].addrs, now, ttl);
      assert n in names1 && a in Active(names1[n].addrs, now, ttl);
    }
    if exists n :: n in names1 && a in Active(names1[n].addrs, now, ttl) {
      var n :| n in names1 && a in Active(names1[n].addrs, now, ttl);
      assert n in names && a in Active(names[n].addrs, now, ttl);
    }
  }

  // ---------- the caps ----------

  ghost predicate NamesCapped(names: Names, b: Bounds) {
    && |names| <= b.maxNames
    && forall fqdn :: fqdn in names ==> |names[fqdn].addrs| <= b.maxAddrs
  }

  ghost predicate Capped(m: Learned, b: Bounds) {
    forall rule :: rule in m ==> NamesCapped(m[rule], b)
  }

  /** No name is empty: the empty name is never evicted. */
  ghost predicate Named(m: Learned) {
    forall rule :: rule in m ==> "" !in m[rule]
  }

  /** A new name meets a full rule whose oldest name is the empty one. */
  ghost predicate EmptyIsOldest(names: Names, fqdn: string, b: Bounds) {
    fqdn !in names && |names| >= b.maxNames && IsOldest(names, "")
  }

  /** Add keeps both caps, whichever of equally old names goes, exactly when it is not asked
      to evict the empty name. */
  lemma {:induction false} AddKeepsCapsIff(m: Learned, rule: string, fqdn: string, observed: seq<Addr>, now: int,
      b: Bounds)
    requires Capped(m, b) && b.maxNames > 0 && b.maxAddrs > 0
    ensures (forall m1, changed :: Adds(m, rule, fqdn, observed, now, b, m1, changed) ==> Capped(m1, b)) <==>
            observed == [] || !EmptyIsOldest(NamesOf(m, rule), fqdn, b)
  {
    if observed == [] || !EmptyIsOldest(NamesOf(m, rule), fqdn, b) {
      forall m1, changed | Adds(m, rule, fqdn, observed, now, b, m1, changed)
        ensures Capped(m1, b)
      {
        AddKeepsCaps(m, rule, fqdn, observed, now, b, m1, changed);
      }
    } else {
      EmptyNameBreaksCap(m, rule, fqdn, observed, now, b);
    }
  }

  lemma {:induction false} EmptyNameBreaksCap(m: Learned, rule: string, fqdn: string, observed: seq<Addr>, now: int,
      b: Bounds)
    requires observed != [] && b.maxNames > 0 && EmptyIsOldest(NamesOf(m, rule), fqdn, b)
    ensures exists m1, changed :: Adds(m, rule, fqdn, observed, now, b, m1, changed) && !Capped(m1, b)
  {
    var names := NamesOf(m, rule);
    var before := AddrsOf(names, fqdn);
    var expired := Expire(TouchAll(before, observed, now), now, b.ttl);
    var after := CapAddrs(expired, b.maxAddrs);
    CapAddrsCaps(expired, b.maxAddrs);
    var grown := names[fqdn := NameEntry(after, now)];
    var m1 := m[rule := grown];
    var changed := multiset(Active(before, now, b.ttl)) != multiset(Active(after, now, b.ttl));
    assert AddsWith(m, rule, fqdn, observed, now, b, m1, changed, names, after);
    SizeAfter(names, fqdn, NameEntry(after, now));
    assert !NamesCapped(m1[rule], b);
    assert Adds(m, rule, fqdn, observed, now, b, m1, changed) && !Capped(m1, b);
  }

  lemma {:induction false} AddKeepsCaps(m: Learned, rule: string, fqdn: string, observed: seq<Addr>, now: int,
      b: Bounds, m1: Learned, changed: bool)
    requires Capped(m, b) && b.maxNames > 0 && b.maxAddrs > 0 && (observed == [] || !EmptyIsOldest(NamesOf(m, rule), fqdn, b))
    requires Adds(m, rule, fqdn, observed, now, b, m1, changed)
    ensures Capped(m1, b) && (Named(m) && fqdn != "" ==> Named(m1))
  {
    if observed != [] {
      var room, after :| AddsWith(m, rule, fqdn, observed, now, b, m1, changed, room, after);
      var names := NamesOf(m, rule);
      var e := NameEntry(after, now);
      CapKeepsLatest(Expire(TouchAll(AddrsOf(names, fqdn), observed, now), now, b.ttl), b.maxAddrs, after);
      assert NamesCapped(names, b);
      RoomIsMade(names, fqdn, room, b);
      RoomIsEnough(names, fqdn, room, b, e);
      hide Observes, MadeRoom;
      assert m1 == m[rule := room[fqdn := e]];
    }
  }

  /** There is room for one more: the names are those before, or all but one. */
  lemma {:induction false} RoomIsMade(names: Names, fqdn: string, room: Names, b: Bounds)
    requires |names| <= b.maxNames && !EmptyIsOldest(names, fqdn, b) && b.maxNames > 0 && MadeRoom(names, fqdn, room, b)
    ensures |room| <= b.maxNames && (fqdn in names ==> room == names)
    ensures fqdn !in names ==> |room| < b.maxNames
    ensures forall n :: n in room ==> n in names && room[n] == names[n]
  {
    if fqdn !in names && |names| >= b.maxNames {
      assert names != map[] by { assert |names| > 0; }
      var oldest :| IsOldest(names, oldest) && room == if oldest == "" then names else names - {oldest};
      assert room.Keys == names.Keys - {oldest};
      assert |room.Keys| == |names.Keys| - 1;
    }
  }

  lemma {:induction false} RoomIsEnough(names: Names, fqdn: string, room: Names, b: Bounds, e: NameEntry)
    requires NamesCapped(names, b) && !EmptyIsOldest(names, fqdn, b) && b.maxNames > 0 && MadeRoom(names, fqdn, room, b)
    requires |e.addrs| <= b.maxAddrs
    ensures NamesCapped(room[fqdn := e], b)
  {
    RoomIsMade(names, fqdn, room, b);
    hide MadeRoom, EmptyIsOldest;
    SizeAfter(room, fqdn, e);
  }

  lemma {:induction false} SizeAfter(names: Names, fqdn: string, e: NameEntry)
    ensures |names[fqdn := e]| == if fqdn in names then |names| else |names| + 1
  {
    var grown := names[fqdn := e];
    assert grown.Keys == names.Keys + {fqdn};
    assert |grown| == |grown.Keys| && |names| == |names.Keys|;
  }

  lemma {:induction false} ExpireShrinks(addrs: seq<Seen>, now: int, ttl: int)
    ensures |Expire(addrs, now, ttl)| <= |addrs|
  {
    if addrs != [] {
      ExpireShrinks(addrs[..|addrs| - 1], now, ttl);
    }
  }

  lemma {:induction false} CollectKeepsCaps(m: Learned, now: int, b: Bounds)
    requires Capped(m, b) && Named(m)
    ensures Capped(Collect(m, now, b.ttl), b) && Named(Collect(m, now, b.ttl))
  {
    forall rule | rule in Collect(m, now, b.ttl)
      ensures NamesCapped(Collect(m, now, b.ttl)[rule], b)
    {
      var names := m[rule];
      assert NamesCapped(names, b);
      var kept := CollectNames(names, now, b.ttl);
      assert kept.Keys <= names.Keys;
      Cardinality(kept.Keys, names.Keys);
      forall fqdn | fqdn in kept
        ensures |kept[fqdn].addrs| <= b.maxAddrs
      {
        ExpireShrinks(names[fqdn].addrs, now, b.ttl);
      }
    }
  }

  lemma {:induction false} Cardinality(x: set<string>, y: set<string>)
    requires x <= y
    ensures |x| <= |y|
  {
    assert y == x + (y - x);
  }

  // ---------- every run ----------

  datatype Action =
    | AddAction(rule: string, fqdn: string, observed: seq<Addr>, now: int)
    | GCAction(now: int)
    | PruneAction(active: seq<string>)

  ghost predicate Acts(m: Learned, act: Action, b: Bounds, m1: Learned) {
    match act
    case AddAction(rule, fqdn, observed, now) => exists changed :: Adds(m, rule, fqdn, observed, now, b, m1, changed)
    case GCAction(now) => m1 == Collect(m, now, b.ttl)
    case PruneAction(active) => m1 == Pruned(m, active)
  }

  ghost predicate IsRun(states: seq<Learned>, acts: seq<Action>, b: Bounds) {
    && |states| == |acts| + 1 && states[0] == map[]
    && forall i :: 0 <= i < |acts| ==> Acts(states[i], acts[i], b, states[i + 1])
  }

  lemma {:induction false} FirstAdd(rule: string, fqdn: string, a: Addr, now: int, b: Bounds)
    requires b.maxNames > 0
    ensures exists e, changed :: Adds(map[], rule, fqdn, [a], now, b, map[rule := map[fqdn := e]], changed)
  {
    hide CapsTo, Touch, TouchAll, Expire, Active, CapAddrs;
    var first := Expire(TouchAll([], [a], now), now, b.ttl);
    var after := CapAddrs(first, b.maxAddrs);
    CapAddrsCaps(first, b.maxAddrs);
    var changed := multiset(Active([], now, b.ttl)) != multiset(Active(after, now, b.ttl));
    var names: Names := map[];
    var m1 := map[rule := map[fqdn := NameEntry(after, now)]];
    assert m1 == map[][rule := names[fqdn := NameEntry(after, now)]];
    assert AddsWith(map[], rule, fqdn, [a], now, b, m1, changed, names, after);
    assert Adds(map[], rule, fqdn, [a], now, b, m1, changed);
  }

  /** A run from the empty store that learns the empty name and then another, with room for
      one: the names end up past their cap. */
  lemma {:induction false} EmptyNameRun(rule: string, a: Addr, fqdn: string, b: Bounds)
    requires b.maxNames == 1 && fqdn != ""
    ensures exists states ::
              && IsRun(states, [AddAction(rule, "", [a], 0), AddAction(rule, fqdn, [a], 1)], b)
              && !Capped(states[2], b)
  {
    hide Adds, Capped;
    FirstAdd(rule, "", a, 0, b);
    var e, changed :| Adds(map[], rule, "", [a], 0, b, map[rule := map["" := e]], changed);
    var m1: Learned := map[rule := map["" := e]];
    assert |NamesOf(m1, rule)| == 1;
    EmptyNameBreaksCap(m1, rule, fqdn, [a], 1, b);
    var m2, again :| Adds(m1, rule, fqdn, [a], 1, b, m2, again) && !Capped(m2, b);
    var acts := [AddAction(rule, "", [a], 0), AddAction(rule, fqdn, [a], 1)];
    var states := [map[], m1, m2];
    assert Acts(states[0], acts[0], b, states[1]) && Acts(states[1], acts[1], b, states[2]);
    assert IsRun(states, acts, b) && !Capped(states[2], b);
  }

  lemma {:induction false} ActKeepsCaps(m: Learned, act: Action, b: Bounds, m1: Learned)
    requires Acts(m, act, b, m1) && Capped(m, b) && Named(m) && b.maxNames > 0 && b.maxAddrs > 0
    requires act.AddAction? ==> act.fqdn != ""
    ensures Capped(m1, b) && Named(m1)
  {
    hide Adds, Collect;
    match act
    case AddAction(rule, fqdn, observed, now) =>
      var changed :| Adds(m, rule, fqdn, observed, now, b, m1, changed);
      AddKeepsCaps(m, rule, fqdn, observed, now, b, m1, changed);
    case GCAction(now) => CollectKeepsCaps(m, now, b);
    case PruneAction(_) =>
  }

  /** Starting from an empty store, every run that never learns the empty name keeps both
      caps, whichever of equally old names is evicted. */
  lemma {:induction false} CapsAlwaysKept(states: seq<Learned>, acts: seq<Action>, b: Bounds, n: nat)
    requires IsRun(states, acts, b) && b.maxNames > 0 && b.maxAddrs > 0 && n < |states|
    requires forall i :: 0 <= i < |acts| && acts[i].AddAction? ==> acts[i].fqdn != ""
    ensures Capped(states[n], b) && Named(states[n])
  {
    if n > 0 {
      CapsAlwaysKept(states, acts, b, n - 1);
      assert Acts(states[n - 1], acts[n - 1], b, states[n]);
      hide *;
      ActKeepsCaps(states[n - 1], acts[n - 1], b, states[n]);
    }
  }
}
