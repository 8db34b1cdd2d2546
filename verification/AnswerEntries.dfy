/** What a name's entry holds once answers are added (internal/dnsproxy/answers.go): the
observed addresses, refreshed, and what was live before — capped to the latest seen.
 */
module AnswerEntries {
  import opened Prefixes
  import opened Routes
  import opened Answers

  /** Each address once. */
  ghost predicate OneEach(addrs: seq<Seen>) {
    forall i, j :: 0 <= i < j < |addrs| ==> addrs[i].addr != addrs[j].addr
  }

  /** What there is to keep: every observed address as of now, and every other address that
      has not expired, as of when it was seen. */
  function ToKeep(before: seq<Seen>, observed: seq<Addr>, now: int, ttl: int): set<Seen> {
    (set a | a in observed :: Seen(a, now)) + (set s | s in before && s.addr !in observed && now - s.at < ttl)
  }

  // ---------- refreshing ----------

  lemma {:induction false} TouchMembers(addrs: seq<Seen>, a: Addr, now: int, s: Seen)
    requires OneEach(addrs)
    ensures s in Touch(addrs, a, now) <==> s == Seen(a, now) || (s in addrs && s.addr != a)
  {
    if addrs != [] {
      var rest := addrs[1..];
      assert addrs == [addrs[0]] + rest;
      if addrs[0].addr != a {
        TouchMembers(rest, a, now, s);
      } else if s in rest {
        assert s.addr != addrs[0].addr;
      }
    }
  }

  lemma {:induction false} TouchOneEach(addrs: seq<Seen>, a: Addr, now: int)
    requires OneEach(addrs)
    ensures OneEach(Touch(addrs, a, now))
  {
    if addrs != [] && addrs[0].addr != a {
      var rest := addrs[1..];
      TouchOneEach(rest, a, now);
      forall s | s in Touch(rest, a, now)
        ensures s.addr != addrs[0].addr
      {
        TouchMembers(rest, a, now, s);
      }
    }
  }

  lemma {:induction false} TouchAllMeans(addrs: seq<Seen>, observed: seq<Addr>, now: int)
    requires OneEach(addrs)
    ensures OneEach(TouchAll(addrs, observed, now))
    ensures forall s :: s in TouchAll(addrs, observed, now) <==>
                        (s.at == now && s.addr in observed) || (s in addrs && s.addr !in observed)
  {
    if observed != [] {
      var n := |observed| - 1;
      assert observed == observed[..n] + [observed[n]];
      TouchAllMeans(addrs, observed[..n], now);
      var rest := TouchAll(addrs, observed[..n], now);
      TouchOneEach(rest, observed[n], now);
      hide OneEach, Touch;
      forall s { TouchMembers(rest, observed[n], now, s); }
    }
  }

  lemma {:induction false} ExpireOneEach(addrs: seq<Seen>, now: int, ttl: int)
    requires OneEach(addrs)
    ensures OneEach(Expire(addrs, now, ttl))
  {
    if addrs != [] {
      var n := |addrs| - 1;
      ExpireOneEach(addrs[..n], now, ttl);
      var rest := Expire(addrs[..n], now, ttl);
      forall s | s in rest
        ensures s.addr != addrs[n].addr
      {
        ExpireMembers(addrs[..n], now, ttl, s);
      }
    }
  }

  lemma {:induction false} Refreshed(before: seq<Seen>, observed: seq<Addr>, now: int, ttl: int)
    requires OneEach(before) && ttl > 0
    ensures var fresh1 := Expire(TouchAll(before, observed, now), now, ttl);
            OneEach(fresh1) && forall s :: s in fresh1 <==> s in ToKeep(before, observed, now, ttl)
  {
    TouchAllMeans(before, observed, now);
    var touched := TouchAll(before, observed, now);
    ExpireOneEach(touched, now, ttl);
    forall s
      ensures s in Expire(touched, now, ttl) <==> s in ToKeep(before, observed, now, ttl)
    {
      ExpireMembers(touched, now, ttl, s);
    }
  }

  // ---------- lists of distinct addresses ----------

  lemma {:induction false} CountOneEach(addrs: seq<Seen>, all: set<Seen>)
    requires OneEach(addrs) && forall s :: s in addrs <==> s in all
    ensures |addrs| == |all|
  {
    if addrs == [] {
      assert all == {};
    } else {
      var n := |addrs| - 1;
      assert addrs == addrs[..n] + [addrs[n]];
      assert addrs[n] !in addrs[..n];
      CountOneEach(addrs[..n], all - {addrs[n]});
    }
  }

  lemma {:induction false} AtMostOnce(addrs: seq<Seen>, s: Seen)
    requires OneEach(addrs)
    ensures multiset(addrs)[s] <= 1
  {
    if addrs != [] {
      var n := |addrs| - 1;
      assert addrs == addrs[..n] + [addrs[n]];
      AtMostOnce(addrs[..n], s);
      if addrs[n] == s { assert s !in addrs[..n]; }
    }
  }

  lemma {:induction false} Twice(addrs: seq<Seen>, i: nat, j: nat)
    requires i < j < |addrs| && addrs[i] == addrs[j]
    ensures multiset(addrs)[addrs[j]] >= 2
  {
    assert addrs[..j + 1] == addrs[..j] + [addrs[j]] && addrs == addrs[..j + 1] + addrs[j + 1..];
    assert addrs[i] in addrs[..j];
  }

  lemma {:induction false} PartOneEach(addrs: seq<Seen>, part: seq<Seen>)
    requires OneEach(addrs) && multiset(part) <= multiset(addrs)
    ensures OneEach(part)
  {
    forall i, j | 0 <= i < j < |part|
      ensures part[i].addr != part[j].addr
    {
      assert part[i] in multiset(part) && part[j] in multiset(part);
      assert part[i] in addrs && part[j] in addrs;
      AtMostOnce(addrs, part[j]);
      if part[i] == part[j] { Twice(part, i, j); }
    }
  }

  // ---------- what Add leaves ----------

  /** The entry Add leaves is right: only what there is to keep, all of it while it fits, and
      otherwise as much as fits, none of it seen before what is dropped. */
  ghost predicate RightEntry(keep: set<Seen>, max: nat, after: seq<Seen>) {
    && OneEach(after) && (forall s :: s in after ==> s in keep)
    && (max == 0 || |keep| <= max ==> forall s :: s in keep ==> s in after)
    && (0 < max < |keep| ==> |after| == max)
    && forall s, d :: s in after && d in keep && d !in after ==> s.at >= d.at
  }

  lemma {:induction false} ObservesRight(before: seq<Seen>, observed: seq<Addr>, now: int, b: Bounds, after: seq<Seen>)
    requires OneEach(before) && b.ttl > 0 && Observes(before, observed, now, b, after)
    ensures RightEntry(ToKeep(before, observed, now, b.ttl), b.maxAddrs, after)
  {
    var keep := ToKeep(before, observed, now, b.ttl);
    var all := Expire(TouchAll(before, observed, now), now, b.ttl);
    Refreshed(before, observed, now, b.ttl);
    CountOneEach(all, keep);
    hide ToKeep, Expire, TouchAll;
    if b.maxAddrs > 0 {
      CapKeepsLatest(all, b.maxAddrs, after);
      PartOneEach(all, after);
    }
  }

  /** Add: the name's entry is there, seen now, and right. */
  lemma {:induction false} AddLearns(m: Learned, rule: string, fqdn: string, observed: seq<Addr>, now: int, b: Bounds,
      m1: Learned, changed: bool)
    requires Adds(m, rule, fqdn, observed, now, b, m1, changed) && observed != [] && b.ttl > 0
    requires OneEach(AddrsOf(NamesOf(m, rule), fqdn))
    ensures rule in m1 && fqdn in m1[rule] && m1[rule][fqdn].lastSeen == now
    ensures RightEntry(ToKeep(AddrsOf(NamesOf(m, rule), fqdn), observed, now, b.ttl), b.maxAddrs, m1[rule][fqdn].addrs)
  {
    var room, after :| AddsWith(m, rule, fqdn, observed, now, b, m1, changed, room, after);
    hide Observes, RightEntry, ToKeep;
    ObservesRight(AddrsOf(NamesOf(m, rule), fqdn), observed, now, b, after);
  }

  // ---------- every observed address ----------

  function AsSet(addrs: seq<Seen>): set<Seen> {
    set s | s in addrs
  }

  /** Those to keep that were seen at now or later: the observed, and what ties with them. */
  function Latest(keep: set<Seen>, now: int): set<Seen> {
    set s | s in keep && s.at >= now
  }

  ghost predicate AllKept(m: Learned, rule: string, fqdn: string, observed: seq<Addr>, now: int) {
    rule in m && fqdn in m[rule] && forall a :: a in observed ==> Seen(a, now) in m[rule][fqdn].addrs
  }

  lemma {:induction false} FittingStay(keep: set<Seen>, max: nat, after: seq<Seen>, d: Seen, now: int)
    requires RightEntry(keep, max, after) && d in keep && d.at == now && |Latest(keep, now)| <= max
    ensures d in after
  {
    if d !in after && 0 < max < |keep| {
      var kept := AsSet(after);
      CountOneEach(after, kept);
      assert kept <= Latest(keep, now) - {d};
      Smaller(kept, Latest(keep, now) - {d});
      assert false;
    }
  }

  lemma {:induction false} Smaller(x: set<Seen>, y: set<Seen>)
    requires x <= y
    ensures |x| <= |y|
  {
    assert y == x + (y - x);
  }

  function Select(addrs: seq<Seen>, keep: Seen -> bool): seq<Seen> {
    if addrs == [] then []
    else
      var rest := Select(addrs[..|addrs| - 1], keep);
      if keep(addrs[|addrs| - 1]) then rest + [addrs[|addrs| - 1]] else rest
  }

  lemma {:induction false} SelectMembers(addrs: seq<Seen>, keep: Seen -> bool)
    ensures forall s :: s in Select(addrs, keep) <==> s in addrs && keep(s)
  {
    if addrs != [] {
      SelectMembers(addrs[..|addrs| - 1], keep);
      assert addrs == addrs[..|addrs| - 1] + [addrs[|addrs| - 1]];
    }
  }

  /** Seen at now or later, but for d; and seen earlier. */
  function Late(addrs: seq<Seen>, now: int, d: Seen): seq<Seen> {
    Select(addrs, (s: Seen) => s.at >= now && s != d)
  }

  function Early(addrs: seq<Seen>, now: int): seq<Seen> {
    Select(addrs, (s: Seen) => s.at < now)
  }

  lemma {:induction false} InThree(addrs: seq<Seen>, now: int, d: Seen)
    requires OneEach(addrs) && d.at == now
    ensures multiset(addrs) == multiset(Late(addrs, now, d)) + (if d in addrs then multiset{d} else multiset{}) +
                               multiset(Early(addrs, now))
  {
    if addrs != [] {
      var n := |addrs| - 1;
      assert addrs == addrs[..n] + [addrs[n]];
      InThree(addrs[..n], now, d);
      assert addrs[n] !in addrs[..n];
    }
  }

  /** One order latest first in which d comes after all that tie with it. */
  function DLast(addrs: seq<Seen>, now: int, d: Seen): seq<Seen> {
    LatestFirst(Late(addrs, now, d)) + [d] + LatestFirst(Early(addrs, now))
  }

  lemma {:induction false} DLastSorts(addrs: seq<Seen>, now: int, d: Seen)
    requires OneEach(addrs) && d in addrs && d.at == now
    ensures LatestOrder(addrs, DLast(addrs, now, d))
  {
    var ls, es := Late(addrs, now, d), Early(addrs, now);
    SelectMembers(addrs, (s: Seen) => s.at >= now && s != d);
    SelectMembers(addrs, (s: Seen) => s.at < now);
    InThree(addrs, now, d);
    LatestFirstMembers(ls);
    LatestFirstMembers(es);
    LatestFirstDescending(ls);
    LatestFirstDescending(es);
    var x, y := LatestFirst(ls), LatestFirst(es);
    hide LatestFirst, Select, Late, Early, Descending;
    Permuted(ls, x);
    Permuted(es, y);
    JoinDescending(x, d, y, now);
    var sorted := x + [d] + y;
    assert multiset(sorted) == multiset(x) + multiset{d} + multiset(y);
    assert |multiset(sorted)| == |multiset(addrs)|;
  }

  lemma {:induction false} LateCount(addrs: seq<Seen>, now: int, d: Seen)
    requires OneEach(addrs) && d in addrs && d.at == now
    ensures |Late(addrs, now, d)| + 1 == |Latest(AsSet(addrs), now)| <= |addrs|
    ensures d !in Late(addrs, now, d)
  {
    var ls := Late(addrs, now, d);
    SelectMembers(addrs, (s: Seen) => s.at >= now && s != d);
    InThree(addrs, now, d);
    hide Select, Late;
    PartOneEach(addrs, ls);
    CountOneEach(ls, Latest(AsSet(addrs), now) - {d});
    CountOneEach(addrs, AsSet(addrs));
    Smaller(Latest(AsSet(addrs), now), AsSet(addrs));
  }

  /** With more than max seen at now or later, some order of equal times drops d. */
  lemma {:induction false} MayDrop(addrs: seq<Seen>, max: nat, now: int, d: Seen)
    requires OneEach(addrs) && d in addrs && d.at == now && max > 0
    requires |Latest(AsSet(addrs), now)| > max
    ensures exists out :: CapsTo(addrs, max, out) && d !in out
  {
    var ls := Late(addrs, now, d);
    DLastSorts(addrs, now, d);
    LateCount(addrs, now, d);
    LatestFirstMembers(ls);
    var sorted := DLast(addrs, now, d);
    hide LatestFirst, Late, Early, LatestOrder, Latest, OneEach;
    Permuted(ls, LatestFirst(ls));
    assert sorted[..max] == LatestFirst(ls)[..max];
    assert CapsTo(addrs, max, sorted[..max]);
  }

  lemma {:induction false} Permuted(x: seq<Seen>, y: seq<Seen>)
    requires multiset(x) == multiset(y)
    ensures forall s :: s in x <==> s in y
  {
    forall s
      ensures s in x <==> s in y
    {
      assert s in x <==> s in multiset(x);
      assert s in y <==> s in multiset(y);
    }
  }

  lemma {:induction false} JoinDescending(x: seq<Seen>, d: Seen, y: seq<Seen>, now: int)
    requires Descending(x) && Descending(y) && d.at == now
    requires (forall s :: s in x ==> s.at >= now) && (forall s :: s in y ==> s.at < now)
    ensures Descending(x + [d] + y)
  {
    var all := x + [d] + y;
    forall i, j | 0 <= i < j < |all|
      ensures all[i].at >= all[j].at
    {
      if i < |x| { assert all[i] in x; }
      if j > |x| { assert all[j] in y; }
    }
  }

  lemma {:induction false} OldestExists(names: Names)
    requires names != map[]
    ensures exists fqdn :: IsOldest(names, fqdn)
    decreases |names|
  {
    var n :| n in names;
    var rest := names - {n};
    assert forall k :: k in names ==> k == n || k in rest;
    if rest == map[] {
      assert IsOldest(names, n);
    } else {
      assert |rest.Keys| < |names.Keys| by { assert rest.Keys == names.Keys - {n}; }
      OldestExists(rest);
      var f :| IsOldest(rest, f);
      assert IsOldest(names, if names[n].lastSeen < names[f].lastSeen then n else f);
    }
  }

  lemma {:induction false} RoomExists(names: Names, fqdn: string, b: Bounds)
    ensures exists room :: MadeRoom(names, fqdn, room, b)
  {
    if fqdn in names || |names| < b.maxNames || names == map[] {
      assert MadeRoom(names, fqdn, names, b);
    } else {
      OldestExists(names);
      var old1 :| IsOldest(names, old1);
      var room := if old1 == "" then names else names - {old1};
      assert Evicted(names, room);
      assert MadeRoom(names, fqdn, room, b);
    }
  }

  /** Add is sure to keep every address observed exactly if those to keep that were seen at
      now or later — the observed, and any that tie with them — fit under the cap. */
  lemma {:induction false} AllObservedKeptIff(m: Learned, rule: string, fqdn: string, observed: seq<Addr>, now: int,
      b: Bounds)
    requires observed != [] && b.ttl > 0 && b.maxAddrs > 0 && OneEach(AddrsOf(NamesOf(m, rule), fqdn))
    ensures (forall m1, changed :: Adds(m, rule, fqdn, observed, now, b, m1, changed) ==> AllKept(m1, rule, fqdn, observed, now)) <==>
            |Latest(ToKeep(AddrsOf(NamesOf(m, rule), fqdn), observed, now, b.ttl), now)| <= b.maxAddrs
  {
    var keep := ToKeep(AddrsOf(NamesOf(m, rule), fqdn), observed, now, b.ttl);
    if |Latest(keep, now)| <= b.maxAddrs {
      forall m1, changed | Adds(m, rule, fqdn, observed, now, b, m1, changed)
        ensures AllKept(m1, rule, fqdn, observed, now)
      {
        FittingAreKept(m, rule, fqdn, observed, now, b, m1, changed);
      }
    } else {
      TiedMayDrop(m, rule, fqdn, observed, now, b);
    }
  }

  lemma {:induction false} FittingAreKept(m: Learned, rule: string, fqdn: string, observed: seq<Addr>, now: int,
      b: Bounds, m1: Learned, changed: bool)
    requires Adds(m, rule, fqdn, observed, now, b, m1, changed) && observed != [] && b.ttl > 0
    requires OneEach(AddrsOf(NamesOf(m, rule), fqdn))
    requires |Latest(ToKeep(AddrsOf(NamesOf(m, rule), fqdn), observed, now, b.ttl), now)| <= b.maxAddrs
    ensures AllKept(m1, rule, fqdn, observed, now)
  {
    hide Adds, RightEntry, Latest;
    AddLearns(m, rule, fqdn, observed, now, b, m1, changed);
    var keep := ToKeep(AddrsOf(NamesOf(m, rule), fqdn), observed, now, b.ttl);
    forall a | a in observed
      ensures Seen(a, now) in m1[rule][fqdn].addrs
    {
      FittingStay(keep, b.maxAddrs, m1[rule][fqdn].addrs, Seen(a, now), now);
    }
  }

  lemma {:induction false} TiedMayDrop(m: Learned, rule: string, fqdn: string, observed: seq<Addr>, now: int, b: Bounds)
    requires observed != [] && b.ttl > 0 && b.maxAddrs > 0 && OneEach(AddrsOf(NamesOf(m, rule), fqdn))
    requires |Latest(ToKeep(AddrsOf(NamesOf(m, rule), fqdn), observed, now, b.ttl), now)| > b.maxAddrs
    ensures exists m1, changed :: Adds(m, rule, fqdn, observed, now, b, m1, changed) && !AllKept(m1, rule, fqdn, observed, now)
  {
    hide Observes, MadeRoom, ToKeep, Latest, Adds, OneEach, NamesOf, AddrsOf, AllKept;
    var names := NamesOf(m, rule);
    var before := AddrsOf(names, fqdn);
    ObservedMayDrop(before, observed, now, b);
    RoomExists(names, fqdn, b);
    var after :| Observes(before, observed, now, b, after) && Seen(observed[0], now) !in after;
    var room :| MadeRoom(names, fqdn, room, b);
    var m1 := m[rule := room[fqdn := NameEntry(after, now)]];
    AddsSuch(m, rule, fqdn, observed, now, b, room, after, m1);
    var changed :| Adds(m, rule, fqdn, observed, now, b, m1, changed);
    Dropped(m1, rule, fqdn, observed, now);
  }

  lemma {:induction false} Dropped(m: Learned, rule: string, fqdn: string, observed: seq<Addr>, now: int)
    requires observed != [] && rule in m && fqdn in m[rule] && Seen(observed[0], now) !in m[rule][fqdn].addrs
    ensures !AllKept(m, rule, fqdn, observed, now)
  {
    assert observed[0] in observed;
  }

  lemma {:induction false} AddsSuch(m: Learned, rule: string, fqdn: string, observed: seq<Addr>, now: int, b: Bounds,
      room: Names, after: seq<Seen>, m1: Learned)
    requires observed != [] && MadeRoom(NamesOf(m, rule), fqdn, room, b)
    requires Observes(AddrsOf(NamesOf(m, rule), fqdn), observed, now, b, after)
    requires m1 == m[rule := room[fqdn := NameEntry(after, now)]]
    ensures exists changed :: Adds(m, rule, fqdn, observed, now, b, m1, changed)
  {
    hide Observes, MadeRoom, Active;
    var before := AddrsOf(NamesOf(m, rule), fqdn);
    var changed := multiset(Active(before, now, b.ttl)) != multiset(Active(after, now, b.ttl));
    assert AddsWith(m, rule, fqdn, observed, now, b, m1, changed, room, after);
    assert Adds(m, rule, fqdn, observed, now, b, m1, changed);
  }

  lemma {:induction false} ObservedMayDrop(before: seq<Seen>, observed: seq<Addr>, now: int, b: Bounds)
    requires observed != [] && b.ttl > 0 && b.maxAddrs > 0 && OneEach(before)
    requires |Latest(ToKeep(before, observed, now, b.ttl), now)| > b.maxAddrs
    ensures exists after :: Observes(before, observed, now, b, after) && Seen(observed[0], now) !in after
  {
    var all := Expire(TouchAll(before, observed, now), now, b.ttl);
    var d := Seen(observed[0], now);
    assert d in ToKeep(before, observed, now, b.ttl);
    Refreshed(before, observed, now, b.ttl);
    assert ToKeep(before, observed, now, b.ttl) == AsSet(all);
    hide ToKeep, Expire, TouchAll, Latest, CapsTo, OneEach, AsSet;
    MayDrop(all, b.maxAddrs, now, d);
    var after :| CapsTo(all, b.maxAddrs, after) && d !in after;
    assert Observes(before, observed, now, b, after);
  }

  // ---------- every run ----------

  ghost predicate AllOneEach(m: Learned) {
    forall rule, fqdn :: rule in m && fqdn in m[rule] ==> OneEach(m[rule][fqdn].addrs)
  }

  /** Add touches one name: every other keeps its entry, but for one that goes to make room
      in a full rule, and that was seen no later than any other. */
  lemma {:induction false} OthersKeep(m: Learned, rule: string, fqdn: string, observed: seq<Addr>, now: int, b: Bounds,
      m1: Learned, changed: bool)
    requires Adds(m, rule, fqdn, observed, now, b, m1, changed) && observed != []
    ensures forall r :: r != rule ==> (r in m <==> r in m1) && (r in m ==> m1[r] == m[r])
    ensures rule in m1 && forall n :: n in m1[rule] && n != fqdn ==> n in NamesOf(m, rule) && m1[rule][n] == m[rule][n]
    ensures forall n, k :: n in NamesOf(m, rule) && n !in m1[rule] && k in NamesOf(m, rule) ==>
                           m[rule][n].lastSeen <= m[rule][k].lastSeen && (k !in m1[rule] ==> k == n)
    ensures forall n :: n in NamesOf(m, rule) && n !in m1[rule] ==> n != "" && fqdn !in m[rule] && |m[rule]| >= b.maxNames
  {
    var room, after :| AddsWith(m, rule, fqdn, observed, now, b, m1, changed, room, after);
    var names := NamesOf(m, rule);
    hide Observes, Adds;
    if fqdn !in names && |names| >= b.maxNames && names != map[] {
      var gone :| IsOldest(names, gone) && room == if gone == "" then names else names - {gone};
    }
  }

  lemma {:induction false} AddOneEach(m: Learned, rule: string, fqdn: string, observed: seq<Addr>, now: int, b: Bounds,
      m1: Learned, changed: bool)
    requires Adds(m, rule, fqdn, observed, now, b, m1, changed) && AllOneEach(m) && b.ttl > 0
    ensures AllOneEach(m1)
  {
    hide Adds, OneEach, ToKeep;
    if observed != [] {
      EmptyOneEach();
      AddLearns(m, rule, fqdn, observed, now, b, m1, changed);
      OthersKeep(m, rule, fqdn, observed, now, b, m1, changed);
      hide NamesOf, AddrsOf;
      forall r, n | r in m1 && n in m1[r]
        ensures OneEach(m1[r][n].addrs)
      {
        if r == rule && n != fqdn {
          assert n in NamesOf(m, rule) && m1[rule][n] == m[rule][n];
        }
      }
    } else {
      NothingAdded(m, rule, fqdn, observed, now, b, m1, changed);
    }
  }

  lemma {:induction false} NothingAdded(m: Learned, rule: string, fqdn: string, observed: seq<Addr>, now: int, b: Bounds,
      m1: Learned, changed: bool)
    requires Adds(m, rule, fqdn, observed, now, b, m1, changed) && observed == []
    ensures m1 == m && !changed
  {
  }

  lemma {:induction false} CollectOneEach(m: Learned, now: int, ttl: int)
    requires AllOneEach(m)
    ensures AllOneEach(Collect(m, now, ttl))
  {
    forall rule, fqdn | rule in Collect(m, now, ttl) && fqdn in Collect(m, now, ttl)[rule]
      ensures OneEach(Collect(m, now, ttl)[rule][fqdn].addrs)
    {
      ExpireOneEach(m[rule][fqdn].addrs, now, ttl);
    }
  }

  /** In every run from the empty store each entry lists an address once. */
  lemma {:induction false} OneEachAlways(states: seq<Learned>, acts: seq<Action>, b: Bounds, n: nat)
    requires IsRun(states, acts, b) && b.ttl > 0 && n < |states|
    ensures AllOneEach(states[n])
  {
    if n > 0 {
      OneEachAlways(states, acts, b, n - 1);
      assert Acts(states[n - 1], acts[n - 1], b, states[n]);
      hide *;
      ActOneEach(states[n - 1], acts[n - 1], b, states[n]);
    }
  }

  lemma {:induction false} ActOneEach(m: Learned, act: Action, b: Bounds, m1: Learned)
    requires Acts(m, act, b, m1) && AllOneEach(m) && b.ttl > 0
    ensures AllOneEach(m1)
  {
    hide AllOneEach, Adds, Collect;
    match act
    case AddAction(rule, fqdn, observed, now) =>
      var changed :| Adds(m, rule, fqdn, observed, now, b, m1, changed);
      AddOneEach(m, rule, fqdn, observed, now, b, m1, changed);
    case GCAction(now) => CollectOneEach(m, now, b.ttl);
    case PruneAction(active) => PruneOneEach(m, active);
  }

  lemma {:induction false} PruneOneEach(m: Learned, active: seq<string>)
    requires AllOneEach(m)
    ensures AllOneEach(Pruned(m, active))
  {
  }

  /** So in every run each address an Add observes is live right after it, as long as those
      observed and any that tie with them fit under the cap. */
  lemma {:induction false} ObservedAreLive(states: seq<Learned>, acts: seq<Action>, b: Bounds, n: nat, a: Addr)
    requires IsRun(states, acts, b) && b.ttl > 0 && n < |acts| && acts[n].AddAction? && a in acts[n].observed
    requires |Latest(ToKeep(AddrsOf(NamesOf(states[n], acts[n].rule), acts[n].fqdn), acts[n].observed, acts[n].now, b.ttl),
                     acts[n].now)| <= b.maxAddrs
    ensures Live(states[n + 1], acts[n].rule, a, acts[n].now, b.ttl)
  {
    var act, m, m1 := acts[n], states[n], states[n + 1];
    OneEachAlways(states, acts, b, n);
    assert Acts(m, act, b, m1);
    hide Adds, ToKeep, Latest, OneEach, Active, IsRun;
    var changed :| Adds(m, act.rule, act.fqdn, act.observed, act.now, b, m1, changed);
    var names := NamesOf(m, act.rule);
    assert OneEach(AddrsOf(names, act.fqdn)) by { EmptyOneEach(); }
    FittingAreKept(m, act.rule, act.fqdn, act.observed, act.now, b, m1, changed);
    ActiveMembers(m1[act.rule][act.fqdn].addrs, act.now, b.ttl, a);
    assert Seen(a, act.now).addr == a;
  }

  lemma {:induction false} EmptyOneEach()
    ensures OneEach([])
  {
  }
}
