/** Panic (internal/safety/panic.go): every managed route removed, and no record dropped
while its route may still be there. Which deletes, reads and store calls fail, and what
the provider's sweep takes, are parameters.
 */
module Panicking {
  import opened Prefixes
  import opened Routes
  import opened Verification

  /** What fails, and what the sweep takes. */
  datatype Faults = Faults(
    listFails: bool,            // the records cannot be listed
    deleteFails: nat -> bool,   // the n-th delete
    swept: Listed -> bool,      // what the provider's own sweep takes
    readFails: Family -> bool,  // a table cannot be read
    clearFails: bool,           // the records cannot be cleared
    dropFails: nat -> bool)     // the n-th record cannot be removed

  function Kept(table: seq<Listed>, drop: Listed -> bool): seq<Listed> {
    if table == [] then []
    else
      var rest := Kept(table[..|table| - 1], drop);
      if drop(table[|table| - 1]) then rest else rest + [table[|table| - 1]]
  }

  function GoesTo(x: Dst): Listed -> bool {
    (k: Listed) => DstKey(k.route) == x
  }

  /** A managed delete takes the destination's entry only while that is still the route. */
  function Delete(table: seq<Listed>, r: Route): seq<Listed> {
    if Holding(table, r) then Kept(table, GoesTo(DstKey(r))) else table
  }

  function DeleteAll(table: seq<Listed>, owned: seq<Managed>, fails: nat -> bool): seq<Listed> {
    if owned == [] then table
    else
      var n := |owned| - 1;
      var rest := DeleteAll(table, owned[..n], fails);
      if fails(n) then rest else Delete(rest, owned[n].route)
  }

  function FailedDeletes(owned: seq<Managed>, fails: nat -> bool): seq<Managed> {
    if owned == [] then []
    else
      var n := |owned| - 1;
      var rest := FailedDeletes(owned[..n], fails);
      if fails(n) then rest + [owned[n]] else rest
  }

  function InFamily(table: seq<Listed>, fam: Family): seq<Listed> {
    Kept(table, (k: Listed) => k.route.dst.fam != fam)
  }

  function Held(table: seq<Listed>, rs: seq<Managed>): seq<Managed> {
    if rs == [] then []
    else
      var rest := Held(table, rs[..|rs| - 1]);
      if Holding(table, rs[|rs| - 1].route) then rest + [rs[|rs| - 1]] else rest
  }

  /** The records without those of a key. */
  function Drop(records: seq<Managed>, key: Route): seq<Managed> {
    if records == [] then []
    else
      var rest := Drop(records[..|records| - 1], key);
      if records[|records| - 1].route == key then rest else rest + [records[|records| - 1]]
  }

  /** The records without those of owned, but for what is kept and what cannot be removed. */
  function DropAll(records: seq<Managed>, owned: seq<Managed>, keep: set<Route>, fails: nat -> bool): seq<Managed> {
    if owned == [] then records
    else
      var n := |owned| - 1;
      var rest := DropAll(records, owned[..n], keep, fails);
      if owned[n].route in keep || fails(n) then rest else Drop(rest, owned[n].route)
  }

  /** What stays in the kernel's table. */
  function TableAfter(table: seq<Listed>, records: seq<Managed>, f: Faults): seq<Listed> {
    Kept(if f.listFails then table else DeleteAll(table, records, f.deleteFails), f.swept)
  }

  function LeftOver(table: seq<Listed>, records: seq<Managed>, f: Faults): seq<Managed> {
    var failed := if f.listFails then [] else FailedDeletes(records, f.deleteFails);
    if f.readFails(V4) || f.readFails(V6) then failed
    else Held(InFamily(TableAfter(table, records, f), V4) + InFamily(TableAfter(table, records, f), V6), failed)
  }

  /** What stays recorded. */
  function RecordsAfter(table: seq<Listed>, records: seq<Managed>, f: Faults): seq<Managed> {
    var left := LeftOver(table, records, f);
    if left == [] then if f.clearFails then records else []
    else DropAll(records, records, Keys(left), f.dropFails)
  }

  /** None of the recorded routes is there. */
  ghost predicate AllGone(records: seq<Managed>, table: seq<Listed>) {
    forall o :: o in records ==> !Holding(table, o.route)
  }

  /** The records can be listed and cleared, and the tables read. */
  predicate Readable(f: Faults) {
    !f.listFails && !f.readFails(V4) && !f.readFails(V6) && !f.clearFails
  }

  class Host {
    var table: seq<Listed>
    var records: seq<Managed>

    /** Each owned route deleted, if its delete does not fail. */
    method DeleteOwned(owned: seq<Managed>, f: Faults) returns (failed: seq<Managed>)
      modifies this`table
      ensures table == DeleteAll(old(table), owned, f.deleteFails)
      ensures failed == FailedDeletes(owned, f.deleteFails)
    {
      failed := [];
      for i := 0 to |owned|
        invariant table == DeleteAll(old(table), owned[..i], f.deleteFails)
        invariant failed == FailedDeletes(owned[..i], f.deleteFails)
      {
        assert owned[..i + 1][..i] == owned[..i];
        if f.deleteFails(i) {
          failed := failed + [owned[i]];
        } else {
          table := Delete(table, owned[i].route);
        }
      }
      assert owned[..|owned|] == owned;
    }

    /** The records of owned removed, but for the keys to keep. */
    method DropOwned(owned: seq<Managed>, keep: set<Route>, f: Faults)
      modifies this`records
      ensures records == DropAll(old(records), owned, keep, f.dropFails)
    {
      for i := 0 to |owned|
        invariant records == DropAll(old(records), owned[..i], keep, f.dropFails)
      {
        assert owned[..i + 1][..i] == owned[..i];
        if owned[i].route !in keep && !f.dropFails(i) {
          records := Drop(records, owned[i].route);
        }
      }
      assert owned[..|owned|] == owned;
    }

    /** Panic. */
    method Panic(f: Faults) returns (ok: bool)
      modifies this
      ensures table == TableAfter(old(table), old(records), f)
      ensures records == RecordsAfter(old(table), old(records), f)
      ensures ok <==> LeftOver(old(table), old(records), f) == [] && !f.clearFails
      ensures Readable(f) ==> (ok <==> AllGone(old(records), table))
    {
      hide AllGone, DeleteAll, FailedDeletes, DropAll, InFamily, Kept;
      if Readable(f) { OverWhenGone(table, records, f); }
      var owned: seq<Managed>, failed: seq<Managed> := [], [];
      if !f.listFails {
        owned := records;
        failed := DeleteOwned(owned, f);
      }
      table := Kept(table, f.swept);
      failed := StillInstalled(failed, f);
      if |failed| == 0 {
        ok := !f.clearFails;
        if ok {
          records := [];
        }
        return;
      }
      DropOwned(owned, Keys(failed), f);
      ok := false;
    }

    /** stillInstalled: those of rs found in the tables — all if one cannot be read. */
    method StillInstalled(rs: seq<Managed>, f: Faults) returns (out: seq<Managed>)
      ensures out == if f.readFails(V4) || f.readFails(V6) then rs else Held(InFamily(table, V4) + InFamily(table, V6), rs)
    {
      if |rs| == 0 {
        return [];
      }
      if f.readFails(V4) || f.readFails(V6) {
        return rs;
      }
      var kernel := InFamily(table, V4) + InFamily(table, V6);
      var index := IndexInstalled(kernel);
      out := [];
      for i := 0 to |rs|
        invariant out == Held(kernel, rs[..i])
      {
        assert rs[..i + 1][..i] == rs[..i];
        if Has(index, rs[i].route) {
          out := out + [rs[i]];
        }
      }
      assert rs[..|rs|] == rs;
    }
  }

  // ---------- what it guarantees ----------

  lemma {:induction false} KeptMembers(table: seq<Listed>, drop: Listed -> bool, k: Listed)
    ensures k in Kept(table, drop) <==> k in table && !drop(k)
  {
    if table != [] {
      KeptMembers(table[..|table| - 1], drop, k);
      assert table == table[..|table| - 1] + [table[|table| - 1]];
    }
  }

  lemma {:induction false} KeptHolds(table: seq<Listed>, drop: Listed -> bool, r: Route)
    requires Holding(Kept(table, drop), r)
    ensures Holding(table, r)
  {
    var k :| k in Kept(table, drop) && Carries(k, r);
    KeptMembers(table, drop, k);
  }

  lemma {:induction false} DeleteHolds(table: seq<Listed>, r: Route, q: Route)
    requires Holding(Delete(table, r), q)
    ensures Holding(table, q) && q != r
  {
    if Holding(table, r) {
      var k :| k in Delete(table, r) && Carries(k, q);
      KeptMembers(table, GoesTo(DstKey(r)), k);
    }
  }

  /** A route still there after the deletes failed to be deleted. */
  lemma {:induction false} StillThereFailed(table: seq<Listed>, owned: seq<Managed>, fails: nat -> bool, o: Managed)
    requires o in owned && Holding(DeleteAll(table, owned, fails), o.route)
    ensures o.route in Keys(FailedDeletes(owned, fails))
  {
    var n := |owned| - 1;
    assert owned == owned[..n] + [owned[n]];
    if !fails(n) {
      DeleteHolds(DeleteAll(table, owned[..n], fails), owned[n].route, o.route);
    }
    if o in owned[..n] {
      StillThereFailed(table, owned[..n], fails, o);
      var m :| m in FailedDeletes(owned[..n], fails) && m.route == o.route;
      assert m in FailedDeletes(owned, fails);
    } else {
      assert owned[n] in FailedDeletes(owned, fails);
    }
  }

  lemma {:induction false} HeldMembers(table: seq<Listed>, rs: seq<Managed>, m: Managed)
    ensures m in Held(table, rs) <==> m in rs && Holding(table, m.route)
  {
    if rs != [] {
      HeldMembers(table, rs[..|rs| - 1], m);
      assert rs == rs[..|rs| - 1] + [rs[|rs| - 1]];
    }
  }

  lemma {:induction false} DropMembers(records: seq<Managed>, key: Route, m: Managed)
    ensures m in Drop(records, key) <==> m in records && m.route != key
  {
    if records != [] {
      DropMembers(records[..|records| - 1], key, m);
      assert records == records[..|records| - 1] + [records[|records| - 1]];
    }
  }

  /** What is kept stays recorded; of the rest stays exactly what could not be removed. */
  lemma {:induction false} DropAllMembers(records: seq<Managed>, owned: seq<Managed>, keep: set<Route>,
      fails: nat -> bool, m: Managed)
    ensures m in DropAll(records, owned, keep, fails) <==>
            && m in records
            && (m.route in keep || forall i :: 0 <= i < |owned| && owned[i].route == m.route ==> fails(i))
  {
    if owned != [] {
      var n := |owned| - 1;
      DropAllMembers(records, owned[..n], keep, fails, m);
      DropMembers(DropAll(records, owned[..n], keep, fails), owned[n].route, m);
    }
  }

  lemma {:induction false} BothFamilies(table: seq<Listed>, r: Route)
    requires Holding(table, r)
    ensures Holding(InFamily(table, V4) + InFamily(table, V6), r)
  {
    var k :| k in table && Carries(k, r);
    var fam := k.route.dst.fam;
    KeptMembers(table, (x: Listed) => x.route.dst.fam != fam, k);
    assert k in InFamily(table, fam);
    assert fam == V4 || fam == V6;
  }

  /** A route that is left keeps its record among those left over, when the records could
      be listed. */
  lemma {:induction false} LiveIsLeftOver(table: seq<Listed>, records: seq<Managed>, f: Faults, o: Managed)
    requires !f.listFails && o in records && Holding(TableAfter(table, records, f), o.route)
    ensures o.route in Keys(LeftOver(table, records, f))
  {
    var after := TableAfter(table, records, f);
    KeptHolds(DeleteAll(table, records, f.deleteFails), f.swept, o.route);
    StillThereFailed(table, records, f.deleteFails, o);
    var failed := FailedDeletes(records, f.deleteFails);
    var m :| m in failed && m.route == o.route;
    BothFamilies(after, o.route);
    HeldMembers(InFamily(after, V4) + InFamily(after, V6), failed, m);
  }

  lemma {:induction false} EitherFamily(table: seq<Listed>, r: Route)
    requires Holding(InFamily(table, V4) + InFamily(table, V6), r)
    ensures Holding(table, r)
  {
    var k :| k in InFamily(table, V4) + InFamily(table, V6) && Carries(k, r);
    KeptMembers(table, (x: Listed) => x.route.dst.fam != V4, k);
    KeptMembers(table, (x: Listed) => x.route.dst.fam != V6, k);
  }

  lemma {:induction false} FailedMembers(owned: seq<Managed>, fails: nat -> bool, m: Managed)
    ensures m in FailedDeletes(owned, fails) <==> exists i: nat :: i < |owned| && owned[i] == m && fails(i)
  {
    if owned != [] {
      var n := |owned| - 1;
      FailedMembers(owned[..n], fails, m);
      if i: nat :| i < |owned| && owned[i] == m && fails(i) {
        assert i < n ==> owned[..n][i] == m;
      }
      if i: nat :| i < n && owned[..n][i] == m && fails(i) {
        assert owned[i] == m;
      }
    }
  }

  /** With the records listed and the tables read, what is left over is exactly the recorded
      routes still there. */
  lemma {:induction false} LeftOverIsLive(table: seq<Listed>, records: seq<Managed>, f: Faults, r: Route)
    requires !f.listFails && !f.readFails(V4) && !f.readFails(V6)
    ensures r in Keys(LeftOver(table, records, f)) <==> r in Keys(records) && Holding(TableAfter(table, records, f), r)
  {
    var after, failed := TableAfter(table, records, f), FailedDeletes(records, f.deleteFails);
    hide TableAfter;
    if r in Keys(LeftOver(table, records, f)) {
      var m :| m in LeftOver(table, records, f) && m.route == r;
      HeldMembers(InFamily(after, V4) + InFamily(after, V6), failed, m);
      FailedMembers(records, f.deleteFails, m);
      EitherFamily(after, r);
    }
    if r in Keys(records) && Holding(after, r) {
      var o :| o in records && o.route == r;
      LiveIsLeftOver(table, records, f, o);
    }
  }

  /** Without a read of the tables it is whatever failed to be deleted. */
  lemma {:induction false} LeftOverUnread(table: seq<Listed>, records: seq<Managed>, f: Faults, m: Managed)
    requires !f.listFails && (f.readFails(V4) || f.readFails(V6))
    ensures m in LeftOver(table, records, f) <==> exists i: nat :: i < |records| && records[i] == m && f.deleteFails(i)
  {
    FailedMembers(records, f.deleteFails, m);
  }

  /** With the records listed and cleared and the tables read, nothing is left over exactly
      if no recorded route is still there; then no record stays, and otherwise those of the
      routes still there and those that could not be removed. A route still there is one
      whose delete failed. */
  lemma {:induction false} PanicIsPrecise(table: seq<Listed>, records: seq<Managed>, f: Faults)
    requires Readable(f)
    ensures LeftOver(table, records, f) == [] <==> AllGone(records, TableAfter(table, records, f))
    ensures LeftOver(table, records, f) == [] ==> RecordsAfter(table, records, f) == []
    ensures LeftOver(table, records, f) != [] ==>
              forall m :: m in RecordsAfter(table, records, f) <==>
                          && m in records
                          && (|| Holding(TableAfter(table, records, f), m.route)
                              || forall i :: 0 <= i < |records| && records[i].route == m.route ==> f.dropFails(i))
    ensures forall o :: o in records && Holding(TableAfter(table, records, f), o.route) ==>
                        exists i: nat :: i < |records| && records[i].route == o.route && f.deleteFails(i)
  {
    var left := LeftOver(table, records, f);
    hide TableAfter, LeftOver;
    forall r { LeftOverIsLive(table, records, f, r); }
    if left != [] {
      assert left[0].route in Keys(left);
      var o :| o in records && o.route == left[0].route;
      forall m { DropAllMembers(records, records, Keys(left), f.dropFails, m); }
    }
    forall o | o in records && Holding(TableAfter(table, records, f), o.route)
      ensures exists i: nat :: i < |records| && records[i].route == o.route && f.deleteFails(i)
    {
      LiveFailed(table, records, f, o);
    }
  }

  lemma {:induction false} OverWhenGone(table: seq<Listed>, records: seq<Managed>, f: Faults)
    requires Readable(f)
    ensures LeftOver(table, records, f) == [] <==> AllGone(records, TableAfter(table, records, f))
  {
    PanicIsPrecise(table, records, f);
  }

  lemma {:induction false} LiveFailed(table: seq<Listed>, records: seq<Managed>, f: Faults, o: Managed)
    requires !f.listFails && o in records && Holding(TableAfter(table, records, f), o.route)
    ensures exists i: nat :: i < |records| && records[i].route == o.route && f.deleteFails(i)
  {
    KeptHolds(DeleteAll(table, records, f.deleteFails), f.swept, o.route);
    StillThereFailed(table, records, f.deleteFails, o);
    var m :| m in FailedDeletes(records, f.deleteFails) && m.route == o.route;
    FailedMembers(records, f.deleteFails, m);
  }

  /** Panic never forgets a live route, whatever fails — with one exception: when the
      records cannot be listed they are cleared unseen, so nothing is forgotten exactly if
      the sweep alone takes every recorded route there is, or the clearing fails too. */
  lemma {:induction false} PanicNeverForgets(table: seq<Listed>, records: seq<Managed>, f: Faults)
    ensures (forall o :: o in records && Holding(TableAfter(table, records, f), o.route) ==> o in RecordsAfter(table, records, f)) <==>
            !f.listFails || f.clearFails || forall o :: o in records ==> !Holding(Kept(table, f.swept), o.route)
  {
    var after, left := TableAfter(table, records, f), LeftOver(table, records, f);
    if !f.listFails {
      forall o | o in records && Holding(after, o.route)
        ensures o in RecordsAfter(table, records, f)
      {
        LiveIsLeftOver(table, records, f, o);
        assert left != [];
        DropAllMembers(records, records, Keys(left), f.dropFails, o);
      }
    } else {
      assert left == [];
    }
  }

  /** That exception happens: with one route, the records unlistable once and no sweep, the
      route stays and its record goes. */
  lemma {:induction false} UnlistedIsForgotten(o: Managed)
    ensures var table := [Listed(o.route, 0, false, false)];
            var f := Faults(true, n => false, k => false, fam => false, false, n => false);
            Holding(TableAfter(table, [o], f), o.route) && RecordsAfter(table, [o], f) == []
  {
    var table := [Listed(o.route, 0, false, false)];
    var f := Faults(true, n => false, k => false, fam => false, false, n => false);
    assert table[..0] == [];
    KeptMembers(table, f.swept, table[0]);
    assert Carries(table[0], o.route);
  }

  /** A retry in which nothing fails empties the records, and leaves none of their routes. */
  lemma {:induction false} CleanRetryEmpties(table: seq<Listed>, records: seq<Managed>, f: Faults)
    requires !f.listFails && !f.clearFails && forall i :: 0 <= i < |records| ==> !f.deleteFails(i)
    ensures RecordsAfter(table, records, f) == []
    ensures forall o :: o in records ==> !Holding(TableAfter(table, records, f), o.route)
  {
    NothingFailed(records, f.deleteFails);
    forall o | o in records
      ensures !Holding(TableAfter(table, records, f), o.route)
    {
      if Holding(TableAfter(table, records, f), o.route) { LiveIsLeftOver(table, records, f, o); }
    }
  }

  lemma {:induction false} NothingFailed(owned: seq<Managed>, fails: nat -> bool)
    requires forall i :: 0 <= i < |owned| ==> !fails(i)
    ensures FailedDeletes(owned, fails) == []
  {
    if owned != [] {
      NothingFailed(owned[..|owned| - 1], fails);
    }
  }

  lemma {:induction false} DeletesAddNothing(table: seq<Listed>, owned: seq<Managed>, fails: nat -> bool)
    ensures forall k :: k in DeleteAll(table, owned, fails) ==> k in table
  {
    if owned != [] {
      var n := |owned| - 1;
      DeletesAddNothing(table, owned[..n], fails);
      forall k { KeptMembers(DeleteAll(table, owned[..n], fails), GoesTo(DstKey(owned[n].route)), k); }
    }
  }

  /** What someone else routes stays, unless the sweep takes it: an entry goes only if an
      owned route to its destination is there. */
  lemma {:induction false} OthersStay(table: seq<Listed>, owned: seq<Managed>, fails: nat -> bool, k: Listed)
    requires k in table
    requires forall o :: o in owned && DstKey(o.route) == DstKey(k.route) ==> !Holding(table, o.route)
    ensures k in DeleteAll(table, owned, fails)
  {
    if owned != [] {
      var n := |owned| - 1;
      assert forall o :: o in owned[..n] ==> o in owned;
      OthersStay(table, owned[..n], fails, k);
      assert owned[n] in owned;
      var rest := DeleteAll(table, owned[..n], fails);
      KeptMembers(rest, GoesTo(DstKey(owned[n].route)), k);
      DeletesAddNothing(table, owned[..n], fails);
      if Holding(rest, owned[n].route) {
        var e :| e in rest && Verification.Carries(e, owned[n].route);
        assert Holding(table, owned[n].route);
      }
    }
  }
}
