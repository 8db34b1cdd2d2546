/** The batch's table cache (internal/provider/tablecache.go): one read of each family's
table, brought up to date with each change of its own. Slices are arrays here, so that what
was handed out earlier can be said not to change.
 */
module TableCaching {
  import opened Prefixes
  import opened Routes
  import opened Picking

  /** The kernel's table: adding appends, deleting takes what goes to the destination. */
  function Without(rs: seq<Route>, x: Dst): seq<Route> {
    if rs == [] then []
    else
      var rest := Without(rs[..|rs| - 1], x);
      if DstKey(rs[|rs| - 1]) == x then rest else rest + [rs[|rs| - 1]]
  }

  /** A step of a batch: a route added or deleted, or a read, which may fail. */
  datatype Step = Added(route: Route) | Deleted(route: Route) | Read(fam: Family, ok: bool)

  /** What a step of the batch makes of a family's table. */
  function StepTable(rs: seq<Route>, fam: Family, s: Step): seq<Route> {
    match s
    case Added(r) => if r.dst.fam == fam then rs + [r] else rs
    case Deleted(r) => if r.dst.fam == fam then Without(rs, DstKey(r)) else rs
    case Read(_, _) => rs
  }

  /** A family's table after the batch's steps, when no one else changes it. */
  function TableAfter(rs: seq<Route>, fam: Family, steps: seq<Step>): seq<Route> {
    if steps == [] then rs else StepTable(TableAfter(rs, fam, steps[..|steps| - 1]), fam, steps[|steps| - 1])
  }

  class TableCache {
    var fams: map<Family, array<Route>>

    constructor ()
      ensures fams == map[]
    {
      fams := map[];
    }

    /** The cache agrees with the tables: what it holds is what a fresh read would give. */
    ghost predicate Agrees(table4: seq<Route>, table6: seq<Route>)
      reads this, fams.Values
    {
      && (V4 in fams ==> fams[V4][..] == table4)
      && (V6 in fams ==> fams[V6][..] == table6)
    }

    /** CachedRoutes: from the cache, or read and cached; a failed read is not cached. */
    method CachedRoutes(fam: Family, table: Option<seq<Route>>) returns (rs: array?<Route>)
      modifies this
      ensures fam in old(fams) ==> rs == old(fams)[fam] && fams == old(fams)
      ensures fam !in old(fams) && table.None? ==> rs == null && fams == old(fams)
      ensures fam !in old(fams) && table.Some? ==>
                rs != null && fresh(rs) && rs[..] == table.value && fams == old(fams)[fam := rs]
    {
      if fam in fams {
        return fams[fam];
      }
      if table.None? {
        return null;
      }
      var read := table.value;
      var a := new Route[|read|](i requires 0 <= i < |read| => read[i]);
      fams := fams[fam := a];
      rs := a;
    }

    /** RouteAdded: into a slice of its own. */
    method RouteAdded(r: Route)
      modifies this
      ensures fams.Keys == old(fams).Keys
      ensures r.dst.fam in fams ==> fresh(fams[r.dst.fam]) && fams[r.dst.fam][..] == old(fams[r.dst.fam][..]) + [r]
      ensures forall fam :: fam in fams && fam != r.dst.fam ==> fams[fam] == old(fams)[fam]
    {
      var fam := r.dst.fam;
      if fam !in fams {
        return; // a later read finds it in the table
      }
      var rs := fams[fam];
      var n := rs.Length;
      var a := new Route[n + 1](i requires 0 <= i <= n reads rs => if i < n then rs[i] else r);
      assert a[..] == rs[..] + [r];
      fams := fams[fam := a];
    }

    /** RouteDeleted. */
    method RouteDeleted(r: Route)
      modifies this
      ensures fams.Keys == old(fams).Keys
      ensures r.dst.fam in fams ==> fresh(fams[r.dst.fam]) && fams[r.dst.fam][..] == Without(old(fams[r.dst.fam][..]), DstKey(r))
      ensures forall fam :: fam in fams && fam != r.dst.fam ==> fams[fam] == old(fams)[fam]
    {
      var fam := r.dst.fam;
      if fam !in fams {
        return;
      }
      var rs := fams[fam];
      var out: seq<Route> := [];
      for i := 0 to rs.Length
        invariant out == Without(rs[..i], DstKey(r))
        invariant fams == old(fams)
      {
        assert rs[..i + 1][..i] == rs[..i];
        if DstKey(rs[i]) == DstKey(r) {
          continue;
        }
        out := out + [rs[i]];
      }
      assert rs[..rs.Length] == rs[..];
      var a := new Route[|out|](i requires 0 <= i < |out| => out[i]);
      assert a[..] == out;
      fams := fams[fam := a];
    }

    /** One change or read of a batch, table4 and table6 being the tables before it. */
    method Take(step: Step, table4: seq<Route>, table6: seq<Route>) returns (rs: array?<Route>)
      requires Agrees(table4, table6)
      modifies this
      ensures Agrees(StepTable(table4, V4, step), StepTable(table6, V6, step))
      ensures rs != null ==> step.Read? && rs[..] == if step.fam.V4? then table4 else table6
      ensures step.Read? && step.ok ==> rs != null
    {
      hide Without;
      rs := null;
      match step
      case Added(r) => RouteAdded(r);
      case Deleted(r) => RouteDeleted(r);
      case Read(fam, ok) =>
        rs := CachedRoutes(fam, if ok then Some(if fam.V4? then table4 else table6) else None);
    }

    /** A batch of its own changes and reads, tables giving the families' tables before it.
        Every successful read gives what a fresh read would give at that point, the cache
        agrees with the tables at the end, and no slice handed out on the way changes. */
    method Batch(steps: seq<Step>, table4: seq<Route>, table6: seq<Route>)
      returns (ghost handed: map<int, array<Route>>)
      requires Agrees(table4, table6)
      modifies this
      ensures Agrees(TableAfter(table4, V4, steps), TableAfter(table6, V6, steps))
      ensures forall i :: 0 <= i < |steps| && steps[i].Read? && steps[i].ok ==> i in handed
      ensures forall i :: i in handed ==> ViewAt(steps, table4, table6, handed[i][..], i)
    {
      hide Without, StepTable;
      handed := map[];
      for i := 0 to |steps|
        invariant Agrees(TableAfter(table4, V4, steps[..i]), TableAfter(table6, V6, steps[..i]))
        invariant forall j :: 0 <= j < i && steps[j].Read? && steps[j].ok ==> j in handed
        invariant forall j :: j in handed ==> 0 <= j < i && ViewAt(steps, table4, table6, handed[j][..], j)
      {
        assert steps[..i + 1][..i] == steps[..i];
        var rs := Take(steps[i], TableAfter(table4, V4, steps[..i]), TableAfter(table6, V6, steps[..i]));
        if rs != null {
          handed := handed[i := rs];
        }
      }
      assert steps[..|steps|] == steps;
    }
  }

  /** Step i is a read, and v is its family's table at that point of the batch. */
  ghost predicate ViewAt(steps: seq<Step>, table4: seq<Route>, table6: seq<Route>, v: seq<Route>, i: int) {
    && 0 <= i < |steps| && steps[i].Read?
    && v == TableAfter(if steps[i].fam.V4? then table4 else table6, steps[i].fam, steps[..i])
  }

  /** A delete takes every route to the destination and no other; the rest stays as it was,
      in order. */
  lemma {:induction false} DeleteTakes(rs: seq<Route>, r: Route)
    ensures Picks(rs, StepTable(rs, r.dst.fam, Deleted(r)), q => DstKey(q) != DstKey(r))
  {
    var keep := (q: Route) => DstKey(q) != DstKey(r);
    if rs == [] {
      PickNone(keep);
    } else {
      var n := |rs| - 1;
      DeleteTakes(rs[..n], r);
      PickNext(rs[..n], Without(rs[..n], DstKey(r)), keep, rs[n]);
      assert rs == rs[..n] + [rs[n]];
    }
  }

  /** From step i on nothing deletes what goes to x. */
  ghost predicate NotDeleted(steps: seq<Step>, i: nat, x: Dst) {
    forall j :: i <= j < |steps| && steps[j].Deleted? ==> DstKey(steps[j].route) != x
  }

  /** Step i adds q, and no later one deletes what goes there. */
  ghost predicate AddedLast(steps: seq<Step>, i: nat, q: Route) {
    i < |steps| && steps[i] == Added(q) && NotDeleted(steps, i, DstKey(q))
  }

  lemma {:induction false} StepMembers(rs: seq<Route>, fam: Family, s: Step, q: Route)
    requires q.dst.fam == fam
    ensures q in StepTable(rs, fam, s) <==> s == Added(q) || (q in rs && (s.Deleted? ==> DstKey(s.route) != DstKey(q)))
  {
    match s
    case Added(r) =>
    case Deleted(r) =>
      if r.dst.fam == fam {
        DeleteTakes(rs, r);
        PickMembers(rs, StepTable(rs, fam, s), p => DstKey(p) != DstKey(r), q);
      }
    case Read(_, _) =>
  }

  lemma {:induction false} BatchEnds(steps: seq<Step>, q: Route)
    requires steps != []
    ensures var n := |steps| - 1;
            var s := steps[n];
            && (NotDeleted(steps, 0, DstKey(q)) <==>
                NotDeleted(steps[..n], 0, DstKey(q)) && (s.Deleted? ==> DstKey(s.route) != DstKey(q)))
            && ((exists i: nat :: AddedLast(steps, i, q)) <==>
                s == Added(q) || ((exists i: nat :: AddedLast(steps[..n], i, q)) && (s.Deleted? ==> DstKey(s.route) != DstKey(q))))
  {
    var n := |steps| - 1;
    forall i: nat
      ensures i < n ==> (AddedLast(steps, i, q) <==>
                         AddedLast(steps[..n], i, q) && (steps[n].Deleted? ==> DstKey(steps[n].route) != DstKey(q)))
    {
      if i < n { assert steps[..n][i] == steps[i]; }
    }
    assert AddedLast(steps, n, q) <==> steps[n] == Added(q);
    hide AddedLast;
  }

  /** What a family's table holds after a batch: what it added and did not delete later, and
      what was there and was not deleted. */
  lemma {:induction false} InTableIff(rs: seq<Route>, fam: Family, steps: seq<Step>, q: Route)
    requires q.dst.fam == fam
    ensures q in TableAfter(rs, fam, steps) <==>
            (exists i: nat :: AddedLast(steps, i, q)) || (q in rs && NotDeleted(steps, 0, DstKey(q)))
  {
    hide StepTable, AddedLast, NotDeleted;
    if steps == [] {
      NothingDone(q);
    } else {
      InTableIff(rs, fam, steps[..|steps| - 1], q);
      BatchEnds(steps, q);
      StepMembers(TableAfter(rs, fam, steps[..|steps| - 1]), fam, steps[|steps| - 1], q);
    }
  }

  lemma {:induction false} NothingDone(q: Route)
    ensures NotDeleted([], 0, DstKey(q)) && !exists i: nat :: AddedLast([], i, q)
  {
  }

  /** A batch that adds a route and rolls the add back leaves the family's table as it was,
      if the destination was free. */
  lemma {:induction false} AddThenDelete(rs: seq<Route>, r: Route)
    requires forall q :: q in rs ==> DstKey(q) != DstKey(r)
    ensures StepTable(StepTable(rs, r.dst.fam, Added(r)), r.dst.fam, Deleted(r)) == rs
  {
    assert (rs + [r])[..|rs|] == rs;
    FreeStays(rs, DstKey(r));
  }

  lemma {:induction false} FreeStays(rs: seq<Route>, x: Dst)
    requires forall q :: q in rs ==> DstKey(q) != x
    ensures Without(rs, x) == rs
  {
    if rs != [] {
      var n := |rs| - 1;
      assert forall q :: q in rs[..n] ==> q in rs;
      FreeStays(rs[..n], x);
      assert rs == rs[..n] + [rs[n]] && rs[n] in rs;
    }
  }
}
