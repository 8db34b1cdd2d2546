/** Picking from a list: what is kept, each as often and in the order it came. */
module Picking {

  /** idx are, in order, the places of those that keep accepts, and out is what is there. */
  ghost predicate PicksAt<T(!new)>(s: seq<T>, out: seq<T>, keep: T -> bool, idx: seq<nat>) {
    && |out| == |idx|
    && (forall i, j :: 0 <= i < j < |idx| ==> idx[i] < idx[j])
    && (forall i :: 0 <= i < |idx| ==> idx[i] < |s| && out[i] == s[idx[i]])
    && (forall j :: 0 <= j < |s| ==> (j in idx <==> keep(s[j])))
  }

  /** out is s without what keep refuses. */
  ghost predicate Picks<T(!new)>(s: seq<T>, out: seq<T>, keep: T -> bool) {
    exists idx :: PicksAt(s, out, keep, idx)
  }

  lemma {:induction false} PickNone<T(!new)>(keep: T -> bool)
    ensures Picks([], [], keep)
  {
    var none: seq<nat> := [];
    assert PicksAt([], [], keep, none);
  }

  lemma {:induction false} PickKept<T(!new)>(s: seq<T>, out: seq<T>, keep: T -> bool, x: T, idx: seq<nat>)
    requires PicksAt(s, out, keep, idx) && keep(x)
    ensures PicksAt(s + [x], out + [x], keep, idx + [|s|])
  {
    var all, more: seq<nat> := s + [x], idx + [|s|];
    forall i | 0 <= i < |more|
      ensures more[i] < |all| && (out + [x])[i] == all[more[i]]
    {
      if i < |idx| { assert more[i] == idx[i]; }
    }
    forall j | 0 <= j < |all|
      ensures j in more <==> keep(all[j])
    {
      if j < |s| { assert all[j] == s[j]; } else { assert more[|idx|] == j; }
    }
  }

  lemma {:induction false} PickLeft<T(!new)>(s: seq<T>, out: seq<T>, keep: T -> bool, x: T, idx: seq<nat>)
    requires PicksAt(s, out, keep, idx) && !keep(x)
    ensures PicksAt(s + [x], out, keep, idx)
  {
    var all := s + [x];
    assert forall i :: 0 <= i < |idx| ==> idx[i] != |s|;
    forall j | 0 <= j < |all|
      ensures j in idx <==> keep(all[j])
    {
      if j < |s| { assert all[j] == s[j]; } else { assert j !in idx; }
    }
  }

  lemma {:induction false} PickNext<T(!new)>(s: seq<T>, out: seq<T>, keep: T -> bool, x: T)
    requires Picks(s, out, keep)
    ensures Picks(s + [x], if keep(x) then out + [x] else out, keep)
  {
    hide PicksAt;
    var idx: seq<nat> :| PicksAt(s, out, keep, idx);
    if keep(x) {
      PickKept(s, out, keep, x, idx);
    } else {
      PickLeft(s, out, keep, x, idx);
    }
  }

  lemma {:induction false} PickMembers<T(!new)>(s: seq<T>, out: seq<T>, keep: T -> bool, x: T)
    requires Picks(s, out, keep)
    ensures x in out <==> x in s && keep(x)
  {
    var idx :| PicksAt(s, out, keep, idx);
    if x in s && keep(x) {
      var j :| 0 <= j < |s| && s[j] == x;
      var i :| 0 <= i < |idx| && idx[i] == j;
      assert out[i] == x;
    }
    if x in out {
      var i :| 0 <= i < |out| && out[i] == x;
      assert idx[i] in idx;
    }
  }
}
