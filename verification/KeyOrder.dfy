/** Sorting by key text, as BuildDesired leaves its results (internal/routing/engine.go):
stable, so entries with one key keep their order.
 */
module KeyOrder {
  predicate TextLess(x: string, y: string) {
    y != [] && (x == [] || x[0] < y[0] || (x[0] == y[0] && TextLess(x[1..], y[1..])))
  }

  /** The two agree up to i, where x ends or has the smaller character. */
  ghost predicate PartsAt(x: string, y: string, i: nat) {
    i < |y| && i <= |x| && x[..i] == y[..i] && (i == |x| || x[i] < y[i])
  }

  /** The order of texts: x ends first, or is smaller where they first differ. */
  lemma {:induction false} TextLessMeans(x: string, y: string)
    ensures TextLess(x, y) <==> exists i: nat :: PartsAt(x, y, i)
  {
    if y == [] {
    } else if x == [] || x[0] < y[0] {
      assert PartsAt(x, y, 0);
    } else {
      TextLessMeans(x[1..], y[1..]);
      if TextLess(x, y) {
        var i: nat :| PartsAt(x[1..], y[1..], i);
        assert x[..i + 1] == [x[0]] + x[1..][..i] && y[..i + 1] == [y[0]] + y[1..][..i];
        assert PartsAt(x, y, i + 1);
      }
      if i: nat :| PartsAt(x, y, i) {
        assert i > 0 && x[..i][0] == y[..i][0];
        assert x[1..][..i - 1] == x[..i][1..] && y[1..][..i - 1] == y[..i][1..];
        assert PartsAt(x[1..], y[1..], i - 1);
      }
    }
  }

  lemma {:induction false} TextTotal(x: string, y: string)
    ensures !(TextLess(x, y) && TextLess(y, x))
    ensures TextLess(x, y) || TextLess(y, x) || x == y
  {
    if x != [] && y != [] && x[0] == y[0] {
      TextTotal(x[1..], y[1..]);
    }
  }

  lemma {:induction false} TextTransitive(x: string, y: string, z: string)
    requires TextLess(x, y) && TextLess(y, z)
    ensures TextLess(x, z)
  {
    if x != [] && x[0] == y[0] && y[0] == z[0] {
      TextTransitive(x[1..], y[1..], z[1..]);
    }
  }

  /** Not after: what is before y is not after what is not before y. */
  lemma {:induction false} NotLessThrough(x: string, y: string, z: string)
    requires !TextLess(y, x) && !TextLess(z, y)
    ensures !TextLess(z, x)
  {
    TextTotal(x, y);
    TextTotal(y, z);
    TextTotal(x, z);
    if TextLess(x, y) && TextLess(y, z) { TextTransitive(x, y, z); }
  }

  /** After all that are not behind it. */
  function InsertBy<T>(key: T -> string, s: seq<T>, x: T): seq<T> {
    if s == [] || !TextLess(key(x), key(s[|s| - 1])) then s + [x]
    else InsertBy(key, s[..|s| - 1], x) + [s[|s| - 1]]
  }

  function SortBy<T>(key: T -> string, s: seq<T>): seq<T> {
    if s == [] then [] else InsertBy(key, SortBy(key, s[..|s| - 1]), s[|s| - 1])
  }

  ghost predicate SortedBy<T>(key: T -> string, s: seq<T>) {
    forall i, j :: 0 <= i < j < |s| ==> !TextLess(key(s[j]), key(s[i]))
  }

  lemma {:induction false} InsertByPermutes<T>(key: T -> string, s: seq<T>, x: T)
    ensures multiset(InsertBy(key, s, x)) == multiset(s) + multiset{x}
  {
    if s != [] {
      assert s == s[..|s| - 1] + [s[|s| - 1]];
      InsertByPermutes(key, s[..|s| - 1], x);
    }
  }

  lemma {:induction false} SortByPermutes<T>(key: T -> string, s: seq<T>)
    ensures multiset(SortBy(key, s)) == multiset(s)
  {
    if s != [] {
      assert s == s[..|s| - 1] + [s[|s| - 1]];
      SortByPermutes(key, s[..|s| - 1]);
      InsertByPermutes(key, SortBy(key, s[..|s| - 1]), s[|s| - 1]);
    }
  }

  lemma {:induction false} SortByMembers<T>(key: T -> string, s: seq<T>)
    ensures forall x :: x in SortBy(key, s) <==> x in s
  {
    SortByPermutes(key, s);
    forall x
      ensures x in SortBy(key, s) <==> x in s
    {
      assert x in SortBy(key, s) <==> x in multiset(SortBy(key, s));
      assert x in s <==> x in multiset(s);
    }
  }

  /** A sorted list with something no smaller at its end is sorted. */
  lemma {:induction false} AppendSorted<T>(key: T -> string, s: seq<T>, x: T)
    requires SortedBy(key, s) && forall y :: y in s ==> !TextLess(key(x), key(y))
    ensures SortedBy(key, s + [x])
  {
    hide TextLess;
    var t := s + [x];
    forall i, j | 0 <= i < j < |t|
      ensures !TextLess(key(t[j]), key(t[i]))
    {
      if j == |s| { assert t[i] in s; }
    }
  }

  lemma {:induction false} InsertBySorted<T>(key: T -> string, s: seq<T>, x: T)
    requires SortedBy(key, s)
    ensures SortedBy(key, InsertBy(key, s, x))
  {
    hide TextLess;
    if s == [] {
      AppendSorted(key, s, x);
    } else if TextLess(key(x), key(s[|s| - 1])) {
      var n := |s| - 1;
      InsertBySorted(key, s[..n], x);
      InsertByPermutes(key, s[..n], x);
      TextTotal(key(x), key(s[n]));
      forall y | y in InsertBy(key, s[..n], x)
        ensures !TextLess(key(s[n]), key(y))
      {
        assert y in multiset(InsertBy(key, s[..n], x));
        if y != x { var i :| 0 <= i < n && s[i] == y; }
      }
      AppendSorted(key, InsertBy(key, s[..n], x), s[n]);
    } else {
      var n := |s| - 1;
      forall y | y in s
        ensures !TextLess(key(x), key(y))
      {
        var i :| 0 <= i <= n && s[i] == y;
        if i < n { NotLessThrough(key(s[i]), key(s[n]), key(x)); }
      }
      AppendSorted(key, s, x);
    }
  }

  lemma {:induction false} SortBySorts<T>(key: T -> string, s: seq<T>)
    ensures SortedBy(key, SortBy(key, s))
  {
    if s != [] {
      SortBySorts(key, s[..|s| - 1]);
      InsertBySorted(key, SortBy(key, s[..|s| - 1]), s[|s| - 1]);
    }
  }

  /** Those of one key text, in order. */
  function WithKey<T>(key: T -> string, s: seq<T>, text: string): seq<T> {
    if s == [] then []
    else
      var rest := WithKey(key, s[..|s| - 1], text);
      if key(s[|s| - 1]) == text then rest + [s[|s| - 1]] else rest
  }

  lemma {:induction false} InsertByStable<T>(key: T -> string, s: seq<T>, x: T, text: string)
    ensures WithKey(key, InsertBy(key, s, x), text) == WithKey(key, s, text) + if key(x) == text then [x] else []
  {
    if s == [] || !TextLess(key(x), key(s[|s| - 1])) {
      assert (s + [x])[..|s|] == s;
    } else {
      var n := |s| - 1;
      var t := InsertBy(key, s[..n], x);
      InsertByStable(key, s[..n], x, text);
      assert (t + [s[n]])[..|t|] == t;
      TextTotal(key(x), key(s[n]));
    }
  }

  /** Stable: those of one key text stay in their order. */
  lemma {:induction false} SortByIsStable<T>(key: T -> string, s: seq<T>, text: string)
    ensures WithKey(key, SortBy(key, s), text) == WithKey(key, s, text)
  {
    if s != [] {
      SortByIsStable(key, s[..|s| - 1], text);
      InsertByStable(key, SortBy(key, s[..|s| - 1]), s[|s| - 1], text);
    }
  }
}
