/** Sorting by a comparison, as sort.Slice does, and what the result is known to be. */
module Ordering {

  /** The comparison orders all values, ties allowed. */
  ghost predicate Sortable<T(!new)>(less: (T, T) -> bool)
  {
    && (forall a, b :: less(a, b) ==> !less(b, a))
    && (forall a, b, c :: !less(b, a) && !less(c, b) ==> !less(c, a))
  }

  /** No two different values tie. */
  ghost predicate Decisive<T(!new)>(less: (T, T) -> bool)
  {
    forall a, b :: less(a, b) || a == b || less(b, a)
  }

  predicate Ordered<T>(less: (T, T) -> bool, s: seq<T>)
  {
    forall i, j :: 0 <= i < j < |s| ==> !less(s[j], s[i])
  }

  function Insert<T>(less: (T, T) -> bool, s: seq<T>, x: T): seq<T>
  {
    if s == [] then [x]
    else if less(x, s[0]) then [x] + s
    else [s[0]] + Insert(less, s[1..], x)
  }

  function Sort<T>(less: (T, T) -> bool, s: seq<T>): seq<T>
  {
    if s == [] then [] else Insert(less, Sort(less, s[..|s| - 1]), s[|s| - 1])
  }

  lemma {:induction false} InsertPermutes<T>(less: (T, T) -> bool, s: seq<T>, x: T)
    ensures multiset(Insert(less, s, x)) == multiset(s) + multiset{x}
    decreases |s|
  {
    if s != [] && !less(x, s[0]) {
      InsertPermutes(less, s[1..], x);
      assert s == [s[0]] + s[1..];
    }
  }

  lemma {:induction false} SortPermutes<T>(less: (T, T) -> bool, s: seq<T>)
    ensures multiset(Sort(less, s)) == multiset(s)
    ensures |Sort(less, s)| == |s|
    decreases |s|
  {
    if s != [] {
      var n := |s| - 1;
      SortPermutes(less, s[..n]);
      InsertPermutes(less, Sort(less, s[..n]), s[n]);
      assert s == s[..n] + [s[n]];
    }
    assert |multiset(Sort(less, s))| == |multiset(s)|;
  }

  lemma SortKeepsMembers<T>(less: (T, T) -> bool, s: seq<T>, x: T)
    ensures x in Sort(less, s) <==> x in s
  {
    SortPermutes(less, s);
    assert x in Sort(less, s) <==> x in multiset(Sort(less, s));
    assert x in s <==> x in multiset(s);
  }

  lemma {:induction false} InsertOrders<T(!new)>(less: (T, T) -> bool, s: seq<T>, x: T)
    requires Sortable(less) && Ordered(less, s)
    ensures Ordered(less, Insert(less, s, x))
    decreases |s|
  {
    if s != [] {
      assert s == [s[0]] + s[1..];
      if less(x, s[0]) {
        assert forall i :: 0 <= i < |s| ==> !less(s[i], s[0]) || i == 0;
        PrependOrders(less, x, s);
      } else {
        var rest := Insert(less, s[1..], x);
        InsertOrders(less, s[1..], x);
        InsertPermutes(less, s[1..], x);
        forall y | y in rest ensures !less(y, s[0]) {
          assert y in multiset(rest);
          if y != x {
            assert y in s[1..];
          }
        }
        PrependOrders(less, s[0], rest);
      }
    }
  }

  lemma PrependOrders<T(!new)>(less: (T, T) -> bool, x: T, s: seq<T>)
    requires Sortable(less) && Ordered(less, s)
    requires s != [] ==> !less(s[0], x)
    ensures Ordered(less, [x] + s)
  {
    var all := [x] + s;
    forall i, j | 0 <= i < j < |all| ensures !less(all[j], all[i]) {
      if i == 0 {
        assert all[j] == s[j - 1];
        assert j == 1 || !less(s[j - 1], s[0]);
      } else {
        assert all[i] == s[i - 1] && all[j] == s[j - 1];
      }
    }
  }

  lemma {:induction false} SortOrders<T(!new)>(less: (T, T) -> bool, s: seq<T>)
    requires Sortable(less)
    ensures Ordered(less, Sort(less, s))
    decreases |s|
  {
    if s != [] {
      SortOrders(less, s[..|s| - 1]);
      InsertOrders(less, Sort(less, s[..|s| - 1]), s[|s| - 1]);
    }
  }

  lemma OrderedHead<T(!new)>(less: (T, T) -> bool, s: seq<T>, x: T)
    requires Ordered(less, s) && x in s
    ensures x == s[0] || !less(x, s[0])
  {
    var i :| 0 <= i < |s| && s[i] == x;
  }

  lemma SameMembers<T>(s: seq<T>, t: seq<T>, x: T)
    requires multiset(s) == multiset(t) && x in s
    ensures x in t
  {
    assert x in multiset(s);
  }

  lemma DropHead<T>(s: seq<T>)
    requires s != []
    ensures multiset(s[1..]) == multiset(s) - multiset{s[0]}
  {
    assert s == [s[0]] + s[1..];
  }

  /** Without ties there is only one ordered arrangement, so the sorting algorithm is irrelevant. */
  /** Distinct members are ranked. */
  ghost predicate Ranked<T(!new)>(less: (T, T) -> bool, s: seq<T>)
  {
    forall a, b :: a in s && b in s && a != b ==> less(a, b) || less(b, a)
  }

  /** A listing whose distinct members are ranked has one order. */
  lemma {:induction false} RankedUnique<T(!new)>(less: (T, T) -> bool, s: seq<T>, t: seq<T>)
    requires Sortable(less) && Ranked(less, s)
    requires Ordered(less, s) && Ordered(less, t)
    requires multiset(s) == multiset(t)
    ensures s == t
    decreases |s|
  {
    assert |multiset(s)| == |multiset(t)|;
    if s != [] {
      SameMembers(s, t, s[0]);
      SameMembers(t, s, t[0]);
      OrderedHead(less, t, s[0]);
      OrderedHead(less, s, t[0]);
      assert s[0] == t[0];
      DropHead(s);
      DropHead(t);
      RankedUnique(less, s[1..], t[1..]);
      assert s == [s[0]] + s[1..] && t == [t[0]] + t[1..];
    }
  }

  lemma {:induction false} OrderedUnique<T(!new)>(less: (T, T) -> bool, s: seq<T>, t: seq<T>)
    requires Sortable(less) && Decisive(less)
    requires Ordered(less, s) && Ordered(less, t)
    requires multiset(s) == multiset(t)
    ensures s == t
    decreases |s|
  {
    assert |multiset(s)| == |multiset(t)|;
    if s != [] {
      SameMembers(s, t, s[0]);
      SameMembers(t, s, t[0]);
      OrderedHead(less, t, s[0]);
      OrderedHead(less, s, t[0]);
      assert s[0] == t[0];
      DropHead(s);
      DropHead(t);
      OrderedUnique(less, s[1..], t[1..]);
      assert s == [s[0]] + s[1..] && t == [t[0]] + t[1..];
    }
  }

  // ---------- sets in order ----------

  ghost function Listed<T(!new)>(s: set<T>): (l: seq<T>)
    ensures multiset(l) == multiset(s)
  {
    if s == {} then []
    else
      var x :| x in s;
      assert multiset(s) == multiset(s - {x}) + multiset{x};
      Listed(s - {x}) + [x]
  }

  ghost function SortedSet<T(!new)>(less: (T, T) -> bool, s: set<T>): seq<T>
  {
    Sort(less, Listed(s))
  }

  lemma SortedSetOrders<T(!new)>(less: (T, T) -> bool, s: set<T>)
    requires Sortable(less)
    ensures Ordered(less, SortedSet(less, s))
    ensures multiset(SortedSet(less, s)) == multiset(s)
    ensures |SortedSet(less, s)| == |s|
  {
    SortOrders(less, Listed(s));
    SortPermutes(less, Listed(s));
    assert |multiset(Listed(s))| == |multiset(s)|;
  }

  /** Any ordered listing of a set without ties is the one listing. */
  lemma OrderedListing<T(!new)>(less: (T, T) -> bool, s: set<T>, l: seq<T>)
    requires Sortable(less) && Decisive(less)
    requires Ordered(less, l) && multiset(l) == multiset(s)
    ensures l == SortedSet(less, s)
  {
    SortedSetOrders(less, s);
    OrderedUnique(less, l, SortedSet(less, s));
  }

  lemma {:induction false} ListingIsDistinct<T(!new)>(s: set<T>, l: seq<T>)
    requires multiset(l) == multiset(s)
    ensures forall i, j :: 0 <= i < j < |l| ==> l[i] != l[j]
    ensures forall x :: x in l <==> x in s
  {
    forall x ensures x in l <==> x in s {
      assert x in l <==> x in multiset(l);
    }
    forall i, j | 0 <= i < j < |l| ensures l[i] != l[j] {
      assert l == l[..i] + [l[i]] + l[i + 1..j] + [l[j]] + l[j + 1..];
      assert multiset(l)[l[i]] <= 1;
    }
  }

  // ---------- rearrangements ----------

  lemma WithoutOne<T>(y: seq<T>, k: nat)
    requires k < |y|
    ensures multiset(y[..k] + y[k + 1..]) + multiset{y[k]} == multiset(y)
  {
    assert y == y[..k] + [y[k]] + y[k + 1..];
  }

  /** Two arrangements of the same elements: the first of one, taken out of the other. */
  lemma TakeSame<T>(x: seq<T>, y: seq<T>) returns (k: nat)
    requires x != [] && multiset(x) == multiset(y)
    ensures k < |y| && y[k] == x[0]
    ensures multiset(x[1..]) == multiset(y[..k] + y[k + 1..])
  {
    assert x[0] in multiset(y);
    k :| 0 <= k < |y| && y[k] == x[0];
    WithoutOne(y, k);
    assert x == [x[0]] + x[1..];
    var u, v := multiset(x[1..]), multiset(y[..k] + y[k + 1..]);
    assert u == (u + multiset{x[0]}) - multiset{x[0]} && v == (v + multiset{x[0]}) - multiset{x[0]};
  }

  function MapSeq<A, B>(f: A -> B, s: seq<A>): (r: seq<B>)
    ensures |r| == |s|
    ensures forall i :: 0 <= i < |s| ==> r[i] == f(s[i])
  {
    seq(|s|, i requires 0 <= i < |s| => f(s[i]))
  }

  lemma MapWithoutOne<A, B>(f: A -> B, y: seq<A>, k: nat)
    requires k < |y|
    ensures multiset(MapSeq(f, y)) == multiset(MapSeq(f, y[..k] + y[k + 1..])) + multiset{f(y[k])}
  {
    var d := MapSeq(f, y);
    WithoutOne(d, k);
    assert MapSeq(f, y[..k] + y[k + 1..]) == d[..k] + d[k + 1..];
  }

  /** Rearranging the arguments rearranges the results. */
  lemma {:induction false} MapPermutes<A, B>(f: A -> B, x: seq<A>, y: seq<A>)
    requires multiset(x) == multiset(y)
    ensures multiset(MapSeq(f, x)) == multiset(MapSeq(f, y))
    decreases |x|
  {
    hide MapSeq;
    assert |multiset(x)| == |multiset(y)|;
    if x == [] {
      assert x == y;
    } else {
      var k := TakeSame(x, y);
      assert x[..0] + x[1..] == x[1..];
      MapWithoutOne(f, x, 0);
      MapWithoutOne(f, y, k);
      MapPermutes(f, x[1..], y[..k] + y[k + 1..]);
    }
  }
}
