/** Sums over the values of a map: multisets joined, and naturals added. */
module Sums {

  ghost function Sum<K(!new), E(!new)>(m: map<K, multiset<E>>): multiset<E>
  {
    if m == map[] then multiset{}
    else
      var k :| k in m;
      m[k] + Sum(m - {k})
  }

  lemma {:induction false} SumRemove<K(!new), E(!new)>(m: map<K, multiset<E>>, k: K)
    requires k in m
    ensures Sum(m) == Sum(m - {k}) + m[k]
    decreases |m|
  {
    var j :| j in m && Sum(m) == m[j] + Sum(m - {j});
    if j != k {
      SumRemove(m - {j}, k);
      assert m - {j} - {k} == m - {k} - {j};
      SumRemove(m - {k}, j);
    }
  }

  /** Setting one key replaces its contribution. */
  lemma SumSet<K(!new), E(!new)>(m: map<K, multiset<E>>, k: K, v: multiset<E>)
    ensures Sum(m[k := v]) == Sum(m - {k}) + v
  {
    SumRemove(m[k := v], k);
    assert m[k := v] - {k} == m - {k};
  }

  lemma SumInsert<K(!new), E(!new)>(m: map<K, multiset<E>>, k: K, v: multiset<E>)
    requires k !in m
    ensures Sum(m[k := v]) == Sum(m) + v
  {
    SumSet(m, k, v);
    assert m - {k} == m;
  }

  lemma SumSwap<K(!new), E(!new)>(m: map<K, multiset<E>>, k: K, v: multiset<E>)
    ensures Sum(m[k := v]) + (if k in m then m[k] else multiset{}) == Sum(m) + v
  {
    SumSet(m, k, v);
    if k in m {
      SumRemove(m, k);
    } else {
      assert m - {k} == m;
    }
  }

  lemma DropFromSecond<K, V>(a: map<K, V>, b: map<K, V>, k: K)
    requires k in b && k !in a
    ensures k in a + b && (a + b)[k] == b[k]
    ensures a + b - {k} == a + (b - {k})
  {
  }

  /** Sums over disjoint maps add up. */
  lemma {:induction false} SumDisjoint<K(!new), E(!new)>(a: map<K, multiset<E>>, b: map<K, multiset<E>>)
    requires a.Keys !! b.Keys
    ensures Sum(a + b) == Sum(a) + Sum(b)
    decreases |b|
  {
    hide Sum;
    if b == map[] {
      assert a + b == a;
      SumEmpty<K, E>();
    } else {
      var k :| k in b;
      SumDisjoint(a, b - {k});
      DropFromSecond(a, b, k);
      JoinLast(a, b, k);
    }
  }

  lemma JoinLast<K(!new), E(!new)>(a: map<K, multiset<E>>, b: map<K, multiset<E>>, k: K)
    requires k in b && k in a + b && (a + b)[k] == b[k] && a + b - {k} == a + (b - {k})
    requires Sum(a + (b - {k})) == Sum(a) + Sum(b - {k})
    ensures Sum(a + b) == Sum(a) + Sum(b)
  {
    hide Sum;
    SumRemove(b, k);
    SumRemove(a + b, k);
  }

  lemma SumEmpty<K(!new), E(!new)>()
    ensures Sum<K, E>(map[]) == multiset{}
  {
  }

  function Restrict<K, V>(m: map<K, V>, ks: set<K>): map<K, V>
  {
    map k | k in m && k in ks :: m[k]
  }

  lemma SumHas<K(!new), E(!new)>(m: map<K, multiset<E>>, k: K, e: E)
    requires k in m && e in m[k]
    ensures e in Sum(m)
  {
    SumRemove(m, k);
  }

  ghost function Total<K(!new)>(m: map<K, nat>): nat
  {
    if m == map[] then 0
    else
      var k :| k in m;
      m[k] + Total(m - {k})
  }

  lemma {:induction false} TotalRemove<K(!new)>(m: map<K, nat>, k: K)
    requires k in m
    ensures Total(m) == Total(m - {k}) + m[k]
    decreases |m|
  {
    var j :| j in m && Total(m) == m[j] + Total(m - {j});
    if j != k {
      TotalRemove(m - {j}, k);
      assert m - {j} - {k} == m - {k} - {j};
      TotalRemove(m - {k}, j);
    }
  }

  lemma TotalSet<K(!new)>(m: map<K, nat>, k: K, v: nat)
    ensures Total(m[k := v]) == Total(m - {k}) + v
    ensures Total(m[k := v]) + (if k in m then m[k] else 0) == Total(m) + v
  {
    TotalRemove(m[k := v], k);
    assert m[k := v] - {k} == m - {k};
    if k in m {
      TotalRemove(m, k);
    } else {
      assert m - {k} == m;
    }
  }

  lemma Cancel<E>(a: multiset<E>, b: multiset<E>, c: multiset<E>)
    requires a + c == b + c
    ensures a == b
  {
    assert a == (a + c) - c && b == (b + c) - c;
  }
}
