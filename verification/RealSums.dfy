/** Sums over the entries of a map, whatever the order in which they are visited. */
module RealSums {

  ghost function SumOver(m: map<int, real>, s: set<int>): real
    requires s <= m.Keys
  {
    if x: int :| x in s then m[x] + SumOver(m, s - {x}) else 0.0
  }

  ghost function Total(m: map<int, real>): real {
    SumOver(m, m.Keys)
  }

  /** The sum does not depend on which element is taken first. */
  lemma {:induction false} SumWithout(m: map<int, real>, s: set<int>, x: int)
    requires s <= m.Keys && x in s
    ensures SumOver(m, s) == m[x] + SumOver(m, s - {x})
    decreases s
  {
    var y :| y in s && SumOver(m, s) == m[y] + SumOver(m, s - {y});
    if y != x {
      SumWithout(m, s - {y}, x);
      SumWithout(m, s - {x}, y);
      assert s - {y} - {x} == s - {x} - {y};
    }
  }

  lemma {:induction false} SumSame(m: map<int, real>, n: map<int, real>, s: set<int>)
    requires s <= m.Keys && s <= n.Keys && forall x :: x in s ==> m[x] == n[x]
    ensures SumOver(m, s) == SumOver(n, s)
    decreases s
  {
    if x :| x in s {
      SumWithout(m, s, x);
      SumWithout(n, s, x);
      SumSame(m, n, s - {x});
    }
  }

  /** Adding to one entry, or making a new one, adds to the total. */
  lemma TotalAdd(m: map<int, real>, k: int, v: real)
    ensures Total(m[k := (if k in m then m[k] else 0.0) + v]) == Total(m) + v
  {
    var n := m[k := (if k in m then m[k] else 0.0) + v];
    SumWithout(n, n.Keys, k);
    assert n.Keys - {k} == m.Keys - {k};
    SumSame(m, n, m.Keys - {k});
    if k in m {
      SumWithout(m, m.Keys, k);
    } else {
      assert m.Keys - {k} == m.Keys;
    }
  }

  lemma SumAdd(m: map<int, real>, s: set<int>, x: int)
    requires s <= m.Keys && x in m && x !in s
    ensures SumOver(m, s + {x}) == SumOver(m, s) + m[x]
  {
    SumWithout(m, s + {x}, x);
    assert s + {x} - {x} == s;
  }
}
