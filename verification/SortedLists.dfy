/** slices.Sort and slices.Compact on lists of ids. */
module SortedLists {

  predicate Ordered(s: seq<int>) {
    forall i, j :: 0 <= i < j < |s| ==> s[i] <= s[j]
  }

  predicate StrictlyIncreasing(s: seq<int>) {
    forall i, j :: 0 <= i < j < |s| ==> s[i] < s[j]
  }

  function Insert(s: seq<int>, v: int): (r: seq<int>)
    ensures multiset(r) == multiset(s) + multiset{v}
  {
    if s == [] then [v]
    else if s[|s| - 1] <= v then s + [v]
    else
      assert s == s[..|s| - 1] + [s[|s| - 1]];
      Insert(s[..|s| - 1], v) + [s[|s| - 1]]
  }

  function Sort(s: seq<int>): (r: seq<int>)
    ensures multiset(r) == multiset(s)
  {
    if s == [] then []
    else
      assert s == s[..|s| - 1] + [s[|s| - 1]];
      Insert(Sort(s[..|s| - 1]), s[|s| - 1])
  }

  /** Drops every element equal to its predecessor. */
  function Compact(s: seq<int>): (r: seq<int>)
    ensures forall v :: v in r <==> v in s
    ensures s != [] ==> r != [] && r[|r| - 1] == s[|s| - 1]
  {
    if |s| <= 1 then s
    else
      var n := |s| - 1;
      assert s == s[..n] + [s[n]];
      if s[n - 1] == s[n] then Compact(s[..n]) else Compact(s[..n]) + [s[n]]
  }

  lemma {:induction false} InsertOrdered(s: seq<int>, v: int)
    requires Ordered(s)
    ensures Ordered(Insert(s, v))
  {
    if s != [] && s[|s| - 1] > v {
      var n := |s| - 1;
      InsertOrdered(s[..n], v);
      var r := Insert(s[..n], v);
      forall i | 0 <= i < |r| ensures r[i] <= s[n] {
        assert r[i] in multiset(r);
        assert r[i] == v || r[i] in s[..n];
      }
    }
  }

  lemma {:induction false} SortOrdered(s: seq<int>)
    ensures Ordered(Sort(s))
  {
    if s != [] {
      SortOrdered(s[..|s| - 1]);
      InsertOrdered(Sort(s[..|s| - 1]), s[|s| - 1]);
    }
  }

  lemma {:induction false} CompactIncreasing(s: seq<int>)
    requires Ordered(s)
    ensures StrictlyIncreasing(Compact(s))
  {
    if |s| > 1 {
      var n := |s| - 1;
      CompactIncreasing(s[..n]);
    }
  }

  lemma SameElements(a: seq<int>, b: seq<int>, v: int)
    requires multiset(a) == multiset(b)
    ensures v in a <==> v in b
  {
    assert v in a <==> v in multiset(a);
    assert v in b <==> v in multiset(b);
  }

  /** Sorting and compacting gives the distinct elements in ascending order. */
  lemma SortCompact(s: seq<int>)
    ensures StrictlyIncreasing(Compact(Sort(s)))
    ensures forall v :: v in Compact(Sort(s)) <==> v in s
  {
    SortOrdered(s);
    CompactIncreasing(Sort(s));
    forall v ensures v in Compact(Sort(s)) <==> v in s {
      SameElements(Sort(s), s, v);
    }
  }
}
