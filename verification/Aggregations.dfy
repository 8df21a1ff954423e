/** internal/metricAggregator/metricAggregator.go: AddAggregation and DeleteAggregation on the list of aggregations. */
module Aggregations {
  import opened Common
  import Evaluables

  type Tags = map<string, string>

  /** The contents of one aggregation. */
  datatype Spec<P> = Spec(
    name: string, condition: string, function_: string, tags: Tags, meta: Tags, gvalCond: P, gvalFunc: P)

  /** First position of a name, the length of the list if it does not occur. */
  function Find<P>(list: seq<Spec<P>>, name: string): (i: nat)
    ensures i <= |list|
    ensures i < |list| ==> list[i].name == name
    ensures forall j :: 0 <= j < i ==> list[j].name != name
  {
    if list == [] then 0 else if list[0].name == name then 0 else 1 + Find(list[1..], name)
  }

  /** Replaces the first aggregation of that name, or appends. */
  function Added<P>(list: seq<Spec<P>>, a: Spec<P>): seq<Spec<P>> {
    var i := Find(list, a.name);
    if i < |list| then list[i := a] else list + [a]
  }

  /** Without the first aggregation of that name. */
  function Deleted<P>(list: seq<Spec<P>>, name: string): seq<Spec<P>> {
    var i := Find(list, name);
    if i < |list| then list[..i] + list[i + 1..] else list
  }

  predicate UniqueNames<P>(list: seq<Spec<P>>) {
    forall i, j :: 0 <= i < j < |list| ==> list[i].name != list[j].name
  }

  lemma FindIs<P>(list: seq<Spec<P>>, name: string, i: nat)
    requires i <= |list| && (i < |list| ==> list[i].name == name)
    requires forall j :: 0 <= j < i ==> list[j].name != name
    ensures Find(list, name) == i
  {
  }

  lemma FoundExactly<P>(list: seq<Spec<P>>, name: string)
    ensures Find(list, name) < |list| <==> exists a :: a in list && a.name == name
  {
    if Find(list, name) < |list| { assert list[Find(list, name)] in list; }
  }

  /** Adding keeps names unique, and afterwards the list holds exactly the new aggregation under its name. */
  lemma AddedHolds<P>(list: seq<Spec<P>>, a: Spec<P>)
    requires UniqueNames(list)
    ensures UniqueNames(Added(list, a))
    ensures forall b :: b in Added(list, a) <==> b == a || (b in list && b.name != a.name)
  {
    var i, r := Find(list, a.name), Added(list, a);
    forall b ensures b in r <==> b == a || (b in list && b.name != a.name) {
      if b in list && b.name != a.name {
        var k :| 0 <= k < |list| && list[k] == b;
        assert r[k] == b;
      }
      if b == a { assert r[i] == a; }
      if b in r {
        var k :| 0 <= k < |r| && r[k] == b;
        if k != i { assert r[k] == list[k]; }
      }
    }
  }

  /** Deleting keeps names unique and the order of the others, and afterwards nothing has the name. */
  lemma DeletedHolds<P>(list: seq<Spec<P>>, name: string)
    requires UniqueNames(list)
    ensures UniqueNames(Deleted(list, name))
    ensures forall b :: b in Deleted(list, name) <==> b in list && b.name != name
  {
    var i, r := Find(list, name), Deleted(list, name);
    forall b ensures b in r <==> b in list && b.name != name {
      if b in list && b.name != name {
        var k :| 0 <= k < |list| && list[k] == b;
        assert r[if k < i then k else k - 1] == b;
      }
      if b in r {
        var k :| 0 <= k < |r| && r[k] == b;
        assert r[k] == list[if k < i then k else k + 1];
      }
    }
  }

  /** Deleting undoes adding a new name. */
  lemma AddDelete<P>(list: seq<Spec<P>>, a: Spec<P>)
    requires Find(list, a.name) == |list|
    ensures Deleted(Added(list, a), a.name) == list
  {
    FindIs(Added(list, a), a.name, |list|);
  }

  /** Adding twice under one name is adding the second. */
  lemma AddAdd<P>(list: seq<Spec<P>>, a: Spec<P>, b: Spec<P>)
    requires a.name == b.name
    ensures Added(Added(list, a), b) == Added(list, b)
  {
    FindIs(Added(list, a), a.name, Find(list, a.name));
  }

  class Aggregation<P> {
    var name: string
    var condition: string
    var function_: string
    var tags: Tags
    var meta: Tags
    var gvalCond: P
    var gvalFunc: P

    constructor (s: Spec<P>)
      ensures Contents() == s
    {
      name, condition, function_, tags, meta := s.name, s.condition, s.function_, s.tags, s.meta;
      gvalCond, gvalFunc := s.gvalCond, s.gvalFunc;
    }

    function Contents(): Spec<P>
      reads this
    {
      Spec(name, condition, function_, tags, meta, gvalCond, gvalFunc)
    }

    method Overwrite(name: string, condition: string, function_: string, tags: Tags, meta: Tags, cond: P, func: P)
      modifies this
      ensures Contents() == Spec(name, condition, function_, tags, meta, cond, func)
    {
      this.name := name;
      this.condition := condition;
      this.function_ := function_;
      this.tags := tags;
      this.meta := meta;
      this.gvalCond := cond;
      this.gvalFunc := func;
    }
  }

  function ViewOf<P>(functions: seq<Aggregation<P>>): (list: seq<Spec<P>>)
    reads functions
    ensures |list| == |functions| && forall i :: 0 <= i < |functions| ==> list[i] == functions[i].Contents()
  {
    seq(|functions|, i requires 0 <= i < |functions| reads functions => functions[i].Contents())
  }

  /** The list holds each object once. */
  ghost predicate Distinct<P>(functions: seq<Aggregation<P>>) {
    forall i, j :: 0 <= i < j < |functions| ==> functions[i] != functions[j]
  }

  ghost predicate Shows<P>(functions: seq<Aggregation<P>>, list: seq<Spec<P>>)
    reads functions
  {
    |list| == |functions| && forall i :: 0 <= i < |functions| ==> list[i] == functions[i].Contents()
  }

  lemma RemovedShows<P>(functions: seq<Aggregation<P>>, list: seq<Spec<P>>, i: nat)
    requires i < |functions| && Shows(functions, list) && Distinct(functions)
    ensures Shows(functions[..i] + functions[i + 1..], list[..i] + list[i + 1..])
    ensures Distinct(functions[..i] + functions[i + 1..])
  {
  }

  lemma OverwrittenShows<P>(functions: seq<Aggregation<P>>, list: seq<Spec<P>>, i: nat, s: Spec<P>)
    requires i < |functions| == |list| && functions[i].Contents() == s
    requires forall j :: 0 <= j < |functions| && j != i ==> list[j] == functions[j].Contents()
    ensures Shows(functions, list[i := s])
  {
  }

  lemma ShownIsView<P>(functions: seq<Aggregation<P>>, list: seq<Spec<P>>)
    ensures Shows(functions, list) <==> list == ViewOf(functions)
  {
  }

  class MetricAggregator<P> {
    const compile: string -> Option<P>
    var functions: seq<Aggregation<P>>

    constructor (compile: string -> Option<P>)
      ensures this.compile == compile && functions == [] && Valid() && View() == []
    {
      this.compile := compile;
      functions := [];
    }

    ghost predicate Valid()
      reads this
    {
      Distinct(functions)
    }

    function View(): (list: seq<Spec<P>>)
      reads this, functions
      ensures |list| == |functions|
    {
      ViewOf(functions)
    }

    /** The condition is compiled first; nothing changes if either text does not compile. */
    method AddAggregation(name: string, function_: string, condition: string, tags: Tags, meta: Tags)
      returns (ok: bool)
      requires Valid()
      modifies this`functions, functions
      ensures Valid()
      ensures
        var cond := Evaluables.ReplaceAll(condition, '\'', '"');
        var func := Evaluables.ReplaceAll(function_, '\'', '"');
        match (compile(cond), compile(func))
        case (Some(c), Some(f)) => ok && View() == Added(old(View()), Spec(name, cond, func, tags, meta, c, f))
        case _ => !ok && functions == old(functions) && View() == old(View())
    {
      var newfunc := Evaluables.ReplaceAll(function_, '\'', '"');
      var newcond := Evaluables.ReplaceAll(condition, '\'', '"');
      var gvalCond := compile(newcond);
      if gvalCond.None? { return false; }
      var gvalFunc := compile(newfunc);
      if gvalFunc.None? { return false; }
      ghost var s := Spec(name, newcond, newfunc, tags, meta, gvalCond.value, gvalFunc.value);
      ghost var before := View();
      for i := 0 to |functions|
        invariant functions == old(functions) && Shows(functions, before)
        invariant forall j :: 0 <= j < i ==> before[j].name != name
      {
        var agg := functions[i];
        if agg.name == name {
          FindIs(before, name, i);
          agg.Overwrite(name, newcond, newfunc, tags, meta, gvalCond.value, gvalFunc.value);
          OverwrittenShows(functions, before, i, s);
          ShownIsView(functions, before[i := s]);
          return true;
        }
      }
      FindIs(before, name, |before|);
      var agg := new Aggregation(Spec(name, newcond, newfunc, tags, meta, gvalCond.value, gvalFunc.value));
      functions := functions + [agg];
      ShownIsView(functions, before + [s]);
      ok := true;
    }

    /** slices.IndexFunc over the names; the length of the list stands for -1. */
    method IndexOf(name: string) returns (i: nat)
      ensures i == Find(View(), name)
    {
      i := 0;
      while i < |functions| && functions[i].name != name
        invariant i <= |functions|
        invariant forall j :: 0 <= j < i ==> View()[j].name != name
      {
        assert View()[i] == functions[i].Contents();
        i := i + 1;
      }
      assert i < |functions| ==> View()[i] == functions[i].Contents();
      FindIs(View(), name, i);
    }

    method DeleteAggregation(name: string) returns (ok: bool)
      requires Valid()
      modifies this`functions
      ensures Valid()
      ensures ok <==> exists a :: a in old(View()) && a.name == name
      ensures View() == Deleted(old(View()), name)
    {
      var i := IndexOf(name);
      FoundExactly(View(), name);
      if i == |functions| { return false; }
      ghost var was, before := functions, View();
      ShownIsView(functions, before);
      functions := functions[..i] + functions[i + 1..];
      RemovedShows(was, before, i);
      ShownIsView(functions, before[..i] + before[i + 1..]);
      ok := true;
    }
  }
}
