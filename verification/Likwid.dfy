/** collectors/likwidMetric.go: the id maps, the storing of counter results and the totals per core, socket and
    node. The LIKWID library and the expression evaluator are functions handed in. */
module Likwid {
  import opened Common
  import opened RealSums
  import opened Sequences
  import opened SortedLists
  import opened Text
  import opened Topology

  /** A floating-point number that may be NaN. */
  datatype Value = Number(r: real) | NotANumber

  datatype Outcome = Computed(value: Value) | Failed

  type Params = map<string, Value>

  datatype Message = Message(name: string, kind: TopologyType, id: Option<int>, value: real)

  datatype Metric = Metric(
    name: string, formula: string, kind: TopologyType, publish: bool,
    sendCoreTotal: bool, sendSocketTotal: bool, sendNodeTotal: bool)

  /** Reading a Go map: a missing key gives the zero value. */
  function Lookup(m: map<int, int>, k: int): int {
    if k in m then m[k] else 0
  }

  function LookupValue(m: map<int, Params>, tid: int, name: string): Value {
    if tid in m && name in m[tid] then m[tid][name] else Number(0.0)
  }

  /** A list of some keys, each once. */
  ghost predicate Lists<T(!new)>(order: seq<T>, keys: set<T>) {
    NoDuplicates(order) && forall k :: k in keys <==> k in order
  }

  /** The order in which Go's range visits the keys of a map is arbitrary. */
  method Visit<T(==, !new)>(keys: set<T>) returns (order: seq<T>)
    ensures Lists(order, keys)
  {
    order := [];
    var rest := keys;
    while rest != {}
      invariant rest <= keys && Lists(order, keys - rest)
      decreases |rest|
    {
      var k :| k in rest;
      order := order + [k];
      rest := rest - {k};
    }
  }

  function SetValue(m: map<int, Params>, tid: int, name: string, v: Value): (r: map<int, Params>)
    requires tid in m
    ensures r.Keys == m.Keys && LookupValue(r, tid, name) == v
    ensures forall t :: t != tid ==> LookupValue(r, t, name) == LookupValue(m, t, name)
  {
    m[tid := m[tid][name := v]]
  }

  // ----- the event string -----

  /** Byte order of strings. */
  predicate NameLeq(a: string, b: string) {
    a == [] || (b != [] && (a[0] < b[0] || (a[0] == b[0] && NameLeq(a[1..], b[1..]))))
  }

  lemma {:induction false} NameTotal(a: string, b: string)
    ensures NameLeq(a, b) || NameLeq(b, a)
  {
    if a != [] && b != [] { NameTotal(a[1..], b[1..]); }
  }

  lemma {:induction false} NameTransitive(a: string, b: string, c: string)
    requires NameLeq(a, b) && NameLeq(b, c)
    ensures NameLeq(a, c)
  {
    if a != [] && a[0] == b[0] && b[0] == c[0] { NameTransitive(a[1..], b[1..], c[1..]); }
  }

  predicate NamesOrdered(s: seq<string>) {
    forall i, j :: 0 <= i < j < |s| ==> NameLeq(s[i], s[j])
  }

  method InsertName(s: seq<string>, name: string) returns (r: seq<string>)
    requires NamesOrdered(s)
    ensures NamesOrdered(r) && multiset(r) == multiset(s) + multiset{name}
  {
    var i := |s|;
    while i > 0 && !NameLeq(s[i - 1], name)
      invariant 0 <= i <= |s|
      invariant forall j :: i <= j < |s| ==> NameLeq(name, s[j])
    {
      NameTotal(s[i - 1], name);
      i := i - 1;
    }
    r := s[..i] + [name] + s[i..];
    InsertedAt(s, i, name);
    assert s == s[..i] + s[i..];
  }

  lemma InsertedAt(s: seq<string>, i: nat, name: string)
    requires NamesOrdered(s) && i <= |s| && (i > 0 ==> NameLeq(s[i - 1], name))
    requires forall j :: i <= j < |s| ==> NameLeq(name, s[j])
    ensures NamesOrdered(s[..i] + [name] + s[i..])
  {
    forall j | 0 <= j < i ensures NameLeq(s[j], name) {
      if j < i - 1 { NameTransitive(s[j], s[i - 1], name); }
    }
    var r := s[..i] + [name] + s[i..];
    forall p, q | 0 <= p < q < |r| ensures NameLeq(r[p], r[q]) {
      InsertedElement(s, i, name, p);
      InsertedElement(s, i, name, q);
    }
  }

  /** slices.Sort on strings. */
  method SortNames(names: seq<string>) returns (sorted: seq<string>)
    ensures NamesOrdered(sorted) && multiset(sorted) == multiset(names)
  {
    sorted := [];
    for k := 0 to |names|
      invariant NamesOrdered(sorted) && multiset(sorted) == multiset(names[..k])
    {
      assert names[..k + 1] == names[..k] + [names[k]];
      sorted := InsertName(sorted, names[k]);
    }
    assert names[..|names|] == names;
  }

  lemma ListsSorted(a: seq<string>, b: seq<string>, keys: set<string>)
    requires Lists(a, keys) && multiset(a) == multiset(b)
    ensures Lists(b, keys)
  {
    forall i, j | 0 <= i < j < |b| ensures b[i] != b[j] {
      if b[i] == b[j] {
        assert b == b[..j] + [b[j]] + b[j + 1..];
        assert b[i] in b[..j];
        assert multiset(b)[b[i]] >= 2;
        CountsOf(a);
      }
    }
    forall v ensures v in keys <==> v in b {
      assert v in a <==> v in multiset(a);
      assert v in b <==> v in multiset(b);
    }
  }

  predicate Plain(s: string) {
    ',' !in s && ':' !in s
  }

  ghost predicate NoCommas(events: map<string, string>) {
    forall c :: c in events ==> ',' !in c && ',' !in events[c]
  }

  /** genLikwidEventSet: the i-th event of the event string belongs to the i-th counter of the list. */
  method GenEventString(events: map<string, string>) returns (eorder: seq<string>, estr: string)
    ensures Lists(eorder, events.Keys) && NamesOrdered(eorder)
    ensures NoCommas(events) && eorder != [] ==>
      var pieces := Split(estr, ',');
      |pieces| == |eorder| && forall i :: 0 <= i < |pieces| ==> pieces[i] == events[eorder[i]] + [':'] + eorder[i]
  {
    var clist := Visit(events.Keys);
    eorder := SortNames(clist);
    ListsSorted(clist, eorder, events.Keys);
    var pieces: seq<string> := [];
    for i := 0 to |eorder|
      invariant |pieces| == i
      invariant forall j :: 0 <= j < i ==> pieces[j] == events[eorder[j]] + [':'] + eorder[j]
    {
      pieces := pieces + [events[eorder[i]] + [':'] + eorder[i]];
    }
    estr := Join(pieces, ',');
    if NoCommas(events) && eorder != [] {
      forall j | 0 <= j < |pieces| ensures ',' !in pieces[j] {
        assert eorder[j] in events;
      }
      JoinSplits(pieces, ',');
    }
  }

  /** An event without colons is read off its piece again, and so is the counter. */
  lemma PieceReadBack(event: string, counter: string)
    requires Plain(event) && Plain(counter)
    ensures Split(event + [':'] + counter, ':') == [event, counter]
  {
    SplitFirst(event, ':', counter);
    SplitOne(counter, ':');
  }

  // ----- the id maps -----

  predicate SameIds(hwthreads: seq<int>, data: seq<HwthreadEntry>) {
    && StrictlyIncreasing(hwthreads)
    && |data| == |hwthreads| && forall i :: 0 <= i < |data| ==> data[i].cpuID == hwthreads[i]
  }

  /** From CPU id to LIKWID thread id: the position in the list. */
  ghost predicate IsTidMap(m: map<int, int>, hwthreads: seq<int>) {
    && (forall c :: c in m ==> c in hwthreads)
    && forall i :: 0 <= i < |hwthreads| ==> hwthreads[i] in m && m[hwthreads[i]] == i
  }

  /** From CPU id to core id and to socket id. */
  ghost predicate AreGroupMaps(cores: map<int, int>, sockets: map<int, int>, data: seq<HwthreadEntry>) {
    forall i :: 0 <= i < |data| ==>
      && data[i].cpuID in cores && cores[data[i].cpuID] == CoreOf(data[i])
      && data[i].cpuID in sockets && sockets[data[i].cpuID] == data[i].socket
  }

  function CoreOf(e: HwthreadEntry): int {
    if e.coreCPUsList != [] then e.coreCPUsList[0] else e.cpuID
  }

  predicate Identity(hwthreads: seq<int>) {
    forall i :: 0 <= i < |hwthreads| ==> hwthreads[i] == i
  }

  lemma {:induction false} CountsUp(hwthreads: seq<int>, i: nat)
    requires StrictlyIncreasing(hwthreads) && i <= |hwthreads|
    requires forall k :: 0 <= k < |hwthreads| ==> hwthreads[k] >= 0
    requires forall k :: 0 <= k < |hwthreads| ==> k in hwthreads
    ensures forall k :: 0 <= k < i ==> hwthreads[k] == k
  {
    if i > 0 {
      CountsUp(hwthreads, i - 1);
      var k := i - 1;
      assert k in hwthreads;
      var j :| 0 <= j < |hwthreads| && hwthreads[j] == k;
      assert j >= k;
      assert hwthreads[k] >= k by {
        if k > 0 { assert hwthreads[k - 1] == k - 1; }
      }
      assert hwthreads[k] <= hwthreads[j];
    }
  }

  /** The results are kept by CPU id but stored by LIKWID thread id: every thread id has a place exactly if the CPU
      ids are 0, 1, ..., n - 1. */
  lemma ThreadIdsHavePlaces(hwthreads: seq<int>, cpu2tid: map<int, int>)
    requires StrictlyIncreasing(hwthreads) && forall i :: 0 <= i < |hwthreads| ==> hwthreads[i] >= 0
    requires IsTidMap(cpu2tid, hwthreads)
    ensures (forall c :: c in cpu2tid ==> cpu2tid[c] in hwthreads) <==> Identity(hwthreads)
  {
    if forall c :: c in cpu2tid ==> cpu2tid[c] in hwthreads {
      forall k | 0 <= k < |hwthreads| ensures k in hwthreads {
        assert cpu2tid[hwthreads[k]] == k;
      }
      CountsUp(hwthreads, |hwthreads|);
    }
    if Identity(hwthreads) {
      forall c | c in cpu2tid ensures cpu2tid[c] in hwthreads {
        var i :| 0 <= i < |hwthreads| && hwthreads[i] == c;
        assert hwthreads[cpu2tid[c]] == cpu2tid[c];
      }
    }
  }

  /** With CPU 1 of three offline, thread id 1 has no place. */
  lemma OfflineCpu()
    ensures var hwthreads := [0, 2]; var cpu2tid := map[0 := 0, 2 := 1];
      && IsTidMap(cpu2tid, hwthreads) && StrictlyIncreasing(hwthreads)
      && 2 in cpu2tid && cpu2tid[2] !in hwthreads
  {
  }

  /** Then every value is counted in the core and in the socket of its own CPU. */
  lemma OwnCoreAndSocket(hwthreads: seq<int>, data: seq<HwthreadEntry>,
                         cpu2tid: map<int, int>, cores: map<int, int>, sockets: map<int, int>, i: nat)
    requires SameIds(hwthreads, data) && Identity(hwthreads) && i < |data|
    requires IsTidMap(cpu2tid, hwthreads) && AreGroupMaps(cores, sockets, data)
    ensures Lookup(cores, Lookup(cpu2tid, data[i].cpuID)) ==
            if data[i].coreCPUsList == [] then data[i].cpuID else data[i].coreCPUsList[0]
    ensures Lookup(sockets, Lookup(cpu2tid, data[i].cpuID)) == data[i].socket
  {
    assert hwthreads[i] == i && cpu2tid[i] == i;
  }

  // ----- totals -----

  /** What the metric publishes: the values of the domains that have a number. */
  ghost function Published(metric: Metric, metrics: map<int, Params>, scope: map<int, int>): map<int, real> {
    map d | d in scope && Counted(metric, metrics, scope[d]) :: LookupValue(metrics, scope[d], metric.name).r
  }

  /** The same for the domains visited so far. */
  ghost function PublishedBy(metric: Metric, metrics: map<int, Params>, scope: map<int, int>, order: seq<int>)
    : (p: map<int, real>)
    requires forall d :: d in order ==> d in scope
    ensures forall d :: d in p ==> d in order
  {
    if order == [] then map[]
    else
      var n := |order| - 1;
      assert order == order[..n] + [order[n]];
      var d := order[n];
      assert d in order;
      var p := PublishedBy(metric, metrics, scope, order[..n]);
      if Counted(metric, metrics, scope[d]) then p[d := LookupValue(metrics, scope[d], metric.name).r] else p
  }

  lemma {:induction false} PublishedWhen(
    metric: Metric, metrics: map<int, Params>, scope: map<int, int>, order: seq<int>, d: int)
    requires forall e :: e in order ==> e in scope
    ensures d in PublishedBy(metric, metrics, scope, order) <==> d in order && Counted(metric, metrics, scope[d])
    ensures d in PublishedBy(metric, metrics, scope, order) ==>
      PublishedBy(metric, metrics, scope, order)[d] == LookupValue(metrics, scope[d], metric.name).r
  {
    if order != [] {
      var n := |order| - 1;
      assert order == order[..n] + [order[n]];
      PublishedWhen(metric, metrics, scope, order[..n], d);
    }
  }

  lemma PublishedByAll(metric: Metric, metrics: map<int, Params>, scope: map<int, int>, order: seq<int>)
    requires Lists(order, scope.Keys)
    ensures PublishedBy(metric, metrics, scope, order) == Published(metric, metrics, scope)
  {
    forall d
      ensures d in PublishedBy(metric, metrics, scope, order) <==> d in Published(metric, metrics, scope)
      ensures d in Published(metric, metrics, scope) ==>
        PublishedBy(metric, metrics, scope, order)[d] == Published(metric, metrics, scope)[d]
    {
      PublishedWhen(metric, metrics, scope, order, d);
    }
  }

  /** One more domain. */
  lemma PublishedStep(metric: Metric, metrics: map<int, Params>, scope: map<int, int>, order: seq<int>, i: nat)
    requires Lists(order, scope.Keys) && i < |order|
    ensures order[i] !in PublishedBy(metric, metrics, scope, order[..i])
    ensures PublishedBy(metric, metrics, scope, order[..i + 1])
         == if Counted(metric, metrics, scope[order[i]])
            then PublishedBy(metric, metrics, scope, order[..i])
                   [order[i] := LookupValue(metrics, scope[order[i]], metric.name).r]
            else PublishedBy(metric, metrics, scope, order[..i])
  {
    assert order[..i + 1][..i] == order[..i];
  }

  lemma {:induction false} PublishedSame(
    metric: Metric, a: map<int, Params>, b: map<int, Params>, scope: map<int, int>, order: seq<int>)
    requires forall d :: d in order ==> d in scope
    requires forall d :: d in order && scope[d] >= 0 && metric.formula != "" ==>
      LookupValue(a, scope[d], metric.name) == LookupValue(b, scope[d], metric.name)
    ensures PublishedBy(metric, a, scope, order) == PublishedBy(metric, b, scope, order)
  {
    if order != [] {
      var n := |order| - 1;
      assert order == order[..n] + [order[n]];
      PublishedSame(metric, a, b, scope, order[..n]);
    }
  }

  /** One more domain, whose value has just been stored. */
  lemma StoredStep(
    metric: Metric, before: map<int, Params>, value: Value, scope: map<int, int>, order: seq<int>, i: nat)
    requires Lists(order, scope.Keys) && i < |order| && scope[order[i]] in before
    requires scope[order[i]] >= 0 && metric.formula != ""
    requires forall d :: d in order[..i] && scope[d] == scope[order[i]] ==>
      LookupValue(before, scope[d], metric.name) == value
    ensures var after := SetValue(before, scope[order[i]], metric.name, value);
      var p := PublishedBy(metric, before, scope, order[..i]);
      && order[i] !in p
      && PublishedBy(metric, after, scope, order[..i + 1])
         == if value.Number? && metric.publish then p[order[i] := value.r] else p
  {
    var after := SetValue(before, scope[order[i]], metric.name, value);
    PublishedSame(metric, before, after, scope, order[..i]);
    PublishedStep(metric, after, scope, order, i);
  }

  predicate Counted(metric: Metric, metrics: map<int, Params>, tid: int) {
    tid >= 0 && metric.formula != "" && LookupValue(metrics, tid, metric.name).Number? && metric.publish
  }

  /** The members of one group. */
  ghost function Members(p: map<int, real>, g: int -> int, id: int): set<int> {
    set d | d in p && g(d) == id
  }

  /** For every group that has a member, the sum over its members. */
  ghost function GroupTotals(p: map<int, real>, g: int -> int): map<int, real> {
    map id | id in (set d | d in p :: g(d)) :: SumOver(p, Members(p, g, id))
  }

  /** The group a domain's value is counted in. */
  function GroupOf(scope: map<int, int>, group: map<int, int>): int -> int {
    d => Lookup(group, Lookup(scope, d))
  }

  function AddTo(totals: map<int, real>, id: int, v: real): map<int, real> {
    totals[id := (if id in totals then totals[id] else 0.0) + v]
  }

  lemma Member<T>(s: set<T>) returns (x: T)
    requires s != {}
    ensures x in s
  {
    x :| x in s;
  }

  lemma GroupKey(p: map<int, real>, g: int -> int, id: int)
    ensures id in GroupTotals(p, g) <==> Members(p, g, id) != {}
  {
    if Members(p, g, id) != {} {
      var d := Member(Members(p, g, id));
      assert g(d) == id;
    }
    if id in GroupTotals(p, g) {
      var d :| d in p && g(d) == id;
      assert d in Members(p, g, id);
    }
  }

  /** One more member. */
  lemma GroupAdd(p: map<int, real>, g: int -> int, d: int, v: real)
    requires d !in p
    ensures GroupTotals(p[d := v], g) == AddTo(GroupTotals(p, g), g(d), v)
  {
    var q := p[d := v];
    forall id
      ensures id in GroupTotals(q, g) <==> id in GroupTotals(p, g) || id == g(d)
      ensures id in GroupTotals(q, g) ==> GroupTotals(q, g)[id] == AddTo(GroupTotals(p, g), g(d), v)[id]
    {
      GroupKey(p, g, id);
      GroupKey(q, g, id);
      GroupSum(p, g, d, v, id);
      if id != g(d) && id in GroupTotals(q, g) {
        assert id in GroupTotals(p, g);
      }
    }
  }

  lemma GroupSum(p: map<int, real>, g: int -> int, d: int, v: real, id: int)
    requires d !in p
    ensures Members(p[d := v], g, id) == if id == g(d) then Members(p, g, id) + {d} else Members(p, g, id)
    ensures SumOver(p[d := v], Members(p[d := v], g, id))
         == SumOver(p, Members(p, g, id)) + if id == g(d) then v else 0.0
  {
    var q := p[d := v];
    SumSame(p, q, Members(p, g, id));
    if id == g(d) {
      assert Members(q, g, id) == Members(p, g, id) + {d};
      SumAdd(q, Members(p, g, id), d);
    } else {
      assert Members(q, g, id) == Members(p, g, id);
    }
  }

  /** However the domains are grouped, the group totals add up to the sum of the published values. */
  lemma {:induction false} GroupsConserve(p: map<int, real>, g: int -> int)
    ensures Total(GroupTotals(p, g)) == Total(p)
    decreases |p|
  {
    if p.Keys != {} {
      var d := Member(p.Keys);
      var q := p - {d};
      GroupsConserve(q, g);
      TotalStep(p, q, g, d);
    } else {
      assert p == map[];
      assert GroupTotals(p, g) == map[];
    }
  }

  lemma TotalStep(p: map<int, real>, q: map<int, real>, g: int -> int, d: int)
    requires d in p && q == p - {d}
    ensures Total(p) == Total(q) + p[d]
    ensures Total(GroupTotals(p, g)) == Total(GroupTotals(q, g)) + p[d]
  {
    assert q[d := p[d]] == p;
    GroupAdd(q, g, d, p[d]);
    TotalAdd(GroupTotals(q, g), g(d), p[d]);
    TotalAdd(q, d, p[d]);
  }

  ghost function SumValues(out: seq<Message>): real {
    if out == [] then 0.0 else SumValues(out[..|out| - 1]) + out[|out| - 1].value
  }

  lemma SumValuesLast(out: seq<Message>, m: Message)
    ensures SumValues(out + [m]) == SumValues(out) + m.value
  {
    assert (out + [m])[..|out|] == out;
  }

  /** Messages of type node carry no id. */
  function TypeID(kind: TopologyType, id: int): Option<int> {
    if kind == Node then None else Some(id)
  }

  /** One message for every listed id. */
  function Listing(order: seq<int>, totals: map<int, real>, name: string, kind: TopologyType): seq<Message>
    requires forall id :: id in order ==> id in totals
  {
    seq(|order|, i requires 0 <= i < |order| => Message(name, kind, TypeID(kind, order[i]), totals[order[i]]))
  }

  /** One message for every entry, in some order, and no other. */
  ghost predicate Announces(out: seq<Message>, totals: map<int, real>, name: string, kind: TopologyType) {
    exists order :: Lists(order, totals.Keys) && out == Listing(order, totals, name, kind)
  }

  lemma ListingStep(sent: seq<int>, totals: map<int, real>, name: string, kind: TopologyType, id: int, v: real)
    requires Lists(sent, totals.Keys) && id !in totals
    ensures Lists(sent + [id], totals[id := v].Keys)
    ensures Listing(sent + [id], totals[id := v], name, kind)
         == Listing(sent, totals, name, kind) + [Message(name, kind, TypeID(kind, id), v)]
  {
  }

  lemma {:induction false} ListingSum(
    order: seq<int>, keys: set<int>, totals: map<int, real>, name: string, kind: TopologyType)
    requires Lists(order, keys) && keys <= totals.Keys
    ensures SumValues(Listing(order, totals, name, kind)) == SumOver(totals, keys)
    decreases |order|
  {
    if order == [] {
      assert keys == {};
    } else {
      var n := |order| - 1;
      var id := order[n];
      var first := order[..n];
      assert order == first + [id];
      ListingSum(first, keys - {id}, totals, name, kind);
      SumValuesLast(Listing(first, totals, name, kind), Message(name, kind, TypeID(kind, id), totals[id]));
      assert Listing(order, totals, name, kind)
          == Listing(first, totals, name, kind) + [Message(name, kind, TypeID(kind, id), totals[id])];
      SumWithout(totals, keys, id);
    }
  }

  /** The messages carry the total between them. */
  lemma AnnouncedSum(out: seq<Message>, totals: map<int, real>, name: string, kind: TopologyType)
    requires Announces(out, totals, name, kind)
    ensures SumValues(out) == Total(totals)
  {
    var order :| Lists(order, totals.Keys) && out == Listing(order, totals, name, kind);
    ListingSum(order, totals.Keys, totals, name, kind);
  }

  /** The messages per core or per socket carry the same sum as those per domain, whatever the id maps are. */
  lemma TotalsAgree(domains: seq<Message>, groups: seq<Message>, p: map<int, real>, g: int -> int,
                    name: string, kind: TopologyType, groupKind: TopologyType)
    requires Announces(domains, p, name, kind)
    requires Announces(groups, GroupTotals(p, g), name, groupKind)
    ensures SumValues(groups) == SumValues(domains) == Total(p)
  {
    AnnouncedSum(domains, p, name, kind);
    AnnouncedSum(groups, GroupTotals(p, g), name, groupKind);
    GroupsConserve(p, g);
  }

  /** The messages for a map of totals. */
  method SendTotals(name: string, kind: TopologyType, totals: map<int, real>) returns (out: seq<Message>)
    ensures Announces(out, totals, name, kind)
  {
    out := [];
    var order := Visit(totals.Keys);
    for i := 0 to |order|
      invariant out == Listing(order[..i], totals, name, kind)
    {
      out := out + [Message(name, kind, TypeID(kind, order[i]), totals[order[i]])];
    }
    assert order[..|order|] == order;
  }

  /** The values of one metric added up per group. */
  method SumGroups(metric: Metric, metrics: map<int, Params>, scope: map<int, int>, group: map<int, int>)
    returns (totals: map<int, real>)
    ensures totals == GroupTotals(Published(metric, metrics, scope), GroupOf(scope, group))
  {
    totals := map[];
    var order := Visit(scope.Keys);
    ghost var p: map<int, real> := map[];
    assert GroupTotals(p, GroupOf(scope, group)) == map[];
    for i := 0 to |order|
      invariant p == PublishedBy(metric, metrics, scope, order[..i])
      invariant totals == GroupTotals(p, GroupOf(scope, group))
    {
      var d := order[i];
      var tid := scope[d];
      PublishedStep(metric, metrics, scope, order, i);
      if tid >= 0 && metric.formula != "" {
        var id := Lookup(group, tid);
        var value := LookupValue(metrics, tid, metric.name);
        if value.Number? && metric.publish {
          GroupAdd(p, GroupOf(scope, group), d, value.r);
          totals := AddTo(totals, id, value.r);
          p := p[d := value.r];
        }
      }
    }
    assert order[..|order|] == order;
    PublishedByAll(metric, metrics, scope, order);
  }

  /** The values of one metric added up for the node. */
  method SumNode(metric: Metric, metrics: map<int, Params>, scope: map<int, int>) returns (total: real)
    ensures total == Total(Published(metric, metrics, scope))
  {
    total := 0.0;
    var order := Visit(scope.Keys);
    ghost var p: map<int, real> := map[];
    for i := 0 to |order|
      invariant p == PublishedBy(metric, metrics, scope, order[..i])
      invariant total == Total(p)
    {
      var d := order[i];
      var tid := scope[d];
      PublishedStep(metric, metrics, scope, order, i);
      if tid >= 0 && metric.formula != "" {
        var value := LookupValue(metrics, tid, metric.name);
        if value.Number? && metric.publish {
          TotalAdd(p, d, value.r);
          total := total + value.r;
          p := p[d := value.r];
        }
      }
    }
    assert order[..|order|] == order;
    PublishedByAll(metric, metrics, scope, order);
  }

  /** Stores one value for every thread id; writing to a missing entry is a panic. */
  method StoreForAll(results: map<int, Params>, tids: set<int>, name: string, value: int -> Value)
    returns (ok: bool, stored: map<int, Params>)
    ensures ok <==> tids <= results.Keys
    ensures ok ==> stored.Keys == results.Keys && forall t :: t in results ==>
      stored[t] == if t in tids then results[t][name := value(t)] else results[t]
  {
    stored := results;
    var order := Visit(tids);
    for i := 0 to |order|
      invariant forall j :: 0 <= j < i ==> order[j] in results
      invariant stored.Keys == results.Keys
      invariant forall t :: t in results ==>
        stored[t] == if t in order[..i] then results[t][name := value(t)] else results[t]
    {
      if order[i] !in stored {
        return false, stored;
      }
      stored := stored[order[i] := stored[order[i]][name := value(order[i])]];
    }
    ok := true;
  }

  /** The results of one thread after storing one value per counter. */
  function Stored(results: Params, eorder: seq<string>, value: nat -> Value): Params {
    if eorder == [] then results
    else Stored(results, eorder[..|eorder| - 1], value)[eorder[|eorder| - 1] := value(|eorder| - 1)]
  }

  /** Under each counter is the result at its position in the event string; nothing else changes. */
  lemma {:induction false} StoredInPlace(results: Params, eorder: seq<string>, value: nat -> Value, name: string)
    requires NoDuplicates(eorder)
    ensures forall k :: 0 <= k < |eorder| && eorder[k] == name ==>
      name in Stored(results, eorder, value) && Stored(results, eorder, value)[name] == value(k)
    ensures name !in eorder ==>
      && (name in Stored(results, eorder, value) <==> name in results)
      && (name in results ==> Stored(results, eorder, value)[name] == results[name])
  {
    if eorder != [] {
      var n := |eorder| - 1;
      assert eorder == eorder[..n] + [eorder[n]];
      StoredInPlace(results, eorder[..n], value, name);
    }
  }

  /** The id maps of Init. */
  method MapThreads(hwthreads: seq<int>) returns (cpu2tid: map<int, int>)
    requires StrictlyIncreasing(hwthreads)
    ensures IsTidMap(cpu2tid, hwthreads)
  {
    cpu2tid := map[];
    for i := 0 to |hwthreads|
      invariant forall c :: c in cpu2tid ==> c in hwthreads
      invariant forall j :: 0 <= j < i ==> hwthreads[j] in cpu2tid && cpu2tid[hwthreads[j]] == j
    {
      cpu2tid := cpu2tid[hwthreads[i] := i];
    }
  }

  method MapSockets(cpu2tid: map<int, int>, sockets: seq<int>, firstCpu: int -> Option<int>)
    returns (sock2tid: map<int, int>)
    ensures forall s :: s in sock2tid <==> s in sockets && firstCpu(s).Some?
    ensures forall s :: s in sock2tid ==> sock2tid[s] == Lookup(cpu2tid, firstCpu(s).value)
  {
    sock2tid := map[];
    for i := 0 to |sockets|
      invariant forall s :: s in sock2tid <==> s in sockets[..i] && firstCpu(s).Some?
      invariant forall s :: s in sock2tid ==> sock2tid[s] == Lookup(cpu2tid, firstCpu(s).value)
    {
      match firstCpu(sockets[i])
      case Some(cpu) => sock2tid := sock2tid[sockets[i] := Lookup(cpu2tid, cpu)];
      case None =>
    }
  }

  method MapGroups(data: seq<HwthreadEntry>) returns (tid2core: map<int, int>, tid2socket: map<int, int>)
    requires forall i, j :: 0 <= i < j < |data| ==> data[i].cpuID != data[j].cpuID
    ensures AreGroupMaps(tid2core, tid2socket, data)
  {
    tid2core, tid2socket := map[], map[];
    for i := 0 to |data|
      invariant AreGroupMaps(tid2core, tid2socket, data[..i])
    {
      tid2core := tid2core[data[i].cpuID := CoreOf(data[i])];
      tid2socket := tid2socket[data[i].cpuID := data[i].socket];
    }
    assert data[..|data|] == data;
  }

  class Eventset {
    const eorder: seq<string>
    var results: map<int, Params>
    var metrics: map<int, Params>

    constructor (events: map<string, string>, metricNames: seq<string>, hwthreads: seq<int>)
      ensures Lists(eorder, events.Keys)
      ensures results.Keys == metrics.Keys && forall c :: c in results <==> c in hwthreads
      ensures forall c :: c in results ==> metrics[c] == map[] && forall n ::
        && (n in results[c] <==> n in events || n in metricNames)
        && (n in results[c] ==> results[c][n] == Number(0.0))
    {
      var order, estr := GenEventString(events);
      var names := events.Keys + (set n | n in metricNames);
      var zero: map<string, Value> := map c | c in names :: Number(0.0);
      eorder := order;
      results := map c | c in hwthreads :: zero;
      metrics := map c | c in hwthreads :: map[];
    }
  }

  class LikwidCollector {
    const invalidToZero: bool
    const evaluate: (string, Params) -> Outcome
    var cpu2tid: map<int, int>
    var sock2tid: map<int, int>
    var tid2core: map<int, int>
    var tid2socket: map<int, int>

    /** The id maps; firstCpu is the first CPU of a socket as LIKWID knows it. */
    constructor (hwthreads: seq<int>, data: seq<HwthreadEntry>, sockets: seq<int>, firstCpu: int -> Option<int>,
                 invalidToZero: bool, evaluate: (string, Params) -> Outcome)
      requires SameIds(hwthreads, data)
      ensures IsTidMap(cpu2tid, hwthreads) && AreGroupMaps(tid2core, tid2socket, data)
      ensures forall s :: s in sock2tid <==> s in sockets && firstCpu(s).Some?
      ensures forall s :: s in sock2tid ==> sock2tid[s] == Lookup(cpu2tid, firstCpu(s).value)
      ensures this.invalidToZero == invalidToZero && this.evaluate == evaluate
    {
      var tids := MapThreads(hwthreads);
      var socks := MapSockets(tids, sockets, firstCpu);
      var cores, packages := MapGroups(data);
      cpu2tid, sock2tid, tid2core, tid2socket := tids, socks, cores, packages;
      this.invalidToZero := invalidToZero;
      this.evaluate := evaluate;
    }

    function Clean(v: Value): Value {
      if invalidToZero && v.NotANumber? then Number(0.0) else v
    }

    /** A failed evaluation counts as zero. */
    function Evaluated(metric: Metric, params: Params): Value {
      match evaluate(metric.formula, params)
      case Computed(v) => Clean(v)
      case Failed => Number(0.0)
    }

    /** The cleaned results of one thread. */
    function ResultsOf(last: (nat, int) -> Value, tid: int): nat -> Value {
      (k: nat) => Clean(last(k, tid))
    }

    /** Each counter gets the result at its position, taken as zero if it is invalid and the configuration asks for
        that; the name of the time is taken. */
    lemma ResultInPlace(results: Params, eorder: seq<string>, last: (nat, int) -> Value, seconds: Value, tid: int,
                        k: nat)
      requires NoDuplicates(eorder) && k < |eorder| && eorder[k] != "time"
      ensures var after := Stored(results, eorder, ResultsOf(last, tid))["time" := seconds];
              && eorder[k] in after && after["time"] == seconds
              && after[eorder[k]] == if last(k, tid).NotANumber? && invalidToZero then Number(0.0) else last(k, tid)
    {
      StoredInPlace(results, eorder, ResultsOf(last, tid), eorder[k]);
    }

    /** What a formula gives for a domain: nothing if it is not a number and not to be taken as zero. */
    function Result(metric: Metric, params: Params): Option<real> {
      match evaluate(metric.formula, params)
      case Failed => Some(0.0)
      case Computed(Number(r)) => Some(r)
      case Computed(NotANumber) => if invalidToZero then Some(0.0) else None
    }

    /** What SendDomains promises, domain by domain: a message goes out exactly if the metric is to be published and the
        formula gives a number for the domain's thread, and it carries that number. */
    lemma DomainMessage(metric: Metric, results: map<int, Params>, metrics: map<int, Params>, scope: map<int, int>,
                        out: seq<Message>, d: int)
      requires metric.formula != "" && metric.kind != Node && d in scope
      requires forall e :: e in scope && scope[e] >= 0 ==>
        scope[e] in results && LookupValue(metrics, scope[e], metric.name) == Evaluated(metric, results[scope[e]])
      requires Announces(out, Published(metric, metrics, scope), metric.name, metric.kind)
      ensures (exists m :: m in out && m.id == Some(d)) <==>
              metric.publish && scope[d] >= 0 && Result(metric, results[scope[d]]).Some?
      ensures forall m :: m in out && m.id == Some(d) ==>
                m.name == metric.name && m.kind == metric.kind && Some(m.value) == Result(metric, results[scope[d]])
    {
      var p := Published(metric, metrics, scope);
      var order :| Lists(order, p.Keys) && out == Listing(order, p, metric.name, metric.kind);
      if d in p {
        var i :| 0 <= i < |order| && order[i] == d;
        assert out[i].id == Some(d) && out[i] in out;
      }
      forall m | m in out && m.id == Some(d) ensures d in p && m.value == p[d] {
        var i :| 0 <= i < |out| && out[i] == m;
        assert order[i] == d && order[i] in order;
      }
    }

    /** Takes the last results of the group for every thread; writing to a missing entry is a panic. */
    method StoreCounters(es: Eventset, last: (nat, int) -> Value, seconds: Value) returns (ok: bool)
      modifies es
      ensures ok <==> cpu2tid.Values <= old(es.results).Keys
      ensures ok ==> es.results.Keys == old(es.results).Keys && es.metrics == old(es.metrics)
      ensures ok ==> forall tid :: tid in es.results ==>
        es.results[tid] == (
          if tid in cpu2tid.Values then Stored(old(es.results)[tid], es.eorder, ResultsOf(last, tid))["time" := seconds]
          else old(es.results)[tid])
    {
      var tids := cpu2tid.Values;
      for k := 0 to |es.eorder|
        invariant k > 0 ==> tids <= old(es.results).Keys
        invariant es.results.Keys == old(es.results).Keys && es.metrics == old(es.metrics)
        invariant forall tid :: tid in es.results ==>
          es.results[tid] == (
            if tid in tids then Stored(old(es.results)[tid], es.eorder[..k], ResultsOf(last, tid))
            else old(es.results)[tid])
      {
        assert es.eorder[..k + 1][..k] == es.eorder[..k];
        var stored;
        ok, stored := StoreForAll(es.results, tids, es.eorder[k], tid => ResultsOf(last, tid)(k));
        if !ok { return; }
        es.results := stored;
      }
      assert es.eorder[..|es.eorder|] == es.eorder;
      var times;
      ok, times := StoreForAll(es.results, tids, "time", tid => seconds);
      if ok { es.results := times; }
    }

    /** The thread of every domain in a list holds the metric's value. */
    ghost predicate HoldValues(metric: Metric, results: map<int, Params>, metrics: map<int, Params>,
                               scope: map<int, int>, ds: seq<int>)
      requires forall d :: d in ds ==> d in scope
    {
      forall d :: d in ds && scope[d] >= 0 ==>
        && scope[d] in results && scope[d] in metrics
        && LookupValue(metrics, scope[d], metric.name) == Evaluated(metric, results[scope[d]])
    }

    lemma OneMoreHolds(metric: Metric, results: map<int, Params>, metrics: map<int, Params>,
                       scope: map<int, int>, ds: seq<int>, i: nat)
      requires i < |ds| && ds[i] in scope && forall d :: d in ds ==> d in scope
      requires HoldValues(metric, results, metrics, scope, ds[..i])
      requires scope[ds[i]] in results && scope[ds[i]] in metrics
      ensures var tid := scope[ds[i]];
        var value := Evaluated(metric, results[tid]);
        HoldValues(metric, results, SetValue(metrics, tid, metric.name, value), scope, ds[..i + 1])
    {
      SplitAt(ds, i);
    }

    /** The values of one metric, one message for every domain that has a number. */
    method SendDomains(es: Eventset, metric: Metric, scope: map<int, int>) returns (ok: bool, out: seq<Message>)
      modifies es`metrics
      ensures ok <==> metric.formula == "" || forall d :: d in scope && scope[d] >= 0 ==>
                scope[d] in es.results && scope[d] in old(es.metrics)
      ensures ok && metric.formula != "" ==> forall d :: d in scope && scope[d] >= 0 ==>
        LookupValue(es.metrics, scope[d], metric.name) == Evaluated(metric, es.results[scope[d]])
      ensures ok ==> Announces(out, Published(metric, es.metrics, scope), metric.name, metric.kind)
    {
      out := [];
      var order := Visit(scope.Keys);
      ghost var p: map<int, real> := map[];
      ghost var sent: seq<int> := [];
      assert p == PublishedBy(metric, es.metrics, scope, order[..0]);
      assert out == Listing(sent, p, metric.name, metric.kind);
      hide PublishedBy, Listing;
      for i := 0 to |order|
        invariant es.metrics.Keys == old(es.metrics).Keys
        invariant metric.formula != "" ==> HoldValues(metric, es.results, es.metrics, scope, order[..i])
        invariant p == PublishedBy(metric, es.metrics, scope, order[..i])
        invariant Lists(sent, p.Keys) && out == Listing(sent, p, metric.name, metric.kind)
      {
        var d := order[i];
        var tid := scope[d];
        ghost var before := es.metrics;
        if tid >= 0 && metric.formula != "" {
          if tid !in es.results || tid !in es.metrics {
            return false, out;
          }
          var value := Evaluated(metric, es.results[tid]);
          OneMoreHolds(metric, es.results, es.metrics, scope, order, i);
          es.metrics := SetValue(es.metrics, tid, metric.name, value);
          StoredStep(metric, before, value, scope, order, i);
          if value.Number? && metric.publish {
            ListingStep(sent, p, metric.name, metric.kind, d, value.r);
            out := out + [Message(metric.name, metric.kind, TypeID(metric.kind, d), value.r)];
            sent, p := sent + [d], p[d := value.r];
          }
        } else {
          PublishedStep(metric, es.metrics, scope, order, i);
        }
      }
      assert order[..|order|] == order;
      PublishedByAll(metric, es.metrics, scope, order);
      ok := true;
    }

    /** One metric of an event set, in the order in which the messages are sent. */
    method CalcMetric(es: Eventset, metric: Metric)
      returns (ok: bool, domains: seq<Message>, cores: seq<Message>, sockets: seq<Message>, node: seq<Message>)
      modifies es`metrics
      ensures ok <==>
        var scope := if metric.kind == Socket then sock2tid else cpu2tid;
        metric.formula == "" || forall d :: d in scope && scope[d] >= 0 ==>
          scope[d] in es.results && scope[d] in old(es.metrics)
      ensures ok ==>
        var scope := if metric.kind == Socket then sock2tid else cpu2tid;
        var p := Published(metric, es.metrics, scope);
        && (metric.formula != "" ==> forall d :: d in scope && scope[d] >= 0 ==>
              scope[d] in es.results
              && LookupValue(es.metrics, scope[d], metric.name) == Evaluated(metric, es.results[scope[d]]))
        && Announces(domains, p, metric.name, metric.kind)
        && (if metric.sendCoreTotal
            then Announces(cores, GroupTotals(p, GroupOf(scope, tid2core)), metric.name, Core)
            else cores == [])
        && (if metric.sendSocketTotal
            then Announces(sockets, GroupTotals(p, GroupOf(scope, tid2socket)), metric.name, Socket)
            else sockets == [])
        && node == if metric.sendNodeTotal then [Message(metric.name, Node, None, Total(p))] else []
    {
      var scope := if metric.kind == Socket then sock2tid else cpu2tid;
      cores, sockets, node := [], [], [];
      ok, domains := SendDomains(es, metric, scope);
      if !ok { return; }
      if metric.sendCoreTotal {
        var totals := SumGroups(metric, es.metrics, scope, tid2core);
        cores := SendTotals(metric.name, Core, totals);
      }
      if metric.sendSocketTotal {
        var totals := SumGroups(metric, es.metrics, scope, tid2socket);
        sockets := SendTotals(metric.name, Socket, totals);
      }
      if metric.sendNodeTotal {
        var total := SumNode(metric, es.metrics, scope);
        node := [Message(metric.name, Node, None, total)];
      }
    }
  }
}
