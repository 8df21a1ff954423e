/** pkg/ccTopology/ccTopology.go: the hardware threads of a node and their groupings, and the second implementation
    of the groupings in internal/metricAggregator/metricAggregatorFunctions.go. */
module Topology {
  import opened Common
  import opened Sequences
  import opened SortedLists

  datatype HwthreadEntry = HwthreadEntry(
    cpuID: int, smt: int, coreCPUsList: seq<int>, core: int, socket: int, die: int, numaDomain: int)

  /** What sysfs says about one hardware thread; -1 where a file cannot be read. coreCPUsList is empty if its file
      cannot be read. */
  datatype SysInfo = SysInfo(core: int, socket: int, die: int, coreCPUsList: seq<int>, numaDomain: int)

  /** The columns of the table. */
  datatype Field = CpuID | SmtID | CoreID | SocketID | DieID | NumaID

  function Get(e: HwthreadEntry, f: Field): int {
    match f
    case CpuID => e.cpuID
    case SmtID => e.smt
    case CoreID => e.core
    case SocketID => e.socket
    case DieID => e.die
    case NumaID => e.numaDomain
  }

  datatype TopologyType = Node | Socket | Die | MemoryDomain | Core | Hwthread | Unknown

  /** Position of v in s, -1 if it does not occur. */
  function Index(s: seq<int>, v: int): (i: int)
    ensures -1 <= i < |s|
    ensures i >= 0 ==> s[i] == v && v !in s[..i]
    ensures i < 0 ==> v !in s
  {
    if s == [] then -1
    else
      var n := |s| - 1;
      assert s == s[..n] + [s[n]];
      var i := Index(s[..n], v);
      if i >= 0 then (assert s[..n][..i] == s[..i]; i) else if s[n] == v then n else -1
  }

  function DieOf(i: SysInfo): int {
    if i.die < 0 then i.socket else i.die
  }

  function EntryOf(cpu: int, i: SysInfo): HwthreadEntry {
    HwthreadEntry(cpu, Index(i.coreCPUsList, cpu), i.coreCPUsList, i.core, i.socket, DieOf(i), i.numaDomain)
  }

  function Entries(cpus: seq<int>, sysfs: int -> SysInfo): (es: seq<HwthreadEntry>)
    ensures |es| == |cpus|
  {
    seq(|cpus|, i requires 0 <= i < |cpus| => EntryOf(cpus[i], sysfs(cpus[i])))
  }

  /** One column of the table. */
  function Column(es: seq<HwthreadEntry>, field: Field): (c: seq<int>)
    ensures |c| == |es|
  {
    seq(|es|, i requires 0 <= i < |es| => Get(es[i], field))
  }

  /** The id of a hardware thread within each kind of grouping; Unknown is the error case. */
  function GetTypeId(e: HwthreadEntry, t: TopologyType): Option<int> {
    match t
    case Node => Some(0)
    case Socket => Some(e.socket)
    case Die => Some(e.die)
    case MemoryDomain => Some(e.numaDomain)
    case Core => Some(e.core)
    case Hwthread => Some(e.cpuID)
    case Unknown => None
  }

  /** CPU ids of the entries with a given value in a field, in table order. */
  function Group(es: seq<HwthreadEntry>, field: Field, id: int): seq<int> {
    if es == [] then []
    else
      var n := |es| - 1;
      Group(es[..n], field, id) + (if Get(es[n], field) == id then [es[n].cpuID] else [])
  }

  /** The field of the first entry of a CPU, -1 if there is none. */
  function FieldOf(es: seq<HwthreadEntry>, field: Field, cpu: int): int {
    if es == [] then -1 else if es[0].cpuID == cpu then Get(es[0], field) else FieldOf(es[1..], field, cpu)
  }

  /** The loop of init over the sorted hardware threads: one entry each in the table and in every column. */
  method FillColumns(hwthreads: seq<int>, sysfs: int -> SysInfo)
    returns (core: seq<int>, socket: seq<int>, die: seq<int>, smt: seq<int>, numa: seq<int>, data: seq<HwthreadEntry>)
    ensures data == Entries(hwthreads, sysfs)
    ensures core == Column(data, CoreID) && socket == Column(data, SocketID) && die == Column(data, DieID)
    ensures smt == Column(data, SmtID) && numa == Column(data, NumaID)
  {
    core, socket, die, smt, numa, data := [], [], [], [], [], [];
    for i := 0 to |hwthreads|
      invariant |core| == |socket| == |die| == |smt| == |numa| == |data| == i
      invariant forall k :: 0 <= k < i ==> data[k] == EntryOf(hwthreads[k], sysfs(hwthreads[k]))
      invariant forall k :: 0 <= k < i ==>
        core[k] == data[k].core && socket[k] == data[k].socket && die[k] == data[k].die
        && smt[k] == data[k].smt && numa[k] == data[k].numaDomain
    {
      var c := hwthreads[i];
      var info := sysfs(c);
      core := core + [info.core];
      socket := socket + [info.socket];
      die := die + [info.die];
      if die[i] < 0 {
        die := die[i := socket[i]];
      }
      smt := smt + [Index(info.coreCPUsList, c)];
      numa := numa + [info.numaDomain];
      data := data + [HwthreadEntry(c, smt[i], info.coreCPUsList, core[i], socket[i], die[i], numa[i])];
    }
  }

  /** The distinct values of a column in ascending order. */
  ghost predicate ListsValues(list: seq<int>, column: seq<int>) {
    StrictlyIncreasing(list) && forall v :: v in list <==> v in column
  }

  /** slices.Sort and slices.Compact on one list. */
  method SortAndCompact(column: seq<int>) returns (list: seq<int>)
    ensures ListsValues(list, column)
  {
    SortCompact(column);
    list := Compact(Sort(column));
  }

  lemma CpuColumn(hwthreads: seq<int>, sysfs: int -> SysInfo)
    ensures Column(Entries(hwthreads, sysfs), CpuID) == hwthreads
  {
  }

  /** The lists kept by the package. */
  class Cache {
    var hwthreadList: seq<int>
    var smtList: seq<int>
    var coreList: seq<int>
    var socketList: seq<int>
    var dieList: seq<int>
    var numaDomainList: seq<int>
    var cpuData: seq<HwthreadEntry>

    /** Every list holds the distinct values of its column in ascending order. */
    ghost predicate Valid()
      reads this
    {
      && Lists(hwthreadList, CpuID) && Lists(smtList, SmtID) && Lists(coreList, CoreID)
      && Lists(socketList, SocketID) && Lists(dieList, DieID) && Lists(numaDomainList, NumaID)
    }

    ghost predicate Lists(list: seq<int>, field: Field)
      reads this
    {
      ListsValues(list, Column(cpuData, field))
    }

    /** The package's init: the ids of the hardware threads in the order of the directory listing, and what sysfs
        says about each of them. */
    constructor (found: seq<int>, sysfs: int -> SysInfo)
      ensures Valid() && cpuData == Entries(Sort(found), sysfs)
    {
      var hwthreads := Sort(found);
      var core, socket, die, smt, numa, data := FillColumns(hwthreads, sysfs);
      CpuColumn(hwthreads, sysfs);
      cpuData := data;
      var hwthreadIds := SortAndCompact(hwthreads);
      var smtIds := SortAndCompact(smt);
      var coreIds := SortAndCompact(core);
      var socketIds := SortAndCompact(socket);
      var dieIds := SortAndCompact(die);
      var numaIds := SortAndCompact(numa);
      hwthreadList, smtList, coreList := hwthreadIds, smtIds, coreIds;
      socketList, dieList, numaDomainList := socketIds, dieIds, numaIds;
    }

    // ----- the queries -----

    function GetTypeList(t: TopologyType): seq<int>
      reads this
    {
      match t
      case Node => [0]
      case Socket => socketList
      case Die => if |dieList| > 0 then dieList else socketList
      case MemoryDomain => numaDomainList
      case Core => coreList
      case Hwthread => hwthreadList
      case Unknown => []
    }

    function GetTypeHwthreads(t: TopologyType, id: int): seq<int>
      reads this
    {
      match t
      case Node => hwthreadList
      case Socket => Group(cpuData, SocketID, id)
      case Die => Group(cpuData, DieID, id)
      case MemoryDomain => Group(cpuData, NumaID, id)
      case Core => Group(cpuData, CoreID, id)
      case Hwthread => [id]
      case Unknown => []
    }

    /** GetSocketHwthreads, GetNumaDomainHwthreads, GetDieHwthreads and GetCoreHwthreads, by the field they compare. */
    method GetHwthreads(field: Field, id: int) returns (cpuList: seq<int>)
      ensures cpuList == Group(cpuData, field, id)
    {
      cpuList := [];
      for i := 0 to |cpuData|
        invariant cpuList == Group(cpuData[..i], field, id)
      {
        assert cpuData[..i + 1][..i] == cpuData[..i];
        if Get(cpuData[i], field) == id {
          cpuList := cpuList + [cpuData[i].cpuID];
        }
      }
      assert cpuData[..|cpuData|] == cpuData;
    }

    /** GetHwthreadSocket, GetHwthreadNumaDomain, GetHwthreadDie and GetHwthreadCore. */
    method GetHwthread(field: Field, cpuID: int) returns (id: int)
      ensures id == FieldOf(cpuData, field, cpuID)
    {
      for i := 0 to |cpuData|
        invariant FieldOf(cpuData, field, cpuID) == FieldOf(cpuData[i..], field, cpuID)
      {
        if cpuData[i].cpuID == cpuID {
          return Get(cpuData[i], field);
        }
      }
      return -1;
    }
  }

  // ----- the groups partition the hardware threads -----

  predicate ByColumn(t: TopologyType) {
    t.Socket? || t.Die? || t.MemoryDomain? || t.Core?
  }

  /** The column a kind of grouping goes by. */
  function FieldFor(t: TopologyType): Field
    requires ByColumn(t)
  {
    match t
    case Socket => SocketID
    case Die => DieID
    case MemoryDomain => NumaID
    case Core => CoreID
  }

  predicate DistinctCpus(es: seq<HwthreadEntry>) {
    forall i, j :: 0 <= i < j < |es| ==> es[i].cpuID != es[j].cpuID
  }

  lemma {:induction false} GroupMembers(es: seq<HwthreadEntry>, field: Field, id: int, cpu: int)
    ensures cpu in Group(es, field, id) <==> exists i :: 0 <= i < |es| && es[i].cpuID == cpu && Get(es[i], field) == id
  {
    if es != [] {
      var n := |es| - 1;
      GroupMembers(es[..n], field, id, cpu);
      if i :| 0 <= i < |es| && es[i].cpuID == cpu && Get(es[i], field) == id {
        if i < n { assert es[..n][i] == es[i]; }
      }
    }
  }

  lemma {:induction false} GroupDistinct(es: seq<HwthreadEntry>, field: Field, id: int)
    requires DistinctCpus(es)
    ensures NoDuplicates(Group(es, field, id))
  {
    if es != [] {
      var n := |es| - 1;
      GroupDistinct(es[..n], field, id);
      GroupMembers(es[..n], field, id, es[n].cpuID);
    }
  }

  lemma {:induction false} FieldOfEntry(es: seq<HwthreadEntry>, field: Field, i: nat)
    requires DistinctCpus(es) && i < |es|
    ensures FieldOf(es, field, es[i].cpuID) == Get(es[i], field)
  {
    if i > 0 {
      FieldOfEntry(es[1..], field, i - 1);
    }
  }

  lemma InColumn(es: seq<HwthreadEntry>, field: Field, i: nat)
    requires i < |es|
    ensures Get(es[i], field) in Column(es, field)
  {
    assert Column(es, field)[i] == Get(es[i], field);
  }

  lemma ColumnMembership(es: seq<HwthreadEntry>, field: Field, i: nat, id: int)
    requires DistinctCpus(es) && i < |es|
    ensures es[i].cpuID in Group(es, field, id) <==> Get(es[i], field) == id
  {
    GroupMembers(es, field, id, es[i].cpuID);
  }

  /** Membership in a group agrees with GetTypeId and, for the four groupings by a column, with GetHwthread*. */
  lemma MembershipAgrees(c: Cache, t: TopologyType, i: nat, id: int)
    requires c.Valid() && DistinctCpus(c.cpuData) && i < |c.cpuData| && !t.Unknown?
    requires id in c.GetTypeList(t)
    ensures c.cpuData[i].cpuID in c.GetTypeHwthreads(t, id) <==> GetTypeId(c.cpuData[i], t) == Some(id)
    ensures ByColumn(t) ==> Some(FieldOf(c.cpuData, FieldFor(t), c.cpuData[i].cpuID)) == GetTypeId(c.cpuData[i], t)
  {
    if ByColumn(t) {
      ColumnMembership(c.cpuData, FieldFor(t), i, id);
      FieldOfEntry(c.cpuData, FieldFor(t), i);
    } else {
      InColumn(c.cpuData, CpuID, i);
    }
  }

  lemma IdInTypeList(c: Cache, t: TopologyType, i: nat)
    requires c.Valid() && i < |c.cpuData| && !t.Unknown?
    ensures GetTypeId(c.cpuData[i], t).Some? && GetTypeId(c.cpuData[i], t).value in c.GetTypeList(t)
  {
    InColumn(c.cpuData, CpuID, i);
    InColumn(c.cpuData, CoreID, i);
    InColumn(c.cpuData, SocketID, i);
    InColumn(c.cpuData, DieID, i);
    InColumn(c.cpuData, NumaID, i);
  }

  /** For every kind of grouping, the groups over GetTypeList partition the hardware threads: no id and no member is
      listed twice, members are hardware threads, and every hardware thread is in the group of exactly one id. */
  lemma GroupsPartition(c: Cache, t: TopologyType, cpu: int)
    requires c.Valid() && DistinctCpus(c.cpuData) && !t.Unknown?
    ensures NoDuplicates(c.GetTypeList(t))
    ensures forall id :: id in c.GetTypeList(t) ==> NoDuplicates(c.GetTypeHwthreads(t, id))
    ensures cpu in c.hwthreadList ==>
              exists id :: id in c.GetTypeList(t) && cpu in c.GetTypeHwthreads(t, id)
                && forall other :: other in c.GetTypeList(t) && cpu in c.GetTypeHwthreads(t, other) ==> other == id
    ensures cpu !in c.hwthreadList ==> forall id :: id in c.GetTypeList(t) ==> cpu !in c.GetTypeHwthreads(t, id)
  {
    forall id | id in c.GetTypeList(t) ensures NoDuplicates(c.GetTypeHwthreads(t, id)) {
      if ByColumn(t) {
        GroupDistinct(c.cpuData, FieldFor(t), id);
      }
    }
    if cpu in c.hwthreadList {
      assert cpu in Column(c.cpuData, CpuID);
      var i :| 0 <= i < |c.cpuData| && Column(c.cpuData, CpuID)[i] == cpu;
      IdInTypeList(c, t, i);
      var id := GetTypeId(c.cpuData[i], t).value;
      MembershipAgrees(c, t, i, id);
      forall other | other in c.GetTypeList(t) && cpu in c.GetTypeHwthreads(t, other) ensures other == id {
        MembershipAgrees(c, t, i, other);
      }
    } else {
      forall id | id in c.GetTypeList(t) ensures cpu !in c.GetTypeHwthreads(t, id) {
        NotListed(c, t, id, cpu);
      }
    }
  }

  lemma NotListed(c: Cache, t: TopologyType, id: int, cpu: int)
    requires c.Valid() && cpu !in c.hwthreadList && id in c.GetTypeList(t)
    ensures cpu !in c.GetTypeHwthreads(t, id)
  {
    if ByColumn(t) {
      GroupMembers(c.cpuData, FieldFor(t), id, cpu);
      if i :| 0 <= i < |c.cpuData| && c.cpuData[i].cpuID == cpu {
        InColumn(c.cpuData, CpuID, i);
      }
    }
  }

  /** Distinct directories give distinct entries. */
  lemma DistinctFound(found: seq<int>, sysfs: int -> SysInfo)
    requires NoDuplicates(found)
    ensures DistinctCpus(Entries(Sort(found), sysfs))
  {
    CountsOf(found);
    CountsOf(Sort(found));
  }

  /** The entry of a hardware thread that was found. */
  lemma {:induction false} FoundAt(found: seq<int>, sysfs: int -> SysInfo, cpu: int) returns (i: nat)
    requires cpu in found
    ensures i < |Entries(Sort(found), sysfs)| && Entries(Sort(found), sysfs)[i].cpuID == cpu
  {
    SameElements(Sort(found), found);
    assert cpu in Sort(found);
    i :| 0 <= i < |Sort(found)| && Sort(found)[i] == cpu;
  }

  lemma SameElements(a: seq<int>, b: seq<int>)
    requires multiset(a) == multiset(b)
    ensures forall v :: v in a <==> v in b
  {
    forall v ensures v in a <==> v in b {
      assert v in a <==> v in multiset(a);
      assert v in b <==> v in multiset(b);
    }
  }

  /** From sysfs to the answers of the package: what GetHwthread* returns for a hardware thread that was found is what
      sysfs says about it; a missing die is the socket. */
  lemma AnswersAreSysfs(c: Cache, found: seq<int>, sysfs: int -> SysInfo, cpu: int)
    requires NoDuplicates(found) && cpu in found && c.cpuData == Entries(Sort(found), sysfs)
    ensures FieldOf(c.cpuData, CoreID, cpu) == sysfs(cpu).core
    ensures FieldOf(c.cpuData, SocketID, cpu) == sysfs(cpu).socket
    ensures FieldOf(c.cpuData, DieID, cpu) == if sysfs(cpu).die < 0 then sysfs(cpu).socket else sysfs(cpu).die
    ensures FieldOf(c.cpuData, NumaID, cpu) == sysfs(cpu).numaDomain
    ensures cpu in sysfs(cpu).coreCPUsList ==>
              var smt := FieldOf(c.cpuData, SmtID, cpu);
              0 <= smt < |sysfs(cpu).coreCPUsList| && sysfs(cpu).coreCPUsList[smt] == cpu
              && cpu !in sysfs(cpu).coreCPUsList[..smt]
  {
    DistinctFound(found, sysfs);
    var i := FoundAt(found, sysfs, cpu);
    FieldOfEntry(c.cpuData, CoreID, i);
    FieldOfEntry(c.cpuData, SocketID, i);
    FieldOfEntry(c.cpuData, DieID, i);
    FieldOfEntry(c.cpuData, NumaID, i);
    FieldOfEntry(c.cpuData, SmtID, i);
  }

  /** The CPUs of a group are those found for which sysfs names the group. */
  lemma GroupsAreSysfs(c: Cache, found: seq<int>, sysfs: int -> SysInfo, id: int, cpu: int)
    requires c.Valid() && NoDuplicates(found) && c.cpuData == Entries(Sort(found), sysfs)
    ensures cpu in c.GetTypeHwthreads(Node, id) <==> cpu in found
    ensures cpu in c.GetTypeHwthreads(Socket, id) <==> cpu in found && sysfs(cpu).socket == id
    ensures cpu in c.GetTypeHwthreads(Die, id) <==>
            cpu in found && (if sysfs(cpu).die < 0 then sysfs(cpu).socket else sysfs(cpu).die) == id
    ensures cpu in c.GetTypeHwthreads(MemoryDomain, id) <==> cpu in found && sysfs(cpu).numaDomain == id
    ensures cpu in c.GetTypeHwthreads(Core, id) <==> cpu in found && sysfs(cpu).core == id
    ensures cpu in c.GetTypeHwthreads(Hwthread, id) <==> cpu == id
  {
    hide Sort, Entries, Group, Column, StrictlyIncreasing, NoDuplicates;
    SameElements(Sort(found), found);
    GroupIsField(c.cpuData, found, sysfs, SocketID, id, cpu);
    GroupIsField(c.cpuData, found, sysfs, DieID, id, cpu);
    GroupIsField(c.cpuData, found, sysfs, NumaID, id, cpu);
    GroupIsField(c.cpuData, found, sysfs, CoreID, id, cpu);
    CpuColumn(Sort(found), sysfs);
  }

  lemma EntryAt(found: seq<int>, sysfs: int -> SysInfo, i: nat)
    requires i < |Sort(found)|
    ensures var e := Entries(Sort(found), sysfs)[i]; e.cpuID in found && e == EntryOf(e.cpuID, sysfs(e.cpuID))
  {
    SameElements(Sort(found), found);
    assert Sort(found)[i] in Sort(found);
  }

  lemma GroupIsField(es: seq<HwthreadEntry>, found: seq<int>, sysfs: int -> SysInfo, field: Field, id: int, cpu: int)
    requires es == Entries(Sort(found), sysfs)
    ensures cpu in Group(es, field, id) <==> cpu in found && Get(EntryOf(cpu, sysfs(cpu)), field) == id
  {
    hide Sort, Group, EntryOf, Get;
    GroupMembers(es, field, id, cpu);
    if cpu in found {
      var i := FoundAt(found, sysfs, cpu);
      EntryAt(found, sysfs, i);
    }
    if i :| 0 <= i < |es| && es[i].cpuID == cpu && Get(es[i], field) == id {
      EntryAt(found, sysfs, i);
    }
  }

  // ----- the aggregator's own groupings -----

  /** getCpuListOfCoreFunc, getCpuListOfSocketFunc, getCpuListOfNumaDomainFunc and getCpuListOfDieFunc. An argument
      that is not an int gives the empty list. */
  method GetCpuListOf(c: Cache, field: Field, arg: Option<int>) returns (cpulist: seq<int>)
    ensures cpulist == if arg.Some? then Group(c.cpuData, field, arg.value) else []
  {
    cpulist := [];
    if arg.Some? {
      var data := c.cpuData;
      for i := 0 to |data|
        invariant cpulist == Group(data[..i], field, arg.value)
      {
        assert data[..i + 1][..i] == data[..i];
        if Get(data[i], field) == arg.value {
          cpulist := cpulist + [data[i].cpuID];
        }
      }
      assert data[..|data|] == data;
    }
  }

  /** An argument of a function in an expression. */
  datatype Arg = IntArg(i: int) | Int64Arg(i: int) | StringArg(s: string) | OtherArg

  function IntOf(a: Arg): Option<int> {
    if a.IntArg? then Some(a.i) else None
  }

  /** A list, a list together with an error, or an index out of range. */
  datatype Answer = Answer(cpulist: seq<int>, error: bool) | Panic

  /** getCpuListOfType. A hwthread id given as a string is never parsed: it is used as the format of a scan of the
      standard input into something that is no pointer, which always fails. */
  method GetCpuListOfType(c: Cache, args: seq<Arg>) returns (answer: Answer)
    ensures answer ==
      if args == [] then Panic
      else if args[0] == StringArg("node") then Answer(c.GetTypeHwthreads(Node, 0), false)
      else if args[0] == StringArg("socket") then Listed(c, Socket, args)
      else if args[0] == StringArg("numadomain") then Listed(c, MemoryDomain, args)
      else if args[0] == StringArg("core") then Listed(c, Core, args)
      else if args[0] == StringArg("hwthread") then
        if |args| == 1 then Panic
        else Answer(if args[1].IntArg? || args[1].Int64Arg? then c.GetTypeHwthreads(Hwthread, args[1].i) else [], true)
      else Answer([], true)
  {
    if args == [] { return Panic; }
    var list: seq<int> := [];
    if args[0].StringArg? {
      var typ := args[0].s;
      if typ == "node" {
        return Answer(c.hwthreadList, false);
      } else if typ == "socket" {
        if |args| == 1 { return Panic; }
        list := GetCpuListOf(c, SocketID, IntOf(args[1]));
        return Answer(list, false);
      } else if typ == "numadomain" {
        if |args| == 1 { return Panic; }
        list := GetCpuListOf(c, NumaID, IntOf(args[1]));
        return Answer(list, false);
      } else if typ == "core" {
        if |args| == 1 { return Panic; }
        list := GetCpuListOf(c, CoreID, IntOf(args[1]));
        return Answer(list, false);
      } else if typ == "hwthread" {
        if |args| == 1 { return Panic; }
        match args[1]
        case IntArg(id) => list := [id];
        case Int64Arg(id) => list := [id];
        case StringArg(_) =>
        case OtherArg =>
      }
    }
    return Answer(list, true);
  }

  /** The group of an int id as the topology package gives it; an empty list for an id of another type. */
  function Listed(c: Cache, t: TopologyType, args: seq<Arg>): Answer
    requires args != []
    reads c
  {
    if |args| == 1 then Panic
    else Answer(if args[1].IntArg? then c.GetTypeHwthreads(t, args[1].i) else [], false)
  }
}
