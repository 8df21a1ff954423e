/** collectors/cpufreqCpuinfoMetric.go: the records assembled from /proc/cpuinfo in Init and looked up by position
    in Read. */
module CpuInfo {
  import opened Common
  import opened Sequences
  import opened Text

  datatype Line = MHz(text: string) | Processor(id: string) | CoreID(id: string) | PhysicalID(id: string) | Other

  datatype Record = Record(isHT: bool, processor: string, package: string)

  datatype Message = Message(processor: string, package: string, value: real)

  /** Lines that do not consist of two parts are ignored. */
  function LineOf(s: string): Line {
    var parts := Split(s, ':');
    if |parts| != 2 then Other
    else
      var key, value := TrimSpace(parts[0]), TrimSpace(parts[1]);
      if key == "cpu MHz" then MHz(parts[1])
      else if key == "processor" then Processor(value)
      else if key == "core id" then CoreID(value)
      else if key == "physical id" then PhysicalID(value)
      else Other
  }

  function Lines(text: seq<string>): (ls: seq<Line>) {
    seq(|text|, i requires 0 <= i < |text| => LineOf(text[i]))
  }

  predicate NoColon(s: string) {
    ':' !in s
  }

  lemma SplitLine(key: string, pad: string, rest: string)
    requires NoColon(key) && AllSpace(pad) && NoColon(rest)
    ensures Split(key + pad + ":" + rest, ':') == [key + pad, rest]
  {
    SplitFirst(key + pad, ':', rest);
    SplitOne(rest, ':');
  }

  /** The lines of the file that matter: a key, a colon and a value, with any white space around the colon. */
  lemma LinesRead(pad: string, space: string, value: string)
    requires AllSpace(pad) && AllSpace(space) && NoColon(value) && Trimmed(value)
    ensures LineOf("processor" + pad + ":" + space + value) == Processor(value)
    ensures LineOf("physical id" + pad + ":" + space + value) == PhysicalID(value)
    ensures LineOf("core id" + pad + ":" + space + value) == CoreID(value)
    ensures LineOf("cpu MHz" + pad + ":" + space + value) == MHz(space + value)
    ensures TrimSpace(space + value) == value
  {
    KeyRead("processor", pad, space, value);
    KeyRead("physical id", pad, space, value);
    KeyRead("core id", pad, space, value);
    KeyRead("cpu MHz", pad, space, value);
    hide Split, TrimSpace;
  }

  /** Any other key is passed over. */
  lemma OtherLine(key: string, pad: string, space: string, value: string)
    requires AllSpace(pad) && AllSpace(space) && NoColon(value) && Trimmed(value) && NoColon(key) && Trimmed(key)
    requires key != "processor" && key != "physical id" && key != "core id" && key != "cpu MHz"
    ensures LineOf(key + pad + ":" + space + value) == Other
  {
    KeyRead(key, pad, space, value);
    hide Split, TrimSpace;
  }

  lemma KeyRead(key: string, pad: string, space: string, value: string)
    requires AllSpace(pad) && AllSpace(space) && NoColon(value) && Trimmed(value) && NoColon(key) && Trimmed(key)
    ensures Split(key + pad + ":" + space + value, ':') == [key + pad, space + value]
    ensures TrimSpace(key + pad) == key && TrimSpace(space + value) == value
  {
    hide Split, TrimSpace;
    Associative(key + pad + ":", space, value);
    SplitLine(key, pad, space + value);
    TrimPadded([], key, pad);
    TrimPadded(space, value, []);
    assert [] + key + pad == key + pad && space + value + [] == space + value;
  }

  lemma {:induction false} TrimKeeps(s: string, c: char)
    requires c !in s
    ensures c !in TrimSpace(s)
    decreases |s|
  {
    if s == [] {
    } else if Space(s[0]) {
      TrimKeeps(s[1..], c);
    } else if Space(s[|s| - 1]) {
      TrimKeeps(s[..|s| - 1], c);
    }
  }

  /** The values contain no colon. */
  lemma ValuesPlain(s: string)
    ensures Plain(LineOf(s))
  {
    var parts := Split(s, ':');
    if |parts| == 2 {
      SplitPieces(s, ':', parts[1]);
      TrimKeeps(parts[1], ':');
    }
  }

  function GlobalID(package: string, core: string): string {
    package + ":" + core
  }

  /** The joined key identifies the package and the core. */
  lemma KeyInjective(p: string, c: string, p': string, c': string)
    requires NoColon(p) && NoColon(c) && NoColon(p') && NoColon(c')
    ensures GlobalID(p, c) == GlobalID(p', c') <==> p == p' && c == c'
  {
    SplitFirst(p, ':', c);
    SplitOne(c, ':');
    SplitFirst(p', ':', c');
    SplitOne(c', ':');
    assert [p] + [c] == [p, c] && [p'] + [c'] == [p', c'];
    if GlobalID(p, c) == GlobalID(p', c') {
      assert [p, c] == [p', c'];
      assert [p, c][0] == [p', c'][0] && [p, c][1] == [p', c'][1];
    }
  }

  // ----- Init -----

  datatype Pending = Pending(foundFreq: bool, processor: string, coreID: string, package: string)

  const NOTHING := Pending(false, "", "", "")

  datatype Assembly = Assembly(pending: Pending, records: seq<Record>, seen: set<string>)

  function Note(p: Pending, l: Line): Pending {
    match l
    case MHz(_) => p.(foundFreq := true)
    case Processor(v) => p.(processor := v)
    case CoreID(v) => p.(coreID := v)
    case PhysicalID(v) => p.(package := v)
    case Other => p
  }

  predicate Complete(p: Pending) {
    p.foundFreq && p.processor != "" && p.coreID != "" && p.package != ""
  }

  /** One line. */
  function Take(a: Assembly, l: Line): Assembly {
    var p := Note(a.pending, l);
    if Complete(p) then
      var key := GlobalID(p.package, p.coreID);
      Assembly(NOTHING, a.records + [Record(key in a.seen, p.processor, p.package)], a.seen + {key})
    else a.(pending := p)
  }

  function TakeAll(a: Assembly, ls: seq<Line>): Assembly {
    if ls == [] then a else Take(TakeAll(a, ls[..|ls| - 1]), ls[|ls| - 1])
  }

  const START := Assembly(NOTHING, [], {})

  lemma TakeNext(a: Assembly, ls: seq<Line>, j: nat)
    requires j < |ls|
    ensures TakeAll(a, ls[..j + 1]) == Take(TakeAll(a, ls[..j]), ls[j])
  {
    assert ls[..j + 1][..j] == ls[..j];
  }

  lemma {:induction false} TakeMore(a: Assembly, ls: seq<Line>, more: seq<Line>)
    ensures TakeAll(a, ls + more) == TakeAll(TakeAll(a, ls), more)
  {
    if more == [] {
      assert ls + more == ls;
    } else {
      var n := |more| - 1;
      TakeMore(a, ls, more[..n]);
      assert (ls + more)[..|ls| + n] == ls + more[..n];
    }
  }

  predicate Plain(l: Line) {
    match l
    case Processor(v) => NoColon(v)
    case CoreID(v) => NoColon(v)
    case PhysicalID(v) => NoColon(v)
    case _ => true
  }

  /** A hardware thread as its section of the file describes it. */
  datatype Thread = Thread(processor: string, core: string, package: string, frequency: string)

  predicate SameCore(a: Thread, b: Thread) {
    a.package == b.package && a.core == b.core
  }

  /** The first thread of its core in the file. */
  ghost predicate First(ts: seq<Thread>, i: nat)
    requires i < |ts|
  {
    forall j :: 0 <= j < i ==> !SameCore(ts[j], ts[i])
  }

  function KeyOf(t: Thread): string {
    GlobalID(t.package, t.core)
  }

  /** What one section makes of the records so far. */
  function Add(a: Assembly, t: Thread): Assembly {
    Assembly(NOTHING, a.records + [Record(KeyOf(t) in a.seen, t.processor, t.package)], a.seen + {KeyOf(t)})
  }

  ghost predicate Describes(records: seq<Record>, ts: seq<Thread>) {
    && |records| == |ts|
    && forall i :: 0 <= i < |ts| ==> records[i] == Record(!First(ts, i), ts[i].processor, ts[i].package)
  }

  /** One record per thread, in order, marked as a sibling unless it is the first of its core. */
  ghost predicate InStep(a: Assembly, ts: seq<Thread>) {
    && a.pending == NOTHING && Describes(a.records, ts)
    && (forall i :: 0 <= i < |ts| ==> KeyOf(ts[i]) in a.seen)
    && forall key :: key in a.seen ==> exists i :: 0 <= i < |ts| && key == KeyOf(ts[i])
  }

  ghost predicate PlainThread(t: Thread) {
    NoColon(t.core) && NoColon(t.package)
  }

  ghost predicate PlainThreads(ts: seq<Thread>) {
    forall i :: 0 <= i < |ts| ==> PlainThread(ts[i])
  }

  /** The map of seen keys knows exactly the cores of earlier sections. */
  lemma SeenBefore(a: Assembly, ts: seq<Thread>, t: Thread)
    requires InStep(a, ts) && PlainThreads(ts) && PlainThread(t)
    ensures KeyOf(t) in a.seen <==> exists j :: 0 <= j < |ts| && SameCore(ts[j], t)
  {
    if KeyOf(t) in a.seen {
      var i :| 0 <= i < |ts| && KeyOf(t) == KeyOf(ts[i]);
      KeyInjective(ts[i].package, ts[i].core, t.package, t.core);
      assert SameCore(ts[i], t);
    }
    if j :| 0 <= j < |ts| && SameCore(ts[j], t) {
      assert KeyOf(ts[j]) in a.seen;
    }
  }

  lemma DescribesOneMore(records: seq<Record>, ts: seq<Thread>, t: Thread, isHT: bool)
    requires Describes(records, ts)
    requires isHT <==> exists j :: 0 <= j < |ts| && SameCore(ts[j], t)
    ensures Describes(records + [Record(isHT, t.processor, t.package)], ts + [t])
  {
    var all := ts + [t];
    forall i | 0 <= i < |ts| ensures First(all, i) == First(ts, i) {
      assert forall j :: 0 <= j <= i ==> all[j] == ts[j];
    }
    assert First(all, |ts|) == !isHT by {
      assert forall j :: 0 <= j < |ts| ==> all[j] == ts[j];
      if isHT {
        var j :| 0 <= j < |ts| && SameCore(ts[j], t);
        assert SameCore(all[j], all[|ts|]);
      }
    }
  }

  lemma AddKeepsStep(a: Assembly, ts: seq<Thread>, t: Thread)
    requires InStep(a, ts) && PlainThreads(ts) && PlainThread(t)
    ensures InStep(Add(a, t), ts + [t])
  {
    SeenBefore(a, ts, t);
    DescribesOneMore(a.records, ts, t, KeyOf(t) in a.seen);
    SeenOneMore(a.seen, ts, t, KeyOf(t));
  }

  lemma SeenOneMore(seen: set<string>, ts: seq<Thread>, t: Thread, key: string)
    requires key == KeyOf(t)
    requires forall i :: 0 <= i < |ts| ==> KeyOf(ts[i]) in seen
    requires forall k :: k in seen ==> exists i :: 0 <= i < |ts| && k == KeyOf(ts[i])
    ensures forall i :: 0 <= i < |ts + [t]| ==> KeyOf((ts + [t])[i]) in seen + {key}
    ensures forall k :: k in seen + {key} ==> exists i :: 0 <= i < |ts + [t]| && k == KeyOf((ts + [t])[i])
  {
    var all := ts + [t];
    forall k | k in seen + {key} ensures exists i :: 0 <= i < |all| && k == KeyOf(all[i]) {
      if k in seen {
        var i :| 0 <= i < |ts| && k == KeyOf(ts[i]);
        assert all[i] == ts[i];
      } else {
        assert all[|ts|] == t;
      }
    }
  }

  /** The section of one hardware thread: each of the four keys once, at the given places, none of them empty. */
  datatype Block = Block(lines: seq<Line>, m: nat, p: nat, c: nat, k: nat) {
    ghost predicate Valid() {
      && m < |lines| && p < |lines| && c < |lines| && k < |lines|
      && (forall i :: 0 <= i < |lines| ==>
           && (lines[i].MHz? <==> i == m) && (lines[i].Processor? <==> i == p)
           && (lines[i].CoreID? <==> i == c) && (lines[i].PhysicalID? <==> i == k))
      && lines[p].id != "" && lines[c].id != "" && lines[k].id != ""
    }

    function ThreadOf(): Thread
      requires Valid()
    {
      Thread(lines[p].id, lines[c].id, lines[k].id, lines[m].text)
    }

    /** What is pending after some lines, if the section is not complete yet. */
    ghost function Seen(j: nat): Pending
      requires Valid()
    {
      Pending(m < j, if p < j then lines[p].id else "", if c < j then lines[c].id else "",
              if k < j then lines[k].id else "")
    }

    ghost predicate Open(j: nat) {
      m >= j || p >= j || c >= j || k >= j
    }

    /** The assembly after the first j lines of the section. */
    ghost function Upto(a: Assembly, j: nat): Assembly
      requires Valid()
    {
      if Open(j) then a.(pending := Seen(j)) else Add(a, ThreadOf())
    }

    lemma {:induction false} TakeBlock(a: Assembly, j: nat)
      requires Valid() && a.pending == NOTHING && j <= |lines|
      ensures TakeAll(a, lines[..j]) == Upto(a, j)
    {
      if j == 0 {
        TakeNothing(a);
      } else {
        TakeBlock(a, j - 1);
        TakeNext(a, lines, j - 1);
        TakeLine(a, Upto(a, j - 1), j - 1);
      }
    }

    lemma TakeNothing(a: Assembly)
      requires Valid() && a.pending == NOTHING
      ensures TakeAll(a, lines[..0]) == Upto(a, 0)
    {
      assert a.(pending := Seen(0)) == a;
    }

    lemma TakeLine(a: Assembly, before: Assembly, j: nat)
      requires Valid() && j < |lines| && a.pending == NOTHING && before == Upto(a, j)
      ensures Take(before, lines[j]) == Upto(a, j + 1)
    {
      if Open(j) {
        assert Note(Seen(j), lines[j]) == Seen(j + 1);
      }
    }
  }

  ghost predicate AllValid(bs: seq<Block>) {
    forall i :: 0 <= i < |bs| ==> bs[i].Valid()
  }

  function Flatten(bs: seq<Block>): seq<Line> {
    if bs == [] then [] else Flatten(bs[..|bs| - 1]) + bs[|bs| - 1].lines
  }

  ghost function Threads(bs: seq<Block>): (ts: seq<Thread>)
    requires AllValid(bs)
    ensures |ts| == |bs|
  {
    if bs == [] then [] else Threads(bs[..|bs| - 1]) + [bs[|bs| - 1].ThreadOf()]
  }

  predicate PlainLines(ls: seq<Line>) {
    forall i :: 0 <= i < |ls| ==> Plain(ls[i])
  }

  lemma {:induction false} ThreadsPlain(bs: seq<Block>)
    requires AllValid(bs) && PlainLines(Flatten(bs))
    ensures PlainThreads(Threads(bs))
  {
    if bs != [] {
      var n := |bs| - 1;
      var first := Flatten(bs[..n]);
      assert forall i :: 0 <= i < |first| ==> first[i] == Flatten(bs)[i];
      ThreadsPlain(bs[..n]);
      forall i | 0 <= i < |bs[n].lines| ensures Plain(bs[n].lines[i]) {
        assert Flatten(bs)[|first| + i] == bs[n].lines[i];
      }
      assert Plain(bs[n].lines[bs[n].c]) && Plain(bs[n].lines[bs[n].k]);
    }
  }

  lemma {:induction false} RecordsInStep(bs: seq<Block>)
    requires AllValid(bs) && PlainThreads(Threads(bs))
    ensures InStep(TakeAll(START, Flatten(bs)), Threads(bs))
  {
    if bs != [] {
      var n := |bs| - 1;
      var ts := Threads(bs[..n]);
      assert forall i :: 0 <= i < n ==> ts[i] == Threads(bs)[i];
      assert Threads(bs)[n] == bs[n].ThreadOf();
      RecordsInStep(bs[..n]);
      NextBlock(TakeAll(START, Flatten(bs[..n])), Flatten(bs[..n]), bs[n]);
      AddKeepsStep(TakeAll(START, Flatten(bs[..n])), ts, bs[n].ThreadOf());
    }
  }

  lemma NextBlock(a: Assembly, before: seq<Line>, b: Block)
    requires b.Valid() && a == TakeAll(START, before) && a.pending == NOTHING
    ensures TakeAll(START, before + b.lines) == Add(a, b.ThreadOf())
  {
    TakeMore(START, before, b.lines);
    b.TakeBlock(a, |b.lines|);
    assert b.lines[..|b.lines|] == b.lines;
  }

  // ----- Read -----

  datatype Status = Going | Stopped | Panicked

  function FrequencyOf(l: Line): seq<string> {
    if l.MHz? then [l.text] else []
  }

  /** The texts after "cpu MHz", in order. */
  function Frequencies(ls: seq<Line>): seq<string> {
    if ls == [] then []
    else
      Frequencies(ls[..|ls| - 1]) + FrequencyOf(ls[|ls| - 1])
  }

  /** One frequency line: looked up by position, the first thread of a core is published. */
  function ReadRun(texts: seq<string>, topology: seq<Record>, parse: string -> Option<real>): (seq<Message>, Status) {
    if texts == [] then ([], Going)
    else
      var n := |texts| - 1;
      var r := ReadRun(texts[..n], topology, parse);
      if r.1 != Going then r else ReadOne(r.0, n, texts[n], topology, parse)
  }

  function ReadOne(out: seq<Message>, n: nat, text: string, topology: seq<Record>, parse: string -> Option<real>)
    : (seq<Message>, Status)
  {
    if n >= |topology| then (out, Panicked)
    else if topology[n].isHT then (out, Going)
    else
      match parse(TrimSpace(text))
      case None => (out, Stopped)
      case Some(v) => (out + [Message(topology[n].processor, topology[n].package, v)], Going)
  }

  lemma {:induction false} ReadEnded(texts: seq<string>, topology: seq<Record>, parse: string -> Option<real>, k: nat)
    requires k <= |texts| && ReadRun(texts[..k], topology, parse).1 != Going
    ensures ReadRun(texts, topology, parse) == ReadRun(texts[..k], topology, parse)
    decreases |texts| - k
  {
    if k == |texts| {
      assert texts[..k] == texts;
    } else {
      assert texts[..k + 1][..k] == texts[..k];
      ReadEnded(texts, topology, parse, k + 1);
    }
  }

  lemma FrequenciesNext(ls: seq<Line>, l: Line)
    ensures Frequencies(ls + [l]) == Frequencies(ls) + FrequencyOf(l)
  {
    Appended(ls, l);
  }

  lemma {:induction false} FrequenciesMore(ls: seq<Line>, more: seq<Line>)
    ensures Frequencies(ls + more) == Frequencies(ls) + Frequencies(more)
  {
    if more == [] {
      assert ls + more == ls;
    } else {
      var n := |more| - 1;
      hide Frequencies;
      FrequenciesMore(ls, more[..n]);
      EndsWithLast(more);
      Associative(ls, more[..n], [more[n]]);
      FrequenciesNext(more[..n], more[n]);
      FrequenciesNext(ls + more[..n], more[n]);
      Associative(Frequencies(ls), Frequencies(more[..n]), FrequencyOf(more[n]));
    }
  }

  lemma ReadNext(texts: seq<string>, text: string, topology: seq<Record>, parse: string -> Option<real>,
                 out: seq<Message>)
    requires ReadRun(texts, topology, parse) == (out, Going)
    ensures ReadRun(texts + [text], topology, parse) == ReadOne(out, |texts|, text, topology, parse)
  {
    Appended(texts, text);
  }

  lemma ReadEndedAt(texts: seq<string>, more: seq<string>, topology: seq<Record>, parse: string -> Option<real>)
    requires ReadRun(texts, topology, parse).1 != Going
    ensures ReadRun(texts + more, topology, parse) == ReadRun(texts, topology, parse)
  {
    assert (texts + more)[..|texts|] == texts;
    ReadEnded(texts + more, topology, parse, |texts|);
  }

  lemma Nothing(ls: seq<Line>, topology: seq<Record>, parse: string -> Option<real>)
    ensures Frequencies(ls[..0]) == [] && ReadRun(Frequencies(ls[..0]), topology, parse) == ([], Going)
  {
  }

  /** What Read does at one line. */
  lemma ReadLine(ls: seq<Line>, topology: seq<Record>, parse: string -> Option<real>, i: nat, out: seq<Message>)
    requires i < |ls| && ReadRun(Frequencies(ls[..i]), topology, parse) == (out, Going)
    ensures
      if ls[i].MHz? then
        var n := |Frequencies(ls[..i])|;
        var r := ReadOne(out, n, ls[i].text, topology, parse);
        && |Frequencies(ls[..i + 1])| == n + 1
        && ReadRun(Frequencies(ls[..i + 1]), topology, parse) == r
        && (r.1 != Going ==> ReadRun(Frequencies(ls), topology, parse) == r)
      else Frequencies(ls[..i + 1]) == Frequencies(ls[..i])
  {
    hide Frequencies, ReadRun, ReadOne;
    SplitAt(ls, i);
    FrequenciesNext(ls[..i], ls[i]);
    if ls[i].MHz? {
      ReadNext(Frequencies(ls[..i]), ls[i].text, topology, parse, out);
      FrequenciesMore(ls[..i + 1], ls[i + 1..]);
      if ReadRun(Frequencies(ls[..i + 1]), topology, parse).1 != Going {
        ReadEndedAt(Frequencies(ls[..i + 1]), Frequencies(ls[i + 1..]), topology, parse);
      }
    }
  }

  lemma {:induction false} OneFrequency(b: Block, j: nat)
    requires b.Valid() && j <= |b.lines|
    ensures Frequencies(b.lines[..j]) == if b.m < j then [b.lines[b.m].text] else []
  {
    if j > 0 {
      OneFrequency(b, j - 1);
      assert b.lines[..j][..j - 1] == b.lines[..j - 1];
    }
  }

  lemma FrequencyOfBlock(b: Block)
    requires b.Valid()
    ensures Frequencies(b.lines) == [b.lines[b.m].text]
  {
    OneFrequency(b, |b.lines|);
    Whole(b.lines);
  }

  /** The i-th frequency line belongs to the i-th section. */
  lemma {:induction false} FrequenciesInStep(bs: seq<Block>)
    requires AllValid(bs)
    ensures |Frequencies(Flatten(bs))| == |bs|
    ensures forall i :: 0 <= i < |bs| ==> Frequencies(Flatten(bs))[i] == Threads(bs)[i].frequency
  {
    if bs != [] {
      hide Frequencies;
      var n := |bs| - 1;
      FrequenciesInStep(bs[..n]);
      FrequenciesMore(Flatten(bs[..n]), bs[n].lines);
      FrequencyOfBlock(bs[n]);
    }
  }

  /** Every frequency that Read looks at is a number: siblings are never parsed. */
  predicate FirstsParse(texts: seq<string>, topology: seq<Record>, parse: string -> Option<real>) {
    forall i :: 0 <= i < |texts| && i < |topology| && !topology[i].isHT ==> parse(TrimSpace(texts[i])).Some?
  }

  /** Read runs off the end of the records exactly if there are more frequency lines than records and it does not end
      earlier, at the frequency of a first thread that is not a number. */
  lemma {:induction false} PanicsExactly(texts: seq<string>, topology: seq<Record>, parse: string -> Option<real>)
    ensures ReadRun(texts, topology, parse).1 ==
      if !FirstsParse(texts, topology, parse) then Stopped else if |texts| > |topology| then Panicked else Going
  {
    if texts != [] {
      var n := |texts| - 1;
      PanicsExactly(texts[..n], topology, parse);
      FirstsParseStep(texts, topology, parse);
    }
  }

  lemma FirstsParseStep(texts: seq<string>, topology: seq<Record>, parse: string -> Option<real>)
    requires texts != []
    ensures var n := |texts| - 1;
      FirstsParse(texts, topology, parse) <==>
        && FirstsParse(texts[..n], topology, parse)
        && (n < |topology| && !topology[n].isHT ==> parse(TrimSpace(texts[n])).Some?)
  {
    var n := |texts| - 1;
    assert forall i :: 0 <= i < n ==> texts[..n][i] == texts[i];
  }

  /** A second hardware thread that has come online since Init is enough. */
  lemma PanicsWithOneMoreThread(parse: string -> Option<real>)
    requires parse(TrimSpace("2100")).Some?
    ensures var before := [Processor("0"), MHz("2100"), PhysicalID("0"), CoreID("0")];
      var after := before + [Processor("1"), MHz("2100"), PhysicalID("0"), CoreID("1")];
      ReadRun(Frequencies(after), TakeAll(START, before).records, parse).1 == Panicked
  {
    var b := Block([Processor("0"), MHz("2100"), PhysicalID("0"), CoreID("0")], 1, 0, 3, 2);
    var more := Block([Processor("1"), MHz("2100"), PhysicalID("0"), CoreID("1")], 1, 0, 3, 2);
    assert b.Valid() && more.Valid();
    OneRecordTwoFrequencies(b, more, parse);
  }

  lemma OneRecordTwoFrequencies(b: Block, more: Block, parse: string -> Option<real>)
    requires b.Valid() && more.Valid() && parse(TrimSpace(b.lines[b.m].text)).Some?
    ensures ReadRun(Frequencies(b.lines + more.lines), TakeAll(START, b.lines).records, parse).1 == Panicked
  {
    b.TakeBlock(START, |b.lines|);
    assert b.lines[..|b.lines|] == b.lines;
    FrequenciesMore(b.lines, more.lines);
    FrequencyOfBlock(b);
    FrequencyOfBlock(more);
    PanicsExactly(Frequencies(b.lines + more.lines), TakeAll(START, b.lines).records, parse);
  }

  /** The number of leading sections up to the first thread whose frequency is not a number. */
  ghost function Readable(ts: seq<Thread>, texts: seq<string>, parse: string -> Option<real>, i: nat): (k: nat)
    requires i <= |ts| && i <= |texts|
    ensures i <= k <= |ts| && k <= |texts|
    ensures forall j :: i <= j < k && First(ts, j) ==> parse(TrimSpace(texts[j])).Some?
    ensures k < |ts| && k < |texts| ==> First(ts, k) && parse(TrimSpace(texts[k])).None?
    decreases |ts| - i
  {
    if i == |ts| || i == |texts| || (First(ts, i) && parse(TrimSpace(texts[i])).None?) then i
    else Readable(ts, texts, parse, i + 1)
  }

  /** What should be published: for the first thread of every core, the frequency at its place now. */
  ghost function Expected(ts: seq<Thread>, texts: seq<string>, parse: string -> Option<real>, n: nat): seq<Message>
    requires n <= |ts| && n <= |texts|
    requires forall j :: 0 <= j < n && First(ts, j) ==> parse(TrimSpace(texts[j])).Some?
  {
    if n == 0 then []
    else
      Expected(ts, texts, parse, n - 1)
      + if First(ts, n - 1)
        then [Message(ts[n - 1].processor, ts[n - 1].package, parse(TrimSpace(texts[n - 1])).value)]
        else []
  }

  lemma {:induction false} ReadsExpected(
    ts: seq<Thread>, texts: seq<string>, parse: string -> Option<real>, records: seq<Record>, n: nat)
    requires Describes(records, ts) && n <= |ts| && n <= |texts|
    requires forall j :: 0 <= j < n && First(ts, j) ==> parse(TrimSpace(texts[j])).Some?
    ensures ReadRun(texts[..n], records, parse) == (Expected(ts, texts, parse, n), Going)
  {
    if n > 0 {
      assert texts[..n][..n - 1] == texts[..n - 1];
      ReadsExpected(ts, texts, parse, records, n - 1);
      ReadsOne(ts, texts, parse, records, n - 1);
    }
  }

  lemma ReadsOne(ts: seq<Thread>, texts: seq<string>, parse: string -> Option<real>, records: seq<Record>, n: nat)
    requires Describes(records, ts) && n < |ts| && n < |texts|
    requires forall j :: 0 <= j <= n && First(ts, j) ==> parse(TrimSpace(texts[j])).Some?
    ensures ReadOne(Expected(ts, texts, parse, n), n, texts[n], records, parse)
         == (Expected(ts, texts, parse, n + 1), Going)
  {
    var none: seq<Message> := [];
    assert Expected(ts, texts, parse, n) + none == Expected(ts, texts, parse, n);
  }

  /** How Read ends: with the file, at a frequency that is not a number, or past the last record. */
  ghost function EndOf(ts: seq<Thread>, texts: seq<string>, k: nat): Status {
    if k < |ts| && k < |texts| then Stopped else if |texts| > |ts| then Panicked else Going
  }

  lemma ReadsAll(ts: seq<Thread>, texts: seq<string>, parse: string -> Option<real>, records: seq<Record>)
    requires Describes(records, ts)
    ensures var k := Readable(ts, texts, parse, 0);
      ReadRun(texts, records, parse) == (Expected(ts, texts, parse, k), EndOf(ts, texts, k))
  {
    var k := Readable(ts, texts, parse, 0);
    ReadsExpected(ts, texts, parse, records, k);
    if k < |texts| {
      assert texts[..k + 1][..k] == texts[..k];
      ReadEnded(texts, records, parse, k + 1);
    } else {
      assert texts[..k] == texts;
    }
  }

  lemma LinesPlain(file: seq<string>)
    ensures PlainLines(Lines(file))
  {
    forall i | 0 <= i < |file| ensures Plain(Lines(file)[i]) {
      ValuesPlain(file[i]);
    }
  }

  /** Init and Read line up: section by section of the file at Read, the first thread of each core as Init saw it is
      published with its frequency now, under the ids it had at Init, until the file ends, a frequency is not a number
      or the sections Init saw are used up. */
  lemma InitAndReadLineUp(
    before: seq<string>, bs: seq<Block>, after: seq<string>, now: seq<Block>, parse: string -> Option<real>)
    requires AllValid(bs) && Lines(before) == Flatten(bs)
    requires AllValid(now) && Lines(after) == Flatten(now)
    ensures var texts := Frequencies(Lines(after));
      && |texts| == |now|
      && (forall i :: 0 <= i < |texts| ==> texts[i] == Threads(now)[i].frequency)
      && var k := Readable(Threads(bs), texts, parse, 0);
         ReadRun(texts, TakeAll(START, Lines(before)).records, parse)
           == (Expected(Threads(bs), texts, parse, k), EndOf(Threads(bs), texts, k))
  {
    LinesPlain(before);
    ThreadsPlain(bs);
    RecordsInStep(bs);
    FrequenciesInStep(now);
    ReadsAll(Threads(bs), Frequencies(Flatten(now)), parse, TakeAll(START, Flatten(bs)).records);
  }

  /** Every core of every package has exactly one first thread. */
  lemma {:induction false} OneFirstPerCore(ts: seq<Thread>, i: nat) returns (f: nat)
    requires i < |ts|
    ensures f <= i && First(ts, f) && SameCore(ts[f], ts[i])
    ensures forall j :: 0 <= j < |ts| && SameCore(ts[j], ts[i]) && First(ts, j) ==> j == f
  {
    if First(ts, i) {
      f := i;
    } else {
      var j :| 0 <= j < i && SameCore(ts[j], ts[i]);
      f := OneFirstPerCore(ts, j);
    }
    forall j | 0 <= j < |ts| && SameCore(ts[j], ts[i]) && First(ts, j) ensures j == f {
      assert SameCore(ts[j], ts[f]) && SameCore(ts[f], ts[j]);
    }
  }

  // ----- the code -----

  class CPUFreqCpuInfoCollector {
    var topology: seq<Record>
    var init: bool

    constructor ()
      ensures !init
    {
      topology := [];
      init := false;
    }

    /** Once initialised, Init does nothing. The error case is a file without any complete section. */
    method Init(text: seq<string>) returns (ok: bool)
      modifies this
      ensures old(init) ==> ok && topology == old(topology)
      ensures !old(init) ==> topology == TakeAll(START, Lines(text)).records && (ok <==> topology != [])
      ensures init == ok
    {
      if init { return true; }
      var foundFreq, processor, coreID, physicalPackageID := false, "", "", "";
      topology := [];
      var coreSeenBefore: set<string> := {};
      for i := 0 to |text|
        invariant TakeAll(START, Lines(text)[..i])
               == Assembly(Pending(foundFreq, processor, coreID, physicalPackageID), topology, coreSeenBefore)
        invariant !init
      {
        assert Lines(text)[..i + 1][..i] == Lines(text)[..i];
        match LineOf(text[i]) {
          case MHz(_) => foundFreq := true;
          case Processor(v) => processor := v;
          case CoreID(v) => coreID := v;
          case PhysicalID(v) => physicalPackageID := v;
          case Other =>
        }
        if foundFreq && processor != "" && coreID != "" && physicalPackageID != "" {
          var globalID := physicalPackageID + ":" + coreID;
          topology := topology + [Record(globalID in coreSeenBefore, processor, physicalPackageID)];
          coreSeenBefore := coreSeenBefore + {globalID};
          foundFreq, processor, coreID, physicalPackageID := false, "", "", "";
        }
      }
      assert Lines(text)[..|text|] == Lines(text);
      ok := topology != [];
      if ok { init := true; }
    }

    method Read(text: seq<string>, parse: string -> Option<real>) returns (out: seq<Message>, status: Status)
      ensures !init ==> out == [] && status == Stopped
      ensures init ==> (out, status) == ReadRun(Frequencies(Lines(text)), topology, parse)
    {
      out := [];
      if !init { return out, Stopped; }
      var processorCounter := 0;
      ghost var ls := Lines(text);
      Nothing(ls, topology, parse);
      hide Frequencies, ReadRun;
      for i := 0 to |text|
        invariant processorCounter == |Frequencies(ls[..i])|
        invariant ReadRun(Frequencies(ls[..i]), topology, parse) == (out, Going)
      {
        ReadLine(ls, topology, parse, i, out);
        var l := LineOf(text[i]);
        assert l == ls[i];
        if l.MHz? {
          if processorCounter >= |topology| { return out, Panicked; }
          var t := topology[processorCounter];
          if !t.isHT {
            match parse(TrimSpace(l.text)) {
              case None => return out, Stopped;
              case Some(value) => out := out + [Message(t.processor, t.package, value)];
            }
          }
          processorCounter := processorCounter + 1;
        }
      }
      assert ls[..|text|] == ls;
      status := Going;
    }
  }
}
