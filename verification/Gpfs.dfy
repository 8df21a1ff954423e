/** collectors/gpfsMetric.go: per-filesystem counters, differences and rates from the output of mmpmon. */
module Gpfs {
  import opened Common

  /** The counters of an mmpmon line, and the totals computed from them. */
  datatype Key = Oc | Cc | Rdc | Wc | Dir | Iu | Br | Bw | BytesTotal | Iops | Metaops

  type Counters = map<Key, int>

  datatype Calc = Absolute | Difference | Derivative
  datatype Def = Def(name: string, key: Key, how: Calc)

  /** An output line. The fields of an I/O line are None, or missing from counters, if they are absent or do not
      parse. Times in seconds and micro seconds. */
  datatype Line =
    | Other
    | IoLine(fs: Option<string>, rc: Option<int>, sec: Option<int>, usec: Option<int>, counters: Counters)

  datatype Value = Count(n: int) | PerSecond(r: real)

  datatype Event = Event(fs: string, def: Def, value: Value, time: Time)

  /** What is kept between lines and between Reads. */
  datatype Memory = Memory(lastState: map<string, Counters>, lastTimestamp: map<string, Time>)

  const ZERO_TIME: Time := -62135596800 * 1000000   // time.Time{} in micro seconds since 1970
  const ALL_KEYS: set<Key> := {Oc, Cc, Rdc, Wc, Dir, Iu, Br, Bw, BytesTotal, Iops, Metaops}
  const MEASURED: seq<Key> := [Oc, Cc, Rdc, Wc, Dir, Iu, Br, Bw]

  // ----- specification of one line -----

  predicate Accepted(skip: set<string>, line: Line) {
    line.IoLine? && line.fs.Some? && line.fs.value !in skip && line.rc == Some(0) && line.sec.Some? && line.usec.Some?
  }

  function TimeOf(line: Line): Time
    requires line.IoLine? && line.sec.Some? && line.usec.Some?
  {
    line.sec.value * 1000000 + line.usec.value
  }

  function At(m: Counters, k: Key): Option<int> {
    if k in m then Some(m[k]) else None
  }

  function OrZero(v: Option<int>): int {
    match v
    case None => 0
    case Some(n) => n
  }

  /** The sum of those parts that are present, if any is. */
  function SumOf(m: Counters, parts: seq<Key>): Option<int> {
    if parts == [] then None
    else
      var n := |parts| - 1;
      var rest := SumOf(m, parts[..n]);
      if parts[n] in m then Some(OrZero(rest) + m[parts[n]]) else rest
  }

  const BYTES_PARTS: seq<Key> := [Br, Bw]
  const IOPS_PARTS: seq<Key> := [Rdc, Wc]
  const META_PARTS: seq<Key> := [Oc, Cc, Dir, Iu]

  function PartsOf(k: Key): seq<Key> {
    match k
    case BytesTotal => BYTES_PARTS
    case Iops => IOPS_PARTS
    case Metaops => META_PARTS
    case _ => []
  }

  /** The value a line gives for a counter or a total. */
  function NewValue(line: Counters, k: Key): Option<int> {
    if PartsOf(k) != [] then SumOf(line, PartsOf(k)) else At(line, k)
  }

  function ValueOf(how: Calc, vold: Option<int>, vnew: Option<int>, timeDiff: real): Option<Value> {
    match how
    case Absolute =>
      if vnew.Some? then Some(Count(vnew.value)) else if vold.Some? then Some(Count(vold.value)) else None
    case Difference =>
      if vnew.Some? && vold.Some? then Some(Count(if vnew.value < vold.value then 0 else vnew.value - vold.value))
      else if vold.Some? then Some(Count(0))
      else None
    case Derivative =>
      if vnew.Some? && vold.Some? && timeDiff > 0.0 then
        var r := (vnew.value - vold.value) as real / timeDiff;
        Some(PerSecond(if r < 0.0 then 0.0 else r))
      else if vold.Some? then Some(PerSecond(0.0))
      else None
  }

  /** All values of a line: its counters and the totals. */
  function NewStateOf(counters: Counters): Counters {
    map k: Key | k in ALL_KEYS && NewValue(counters, k).Some? :: NewValue(counters, k).value
  }

  /** What is published for one filesystem, definition by definition. */
  function EventsOf(defs: seq<Def>, fs: string, vold: Counters, vnew: Counters, timeDiff: real, time: Time)
    : seq<Event>
  {
    if defs == [] then []
    else
      var n := |defs| - 1;
      var v := ValueOf(defs[n].how, At(vold, defs[n].key), At(vnew, defs[n].key), timeDiff);
      EventsOf(defs[..n], fs, vold, vnew, timeDiff, time) +
      (if v.Some? then [Event(fs, defs[n], v.value, time)] else [])
  }

  function Old(m: Memory, fs: string): Counters {
    if fs in m.lastState then m.lastState[fs] else map[]
  }

  /** Seconds since the stored time stamp of the filesystem, 0 if there is none. */
  function TimeDiff(m: Memory, fs: string, time: Time): real {
    if fs in m.lastTimestamp then (time - m.lastTimestamp[fs]) as real / 1000000.0 else 0.0
  }

  /** The filesystem has an entry. */
  function Opened(m: Memory, fs: string): Memory {
    m.(lastState := m.lastState[fs := Old(m, fs)])
  }

  lemma AlreadyOpen(m: Memory, fs: string)
    requires fs in m.lastState
    ensures Opened(m, fs) == m
  {
    assert m.lastState[fs := m.lastState[fs]] == m.lastState;
  }

  /** The memory after an accepted line. */
  function Stored(m: Memory, fs: string, newstate: Counters, time: Time): Memory {
    if newstate != map[] then Memory(m.lastState[fs := newstate], m.lastTimestamp[fs := time])
    else if fs in m.lastTimestamp then m
    else m.(lastTimestamp := m.lastTimestamp[fs := ZERO_TIME])
  }

  function AfterLine(skip: set<string>, m: Memory, line: Line): Memory {
    if line.Other? || line.fs.None? || line.fs.value in skip then m
    else
      var fs := line.fs.value;
      if !Accepted(skip, line) then Opened(m, fs)
      else Stored(Opened(m, fs), fs, NewStateOf(line.counters), TimeOf(line))
  }

  function LineEvents(defs: seq<Def>, skip: set<string>, m: Memory, line: Line): seq<Event> {
    if Accepted(skip, line) then
      var fs := line.fs.value;
      EventsOf(defs, fs, Old(m, fs), NewStateOf(line.counters), TimeDiff(m, fs, TimeOf(line)), TimeOf(line))
    else []
  }

  function After(skip: set<string>, m: Memory, lines: seq<Line>): Memory {
    if lines == [] then m else AfterLine(skip, After(skip, m, lines[..|lines| - 1]), lines[|lines| - 1])
  }

  function Events(defs: seq<Def>, skip: set<string>, m: Memory, lines: seq<Line>): seq<Event> {
    if lines == [] then []
    else
      var n := |lines| - 1;
      Events(defs, skip, m, lines[..n]) + LineEvents(defs, skip, After(skip, m, lines[..n]), lines[n])
  }

  // ----- the code -----

  /** The counters of the line that parse. */
  method ParsedCounters(counters: Counters) returns (newstate: Counters)
    ensures forall k: Key :: At(newstate, k) == if PartsOf(k) == [] then At(counters, k) else None
  {
    newstate := map[];
    for i := 0 to |MEASURED|
      invariant forall k: Key :: At(newstate, k) == if k in MEASURED[..i] then At(counters, k) else None
    {
      assert MEASURED[..i + 1] == MEASURED[..i] + [MEASURED[i]];
      if MEASURED[i] in counters {
        newstate := newstate[MEASURED[i] := counters[MEASURED[i]]];
      }
    }
    forall k: Key ensures k in MEASURED[..|MEASURED|] <==> PartsOf(k) == [] {
      MeasuredOrTotal(k);
    }
  }

  lemma MeasuredOrTotal(k: Key)
    ensures k in MEASURED <==> PartsOf(k) == []
    ensures k in ALL_KEYS
  {
    assert MEASURED[0] == Oc && MEASURED[1] == Cc && MEASURED[2] == Rdc && MEASURED[3] == Wc
        && MEASURED[4] == Dir && MEASURED[5] == Iu && MEASURED[6] == Br && MEASURED[7] == Bw;
  }

  lemma NewStateFromValues(state: Counters, counters: Counters)
    requires forall k: Key :: At(state, k) == NewValue(counters, k)
    ensures state == NewStateOf(counters)
  {
    forall k: Key
      ensures k in state <==> k in NewStateOf(counters)
      ensures k in state ==> state[k] == NewStateOf(counters)[k]
    {
      MeasuredOrTotal(k);
      assert At(state, k) == NewValue(counters, k);
    }
  }

  lemma PartsAreMeasured(total: Key)
    ensures total !in PartsOf(total)
    ensures forall p :: p in PartsOf(total) ==> PartsOf(p) == []
  {
  }

  /** newstate: the parsed counters, then the three totals. */
  method NewState(counters: Counters) returns (newstate: Counters)
    ensures newstate == NewStateOf(counters)
  {
    newstate := ParsedCounters(counters);
    newstate := AddTotal(newstate, counters, BytesTotal);
    newstate := AddTotal(newstate, counters, Iops);
    newstate := AddTotal(newstate, counters, Metaops);
    NewStateFromValues(newstate, counters);
  }

  lemma {:induction false} SumOfSome(m: Counters, parts: seq<Key>)
    ensures SumOf(m, parts).Some? <==> exists k :: k in parts && k in m
  {
    if parts != [] {
      var n := |parts| - 1;
      SumOfSome(m, parts[..n]);
      assert parts == parts[..n] + [parts[n]];
    }
  }

  /** Something is stored exactly if some counter of the line parsed. */
  lemma StoredIfUseful(counters: Counters)
    ensures |NewStateOf(counters)| > 0 <==> exists k :: k in MEASURED && k in counters
  {
    var s := NewStateOf(counters);
    if k :| k in MEASURED && k in counters {
      MeasuredOrTotal(k);
      assert k in s;
    } else {
      forall k: Key ensures k !in s {
        MeasuredOrTotal(k);
        SumOfSome(counters, PartsOf(k));
        forall p | p in PartsOf(k) ensures p in MEASURED {
          MeasuredOrTotal(p);
        }
      }
      assert s == map[];
    }
  }

  /** Adds those of a total's parts that are present. */
  method AddTotal(state: Counters, ghost counters: Counters, total: Key) returns (newstate: Counters)
    requires At(state, total) == None
    requires forall k: Key :: PartsOf(k) == [] ==> At(state, k) == At(counters, k)
    ensures forall k :: k != total ==> At(newstate, k) == At(state, k)
    ensures At(newstate, total) == SumOf(counters, PartsOf(total))
  {
    var parts := PartsOf(total);
    PartsAreMeasured(total);
    newstate := state;
    for i := 0 to |parts|
      invariant forall k :: k != total ==> At(newstate, k) == At(state, k)
      invariant At(newstate, total) == SumOf(counters, parts[..i])
    {
      assert parts[..i + 1][..i] == parts[..i];
      assert At(newstate, parts[i]) == At(state, parts[i]) == At(counters, parts[i]);
      if parts[i] in newstate {
        newstate := newstate[total := (if total in newstate then newstate[total] else 0) + newstate[parts[i]]];
      }
    }
    assert parts[..|parts|] == parts;
  }

  lemma StoringTwice(times: map<string, Time>, fs: string, time: Time)
    ensures times[fs := ZERO_TIME][fs := time] == times[fs := time]
  {
  }

  lemma AcceptedLine(defs: seq<Def>, skip: set<string>, m: Memory, line: Line)
    requires Accepted(skip, line)
    ensures var fs, newstate, time := line.fs.value, NewStateOf(line.counters), TimeOf(line);
            && AfterLine(skip, m, line) == Stored(Opened(m, fs), fs, newstate, time)
            && LineEvents(defs, skip, m, line) ==
               EventsOf(defs, fs, Old(m, fs), newstate, TimeDiff(m, fs, time), time)
  {
  }

  class GpfsCollector {
    const definitions: seq<Def>
    const skipFS: set<string>
    var lastState: map<string, Counters>
    var lastTimestamp: map<string, Time>

    constructor (definitions: seq<Def>, skipFS: set<string>)
      ensures this.definitions == definitions && this.skipFS == skipFS
      ensures Remembered() == Memory(map[], map[])
    {
      this.definitions, this.skipFS, lastState, lastTimestamp := definitions, skipFS, map[], map[];
    }

    function Remembered(): Memory
      reads this
    {
      Memory(lastState, lastTimestamp)
    }

    /** The loop over the definitions for one filesystem. */
    method Publish(fs: string, newstate: Counters, timeDiff: real, timestamp: Time) returns (output: seq<Event>)
      requires fs in lastState
      ensures output == EventsOf(definitions, fs, lastState[fs], newstate, timeDiff, timestamp)
    {
      output := [];
      for i := 0 to |definitions|
        invariant output == EventsOf(definitions[..i], fs, lastState[fs], newstate, timeDiff, timestamp)
      {
        assert definitions[..i + 1][..i] == definitions[..i];
        var d := definitions[i];
        var value := ValueOf(d.how, At(lastState[fs], d.key), At(newstate, d.key), timeDiff);
        if value.Some? {
          output := output + [Event(fs, d, value.value, timestamp)];
        }
      }
      assert definitions[..|definitions|] == definitions;
    }

    /** An accepted line with the given counters and totals: time difference, publishing, storing. */
    method PublishAndStore(filesystem: string, timestamp: Time, newstate: Counters, ghost m: Memory)
      returns (output: seq<Event>)
      requires Remembered() == Opened(m, filesystem)
      modifies this
      ensures Remembered() == Stored(Opened(m, filesystem), filesystem, newstate, timestamp)
      ensures output == EventsOf(definitions, filesystem, Old(m, filesystem), newstate,
                                 TimeDiff(m, filesystem, timestamp), timestamp)
    {
      var timeDiff := 0.0;
      if filesystem !in lastTimestamp {
        lastTimestamp := lastTimestamp[filesystem := ZERO_TIME];
      } else {
        timeDiff := (timestamp - lastTimestamp[filesystem]) as real / 1000000.0;
      }
      output := Publish(filesystem, newstate, timeDiff, timestamp);
      StoringTwice(m.lastTimestamp, filesystem, timestamp);
      if |newstate| > 0 {
        lastState := lastState[filesystem := newstate];
        lastTimestamp := lastTimestamp[filesystem := timestamp];
      }
    }

    /** The part of a line's work after the checks. */
    method ReadAccepted(line: Line, ghost m: Memory) returns (output: seq<Event>)
      requires Accepted(skipFS, line) && Remembered() == Opened(m, line.fs.value)
      modifies this
      ensures Remembered() == AfterLine(skipFS, m, line)
      ensures output == LineEvents(definitions, skipFS, m, line)
    {
      AcceptedLine(definitions, skipFS, m, line);
      var newstate := NewState(line.counters);
      output := PublishAndStore(line.fs.value, line.sec.value * 1000000 + line.usec.value, newstate, m);
    }

    /** One line of output. */
    method ReadLine(line: Line) returns (output: seq<Event>)
      modifies this
      ensures Remembered() == AfterLine(skipFS, old(Remembered()), line)
      ensures output == LineEvents(definitions, skipFS, old(Remembered()), line)
    {
      ghost var m := Remembered();
      output := [];
      if line.Other? || line.fs.None? || line.fs.value in skipFS {
        return;
      }
      var filesystem := line.fs.value;
      if filesystem !in lastState {
        lastState := lastState[filesystem := map[]];
      } else {
        AlreadyOpen(m, filesystem);
      }
      if line.rc.None? || line.rc.value != 0 || line.sec.None? || line.usec.None? {
        return;
      }
      output := ReadAccepted(line, m);
    }

    method Read(lines: seq<Line>) returns (output: seq<Event>)
      modifies this
      ensures Remembered() == After(skipFS, old(Remembered()), lines)
      ensures output == Events(definitions, skipFS, old(Remembered()), lines)
    {
      output := [];
      for i := 0 to |lines|
        invariant Remembered() == After(skipFS, old(Remembered()), lines[..i])
        invariant output == Events(definitions, skipFS, old(Remembered()), lines[..i])
      {
        assert lines[..i + 1][..i] == lines[..i];
        var events := ReadLine(lines[i]);
        output := output + events;
      }
      assert lines[..|lines|] == lines;
    }
  }

  // ----- state and time stamp belong together, in every run -----

  /** The newest line of a filesystem that was accepted and carried some counter. */
  function Newest(skip: set<string>, fs: string, lines: seq<Line>): Option<Line> {
    if lines == [] then None
    else
      var line := lines[|lines| - 1];
      if Accepted(skip, line) && line.fs.value == fs && NewStateOf(line.counters) != map[] then Some(line)
      else Newest(skip, fs, lines[..|lines| - 1])
  }

  /** Whatever lines were skipped or failed to parse, the counters stored for a filesystem and its stored time stamp
      come from the same line, the newest usable one; before there is one, no counters are stored. */
  lemma {:induction false} StateBelongsToTimestamp(skip: set<string>, fs: string, lines: seq<Line>)
    ensures var m, newest := After(skip, Memory(map[], map[]), lines), Newest(skip, fs, lines);
            match newest
            case None => Old(m, fs) == map[]
            case Some(line) =>
              && Accepted(skip, line)
              && fs in m.lastState && m.lastState[fs] == NewStateOf(line.counters)
              && fs in m.lastTimestamp && m.lastTimestamp[fs] == TimeOf(line)
  {
    if lines != [] {
      StateBelongsToTimestamp(skip, fs, lines[..|lines| - 1]);
    }
  }

  predicate NonNegative(v: Value) {
    if v.Count? then v.n >= 0 else v.r >= 0.0
  }

  /** No published difference or rate is negative, in any run. */
  lemma {:induction false} NothingNegative(defs: seq<Def>, skip: set<string>, m: Memory, lines: seq<Line>, e: Event)
    requires e in Events(defs, skip, m, lines) && !e.def.how.Absolute?
    ensures NonNegative(e.value)
  {
    var n := |lines| - 1;
    if e in Events(defs, skip, m, lines[..n]) {
      NothingNegative(defs, skip, m, lines[..n], e);
    } else {
      var before, line := After(skip, m, lines[..n]), lines[n];
      EventsNonNegative(defs, line.fs.value, Old(before, line.fs.value), NewStateOf(line.counters),
                        TimeDiff(before, line.fs.value, TimeOf(line)), TimeOf(line), e);
    }
  }

  lemma {:induction false} EventsNonNegative(defs: seq<Def>, fs: string, vold: Counters, vnew: Counters, timeDiff: real,
                                             time: Time, e: Event)
    requires e in EventsOf(defs, fs, vold, vnew, timeDiff, time) && !e.def.how.Absolute?
    ensures NonNegative(e.value)
  {
    var n := |defs| - 1;
    if e in EventsOf(defs[..n], fs, vold, vnew, timeDiff, time) {
      EventsNonNegative(defs[..n], fs, vold, vnew, timeDiff, time, e);
    }
  }

  // ----- totals against their parts -----

  function Clamped(d: int): nat {
    if d < 0 then 0 else d
  }

  predicate AllPresent(m: Counters, parts: seq<Key>) {
    forall k :: k in parts ==> k in m
  }

  /** The sum of the published differences of the parts of a total. */
  function PartDifferences(vold: Counters, vnew: Counters, parts: seq<Key>): nat
    requires AllPresent(vold, parts) && AllPresent(vnew, parts)
  {
    if parts == [] then 0
    else
      var n := |parts| - 1;
      PartDifferences(vold, vnew, parts[..n]) + Clamped(vnew[parts[n]] - vold[parts[n]])
  }

  predicate NoneShrinks(vold: Counters, vnew: Counters, parts: seq<Key>)
    requires AllPresent(vold, parts) && AllPresent(vnew, parts)
  {
    forall k :: k in parts ==> vold[k] <= vnew[k]
  }

  predicate NoneGrows(vold: Counters, vnew: Counters, parts: seq<Key>)
    requires AllPresent(vold, parts) && AllPresent(vnew, parts)
  {
    forall k :: k in parts ==> vnew[k] <= vold[k]
  }

  /** How the sum of the clamped differences of the parts compares with the difference of the sums. */
  lemma {:induction false} SumOfDifferences(vold: Counters, vnew: Counters, parts: seq<Key>)
    requires AllPresent(vold, parts) && AllPresent(vnew, parts)
    ensures var d := OrZero(SumOf(vnew, parts)) - OrZero(SumOf(vold, parts));
            && d <= PartDifferences(vold, vnew, parts)
            && (d == PartDifferences(vold, vnew, parts) <==> NoneShrinks(vold, vnew, parts))
            && (PartDifferences(vold, vnew, parts) == 0 <==> NoneGrows(vold, vnew, parts))
  {
    if parts != [] {
      var n := |parts| - 1;
      assert parts == parts[..n] + [parts[n]];
      SumOfDifferences(vold, vnew, parts[..n]);
    }
  }

  /** When all parts were read at both ends, the published difference of a total is at most the sum of the published
      differences of its parts, and equal to it exactly if no part was reset, or none grew. */
  lemma TotalDifference(vold: Counters, vnew: Counters, total: Key, timeDiff: real)
    requires PartsOf(total) != [] && AllPresent(vold, PartsOf(total)) && AllPresent(vnew, PartsOf(total))
    ensures var v := ValueOf(Difference, At(NewStateOf(vold), total), At(NewStateOf(vnew), total), timeDiff);
            var parts := PartDifferences(vold, vnew, PartsOf(total));
            && v.Some? && v.value.Count? && v.value.n <= parts
            && (v.value.n == parts <==>
                  NoneShrinks(vold, vnew, PartsOf(total)) || NoneGrows(vold, vnew, PartsOf(total)))
  {
    var parts := PartsOf(total);
    SumOfDifferences(vold, vnew, parts);
    SumOfSome(vold, parts);
    SumOfSome(vnew, parts);
    assert parts[0] in parts;
    MeasuredOrTotal(total);
  }

  // ----- the rate of closes -----

  const CLOSES_RATE: Def := Def("gpfs_closes_rate", Oc, Derivative)

  /** By how much a counter grew as far as the rate shows it: not at all if it is missing now, if no time has passed or
      if it decreased. */
  function Growth(vold: Counters, vnew: Counters, k: Key, timeDiff: real): int
    requires k in vold
  {
    if k in vnew && timeDiff > 0.0 then Clamped(vnew[k] - vold[k]) else 0
  }

  /** The rate published as the rate of closes is computed from the counter of opens; it is the true one exactly if
      either counter or none was stored before, and both grew alike. */
  lemma ClosesRateExact(vold: Counters, vnew: Counters, timeDiff: real)
    ensures var published := ValueOf(CLOSES_RATE.how, At(vold, CLOSES_RATE.key), At(vnew, CLOSES_RATE.key), timeDiff);
      published == ValueOf(Derivative, At(vold, Cc), At(vnew, Cc), timeDiff) <==>
        && (Oc in vold <==> Cc in vold)
        && (Oc in vold ==> Growth(vold, vnew, Oc, timeDiff) == Growth(vold, vnew, Cc, timeDiff))
  {
    if Oc in vold { RateIsGrowth(vold, vnew, Oc, timeDiff); }
    if Cc in vold { RateIsGrowth(vold, vnew, Cc, timeDiff); }
    if Oc in vold && Cc in vold && timeDiff > 0.0 {
      RateOrder(Growth(vold, vnew, Oc, timeDiff), Growth(vold, vnew, Cc, timeDiff), timeDiff);
    }
  }

  lemma RateIsGrowth(vold: Counters, vnew: Counters, k: Key, timeDiff: real)
    requires k in vold
    ensures ValueOf(Derivative, At(vold, k), At(vnew, k), timeDiff)
         == Some(PerSecond(if timeDiff > 0.0 then Growth(vold, vnew, k, timeDiff) as real / timeDiff else 0.0))
  {
    if timeDiff > 0.0 {
      RateOrder(0, 0, timeDiff);
      if k in vnew { RateOrder(vnew[k] - vold[k], 0, timeDiff); }
    }
  }

  /** Ten opens and five closes in a second. */
  lemma ClosesRateWrong()
    ensures var vold: Counters := map[Oc := 0, Cc := 0]; var vnew: Counters := map[Oc := 10, Cc := 5];
      ValueOf(CLOSES_RATE.how, At(vold, CLOSES_RATE.key), At(vnew, CLOSES_RATE.key), 1.0)
        != ValueOf(Derivative, At(vold, Cc), At(vnew, Cc), 1.0)
  {
    ClosesRateExact(map[Oc := 0, Cc := 0], map[Oc := 10, Cc := 5], 1.0);
  }

  lemma RateOrder(a: int, b: int, t: real)
    requires t > 0.0
    ensures a < b <==> a as real / t < b as real / t
    ensures a == b <==> a as real / t == b as real / t
    ensures 0 as real / t == 0.0
  {
    var x, y := a as real / t, b as real / t;
    assert x * t == a as real && y * t == b as real;
    if x < y { assert x * t < y * t; } else if y < x { assert y * t < x * t; }
  }
}
