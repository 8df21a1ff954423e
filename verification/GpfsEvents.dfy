/** What the GPFS collector publishes over whole runs of lines: absolute values are the counters, differences and rates
    add up to what the counters have grown. */
module GpfsEvents {
  import opened Common
  import opened Gpfs
  import opened Sequences

  // ----- the totals -----

  /** The sum of what is there, if anything is. */
  function Plus(a: Option<int>, b: Option<int>): Option<int> {
    if a.None? then b else if b.None? then a else Some(a.value + b.value)
  }

  lemma SumNext(m: Counters, parts: seq<Key>, k: Key)
    ensures SumOf(m, parts + [k]) == Plus(SumOf(m, parts), At(m, k))
  {
    Appended(parts, k);
  }

  lemma NewStateAt(counters: Counters, k: Key)
    ensures At(NewStateOf(counters), k) == NewValue(counters, k)
  {
    hide SumOf;
    MeasuredOrTotal(k);
  }

  /** The counters a line gives are kept as they are. */
  lemma CounterIs(counters: Counters, k: Key)
    requires k in MEASURED
    ensures At(NewStateOf(counters), k) == At(counters, k)
  {
    hide NewStateOf, SumOf;
    NewStateAt(counters, k);
    MeasuredOrTotal(k);
  }

  /** The totals are those of the bytes read and written, of the reads and writes, and of the opens, closes, directory
      reads and inode updates. */
  lemma TotalsAre(counters: Counters)
    ensures var s := NewStateOf(counters);
            && At(s, BytesTotal) == Plus(At(counters, Br), At(counters, Bw))
            && At(s, Iops) == Plus(At(counters, Rdc), At(counters, Wc))
            && At(s, Metaops) ==
               Plus(Plus(Plus(At(counters, Oc), At(counters, Cc)), At(counters, Dir)), At(counters, Iu))
  {
    hide NewStateOf, SumOf, At, Plus;
    NewStateAt(counters, BytesTotal);
    NewStateAt(counters, Iops);
    NewStateAt(counters, Metaops);
    SumOfTwo(counters, Br, Bw);
    SumOfTwo(counters, Rdc, Wc);
    SumOfFour(counters, Oc, Cc, Dir, Iu);
  }

  lemma SumOfTwo(m: Counters, a: Key, b: Key)
    ensures SumOf(m, [a, b]) == Plus(At(m, a), At(m, b))
  {
    SumNext(m, [], a);
    SumNext(m, [a], b);
    assert [] + [a] == [a] && [a] + [b] == [a, b];
    hide SumOf;
    assert SumOf(m, []) == None by { NoParts(m); }
  }

  lemma NoParts(m: Counters)
    ensures SumOf(m, []) == None
  {
  }

  lemma SumOfFour(m: Counters, a: Key, b: Key, c: Key, d: Key)
    ensures SumOf(m, [a, b, c, d]) == Plus(Plus(Plus(At(m, a), At(m, b)), At(m, c)), At(m, d))
  {
    SumOfTwo(m, a, b);
    SumNext(m, [a, b], c);
    SumNext(m, [a, b, c], d);
    assert [a, b] + [c] == [a, b, c] && [a, b, c] + [d] == [a, b, c, d];
    hide SumOf;
  }

  // ----- what is published of one counter of one filesystem -----

  /** The events of one definition. */
  function Of(events: seq<Event>, fs: string, d: Def): seq<Event> {
    if events == [] then []
    else
      var n := |events| - 1;
      Of(events[..n], fs, d) + if events[n].fs == fs && events[n].def == d then [events[n]] else []
  }

  lemma {:induction false} OfMore(a: seq<Event>, b: seq<Event>, fs: string, d: Def)
    ensures Of(a + b, fs, d) == Of(a, fs, d) + Of(b, fs, d)
  {
    if b == [] {
      assert a + b == a;
    } else {
      hide Of;
      var n := |b| - 1;
      OfMore(a, b[..n], fs, d);
      EndsWithLast(b);
      Associative(a, b[..n], [b[n]]);
      OfNext(a + b[..n], b[n], fs, d);
      OfNext(b[..n], b[n], fs, d);
      Associative(Of(a, fs, d), Of(b[..n], fs, d), if b[n].fs == fs && b[n].def == d then [b[n]] else []);
    }
  }

  lemma OfNext(events: seq<Event>, e: Event, fs: string, d: Def)
    ensures Of(events + [e], fs, d) == Of(events, fs, d) + if e.fs == fs && e.def == d then [e] else []
  {
    Appended(events, e);
  }

  /** What one definition gives. */
  function One(fs: string, d: Def, v: Option<Value>, time: Time): seq<Event> {
    if v.Some? then [Event(fs, d, v.value, time)] else []
  }

  lemma OfThis(fs: string, def: Def, v: Option<Value>, time: Time, other: string, d: Def)
    ensures Of(One(fs, def, v, time), other, d) == if fs == other && def == d then One(fs, def, v, time) else []
  {
    if v.Some? { assert [Event(fs, def, v.value, time)][..0] == []; }
  }

  /** The only event of a definition that occurs once. */
  lemma {:induction false} OfOne(defs: seq<Def>, fs: string, vold: Counters, vnew: Counters, timeDiff: real, time: Time,
                                 d: Def)
    requires NoDuplicates(defs)
    ensures Of(EventsOf(defs, fs, vold, vnew, timeDiff, time), fs, d) ==
            if d in defs then One(fs, d, ValueOf(d.how, At(vold, d.key), At(vnew, d.key), timeDiff), time) else []
  {
    if defs != [] {
      hide ValueOf, Of, One;
      var n := |defs| - 1;
      OfOne(defs[..n], fs, vold, vnew, timeDiff, time, d);
      EndsWithLast(defs);
      LastEvent(defs, fs, vold, vnew, timeDiff, time, fs, d);
      hide EventsOf;
    }
  }

  /** The last definition's share. */
  lemma LastEvent(defs: seq<Def>, fs: string, vold: Counters, vnew: Counters, timeDiff: real, time: Time,
                  other: string, d: Def)
    requires defs != []
    ensures var n := |defs| - 1;
            Of(EventsOf(defs, fs, vold, vnew, timeDiff, time), other, d) ==
            Of(EventsOf(defs[..n], fs, vold, vnew, timeDiff, time), other, d) +
            if fs == other && defs[n] == d
            then One(fs, d, ValueOf(d.how, At(vold, d.key), At(vnew, d.key), timeDiff), time)
            else []
  {
    hide ValueOf, Of;
    var n := |defs| - 1;
    var v := ValueOf(defs[n].how, At(vold, defs[n].key), At(vnew, defs[n].key), timeDiff);
    OfMore(EventsOf(defs[..n], fs, vold, vnew, timeDiff, time), One(fs, defs[n], v, time), other, d);
    OfThis(fs, defs[n], v, time, other, d);
  }

  lemma {:induction false} OfOtherFilesystem(defs: seq<Def>, fs: string, vold: Counters, vnew: Counters, timeDiff: real,
                                             time: Time, other: string, d: Def)
    requires fs != other
    ensures Of(EventsOf(defs, fs, vold, vnew, timeDiff, time), other, d) == []
  {
    if defs != [] {
      OfOtherFilesystem(defs[..|defs| - 1], fs, vold, vnew, timeDiff, time, other, d);
      LastEvent(defs, fs, vold, vnew, timeDiff, time, other, d);
      hide EventsOf, Of, One, ValueOf;
    }
  }

  // ----- whole runs of lines -----

  /** A value of a counter or a total, and the time of its line. */
  datatype Point = Point(value: int, time: Time)

  /** An I/O line of this filesystem, which is not to be skipped, with return code 0 and a time. */
  predicate Concerns(skip: set<string>, line: Line, fs: string) {
    line.IoLine? && line.fs == Some(fs) && fs !in skip && line.rc == Some(0) && line.sec.Some? && line.usec.Some?
  }

  /** Micro seconds since 1970. */
  function StampOf(line: Line): Time
    requires line.IoLine? && line.sec.Some? && line.usec.Some?
  {
    line.sec.value * 1000000 + line.usec.value
  }

  /** Every accepted line of the filesystem gives the counter. */
  ghost predicate AlwaysThere(skip: set<string>, lines: seq<Line>, fs: string, k: Key) {
    forall i :: 0 <= i < |lines| && Concerns(skip, lines[i], fs) ==> At(NewStateOf(lines[i].counters), k).Some?
  }

  /** Its values, in the order of the lines. */
  function Series(skip: set<string>, lines: seq<Line>, fs: string, k: Key): seq<Point>
    requires AlwaysThere(skip, lines, fs, k)
  {
    if lines == [] then []
    else
      var n := |lines| - 1;
      Series(skip, lines[..n], fs, k) +
      if Concerns(skip, lines[n], fs) then
        [Point(At(NewStateOf(lines[n].counters), k).value, StampOf(lines[n]))]
      else []
  }

  const EMPTY: Memory := Memory(map[], map[])

  /** Only accepted lines of a filesystem change what is remembered of it. */
  lemma Remembers(skip: set<string>, m: Memory, line: Line, fs: string)
    ensures var m' := AfterLine(skip, m, line);
            if Concerns(skip, line, fs) && NewStateOf(line.counters) != map[] then
              && Old(m', fs) == NewStateOf(line.counters)
              && fs in m'.lastTimestamp && m'.lastTimestamp[fs] == StampOf(line)
            else if Concerns(skip, line, fs) then Old(m', fs) == Old(m, fs)
            else Old(m', fs) == Old(m, fs) && (fs in m.lastTimestamp <==> fs in m'.lastTimestamp)
                 && (fs in m.lastTimestamp ==> m'.lastTimestamp[fs] == m.lastTimestamp[fs])
  {
    hide NewStateOf;
  }

  /** The memory after some lines holds the last value, or nothing. */
  ghost predicate Remembered(m: Memory, s: seq<Point>, fs: string, k: Key) {
    if s == [] then Old(m, fs) == map[]
    else
      var last := s[|s| - 1];
      At(Old(m, fs), k) == Some(last.value) && fs in m.lastTimestamp && m.lastTimestamp[fs] == last.time
  }

  lemma {:induction false} LastRemembered(skip: set<string>, lines: seq<Line>, fs: string, k: Key)
    requires AlwaysThere(skip, lines, fs, k)
    ensures Remembered(After(skip, EMPTY, lines), Series(skip, lines, fs, k), fs, k)
  {
    if lines != [] {
      hide NewStateOf, AfterLine;
      var n := |lines| - 1;
      LastRemembered(skip, lines[..n], fs, k);
      Remembers(skip, After(skip, EMPTY, lines[..n]), lines[n], fs);
    }
  }

  /** What the lines publish of one definition. */
  function Published(defs: seq<Def>, skip: set<string>, lines: seq<Line>, fs: string, d: Def): seq<Event> {
    Of(Events(defs, skip, EMPTY, lines), fs, d)
  }

  /** The value for one more line of the series. */
  function NextValue(d: Def, s: seq<Point>, p: Point): Option<Value> {
    ValueOf(d.how, if s == [] then None else Some(s[|s| - 1].value), Some(p.value),
            if s == [] then 0.0 else (p.time - s[|s| - 1].time) as real / 1000000.0)
  }

  lemma FirstTime(how: Calc, vnew: Option<int>, timeDiff: real)
    ensures ValueOf(how, None, vnew, timeDiff) == ValueOf(how, None, vnew, 0.0)
  {
  }

  lemma LastInSeries(skip: set<string>, lines: seq<Line>, fs: string, k: Key)
    requires lines != [] && AlwaysThere(skip, lines, fs, k)
    ensures var n := |lines| - 1;
            Series(skip, lines, fs, k) ==
            if Concerns(skip, lines[n], fs)
            then Series(skip, lines[..n], fs, k)
                 + [Point(At(NewStateOf(lines[n].counters), k).value, StampOf(lines[n]))]
            else Series(skip, lines[..n], fs, k)
  {
    hide NewStateOf;
  }

  /** The event that the last line adds. */
  lemma LastPublished(defs: seq<Def>, skip: set<string>, lines: seq<Line>, fs: string, d: Def)
    requires NoDuplicates(defs) && d in defs && lines != [] && AlwaysThere(skip, lines, fs, d.key)
    ensures var n := |lines| - 1;
            var before, s := Published(defs, skip, lines[..n], fs, d), Series(skip, lines[..n], fs, d.key);
            if Concerns(skip, lines[n], fs) then
              var p := Point(At(NewStateOf(lines[n].counters), d.key).value, StampOf(lines[n]));
              && Series(skip, lines, fs, d.key) == s + [p]
              && Published(defs, skip, lines, fs, d) == before + One(fs, d, NextValue(d, s, p), p.time)
            else Published(defs, skip, lines, fs, d) == before && Series(skip, lines, fs, d.key) == s
  {
    hide NewStateOf, ValueOf, Of, EventsOf, Series, After, One, Remembered, NextValue, LineEvents;
    var n := |lines| - 1;
    var m, line := After(skip, EMPTY, lines[..n]), lines[n];
    LastInSeries(skip, lines, fs, d.key);
    OfMore(Events(defs, skip, EMPTY, lines[..n]), LineEvents(defs, skip, m, line), fs, d);
    OfLine(defs, skip, m, line, fs, d);
    LastRemembered(skip, lines[..n], fs, d.key);
    if Concerns(skip, line, fs) {
      ValueFromMemory(m, Series(skip, lines[..n], fs, d.key), fs, d,
                      Point(At(NewStateOf(line.counters), d.key).value, StampOf(line)));
    }
  }

  /** What one line publishes of a definition. */
  lemma OfLine(defs: seq<Def>, skip: set<string>, m: Memory, line: Line, fs: string, d: Def)
    requires NoDuplicates(defs) && d in defs
    ensures Of(LineEvents(defs, skip, m, line), fs, d) ==
            if Concerns(skip, line, fs) then
              One(fs, d, ValueOf(d.how, At(Old(m, fs), d.key), At(NewStateOf(line.counters), d.key),
                                 TimeDiff(m, fs, StampOf(line))), StampOf(line))
            else []
  {
    hide NewStateOf, ValueOf, Of, EventsOf, One;
    if Accepted(skip, line) {
      var name := line.fs.value;
      var timeDiff := TimeDiff(m, name, StampOf(line));
      if name == fs {
        OfOne(defs, fs, Old(m, fs), NewStateOf(line.counters), timeDiff, StampOf(line), d);
      } else {
        OfOtherFilesystem(defs, name, Old(m, name), NewStateOf(line.counters), timeDiff, StampOf(line), fs, d);
      }
    } else {
      NoneOf(fs, d);
    }
  }

  lemma ValueFromMemory(m: Memory, s: seq<Point>, fs: string, d: Def, p: Point)
    requires Remembered(m, s, fs, d.key)
    ensures ValueOf(d.how, At(Old(m, fs), d.key), Some(p.value), TimeDiff(m, fs, p.time)) == NextValue(d, s, p)
  {
    if s == [] { FirstTime(d.how, Some(p.value), TimeDiff(m, fs, p.time)); }
    hide ValueOf;
  }

  lemma NoneOf(fs: string, d: Def)
    ensures Of([], fs, d) == []
  {
  }

  // ----- the values add up -----

  /** The value from one line of the series to the next; an absolute value needs no line before. */
  function Between(how: Calc, a: Point, b: Point): Option<Value> {
    ValueOf(how, Some(a.value), Some(b.value), (b.time - a.time) as real / 1000000.0)
  }

  /** One event for every line of the series, or for every line but the first. */
  ghost predicate Matches(events: seq<Event>, s: seq<Point>, d: Def) {
    if d.how.Absolute? then
      && |events| == |s|
      && forall i :: 0 <= i < |s| ==> events[i].value == Count(s[i].value) && events[i].time == s[i].time
    else
      && |events| == (if s == [] then 0 else |s| - 1)
      && forall i :: 0 < i < |s| ==>
           Some(events[i - 1].value) == Between(d.how, s[i - 1], s[i]) && events[i - 1].time == s[i].time
  }

  lemma MatchesNext(events: seq<Event>, s: seq<Point>, d: Def, fs: string, p: Point)
    requires Matches(events, s, d)
    ensures Matches(events + One(fs, d, NextValue(d, s, p), p.time), s + [p], d)
  {
  }

  lemma {:induction false} PublishedMatches(defs: seq<Def>, skip: set<string>, lines: seq<Line>, fs: string, d: Def)
    requires NoDuplicates(defs) && d in defs && AlwaysThere(skip, lines, fs, d.key)
    ensures Matches(Published(defs, skip, lines, fs, d), Series(skip, lines, fs, d.key), d)
  {
    if lines != [] {
      hide Published, Matches, NewStateOf, NextValue, Series, One;
      var n := |lines| - 1;
      PublishedMatches(defs, skip, lines[..n], fs, d);
      LastPublished(defs, skip, lines, fs, d);
      if Concerns(skip, lines[n], fs) {
        MatchesNext(Published(defs, skip, lines[..n], fs, d), Series(skip, lines[..n], fs, d.key), d, fs,
                    Point(At(NewStateOf(lines[n].counters), d.key).value, StampOf(lines[n])));
      }
    }
  }

  /** Time moves on and the counter does not run backwards. */
  ghost predicate Rising(s: seq<Point>) {
    forall i :: 0 < i < |s| ==> s[i - 1].time < s[i].time && s[i - 1].value <= s[i].value
  }

  function SumOfCounts(events: seq<Event>): int {
    if events == [] then 0
    else
      var v := events[|events| - 1].value;
      SumOfCounts(events[..|events| - 1]) + if v.Count? then v.n else 0
  }

  function RateTimesTime(v: Value, before: Time, now: Time): real {
    match v
    case Count(_) => 0.0
    case PerSecond(r) => r * ((now - before) as real / 1000000.0)
  }

  /** Rates times the seconds since the event before; `start` stands for the time before the first. */
  function RatesTimesTime(events: seq<Event>, start: Time): real {
    if events == [] then 0.0
    else
      var n := |events| - 1;
      var before := if n == 0 then start else events[n - 1].time;
      RatesTimesTime(events[..n], start) + RateTimesTime(events[n].value, before, events[n].time)
  }

  lemma MatchesBefore(events: seq<Event>, s: seq<Point>, d: Def)
    requires Matches(events, s, d) && !d.how.Absolute? && |s| > 1
    ensures |events| == |s| - 1 && Matches(events[..|s| - 2], s[..|s| - 1], d)
    ensures Some(events[|s| - 2].value) == Between(d.how, s[|s| - 2], s[|s| - 1])
    ensures events[|s| - 2].time == s[|s| - 1].time && (|s| > 2 ==> events[|s| - 3].time == s[|s| - 2].time)
  {
    hide Between;
    var n := |s| - 1;
    forall i | 0 < i < n
      ensures Some(events[..n - 1][i - 1].value) == Between(d.how, s[..n][i - 1], s[..n][i])
    {
      assert Some(events[i - 1].value) == Between(d.how, s[i - 1], s[i]);
    }
  }

  lemma DifferenceBetween(a: Point, b: Point)
    requires a.value <= b.value
    ensures Between(Difference, a, b) == Some(Count(b.value - a.value))
  {
  }

  lemma RateBetween(a: Point, b: Point)
    requires a.value <= b.value && a.time < b.time
    ensures var v := Between(Derivative, a, b);
            v.Some? && v.value.PerSecond? && RateTimesTime(v.value, a.time, b.time) == (b.value - a.value) as real
  {
    Quotient(b.value - a.value, (b.time - a.time) as real / 1000000.0);
  }

  lemma Quotient(units: int, seconds: real)
    requires seconds > 0.0
    ensures units as real / seconds * seconds == units as real
    ensures units >= 0 ==> units as real / seconds >= 0.0
  {
  }

  lemma {:induction false} CountsAddUp(events: seq<Event>, s: seq<Point>, d: Def)
    requires Matches(events, s, d) && d.how.Difference? && Rising(s) && s != []
    ensures SumOfCounts(events) == s[|s| - 1].value - s[0].value
  {
    if |s| > 1 {
      hide Between, Matches;
      var n := |s| - 1;
      MatchesBefore(events, s, d);
      CountsAddUp(events[..n - 1], s[..n], d);
      DifferenceBetween(s[n - 1], s[n]);
    }
  }

  lemma RatesNext(events: seq<Event>, start: Time)
    requires events != []
    ensures var n := |events| - 1;
            RatesTimesTime(events, start) ==
            RatesTimesTime(events[..n], start)
            + RateTimesTime(events[n].value, if n == 0 then start else events[n - 1].time, events[n].time)
  {
    hide RateTimesTime;
  }

  lemma {:induction false} RatesAddUp(events: seq<Event>, s: seq<Point>, d: Def)
    requires Matches(events, s, d) && d.how.Derivative? && Rising(s) && s != []
    ensures RatesTimesTime(events, s[0].time) == (s[|s| - 1].value - s[0].value) as real
  {
    if |s| > 1 {
      hide Between, Matches, RateTimesTime;
      var n := |s| - 1;
      MatchesBefore(events, s, d);
      RatesAddUp(events[..n - 1], s[..n], d);
      RateBetween(s[n - 1], s[n]);
      RatesNext(events, s[0].time);
      hide RatesTimesTime;
    }
  }

  /** Absolute values: every line of the filesystem publishes its value of the counter, at its time. */
  lemma AbsolutesPublished(defs: seq<Def>, skip: set<string>, lines: seq<Line>, fs: string, d: Def)
    requires NoDuplicates(defs) && d in defs && AlwaysThere(skip, lines, fs, d.key) && d.how.Absolute?
    ensures var events, s := Published(defs, skip, lines, fs, d), Series(skip, lines, fs, d.key);
            |events| == |s|
            && forall i :: 0 <= i < |s| ==> events[i].value == Count(s[i].value) && events[i].time == s[i].time
  {
    PublishedMatches(defs, skip, lines, fs, d);
  }

  /** Differences: whatever other lines come in between, they add up to the growth of the counter from the first to the
      last line of the filesystem. */
  lemma DifferencesAddUp(defs: seq<Def>, skip: set<string>, lines: seq<Line>, fs: string, d: Def)
    requires NoDuplicates(defs) && d in defs && AlwaysThere(skip, lines, fs, d.key) && d.how.Difference?
    requires Series(skip, lines, fs, d.key) != [] && Rising(Series(skip, lines, fs, d.key))
    ensures var s := Series(skip, lines, fs, d.key);
            SumOfCounts(Published(defs, skip, lines, fs, d)) == s[|s| - 1].value - s[0].value
  {
    hide Published, Matches, Series, Rising;
    PublishedMatches(defs, skip, lines, fs, d);
    CountsAddUp(Published(defs, skip, lines, fs, d), Series(skip, lines, fs, d.key), d);
  }

  /** Rates: times the seconds since the line before, they add up to the same. */
  lemma RatesTimesTimeIsGrowth(defs: seq<Def>, skip: set<string>, lines: seq<Line>, fs: string, d: Def)
    requires NoDuplicates(defs) && d in defs && AlwaysThere(skip, lines, fs, d.key) && d.how.Derivative?
    requires Series(skip, lines, fs, d.key) != [] && Rising(Series(skip, lines, fs, d.key))
    ensures var s := Series(skip, lines, fs, d.key);
            RatesTimesTime(Published(defs, skip, lines, fs, d), s[0].time) == (s[|s| - 1].value - s[0].value) as real
  {
    hide Published, Matches, Series, Rising;
    PublishedMatches(defs, skip, lines, fs, d);
    RatesAddUp(Published(defs, skip, lines, fs, d), Series(skip, lines, fs, d.key), d);
  }

  // ----- values that are missing or have fallen -----

  /** A counter that a line does not give counts as unchanged, whatever is published of it. */
  lemma MissingIsUnchanged(how: Calc, vold: int, timeDiff: real)
    ensures ValueOf(how, Some(vold), None, timeDiff) == ValueOf(how, Some(vold), Some(vold), timeDiff)
  {
    if timeDiff > 0.0 { Quotient(0, timeDiff); }
  }

  /** So does one that has fallen, for differences and rates. */
  lemma FallenIsUnchanged(how: Calc, vold: int, vnew: int, timeDiff: real)
    requires vnew < vold && !how.Absolute?
    ensures ValueOf(how, Some(vold), Some(vnew), timeDiff) == ValueOf(how, Some(vold), Some(vold), timeDiff)
  {
    if timeDiff > 0.0 { RateOrder(vnew - vold, 0, timeDiff); }
  }
}
