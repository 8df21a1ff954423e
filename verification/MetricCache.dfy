/** internal/metricRouter/metricCache.go: a ring of interval records. The metric list of a record is never
    shortened; the next interval in the same record overwrites it from the front. */
module MetricCache {
  import opened Common
  import opened Arithmetic

  // ----- specification: a record's content as a function of all intervals so far -----

  /** A list overwritten from the front. */
  function Overlay<T>(below: seq<T>, above: seq<T>): seq<T> {
    if |above| < |below| then above + below[|above|..] else above
  }

  /** The content of record `slot` in a ring of n after the intervals hist: interval k is stored in record k mod n. */
  function Slot<T>(hist: seq<seq<T>>, n: nat, slot: nat): seq<T>
    requires n > 0
  {
    if hist == [] then []
    else
      var k := |hist| - 1;
      var before := Slot(hist[..k], n, slot);
      if k % n == slot then Overlay(before, hist[k]) else before
  }

  /** A new, empty interval leaves the contents of its record in place. */
  lemma SlotOpened<T>(hist: seq<seq<T>>, n: nat, slot: nat)
    requires n > 0
    ensures Slot(hist + [[]], n, slot) == Slot(hist, n, slot)
  {
    assert (hist + [[]])[..|hist|] == hist;
  }

  /** The intervals once a metric has been added to the newest one. */
  function Extended<T>(hist: seq<seq<T>>, metric: T): seq<seq<T>>
    requires hist != []
  {
    hist[..|hist| - 1] + [hist[|hist| - 1] + [metric]]
  }

  /** A record's content once a metric has been written behind the first num ones. */
  function Written<T>(content: seq<T>, num: nat, metric: T): seq<T> {
    if num < |content| then content[num := metric] else content + [metric]
  }

  lemma CurrentExtended<T>(hist: seq<seq<T>>, n: nat, metric: T)
    requires n > 0 && hist != []
    ensures Current(Extended(hist, metric), n) == Current(hist, n)
  {
  }

  lemma OverlayGrows<T>(below: seq<T>, above: seq<T>, metric: T)
    ensures Overlay(below, above + [metric]) == Written(Overlay(below, above), |above|, metric)
  {
  }

  lemma SlotExtended<T>(hist: seq<seq<T>>, n: nat, metric: T, slot: nat)
    requires n > 0 && hist != []
    ensures Slot(Extended(hist, metric), n, slot) ==
              if slot == Current(hist, n) then Written(Slot(hist, n, slot), |hist[|hist| - 1]|, metric)
              else Slot(hist, n, slot)
  {
    var last := |hist| - 1;
    assert Extended(hist, metric)[..last] == hist[..last];
    OverlayGrows(Slot(hist[..last], n, slot), hist[last], metric);
  }

  /** The record of the newest interval. */
  function Current<T>(hist: seq<seq<T>>, n: nat): (slot: nat)
    requires n > 0 && hist != []
    ensures slot < n
  {
    (|hist| - 1) % n
  }

  /** What GetPeriod returns. */
  function Lookup<T>(hist: seq<seq<T>>, n: nat, index: int): seq<T>
    requires n > 0 && hist != []
  {
    if 0 <= index <= Current(hist, n) then Slot(hist, n, Current(hist, n) - index) else []
  }

  /** What a tick hands to the aggregator: hist ends with the interval just opened; the lookup is made with the
      record number of the interval just ended. */
  function HandedOver<T>(hist: seq<seq<T>>, n: nat): seq<T>
    requires n > 0 && |hist| >= 2
  {
    Lookup(hist, n, (|hist| - 2) % n)
  }

  lemma NextCurrent<T>(hist: seq<seq<T>>, n: nat)
    requires n > 0 && hist != []
    ensures Current(hist + [[]], n) == if Current(hist, n) + 1 >= n then 0 else Current(hist, n) + 1
  {
    NextSlot(|hist|, n);
  }

  // ----- the same for the time stamps of a record -----

  /** When an interval was opened, and the last time noted in it: that of its newest metric or of its end. */
  datatype Span = Span(began: Time, noted: Time)

  const NO_SPAN: Span := Span(0, 0)   // the zero time stands as 0

  /** An interval ends when the next one is opened. */
  ghost predicate InLine(spans: seq<Span>) {
    forall k :: 0 <= k < |spans| - 1 ==> spans[k].noted == spans[k + 1].began
  }

  /** The latest interval in record `slot`. */
  function SpanOf(spans: seq<Span>, n: nat, slot: nat): Span
    requires n > 0
  {
    if spans == [] then NO_SPAN
    else
      var k := |spans| - 1;
      if k % n == slot then spans[k] else SpanOf(spans[..k], n, slot)
  }

  /** A new time is noted in the current interval. */
  function Noted(spans: seq<Span>, time: Time): seq<Span>
    requires spans != []
  {
    spans[..|spans| - 1] + [spans[|spans| - 1].(noted := time)]
  }

  lemma SpanNoted(spans: seq<Span>, n: nat, time: Time, slot: nat)
    requires n > 0 && spans != []
    ensures SpanOf(Noted(spans, time), n, slot) ==
              if slot == (|spans| - 1) % n then Span(spans[|spans| - 1].began, time) else SpanOf(spans, n, slot)
    ensures SpanOf(spans, n, (|spans| - 1) % n) == spans[|spans| - 1]
  {
    assert Noted(spans, time)[..|spans| - 1] == spans[..|spans| - 1];
  }

  lemma SpanOpened(spans: seq<Span>, n: nat, new_: Span, slot: nat)
    requires n > 0
    ensures SpanOf(spans + [new_], n, slot) == if slot == |spans| % n then new_ else SpanOf(spans, n, slot)
  {
    assert (spans + [new_])[..|spans|] == spans;
  }

  // ----- a whole record -----

  datatype Record<T> = Record(metrics: seq<T>, size: nat, num: nat, span: Span)

  /** What a record of the ring holds after the intervals hist with these spans. */
  function RecordAt<T>(hist: seq<seq<T>>, spans: seq<Span>, n: nat, slot: nat): Record<T>
    requires n > 0 && hist != [] && |spans| == |hist|
  {
    var metrics := Slot(hist, n, slot);
    Record(metrics, |metrics|, if slot == Current(hist, n) then |hist[|hist| - 1]| else 0, SpanOf(spans, n, slot))
  }

  /** The record once a metric has been added to it. */
  function WithMetric<T>(r: Record<T>, metric: T, time: Time): Record<T> {
    Record(Written(r.metrics, r.num, metric), if r.num < r.size then r.size else r.size + 1, r.num + 1,
           r.span.(noted := time))
  }

  lemma RecordExtended<T>(hist: seq<seq<T>>, spans: seq<Span>, n: nat, metric: T, time: Time, slot: nat)
    requires n > 0 && hist != [] && |spans| == |hist|
    ensures var r := RecordAt(hist, spans, n, slot);
      RecordAt(Extended(hist, metric), Noted(spans, time), n, slot) ==
        if slot == Current(hist, n) then WithMetric(r, metric, time) else r
  {
    CurrentExtended(hist, n, metric);
    SlotExtended(hist, n, metric, slot);
    SpanNoted(spans, n, time, slot);
    hide Slot, SpanOf;
  }

  /** A record at the turn from one interval to the next. */
  function Turned<T>(r: Record<T>, closes: bool, opens: bool, time: Time): Record<T> {
    r.(num := if closes then 0 else r.num,
       span := if opens then Span(time, time) else if closes then r.span.(noted := time) else r.span)
  }

  lemma RecordTurned<T>(hist: seq<seq<T>>, spans: seq<Span>, n: nat, time: Time, slot: nat)
    requires n > 0 && hist != [] && |spans| == |hist|
    ensures RecordAt(hist + [[]], Noted(spans, time) + [Span(time, time)], n, slot) ==
              Turned(RecordAt(hist, spans, n, slot), slot == Current(hist, n), slot == Current(hist + [[]], n), time)
  {
    SlotOpened(hist, n, slot);
    SpanOpened(Noted(spans, time), n, Span(time, time), slot);
    SpanNoted(spans, n, time, slot);
    hide Slot, SpanOf;
  }

  /** The interval `index` rotations back is still the latest one in its record. */
  lemma {:induction false} SpanInLap(spans: seq<Span>, n: nat, index: nat)
    requires n > 0 && spans != [] && index <= (|spans| - 1) % n
    ensures index < |spans|
    ensures SpanOf(spans, n, (|spans| - 1) % n - index) == spans[|spans| - 1 - index]
  {
    var last := |spans| - 1;
    SameLap(last, n, index);
    if index > 0 {
      SameLap(last, n, 1);
      SpanInLap(spans[..last], n, index - 1);
    }
  }

  // ----- the code -----

  class Period<T> {
    var startstamp: Time
    var stopstamp: Time
    var numMetrics: nat
    var sizeMetrics: nat
    var metrics: seq<T>

    constructor ()
      ensures State() == Record([], 0, 0, NO_SPAN)
    {
      startstamp, stopstamp, numMetrics, sizeMetrics, metrics := 0, 0, 0, 0, [];
    }

    function State(): Record<T>
      reads this
    {
      Record(metrics, sizeMetrics, numMetrics, Span(startstamp, stopstamp))
    }

    /** Add's work on the current record. */
    method Note(metric: T, time: Time)
      requires sizeMetrics == |metrics|
      modifies this
      ensures State() == WithMetric(old(State()), metric, time)
    {
      if numMetrics < sizeMetrics {
        metrics := metrics[numMetrics := metric];
        numMetrics := numMetrics + 1;
        stopstamp := time;
      } else {
        metrics := metrics + [metric];
        numMetrics := numMetrics + 1;
        sizeMetrics := sizeMetrics + 1;
        stopstamp := time;
      }
    }
  }

  class Cache<T> {
    var numPeriods: int
    var curPeriod: int
    var intervals: seq<Period<T>>
    ghost var hist: seq<seq<T>>    // all intervals, the current one last
    ghost var spans: seq<Span>     // and their times

    ghost predicate Valid()
      reads this, intervals
    {
      && 0 < numPeriods && |intervals| == numPeriods + 1
      && hist != [] && curPeriod == Current(hist, numPeriods)
      && (forall i, j :: 0 <= i < j < |intervals| ==> intervals[i] != intervals[j])
      && |spans| == |hist| && InLine(spans)
      && (forall i :: 0 <= i < numPeriods ==> intervals[i].State() == RecordAt(hist, spans, numPeriods, i))
    }

    constructor (numPeriods: int)
      requires 0 < numPeriods
      ensures Valid() && fresh(intervals) && hist == [[]] && spans == [NO_SPAN] && this.numPeriods == numPeriods
    {
      this.numPeriods, this.curPeriod, this.intervals := numPeriods, 0, [];
      hist, spans := [[]], [NO_SPAN];
      new;
      var i := 0;
      while i < numPeriods + 1
        invariant 0 <= i <= numPeriods + 1 && |intervals| == i
        invariant this.numPeriods == numPeriods && curPeriod == 0 && hist == [[]] && spans == [NO_SPAN]
        invariant fresh(intervals)
        invariant forall j :: 0 <= j < i ==>
          intervals[j].State() == Record([], 0, 0, NO_SPAN)
        invariant forall j, k :: 0 <= j < k < i ==> intervals[j] != intervals[k]
      {
        var p := new Period<T>();
        intervals := intervals + [p];
        i := i + 1;
      }
      forall j | 0 <= j < numPeriods ensures Slot<T>([[]], numPeriods, j) == [] {
        var h: seq<seq<T>> := [[]];
        assert h[..0] == [];
      }
      assert forall j :: 0 <= j < numPeriods ==> SpanOf(spans, numPeriods, j) == NO_SPAN;
    }

    /** Adds a metric to the current interval. */
    method Add(metric: T, time: Time)
      requires Valid()
      modifies intervals, `hist, `spans
      ensures Valid() && intervals == old(intervals) && numPeriods == old(numPeriods) && curPeriod == old(curPeriod)
      ensures hist == Extended(old(hist), metric) && spans == Noted(old(spans), time)
    {
      CurrentExtended(hist, numPeriods, metric);
      if 0 <= curPeriod < numPeriods {
        assert intervals[curPeriod].State() == RecordAt(hist, spans, numPeriods, curPeriod);
        intervals[curPeriod].Note(metric, time);
      }
      hide Current, RecordAt, Period.State, WithMetric;
      forall i | 0 <= i < numPeriods
        ensures intervals[i].State() == RecordAt(Extended(hist, metric), Noted(spans, time), numPeriods, i)
      {
        RecordExtended(hist, spans, numPeriods, metric, time, i);
      }
      hist, spans := Extended(hist, metric), Noted(spans, time);
    }

    /** Ends the interval in one record and begins another one; the metrics stay where they are. */
    method Turn(closing: nat, opening: nat, timestamp: Time)
      requires closing < |intervals| && opening < |intervals|
      requires forall i, j :: 0 <= i < j < |intervals| ==> intervals[i] != intervals[j]
      modifies intervals
      ensures forall i :: 0 <= i < |intervals| ==>
        intervals[i].State() == Turned(old(intervals[i].State()), i == closing, i == opening, timestamp)
    {
      intervals[closing].numMetrics := 0;
      intervals[closing].stopstamp := timestamp;
      intervals[opening].startstamp := timestamp;
      intervals[opening].stopstamp := timestamp;
    }

    /** Opens the next interval. */
    method Rotate(timestamp: Time) returns (oldPeriod: int)
      requires Valid()
      modifies this, intervals
      ensures Valid() && intervals == old(intervals) && numPeriods == old(numPeriods)
      ensures hist == old(hist) + [[]] && oldPeriod == old(curPeriod)
      ensures spans == Noted(old(spans), timestamp) + [Span(timestamp, timestamp)]
    {
      hide Current, RecordAt, Period.State, Turned;
      oldPeriod := curPeriod;
      curPeriod := oldPeriod + 1;
      if curPeriod >= numPeriods {
        curPeriod := 0;
      }
      NextCurrent(hist, numPeriods);
      Turn(oldPeriod, curPeriod, timestamp);
      forall i | 0 <= i < numPeriods
        ensures intervals[i].State() ==
                RecordAt(hist + [[]], Noted(spans, timestamp) + [Span(timestamp, timestamp)], numPeriods, i)
      {
        RecordTurned(hist, spans, numPeriods, timestamp, i);
      }
      hist, spans := hist + [[]], Noted(spans, timestamp) + [Span(timestamp, timestamp)];
    }

    /** The metrics of an earlier interval, as far as the code finds them. */
    method GetPeriod(index: int, now: Time) returns (start: Time, stop: Time, metrics: seq<T>)
      requires Valid()
      ensures metrics == Lookup(hist, numPeriods, index)
      ensures 0 <= index <= curPeriod ==>
        index < |spans| && start == spans[|spans| - 1 - index].began && stop == spans[|spans| - 1 - index].noted
      ensures !(0 <= index <= curPeriod) ==> start == stop == now && metrics == []
    {
      start, stop := now, now;
      if 0 <= index <= curPeriod { SpanInLap(spans, numPeriods, index); }
      if index >= 0 && index < numPeriods {
        var pindex := curPeriod - index;
        if pindex < 0 {
          pindex := numPeriods - pindex;
        }
        if pindex >= 0 && pindex < numPeriods {
          start := intervals[pindex].startstamp;
          stop := intervals[pindex].stopstamp;
          metrics := intervals[pindex].metrics;
        } else {
          metrics := [];
        }
      } else {
        metrics := [];
      }
    }

    /** One tick: rotate, then look up what the aggregator is to evaluate. With a ring of one record the start time
        passed on is that of the tick, not that of the interval that ended. */
    method Tick(tick: Time, now: Time) returns (start: Time, stop: Time, metrics: seq<T>)
      requires Valid()
      modifies this, intervals
      ensures Valid() && intervals == old(intervals) && numPeriods == old(numPeriods)
      ensures hist == old(hist) + [[]] && spans == Noted(old(spans), tick) + [Span(tick, tick)]
      ensures metrics == HandedOver(hist, numPeriods)
      ensures
        var index := old(curPeriod);
        if index <= curPeriod then
          index < |spans| && start == spans[|spans| - 1 - index].began && stop == spans[|spans| - 1 - index].noted
        else start == stop == now
      ensures numPeriods == 1 ==> start == stop == tick
    {
      var oldPeriod := Rotate(tick);
      start, stop, metrics := GetPeriod(oldPeriod, now);
    }
  }

  lemma NextSlot(k: nat, n: nat)
    requires 0 < k && 0 < n
    ensures k % n == if (k - 1) % n + 1 >= n then 0 else (k - 1) % n + 1
  {
    var q, r := (k - 1) / n, (k - 1) % n;
    assert k - 1 == n * q + r;
    if r + 1 >= n {
      assert k == n * (q + 1);
      DivModUnique(k, n, q + 1, 0);
    } else {
      DivModUnique(k, n, q, r + 1);
    }
  }

  // ----- what a record contains -----

  /** The record interval k is stored in. */
  function SlotOf(k: nat, n: nat): nat
    requires n > 0
  {
    k % n
  }

  /** Interval k is the latest one stored in this record that has more than j metrics. */
  ghost predicate LatestWith<T>(hist: seq<seq<T>>, n: nat, slot: nat, j: nat, k: nat)
    requires n > 0
  {
    && k < |hist| && SlotOf(k, n) == slot && j < |hist[k]|
    && forall i :: k < i < |hist| && SlotOf(i, n) == slot ==> |hist[i]| <= j
  }

  /** Element j of a record is the j-th metric of its latest interval that has more than j. */
  lemma {:induction false} SlotElement<T>(hist: seq<seq<T>>, n: nat, slot: nat, j: nat) returns (k: nat)
    requires n > 0 && j < |Slot(hist, n, slot)|
    ensures LatestWith(hist, n, slot, j, k) && Slot(hist, n, slot)[j] == hist[k][j]
  {
    var last := |hist| - 1;
    if SlotOf(last, n) == slot && j < |hist[last]| {
      k := last;
    } else {
      k := SlotElement(hist[..last], n, slot, j);
      assert hist[..last][k] == hist[k];
      forall i | k < i < |hist| && SlotOf(i, n) == slot ensures |hist[i]| <= j {
        assert i < last ==> hist[..last][i] == hist[i];
      }
    }
  }

  /** A record is as long as the largest interval it ever held. */
  lemma {:induction false} SlotSize<T>(hist: seq<seq<T>>, n: nat, slot: nat)
    requires n > 0
    ensures forall k :: 0 <= k < |hist| && SlotOf(k, n) == slot ==> |hist[k]| <= |Slot(hist, n, slot)|
    ensures Slot(hist, n, slot) == [] ||
            exists k :: 0 <= k < |hist| && SlotOf(k, n) == slot && |hist[k]| == |Slot(hist, n, slot)|
  {
    if hist != [] {
      var last := |hist| - 1;
      SlotSize(hist[..last], n, slot);
      assert SlotOf(last, n) == last % n;
      forall k | 0 <= k < last && SlotOf(k, n) == slot ensures |hist[k]| <= |Slot(hist, n, slot)| {
        assert hist[..last][k] == hist[k];
      }
    }
  }

  /** The latest interval of a record is intact at its front. */
  lemma {:induction false} SlotPrefix<T>(hist: seq<seq<T>>, n: nat, k: nat)
    requires n > 0 && k < |hist|
    requires forall i :: k < i < |hist| ==> SlotOf(i, n) != SlotOf(k, n)
    ensures hist[k] <= Slot(hist, n, SlotOf(k, n))
  {
    var last := |hist| - 1;
    if k < last {
      assert SlotOf(last, n) == last % n;
      SlotPrefix(hist[..last], n, k);
    }
  }

  // ----- what GetPeriod and a tick return -----

  lemma SameLap(last: nat, n: nat, index: nat)
    requires n > 0 && index <= last % n
    ensures index <= last && SlotOf(last - index, n) == last % n - index
  {
    assert last == n * (last / n) + last % n;
    assert n * (last / n) >= 0 by { if last / n >= 1 { MulAtLeast(n, last / n); } }
    DivModUnique(last - index, n, last / n, last % n - index);
  }

  /** GetPeriod(index) starts with the metrics of the interval `index` rotations back exactly if that interval lies
      in the current lap around the ring (or was empty); the wrap-around of the index does not work. */
  lemma LookupExact<T>(hist: seq<seq<T>>, n: nat, index: nat)
    requires n > 0 && index < n && index < |hist|
    ensures hist[|hist| - 1 - index] <= Lookup(hist, n, index) <==>
            index <= Current(hist, n) || hist[|hist| - 1 - index] == []
  {
    var last := |hist| - 1;
    var k := last - index;
    if index <= Current(hist, n) {
      SameLap(last, n, index);
      forall i | k < i < |hist| ensures SlotOf(i, n) != SlotOf(k, n) {
        SameLap(last, n, last - i);
      }
      SlotPrefix(hist, n, k);
    }
  }

  /** The smallest case: two records, the third interval has just begun, and the one before is asked for. */
  lemma LookupMisses()
    ensures var hist := [[1], [2], [3]]; Lookup(hist, 2, 1) == [] && !(hist[1] <= Lookup(hist, 2, 1))
  {
    LookupExact([[1], [2], [3]], 2, 1);
  }

  /** The record a tick takes its list from. */
  lemma HandedOverSlot<T>(hist: seq<seq<T>>, n: nat)
    requires n > 0 && |hist| >= 2
    ensures var ended := SlotOf(|hist| - 2, n);
            HandedOver(hist, n) == if n == 1 then Slot(hist, 1, 0)
                                   else if ended == n - 1 then []
                                   else Slot(hist, n, 1)
  {
    NextSlot(|hist| - 1, n);
  }

  /** With one record, the aggregator's list starts with the interval just ended, and is exactly that interval
      if and only if no earlier interval was larger. */
  lemma HandOverOneRecord<T>(hist: seq<seq<T>>)
    requires |hist| >= 2 && hist[|hist| - 1] == []
    ensures var ended := hist[|hist| - 2];
            && ended <= HandedOver(hist, 1)
            && (HandedOver(hist, 1) == ended <==> forall k :: 0 <= k < |hist| ==> |hist[k]| <= |ended|)
  {
    var m := |hist| - 1;
    var ended := hist[m - 1];
    HandedOverSlot(hist, 1);
    SlotPrefix(hist[..m], 1, m - 1);
    assert Slot(hist, 1, 0) == Overlay(Slot(hist[..m], 1, 0), []) == Slot(hist[..m], 1, 0);
    SlotSize(hist, 1, 0);
    if forall k :: 0 <= k < |hist| ==> |hist[k]| <= |ended| {
      assert |Slot(hist, 1, 0)| <= |ended|;
    } else {
      var k :| 0 <= k < |hist| && |hist[k]| > |ended|;
      assert SlotOf(k, 1) == 0;
    }
  }

  /** Does the aggregator get the interval just ended, whatever was collected, when that interval was in record
      `ended` of n? */
  ghost predicate AlwaysHandsOver(n: nat, ended: nat)
    requires n > 0
  {
    forall hist: seq<seq<int>> :: |hist| >= 2 && hist[|hist| - 1] == [] && SlotOf(|hist| - 2, n) == ended ==>
      hist[|hist| - 2] <= HandedOver(hist, n)
  }

  lemma HandOverFromRecordOne<T>(hist: seq<seq<T>>, n: nat)
    requires n >= 3 && |hist| >= 2 && hist[|hist| - 1] == [] && SlotOf(|hist| - 2, n) == 1
    ensures hist[|hist| - 2] <= HandedOver(hist, n)
  {
    var m := |hist| - 1;
    HandedOverSlot(hist, n);
    NextSlot(m, n);
    SlotPrefix(hist[..m], n, m - 1);
  }

  /** Interval k holds the one metric k. */
  function Numbered(m: nat): (h: seq<seq<int>>)
    ensures |h| == m
  {
    seq(m, k => [k])
  }

  lemma {:induction false} NumberedSlot(m: nat, n: nat, slot: nat)
    requires n >= m
    requires n > 0
    ensures Slot(Numbered(m), n, slot) == if slot < m then [slot] else []
  {
    if m > 0 {
      assert Numbered(m)[..m - 1] == Numbered(m - 1);
      NumberedSlot(m - 1, n, slot);
      DivModUnique(m - 1, n, 0, m - 1);
    }
  }

  lemma HandOverFails(n: nat, ended: nat)
    requires n >= 2 && ended < n && !(n >= 3 && ended == 1)
    ensures var hist := Numbered(ended + 1) + [[]];
            && SlotOf(|hist| - 2, n) == ended && hist[|hist| - 1] == []
            && !(hist[|hist| - 2] <= HandedOver(hist, n))
  {
    var hist := Numbered(ended + 1) + [[]];
    assert hist[..ended + 1] == Numbered(ended + 1);
    DivModUnique(ended, n, 0, ended);
    HandedOverSlot(hist, n);
    NumberedSlot(ended + 1, n, 1);
    assert hist[ended] == [ended];
    assert Slot(hist, n, 1) == if (ended + 1) % n == 1 then Overlay(Slot(Numbered(ended + 1), n, 1), [])
                               else Slot(Numbered(ended + 1), n, 1);
  }

  /** The hand-over is right for a ring of one record, and in a ring of three or more for the interval in record
      one; in every other case there are metrics for which the aggregator does not get the interval just ended. */
  lemma HandOverExact(n: nat, ended: nat)
    requires ended < n
    ensures AlwaysHandsOver(n, ended) <==> n == 1 || (n >= 3 && ended == 1)
  {
    if n == 1 || (n >= 3 && ended == 1) {
      forall hist: seq<seq<int>> | |hist| >= 2 && hist[|hist| - 1] == [] && SlotOf(|hist| - 2, n) == ended
        ensures hist[|hist| - 2] <= HandedOver(hist, n)
      {
        if n == 1 { HandOverOneRecord(hist); } else { HandOverFromRecordOne(hist, n); }
      }
    } else {
      HandOverFails(n, ended);
    }
  }
}
