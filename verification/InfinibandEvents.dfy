/** What the InfiniBand collector sends: which counters enter which total, and what its rates and absolute values add up
    to over whole runs of Reads. */
module InfinibandEvents {
  import opened Common
  import opened Infiniband
  import opened Sequences

  // ----- totals of one port -----

  /** Which counters count for the byte total and for the packet total. */
  predicate Bytes(d: Def) {
    d.addToTotal
  }

  predicate Packets(d: Def) {
    d.addToTotalPkgs && !d.addToTotal
  }

  predicate IsTotal(e: Event) {
    e.Total? || e.TotalPkgs? || e.TotalRate? || e.TotalPkgsRate?
  }

  function TotalsIn(events: seq<Event>): seq<Event> {
    if events == [] then []
    else
      var n := |events| - 1;
      TotalsIn(events[..n]) + if IsTotal(events[n]) then [events[n]] else []
  }

  /** The true bytes or packets counted by those members that were read. */
  function SumRead(defs: seq<Def>, totals: seq<Option<nat>>, member: Def -> bool): nat
    requires |defs| == |totals|
  {
    if defs == [] then 0
    else
      var n := |defs| - 1;
      SumRead(defs[..n], totals[..n], member)
      + if totals[n].Some? && member(defs[n]) then Times(defs[n], totals[n].value) else 0
  }

  /** A rate is sent for this counter. */
  predicate Rated(cfg: Config, s: CounterState, value: Option<U64>) {
    cfg.sendDerived && s.available && value.Some?
  }

  /** The scaled traffic, modulo 2^64 units, of those members for which a rate is sent. */
  function SumRated(cfg: Config, defs: seq<Def>, states: seq<CounterState>, values: seq<Option<U64>>,
                    member: Def -> bool): nat
    requires |defs| == |states| == |values|
  {
    if defs == [] then 0
    else
      var n := |defs| - 1;
      SumRated(cfg, defs[..n], states[..n], values[..n], member)
      + if Rated(cfg, states[n], values[n]) && member(defs[n])
        then Times(defs[n], (values[n].value - states[n].last) % TWO64)
        else 0
  }

  predicate SomeRated(cfg: Config, defs: seq<Def>, states: seq<CounterState>, values: seq<Option<U64>>,
                      member: Def -> bool)
    requires |defs| == |states| == |values|
  {
    exists i :: 0 <= i < |defs| && Rated(cfg, states[i], values[i]) && member(defs[i])
  }

  lemma {:induction false} TotalsMore(a: seq<Event>, b: seq<Event>)
    ensures TotalsIn(a + b) == TotalsIn(a) + TotalsIn(b)
  {
    if b == [] {
      assert a + b == a;
    } else {
      var n := |b| - 1;
      assert (a + b)[..|a| + n] == a + b[..n];
      TotalsMore(a, b[..n]);
    }
  }

  lemma NoTotalsInEvents(cfg: Config, port: nat, k: nat, d: Def, s: CounterState, value: Option<U64>, dt: int)
    ensures TotalsIn(EventsOf(cfg, port, k, d, s, value, dt)) == []
  {
    hide TotalsIn, RateSince, Scaled;
    NoTotals(EventsOf(cfg, port, k, d, s, value, dt));
  }

  lemma {:induction false} NoTotals(events: seq<Event>)
    requires forall i :: 0 <= i < |events| ==> !IsTotal(events[i])
    ensures TotalsIn(events) == []
  {
    if events != [] {
      NoTotals(events[..|events| - 1]);
    }
  }

  lemma {:induction false} NoTotalsAmongCounters(
    cfg: Config, port: nat, defs: seq<Def>, states: seq<CounterState>, values: seq<Option<U64>>, dt: int)
    requires |defs| == |states| == |values|
    ensures TotalsIn(CounterEvents(cfg, port, defs, states, values, dt)) == []
  {
    if defs != [] {
      hide TotalsIn, EventsOf;
      var n := |defs| - 1;
      NoTotalsInEvents(cfg, port, n, defs[n], states[n], values[n], dt);
      NoTotalsAmongCounters(cfg, port, defs[..n], states[..n], values[..n], dt);
      TotalsMore(CounterEvents(cfg, port, defs[..n], states[..n], values[..n], dt),
                 EventsOf(cfg, port, n, defs[n], states[n], values[n], dt));
    }
  }

  lemma {:induction false} TrueTotalIs(defs: seq<Def>, totals: seq<Option<nat>>, pkgs: bool, member: Def -> bool)
    requires |defs| == |totals| && forall d :: member(d) <==> CountsFor(d, pkgs)
    ensures TrueTotal(defs, totals, pkgs) == SumRead(defs, totals, member)
  {
    if defs != [] {
      var n := |defs| - 1;
      TrueTotalIs(defs[..n], totals[..n], pkgs, member);
    }
  }

  lemma {:induction false} TrafficIs(
    cfg: Config, defs: seq<Def>, states: seq<CounterState>, values: seq<Option<U64>>, pkgs: bool, member: Def -> bool)
    requires |defs| == |states| == |values| && forall d :: member(d) <==> CountsFor(d, pkgs)
    ensures TrafficOf(cfg, defs, states, values, pkgs) == SumRated(cfg, defs, states, values, member)
  {
    if defs != [] {
      var n := |defs| - 1;
      TrafficIs(cfg, defs[..n], states[..n], values[..n], pkgs, member);
    }
  }

  /** One of the two totals and its rate. */
  lemma TotalAndRate(cfg: Config, defs: seq<Def>, states: seq<CounterState>, totals: seq<Option<nat>>, dt: int,
                     pkgs: bool, member: Def -> bool)
    requires |defs| == |states| == |totals| && forall d :: member(d) <==> CountsFor(d, pkgs)
    ensures TotalOf(defs, RawAll(totals), pkgs) == SumRead(defs, totals, member) % TWO64
    ensures var rate := TotalRateOf(cfg, defs, states, RawAll(totals), dt, pkgs);
            && (rate.Some? <==> SomeRated(cfg, defs, states, RawAll(totals), member))
            && (rate.Some? && dt != 0 ==>
                  && rate.value.Some?
                  && rate.value.value * dt as real == SumRated(cfg, defs, states, RawAll(totals), member) as real)
  {
    hide TotalOf, TotalRateOf, TrueTotal, SumRead, TrafficOf, SumRated, SomeRated, CountsFor, Times, Raw;
    var values := RawAll(totals);
    TotalModulo(defs, totals, pkgs);
    TrueTotalIs(defs, totals, pkgs, member);
    SomeRatedIs(cfg, defs, states, values, dt, pkgs, member);
    if dt != 0 {
      TotalRateExact(cfg, defs, states, values, dt, pkgs);
      TrafficIs(cfg, defs, states, values, pkgs, member);
    }
  }

  lemma SomeRatedIs(cfg: Config, defs: seq<Def>, states: seq<CounterState>, values: seq<Option<U64>>, dt: int,
                    pkgs: bool, member: Def -> bool)
    requires |defs| == |states| == |values| && forall d :: member(d) <==> CountsFor(d, pkgs)
    ensures TotalRateOf(cfg, defs, states, values, dt, pkgs).Some? <==> SomeRated(cfg, defs, states, values, member)
  {
    hide TotalRateOf, CountsFor;
    TotalRateSent(cfg, defs, states, values, dt, pkgs);
    if i :| 0 <= i < |defs| && RateCounts(cfg, defs[i], states[i], values[i], pkgs) {
      assert Rated(cfg, states[i], values[i]) && member(defs[i]);
    }
    if i :| 0 <= i < |defs| && Rated(cfg, states[i], values[i]) && member(defs[i]) {
      assert RateCounts(cfg, defs[i], states[i], values[i], pkgs);
    }
  }

  /** Rate times time is the traffic of the members. */
  predicate RateAccounts(cfg: Config, defs: seq<Def>, states: seq<CounterState>, values: seq<Option<U64>>, dt: int,
                         member: Def -> bool, rate: Rate)
    requires |defs| == |states| == |values|
  {
    SomeRated(cfg, defs, states, values, member) && dt != 0 ==>
      rate.Some? && rate.value * dt as real == SumRated(cfg, defs, states, values, member) as real
  }

  /** A port sends a byte total and a packet total, and a rate of each if one of its members has a rate. The byte total
      and its rate are the sums over the counters marked addToTotal, those of the packets over the counters marked
      addToTotalPkgs alone. */
  lemma PortTotals(cfg: Config, port: nat, defs: seq<Def>, states: seq<CounterState>, totals: seq<Option<nat>>, dt: int,
                   output: seq<Event>)
    returns (byteRate: Rate, pkgRate: Rate)
    requires |defs| == |states| == |totals| && output == PortEvents(cfg, port, defs, states, RawAll(totals), dt)
    ensures
      TotalsIn(output) ==
      if cfg.sendTotal then
        [Total(port, SumRead(defs, totals, Bytes) % TWO64), TotalPkgs(port, SumRead(defs, totals, Packets) % TWO64)]
        + (if SomeRated(cfg, defs, states, RawAll(totals), Bytes) then [TotalRate(port, byteRate)] else [])
        + (if SomeRated(cfg, defs, states, RawAll(totals), Packets) then [TotalPkgsRate(port, pkgRate)] else [])
      else []
    ensures RateAccounts(cfg, defs, states, RawAll(totals), dt, Bytes, byteRate)
    ensures RateAccounts(cfg, defs, states, RawAll(totals), dt, Packets, pkgRate)
  {
    hide TotalOf, TotalRateOf, SumRead, SumRated, SomeRated, CounterEvents, TotalsIn;
    var values := RawAll(totals);
    TotalAndRate(cfg, defs, states, totals, dt, false, Bytes);
    TotalAndRate(cfg, defs, states, totals, dt, true, Packets);
    var byteTotalRate := TotalRateOf(cfg, defs, states, values, dt, false);
    var pkgTotalRate := TotalRateOf(cfg, defs, states, values, dt, true);
    byteRate := if byteTotalRate.Some? then byteTotalRate.value else None;
    pkgRate := if pkgTotalRate.Some? then pkgTotalRate.value else None;
    NoTotalsAmongCounters(cfg, port, defs, states, values, dt);
    var tail :=
      if cfg.sendTotal then
        [Total(port, TotalOf(defs, values, false)), TotalPkgs(port, TotalOf(defs, values, true))] +
        (if byteTotalRate.Some? then [TotalRate(port, byteRate)] else []) +
        (if pkgTotalRate.Some? then [TotalPkgsRate(port, pkgRate)] else [])
      else [];
    AllTotals(tail);
    TotalsMore(CounterEvents(cfg, port, defs, states, values, dt), tail);
    assert [] + tail == tail;
  }

  lemma {:induction false} AllTotals(events: seq<Event>)
    requires forall i :: 0 <= i < |events| ==> IsTotal(events[i])
    ensures TotalsIn(events) == events
  {
    if events != [] {
      EndsWithLast(events);
      AllTotals(events[..|events| - 1]);
    }
  }

  // ----- what is sent for one counter, over whole runs of the collector -----

  /** One Read of all ports; None where a counter cannot be read. */
  datatype Snapshot = Snapshot(now: Time, totals: seq<seq<Option<nat>>>)

  datatype Collector = Collector(states: seq<seq<CounterState>>, lastTimestamp: Time)

  ghost predicate SameShape<T, U>(a: seq<seq<T>>, b: seq<seq<U>>) {
    |a| == |b| && forall p :: 0 <= p < |a| ==> |a[p]| == |b[p]|
  }

  ghost predicate Fits(defs: seq<seq<Def>>, run: seq<Snapshot>) {
    forall j :: 0 <= j < |run| ==> SameShape(defs, run[j].totals)
  }

  function RawPorts(totals: seq<seq<Option<nat>>>): (values: seq<seq<Option<U64>>>)
    ensures SameShape(totals, values)
  {
    seq(|totals|, p requires 0 <= p < |totals| => RawAll(totals[p]))
  }

  /** The states of all counters after one Read, as InfinibandCollector.Read leaves them. */
  function StepPorts(cfg: Config, states: seq<seq<CounterState>>, values: seq<seq<Option<U64>>>)
    : (next: seq<seq<CounterState>>)
    requires SameShape(states, values)
    ensures SameShape(states, next)
  {
    seq(|states|, p requires 0 <= p < |states| => StepAll(cfg, states[p], values[p]))
  }

  function AfterRun(cfg: Config, defs: seq<seq<Def>>, c: Collector, run: seq<Snapshot>): (after: Collector)
    requires SameShape(defs, c.states) && Fits(defs, run)
    ensures SameShape(defs, after.states)
  {
    if run == [] then c
    else
      var n := |run| - 1;
      Collector(StepPorts(cfg, AfterRun(cfg, defs, c, run[..n]).states, RawPorts(run[n].totals)), run[n].now)
  }

  /** The time since the Read before, and the output, of the last Read of a run. */
  function LastInterval(cfg: Config, defs: seq<seq<Def>>, c: Collector, run: seq<Snapshot>): int
    requires SameShape(defs, c.states) && Fits(defs, run) && run != []
  {
    run[|run| - 1].now - AfterRun(cfg, defs, c, run[..|run| - 1]).lastTimestamp
  }

  function LastOutput(cfg: Config, defs: seq<seq<Def>>, c: Collector, run: seq<Snapshot>): seq<Event>
    requires SameShape(defs, c.states) && Fits(defs, run) && run != []
  {
    var n := |run| - 1;
    AllEvents(cfg, defs, AfterRun(cfg, defs, c, run[..n]).states, RawPorts(run[n].totals),
              LastInterval(cfg, defs, c, run))
  }

  /** The rates sent for counter k of port p, times the time. */
  function TrafficIn(events: seq<Event>, p: nat, k: nat, dt: int): real {
    if events == [] then 0.0
    else
      var n := |events| - 1;
      TrafficIn(events[..n], p, k, dt)
      + (match events[n]
         case RateOf(port, counter, Some(r)) => if port == p && counter == k then r * dt as real else 0.0
         case _ => 0.0)
  }

  /** The absolute values sent for it. */
  function AbsolutesIn(events: seq<Event>, p: nat, k: nat): seq<U64> {
    if events == [] then []
    else
      var n := |events| - 1;
      AbsolutesIn(events[..n], p, k) +
      (match events[n]
       case Absolute(port, counter, v) => if port == p && counter == k then [v] else []
       case _ => [])
  }

  /** Rate times time, summed over all rates a run sends for one counter. */
  function SentTraffic(cfg: Config, defs: seq<seq<Def>>, c: Collector, run: seq<Snapshot>, p: nat, k: nat): real
    requires SameShape(defs, c.states) && Fits(defs, run)
  {
    if run == [] then 0.0
    else
      SentTraffic(cfg, defs, c, run[..|run| - 1], p, k)
      + TrafficIn(LastOutput(cfg, defs, c, run), p, k, LastInterval(cfg, defs, c, run))
  }

  /** The run as one counter sees it. */
  function OfCounter(run: seq<Snapshot>, p: nat, k: nat): (r: seq<Observation>)
    requires forall j :: 0 <= j < |run| ==> p < |run[j].totals| && k < |run[j].totals[p]|
    ensures |r| == |run|
  {
    seq(|run|, j requires 0 <= j < |run| => Observation(run[j].now, run[j].totals[p][k]))
  }

  // ----- the events of one counter among all -----

  lemma {:induction false} TrafficMore(a: seq<Event>, b: seq<Event>, p: nat, k: nat, dt: int)
    ensures TrafficIn(a + b, p, k, dt) == TrafficIn(a, p, k, dt) + TrafficIn(b, p, k, dt)
  {
    if b == [] {
      assert a + b == a;
    } else {
      var n := |b| - 1;
      assert (a + b)[..|a| + n] == a + b[..n];
      TrafficMore(a, b[..n], p, k, dt);
    }
  }

  lemma {:induction false} AbsolutesMore(a: seq<Event>, b: seq<Event>, p: nat, k: nat)
    ensures AbsolutesIn(a + b, p, k) == AbsolutesIn(a, p, k) + AbsolutesIn(b, p, k)
  {
    if b == [] {
      assert a + b == a;
    } else {
      var n := |b| - 1;
      assert (a + b)[..|a| + n] == a + b[..n];
      AbsolutesMore(a, b[..n], p, k);
    }
  }

  /** Events of other counters, and totals. */
  predicate Elsewhere(e: Event, p: nat, k: nat) {
    match e
    case RateOf(port, counter, _) => port != p || counter != k
    case Absolute(port, counter, _) => port != p || counter != k
    case _ => true
  }

  lemma {:induction false} NothingElsewhere(events: seq<Event>, p: nat, k: nat, dt: int)
    requires forall i :: 0 <= i < |events| ==> Elsewhere(events[i], p, k)
    ensures TrafficIn(events, p, k, dt) == 0.0 && AbsolutesIn(events, p, k) == []
  {
    if events != [] {
      NothingElsewhere(events[..|events| - 1], p, k, dt);
    }
  }

  /** What counter k contributes. */
  lemma {:induction false} FromCounters(cfg: Config, port: nat, defs: seq<Def>, states: seq<CounterState>,
                                        values: seq<Option<U64>>, dt: int, p: nat, k: nat, t: int)
    requires |defs| == |states| == |values|
    ensures var events := CounterEvents(cfg, port, defs, states, values, dt);
            var own := if port == p && k < |defs| then EventsOf(cfg, p, k, defs[k], states[k], values[k], dt) else [];
            && TrafficIn(events, p, k, t) == TrafficIn(own, p, k, t)
            && AbsolutesIn(events, p, k) == AbsolutesIn(own, p, k)
  {
    if defs != [] {
      hide TrafficIn, AbsolutesIn, EventsOf, Elsewhere;
      var n := |defs| - 1;
      FromCounters(cfg, port, defs[..n], states[..n], values[..n], dt, p, k, t);
      var before := CounterEvents(cfg, port, defs[..n], states[..n], values[..n], dt);
      var last := EventsOf(cfg, port, n, defs[n], states[n], values[n], dt);
      assert CounterEvents(cfg, port, defs, states, values, dt) == before + last;
      hide CounterEvents;
      TrafficMore(before, last, p, k, t);
      AbsolutesMore(before, last, p, k);
      if port != p || n != k { OtherCounter(cfg, port, n, defs[n], states[n], values[n], dt, p, k, t); }
      NothingElsewhere([], p, k, t);
    }
  }

  lemma OtherCounter(cfg: Config, port: nat, n: nat, d: Def, s: CounterState, value: Option<U64>, dt: int,
                     p: nat, k: nat, t: int)
    requires port != p || n != k
    ensures TrafficIn(EventsOf(cfg, port, n, d, s, value, dt), p, k, t) == 0.0
    ensures AbsolutesIn(EventsOf(cfg, port, n, d, s, value, dt), p, k) == []
  {
    NothingElsewhere(EventsOf(cfg, port, n, d, s, value, dt), p, k, t);
  }

  lemma FromPort(cfg: Config, port: nat, defs: seq<Def>, states: seq<CounterState>, values: seq<Option<U64>>, dt: int,
                 p: nat, k: nat, t: int)
    requires |defs| == |states| == |values|
    ensures var events := PortEvents(cfg, port, defs, states, values, dt);
            var own := if port == p && k < |defs| then EventsOf(cfg, p, k, defs[k], states[k], values[k], dt) else [];
            && TrafficIn(events, p, k, t) == TrafficIn(own, p, k, t)
            && AbsolutesIn(events, p, k) == AbsolutesIn(own, p, k)
  {
    hide TrafficIn, AbsolutesIn, EventsOf, CounterEvents, TotalOf, TotalRateOf;
    FromCounters(cfg, port, defs, states, values, dt, p, k, t);
    var counters := CounterEvents(cfg, port, defs, states, values, dt);
    var bytes := TotalRateOf(cfg, defs, states, values, dt, false);
    var pkgs := TotalRateOf(cfg, defs, states, values, dt, true);
    var tail :=
      if cfg.sendTotal then
        [Total(port, TotalOf(defs, values, false)), TotalPkgs(port, TotalOf(defs, values, true))] +
        (if bytes.Some? then [TotalRate(port, bytes.value)] else []) +
        (if pkgs.Some? then [TotalPkgsRate(port, pkgs.value)] else [])
      else [];
    NothingElsewhere(tail, p, k, t);
    TrafficMore(counters, tail, p, k, t);
    AbsolutesMore(counters, tail, p, k);
  }

  /** The events of counter k of port p itself. */
  function Own(cfg: Config, defs: seq<seq<Def>>, states: seq<seq<CounterState>>, values: seq<seq<Option<U64>>>, dt: int,
               p: nat, k: nat): seq<Event>
    requires SameShape(defs, states) && SameShape(defs, values)
  {
    if p < |defs| && k < |defs[p]| then EventsOf(cfg, p, k, defs[p][k], states[p][k], values[p][k], dt) else []
  }

  lemma {:induction false} FromAll(cfg: Config, defs: seq<seq<Def>>, states: seq<seq<CounterState>>,
                                   values: seq<seq<Option<U64>>>, dt: int, p: nat, k: nat, t: int)
    requires SameShape(defs, states) && SameShape(defs, values)
    ensures var events, own := AllEvents(cfg, defs, states, values, dt), Own(cfg, defs, states, values, dt, p, k);
            && TrafficIn(events, p, k, t) == TrafficIn(own, p, k, t)
            && AbsolutesIn(events, p, k) == AbsolutesIn(own, p, k)
  {
    if defs != [] {
      hide TrafficIn, AbsolutesIn, EventsOf, PortEvents;
      var n := |defs| - 1;
      FromAll(cfg, defs[..n], states[..n], values[..n], dt, p, k, t);
      LastPort(cfg, defs, states, values, dt, p, k, t);
      OwnBefore(cfg, defs, states, values, dt, p, k, t);
      hide Own, AllEvents;
    }
  }

  /** The last port's share. */
  lemma LastPort(cfg: Config, defs: seq<seq<Def>>, states: seq<seq<CounterState>>, values: seq<seq<Option<U64>>>,
                 dt: int, p: nat, k: nat, t: int)
    requires SameShape(defs, states) && SameShape(defs, values) && defs != []
    ensures var n := |defs| - 1;
            var events, before := AllEvents(cfg, defs, states, values, dt),
                                  AllEvents(cfg, defs[..n], states[..n], values[..n], dt);
            var own := if p == n then Own(cfg, defs, states, values, dt, p, k) else [];
            && TrafficIn(events, p, k, t) == TrafficIn(before, p, k, t) + TrafficIn(own, p, k, t)
            && AbsolutesIn(events, p, k) == AbsolutesIn(before, p, k) + AbsolutesIn(own, p, k)
  {
    hide TrafficIn, AbsolutesIn, EventsOf, PortEvents;
    var n := |defs| - 1;
    var before, last := AllEvents(cfg, defs[..n], states[..n], values[..n], dt),
                        PortEvents(cfg, n, defs[n], states[n], values[n], dt);
    FromPort(cfg, n, defs[n], states[n], values[n], dt, p, k, t);
    TrafficMore(before, last, p, k, t);
    AbsolutesMore(before, last, p, k);
  }

  lemma OwnBefore(cfg: Config, defs: seq<seq<Def>>, states: seq<seq<CounterState>>, values: seq<seq<Option<U64>>>,
                  dt: int, p: nat, k: nat, t: int)
    requires SameShape(defs, states) && SameShape(defs, values) && defs != []
    ensures var n := |defs| - 1;
            && SameShape(defs[..n], states[..n]) && SameShape(defs[..n], values[..n])
            && Own(cfg, defs[..n], states[..n], values[..n], dt, p, k) ==
               (if p == n then [] else Own(cfg, defs, states, values, dt, p, k))
            && TrafficIn([], p, k, t) == 0.0 && AbsolutesIn([], p, k) == []
  {
  }

  /** What a counter's own events say. */
  lemma OwnEvents(cfg: Config, p: nat, k: nat, d: Def, s: CounterState, value: Option<U64>, dt: int)
    ensures var events := EventsOf(cfg, p, k, d, s, value, dt);
            && TrafficIn(events, p, k, dt) ==
               (if HasRate(cfg, s, value) then Reported(RateSince(d, s, value.value, dt), dt) else 0.0)
            && AbsolutesIn(events, p, k) == if cfg.sendAbsolute && value.Some? then [Scaled(d, value.value)] else []
  {
    hide RateSince, Scaled;
    if value.Some? {
      var absolutes := if cfg.sendAbsolute then [Absolute(p, k, Scaled(d, value.value))] else [];
      var rates := if HasRate(cfg, s, value) then [RateOf(p, k, RateSince(d, s, value.value, dt))] else [];
      TrafficMore(absolutes, rates, p, k, dt);
      AbsolutesMore(absolutes, rates, p, k);
    }
  }

  // ----- whole runs -----

  lemma {:induction false} StateOfCounter(cfg: Config, defs: seq<seq<Def>>, c: Collector, run: seq<Snapshot>, p: nat,
                                          k: nat)
    requires SameShape(defs, c.states) && Fits(defs, run) && p < |defs| && k < |defs[p]|
    ensures var t := After(cfg, Tracked(c.states[p][k], c.lastTimestamp), OfCounter(run, p, k));
            var after := AfterRun(cfg, defs, c, run);
            t.state == after.states[p][k] && t.lastTimestamp == after.lastTimestamp
  {
    if run != [] {
      var n := |run| - 1;
      StateOfCounter(cfg, defs, c, run[..n], p, k);
      assert OfCounter(run, p, k)[..n] == OfCounter(run[..n], p, k);
    }
  }

  lemma {:induction false} SentIsReported(cfg: Config, defs: seq<seq<Def>>, c: Collector, run: seq<Snapshot>, p: nat,
                                          k: nat)
    requires SameShape(defs, c.states) && Fits(defs, run) && p < |defs| && k < |defs[p]|
    ensures SentTraffic(cfg, defs, c, run, p, k) ==
            ReportedTraffic(cfg, defs[p][k], Tracked(c.states[p][k], c.lastTimestamp), OfCounter(run, p, k))
  {
    if run != [] {
      hide LastOutput, LastInterval, TrafficIn, Contribution, After;
      var n := |run| - 1;
      SentIsReported(cfg, defs, c, run[..n], p, k);
      assert OfCounter(run, p, k)[..n] == OfCounter(run[..n], p, k);
      LastTraffic(cfg, defs, c, run, p, k);
    }
  }

  /** What one Read sends for a counter. */
  lemma OutputTraffic(cfg: Config, defs: seq<seq<Def>>, states: seq<seq<CounterState>>, values: seq<seq<Option<U64>>>,
                      dt: int, p: nat, k: nat)
    requires SameShape(defs, states) && SameShape(defs, values) && p < |defs| && k < |defs[p]|
    ensures TrafficIn(AllEvents(cfg, defs, states, values, dt), p, k, dt) ==
            if HasRate(cfg, states[p][k], values[p][k])
            then Reported(RateSince(defs[p][k], states[p][k], values[p][k].value, dt), dt)
            else 0.0
  {
    hide TrafficIn, AbsolutesIn, AllEvents, EventsOf, RateSince, Reported, HasRate;
    FromAll(cfg, defs, states, values, dt, p, k, dt);
    OwnEvents(cfg, p, k, defs[p][k], states[p][k], values[p][k], dt);
  }

  lemma LastTraffic(cfg: Config, defs: seq<seq<Def>>, c: Collector, run: seq<Snapshot>, p: nat, k: nat)
    requires SameShape(defs, c.states) && Fits(defs, run) && p < |defs| && k < |defs[p]| && run != []
    ensures var n := |run| - 1;
            var before := After(cfg, Tracked(c.states[p][k], c.lastTimestamp), OfCounter(run[..n], p, k));
            TrafficIn(LastOutput(cfg, defs, c, run), p, k, LastInterval(cfg, defs, c, run)) ==
            Contribution(cfg, defs[p][k], before, OfCounter(run, p, k)[n])
  {
    hide TrafficIn, AllEvents, AfterRun, After, RateSince, Reported, HasRate;
    var n := |run| - 1;
    StateOfCounter(cfg, defs, c, run[..n], p, k);
    OutputTraffic(cfg, defs, AfterRun(cfg, defs, c, run[..n]).states, RawPorts(run[n].totals),
                  LastInterval(cfg, defs, c, run), p, k);
  }

  /** The rates a run of Reads sends for a counter, times the time, are the true scaled traffic of the intervals with a
      read of the counter at both ends, less one turn of the counter for every whole turn within one of them, whatever
      reads fail and however often it wraps around. */
  lemma TrafficConserved(cfg: Config, defs: seq<seq<Def>>, c: Collector, run: seq<Snapshot>, p: nat, k: nat)
    requires cfg.sendDerived && SameShape(defs, c.states) && Fits(defs, run) && p < |defs| && k < |defs[p]|
    requires !c.states[p][k].available && Plausible(OfCounter(run, p, k))
    ensures var own := OfCounter(run, p, k);
            SentTraffic(cfg, defs, c, run, p, k) ==
            Times(defs[p][k], TrueTraffic(own) - TWO64 * MissedTurns(own)) as real
  {
    hide SentTraffic, ReportedTraffic, TrueTraffic, MissedTurns, Plausible;
    SentIsReported(cfg, defs, c, run, p, k);
    Infiniband.TrafficConserved(cfg, defs[p][k], Tracked(c.states[p][k], c.lastTimestamp), OfCounter(run, p, k));
  }

  /** It is all of the traffic exactly if no whole turn passed unseen. */
  lemma TrafficExact(cfg: Config, defs: seq<seq<Def>>, c: Collector, run: seq<Snapshot>, p: nat, k: nat)
    requires cfg.sendDerived && SameShape(defs, c.states) && Fits(defs, run) && p < |defs| && k < |defs[p]|
    requires !c.states[p][k].available && Plausible(OfCounter(run, p, k))
    ensures var own := OfCounter(run, p, k);
            SentTraffic(cfg, defs, c, run, p, k) == Times(defs[p][k], TrueTraffic(own)) as real <==> NoTurnMissed(own)
  {
    hide SentTraffic, ReportedTraffic, TrueTraffic, NoTurnMissed, Plausible;
    SentIsReported(cfg, defs, c, run, p, k);
    Infiniband.TrafficExact(cfg, defs[p][k], Tracked(c.states[p][k], c.lastTimestamp), OfCounter(run, p, k));
  }

  /** With absolute values a Read sends the true scaled count of every counter it can read, modulo 2^64, once. */
  lemma AbsolutesSent(cfg: Config, defs: seq<seq<Def>>, c: Collector, run: seq<Snapshot>, p: nat, k: nat)
    requires SameShape(defs, c.states) && Fits(defs, run) && p < |defs| && k < |defs[p]| && run != []
    ensures var total := run[|run| - 1].totals[p][k];
            AbsolutesIn(LastOutput(cfg, defs, c, run), p, k) ==
            if cfg.sendAbsolute && total.Some?
            then [Times(defs[p][k], total.value) % TWO64]
            else []
  {
    var n := |run| - 1;
    var states, values := AfterRun(cfg, defs, c, run[..n]).states, RawPorts(run[n].totals);
    var dt := LastInterval(cfg, defs, c, run);
    FromAll(cfg, defs, states, values, dt, p, k, dt);
    OwnEvents(cfg, p, k, defs[p][k], states[p][k], values[p][k], dt);
    if run[n].totals[p][k].Some? { AbsoluteModulo(defs[p][k], run[n].totals[p][k].value); }
    hide AbsolutesIn, AllEvents, AfterRun, EventsOf;
  }
}
