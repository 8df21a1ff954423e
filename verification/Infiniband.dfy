/** collectors/infinibandMetric.go: absolute values, rates and totals from 64-bit port counters. */
module Infiniband {
  import opened Common
  import opened Arithmetic
  import opened Sequences

  const TWO64: int := 0x1_0000_0000_0000_0000

  /** A uint64 value. */
  type U64 = v: int | 0 <= v < TWO64

  datatype Config = Config(sendAbsolute: bool, sendTotal: bool, sendDerived: bool)

  /** The constant part of a counter definition. */
  datatype Def = Def(scaleByFour: bool, addToTotal: bool, addToTotalPkgs: bool)

  datatype CounterState = CounterState(last: U64, available: bool)

  /** A rate; None stands for the infinite or undefined result of a division by zero. */
  type Rate = Option<real>

  datatype Event =
    | Absolute(port: nat, counter: nat, value: U64)
    | RateOf(port: nat, counter: nat, rate: Rate)
    | Total(port: nat, value: U64)
    | TotalPkgs(port: nat, value: U64)
    | TotalRate(port: nat, rate: Rate)
    | TotalPkgsRate(port: nat, rate: Rate)

  // ----- specification of one read -----

  function Scaled(d: Def, raw: U64): U64 {
    if d.scaleByFour then raw * 4 % TWO64 else raw
  }

  /** uint64 subtraction. */
  function Minus(a: U64, b: U64): U64 {
    (a - b) % TWO64
  }

  function RateSince(d: Def, s: CounterState, raw: U64, dt: int): Rate {
    if dt == 0 then None
    else Some(Minus(raw, s.last) as real / dt as real * (if d.scaleByFour then 4.0 else 1.0))
  }

  function AddRates(a: Rate, b: Rate): Rate {
    if a.Some? && b.Some? then Some(a.value + b.value) else None
  }

  function Step(cfg: Config, s: CounterState, read: Option<U64>): CounterState {
    match read
    case None => s.(available := false)
    case Some(raw) => if cfg.sendDerived then CounterState(raw, true) else s
  }

  /** Is a rate sent for this counter? */
  predicate HasRate(cfg: Config, s: CounterState, read: Option<U64>) {
    read.Some? && cfg.sendDerived && s.available
  }

  function EventsOf(cfg: Config, port: nat, k: nat, d: Def, s: CounterState, read: Option<U64>, dt: int): seq<Event> {
    match read
    case None => []
    case Some(raw) =>
      (if cfg.sendAbsolute then [Absolute(port, k, Scaled(d, raw))] else []) +
      (if HasRate(cfg, s, read) then [RateOf(port, k, RateSince(d, s, raw, dt))] else [])
  }

  /** Everything a port sends for its single counters. */
  function CounterEvents(cfg: Config, port: nat, defs: seq<Def>, states: seq<CounterState>, values: seq<Option<U64>>,
                         dt: int): seq<Event>
    requires |defs| == |states| == |values|
  {
    if defs == [] then []
    else
      var n := |defs| - 1;
      CounterEvents(cfg, port, defs[..n], states[..n], values[..n], dt) +
      EventsOf(cfg, port, n, defs[n], states[n], values[n], dt)
  }

  /** A counter counts for the byte total, or else for the packet total. */
  predicate CountsFor(d: Def, pkgs: bool) {
    if pkgs then d.addToTotalPkgs && !d.addToTotal else d.addToTotal
  }

  /** The total of the values read successfully, modulo 2^64. */
  function TotalOf(defs: seq<Def>, values: seq<Option<U64>>, pkgs: bool): U64
    requires |defs| == |values|
  {
    if defs == [] then 0
    else
      var n := |defs| - 1;
      var rest := TotalOf(defs[..n], values[..n], pkgs);
      if values[n].Some? && CountsFor(defs[n], pkgs) then (rest + Scaled(defs[n], values[n].value)) % TWO64 else rest
  }

  /** The total of the rates sent, if any was sent. */
  function TotalRateOf(cfg: Config, defs: seq<Def>, states: seq<CounterState>, values: seq<Option<U64>>, dt: int,
                       pkgs: bool): Option<Rate>
    requires |defs| == |states| == |values|
  {
    if defs == [] then None
    else
      var n := |defs| - 1;
      var rest := TotalRateOf(cfg, defs[..n], states[..n], values[..n], dt, pkgs);
      if HasRate(cfg, states[n], values[n]) && CountsFor(defs[n], pkgs) then
        PlusRate(rest, RateSince(defs[n], states[n], values[n].value, dt))
      else rest
  }

  function PlusRate(total: Option<Rate>, r: Rate): Option<Rate> {
    Some(AddRates(if total.Some? then total.value else Some(0.0), r))
  }

  function PortEvents(cfg: Config, port: nat, defs: seq<Def>, states: seq<CounterState>, values: seq<Option<U64>>,
                      dt: int): seq<Event>
    requires |defs| == |states| == |values|
  {
    var bytes := TotalRateOf(cfg, defs, states, values, dt, false);
    var pkgs := TotalRateOf(cfg, defs, states, values, dt, true);
    CounterEvents(cfg, port, defs, states, values, dt) +
    (if cfg.sendTotal then
       [Total(port, TotalOf(defs, values, false)), TotalPkgs(port, TotalOf(defs, values, true))] +
       (if bytes.Some? then [TotalRate(port, bytes.value)] else []) +
       (if pkgs.Some? then [TotalPkgsRate(port, pkgs.value)] else [])
     else [])
  }

  // ----- the code -----

  class Counter {
    const def: Def
    var lastState: U64
    var lastStateAvailable: bool

    constructor (def: Def)
      ensures this.def == def && !lastStateAvailable
    {
      this.def, lastState, lastStateAvailable := def, 0, false;
    }

    function State(): CounterState
      reads this
    {
      CounterState(lastState, lastStateAvailable)
    }
  }

  function States(counters: seq<Counter>): (s: seq<CounterState>)
    reads counters
    ensures |s| == |counters| && forall i :: 0 <= i < |counters| ==> s[i] == counters[i].State()
  {
    seq(|counters|, i requires 0 <= i < |counters| reads counters => counters[i].State())
  }

  function Defs(counters: seq<Counter>): (d: seq<Def>)
    ensures |d| == |counters| && forall i :: 0 <= i < |counters| ==> d[i] == counters[i].def
  {
    seq(|counters|, i requires 0 <= i < |counters| => counters[i].def)
  }

  /** The states of a port's counters after one read. */
  function StepAll(cfg: Config, states: seq<CounterState>, values: seq<Option<U64>>): seq<CounterState>
    requires |states| == |values|
  {
    seq(|states|, k requires 0 <= k < |states| => Step(cfg, states[k], values[k]))
  }

  predicate Distinct(counters: seq<Counter>) {
    forall i, j :: 0 <= i < j < |counters| ==> counters[i] != counters[j]
  }

  /** The body of the counter loop: one counter of a port. Returns the scaled value and the rate that enter the
      totals, if there are any. */
  method ReadCounter(cfg: Config, port: nat, k: nat, c: Counter, value: Option<U64>, dt: int)
    returns (output: seq<Event>, scaled: Option<U64>, rate: Option<Rate>)
    modifies c
    ensures c.State() == Step(cfg, old(c.State()), value)
    ensures output == EventsOf(cfg, port, k, c.def, old(c.State()), value, dt)
    ensures scaled == if value.None? then None else Some(Scaled(c.def, value.value))
    ensures rate == if HasRate(cfg, old(c.State()), value) then Some(RateSince(c.def, old(c.State()), value.value, dt))
                    else None
  {
    output, scaled, rate := [], None, None;
    if value.None? {
      c.lastStateAvailable := false;
      return;
    }
    var raw := value.value;
    var vScaled := raw;
    if c.def.scaleByFour {
      vScaled := vScaled * 4 % TWO64;
    }
    scaled := Some(vScaled);
    if cfg.sendAbsolute {
      output := output + [Absolute(port, k, vScaled)];
    }
    if cfg.sendDerived {
      if c.lastStateAvailable {
        var r := if dt == 0 then None
                 else Some(Minus(raw, c.lastState) as real / dt as real * (if c.def.scaleByFour then 4.0 else 1.0));
        rate := Some(r);
        output := output + [RateOf(port, k, r)];
      }
      c.lastState := raw;
      c.lastStateAvailable := true;
    }
  }

  /** The running totals of a port, for the byte counters or for the packet counters. */
  datatype Totals = Totals(value: U64, rate: Rate, rateAvailable: bool)

  ghost predicate TotalsUpTo(cfg: Config, defs: seq<Def>, states: seq<CounterState>, values: seq<Option<U64>>, dt: int,
                             pkgs: bool, t: Totals)
    requires |defs| == |states| == |values|
  {
    && t.value == TotalOf(defs, values, pkgs)
    && TotalRateOf(cfg, defs, states, values, dt, pkgs) == (if t.rateAvailable then Some(t.rate) else None)
    && (!t.rateAvailable ==> t.rate == Some(0.0))
  }

  function AddTo(t: Totals, scaled: Option<U64>, rate: Option<Rate>): Totals {
    var t1 := if scaled.Some? then t.(value := (t.value + scaled.value) % TWO64) else t;
    if rate.Some? then t1.(rate := AddRates(t.rate, rate.value), rateAvailable := true) else t1
  }

  /** What the loop has produced after the first i counters. */
  ghost predicate DoneUpTo(cfg: Config, port: nat, defs: seq<Def>, states: seq<CounterState>, values: seq<Option<U64>>,
                           dt: int, i: nat, output: seq<Event>, bytes: Totals, pkgs: Totals)
    requires |defs| == |states| == |values| && i <= |defs|
  {
    && output == CounterEvents(cfg, port, defs[..i], states[..i], values[..i], dt)
    && (cfg.sendTotal ==>
          && TotalsUpTo(cfg, defs[..i], states[..i], values[..i], dt, false, bytes)
          && TotalsUpTo(cfg, defs[..i], states[..i], values[..i], dt, true, pkgs))
  }

  /** The totals after one more counter. */
  function Count(d: Def, s: CounterState, cfg: Config, value: Option<U64>, dt: int, pkgs: bool, t: Totals): Totals {
    if CountsFor(d, pkgs) then
      AddTo(t, if value.None? then None else Some(Scaled(d, value.value)),
            if HasRate(cfg, s, value) then Some(RateSince(d, s, value.value, dt)) else None)
    else t
  }

  lemma TotalsStep(cfg: Config, defs: seq<Def>, states: seq<CounterState>, values: seq<Option<U64>>, dt: int,
                   pkgs: bool, i: nat, t: Totals)
    requires |defs| == |states| == |values| && i < |defs|
    requires TotalsUpTo(cfg, defs[..i], states[..i], values[..i], dt, pkgs, t)
    ensures TotalsUpTo(cfg, defs[..i + 1], states[..i + 1], values[..i + 1], dt, pkgs,
                       Count(defs[i], states[i], cfg, values[i], dt, pkgs, t))
  {
    SplitAt(defs, i);
    SplitAt(states, i);
    SplitAt(values, i);
  }

  lemma DoneStep(cfg: Config, port: nat, defs: seq<Def>, states: seq<CounterState>, values: seq<Option<U64>>, dt: int,
                 i: nat, output: seq<Event>, bytes: Totals, pkgs: Totals)
    requires |defs| == |states| == |values| && i < |defs|
    requires DoneUpTo(cfg, port, defs, states, values, dt, i, output, bytes, pkgs)
    ensures DoneUpTo(cfg, port, defs, states, values, dt, i + 1,
                     output + EventsOf(cfg, port, i, defs[i], states[i], values[i], dt),
                     Count(defs[i], states[i], cfg, values[i], dt, false, bytes),
                     Count(defs[i], states[i], cfg, values[i], dt, true, pkgs))
  {
    SplitAt(defs, i);
    SplitAt(states, i);
    SplitAt(values, i);
    if cfg.sendTotal {
      TotalsStep(cfg, defs, states, values, dt, false, i, bytes);
      TotalsStep(cfg, defs, states, values, dt, true, i, pkgs);
    }
  }

  lemma DoneAll(cfg: Config, port: nat, defs: seq<Def>, states: seq<CounterState>, values: seq<Option<U64>>, dt: int,
                output: seq<Event>, bytes: Totals, pkgs: Totals)
    requires |defs| == |states| == |values|
    requires DoneUpTo(cfg, port, defs, states, values, dt, |defs|, output, bytes, pkgs)
    ensures PortEvents(cfg, port, defs, states, values, dt) == output +
              (if cfg.sendTotal then
                 [Total(port, bytes.value), TotalPkgs(port, pkgs.value)] +
                 (if bytes.rateAvailable then [TotalRate(port, bytes.rate)] else []) +
                 (if pkgs.rateAvailable then [TotalPkgsRate(port, pkgs.rate)] else [])
               else [])
  {
    assert defs[..|defs|] == defs && states[..|defs|] == states && values[..|defs|] == values;
  }

  /** The body of the loop: counter i, then its share of the totals. The other counters keep their states. */
  method ReadNext(cfg: Config, port: nat, counters: seq<Counter>, i: nat, value: Option<U64>, dt: int,
                  bytes: Totals, pkgs: Totals)
    returns (output: seq<Event>, newBytes: Totals, newPkgs: Totals)
    requires Distinct(counters) && i < |counters|
    modifies counters[i]
    ensures forall j :: 0 <= j < |counters| && j != i ==> counters[j].State() == old(counters[j].State())
    ensures counters[i].State() == Step(cfg, old(counters[i].State()), value)
    ensures output == EventsOf(cfg, port, i, counters[i].def, old(counters[i].State()), value, dt)
    ensures newBytes == Count(counters[i].def, old(counters[i].State()), cfg, value, dt, false, bytes)
    ensures newPkgs == Count(counters[i].def, old(counters[i].State()), cfg, value, dt, true, pkgs)
  {
    newBytes, newPkgs := bytes, pkgs;
    var c := counters[i];
    var scaled, rate;
    output, scaled, rate := ReadCounter(cfg, port, i, c, value, dt);
    if c.def.addToTotal {
      newBytes := AddTo(bytes, scaled, rate);
    } else if c.def.addToTotalPkgs {
      newPkgs := AddTo(pkgs, scaled, rate);
    }
  }

  /** The loop over the counters of one port. */
  method ReadCounters(cfg: Config, port: nat, counters: seq<Counter>, values: seq<Option<U64>>, dt: int)
    returns (output: seq<Event>, bytes: Totals, pkgs: Totals)
    requires Distinct(counters) && |values| == |counters|
    modifies counters
    ensures forall i :: 0 <= i < |counters| ==> counters[i].State() == Step(cfg, old(States(counters))[i], values[i])
    ensures DoneUpTo(cfg, port, Defs(counters), old(States(counters)), values, dt, |counters|, output, bytes, pkgs)
  {
    ghost var defs, before := Defs(counters), States(counters);
    output := [];
    bytes, pkgs := Totals(0, Some(0.0), false), Totals(0, Some(0.0), false);
    for i := 0 to |counters|
      invariant forall j :: 0 <= j < i ==> counters[j].State() == Step(cfg, before[j], values[j])
      invariant forall j :: i <= j < |counters| ==> counters[j].State() == before[j]
      invariant DoneUpTo(cfg, port, defs, before, values, dt, i, output, bytes, pkgs)
    {
      DoneStep(cfg, port, defs, before, values, dt, i, output, bytes, pkgs);
      var events;
      events, bytes, pkgs := ReadNext(cfg, port, counters, i, values[i], dt, bytes, pkgs);
      output := output + events;
    }
  }

  /** One port: its counters, then its totals. */
  method ReadPort(cfg: Config, port: nat, counters: seq<Counter>, values: seq<Option<U64>>, dt: int)
    returns (output: seq<Event>)
    requires Distinct(counters) && |values| == |counters|
    modifies counters
    ensures States(counters) == StepAll(cfg, old(States(counters)), values)
    ensures output == PortEvents(cfg, port, Defs(counters), old(States(counters)), values, dt)
  {
    ghost var defs, before := Defs(counters), States(counters);
    var bytes, pkgs;
    output, bytes, pkgs := ReadCounters(cfg, port, counters, values, dt);
    DoneAll(cfg, port, defs, before, values, dt, output, bytes, pkgs);
    if cfg.sendTotal {
      output := output + [Total(port, bytes.value), TotalPkgs(port, pkgs.value)];
      if bytes.rateAvailable {
        output := output + [TotalRate(port, bytes.rate)];
      }
      if pkgs.rateAvailable {
        output := output + [TotalPkgsRate(port, pkgs.rate)];
      }
    }
  }

  function Flat(ports: seq<seq<Counter>>): set<Counter> {
    set p, k | 0 <= p < |ports| && 0 <= k < |ports[p]| :: ports[p][k]
  }

  /** Everything one Read sends, port by port. */
  function AllEvents(cfg: Config, defs: seq<seq<Def>>, states: seq<seq<CounterState>>, values: seq<seq<Option<U64>>>,
                     dt: int): seq<Event>
    requires |defs| == |states| == |values|
    requires forall p :: 0 <= p < |defs| ==> |defs[p]| == |states[p]| == |values[p]|
  {
    if defs == [] then []
    else
      var n := |defs| - 1;
      AllEvents(cfg, defs[..n], states[..n], values[..n], dt) + PortEvents(cfg, n, defs[n], states[n], values[n], dt)
  }

  /** Everything sent for the first p ports. */
  ghost predicate SentUpTo(cfg: Config, defs: seq<seq<Def>>, states: seq<seq<CounterState>>,
                           values: seq<seq<Option<U64>>>, dt: int, p: nat, output: seq<Event>)
    requires |defs| == |states| == |values| && p <= |defs|
    requires forall q :: 0 <= q < |defs| ==> |defs[q]| == |states[q]| == |values[q]|
  {
    output == AllEvents(cfg, defs[..p], states[..p], values[..p], dt)
  }

  lemma SentStep(cfg: Config, defs: seq<seq<Def>>, states: seq<seq<CounterState>>, values: seq<seq<Option<U64>>>,
                 dt: int, p: nat, output: seq<Event>)
    requires |defs| == |states| == |values| && p < |defs|
    requires forall q :: 0 <= q < |defs| ==> |defs[q]| == |states[q]| == |values[q]|
    requires SentUpTo(cfg, defs, states, values, dt, p, output)
    ensures SentUpTo(cfg, defs, states, values, dt, p + 1,
                     output + PortEvents(cfg, p, defs[p], states[p], values[p], dt))
  {
    SplitAt(defs, p);
    SplitAt(states, p);
    SplitAt(values, p);
  }

  lemma SentAll(cfg: Config, defs: seq<seq<Def>>, states: seq<seq<CounterState>>, values: seq<seq<Option<U64>>>,
                dt: int, output: seq<Event>)
    requires |defs| == |states| == |values|
    requires forall q :: 0 <= q < |defs| ==> |defs[q]| == |states[q]| == |values[q]|
    requires SentUpTo(cfg, defs, states, values, dt, |defs|, output)
    ensures output == AllEvents(cfg, defs, states, values, dt)
  {
    assert defs[..|defs|] == defs && states[..|defs|] == states && values[..|defs|] == values;
  }

  predicate Apart(a: seq<Counter>, b: seq<Counter>) {
    forall c :: c in a ==> c !in b
  }

  class InfinibandCollector {
    const cfg: Config
    const ports: seq<seq<Counter>>
    var lastTimestamp: Time

    /** No counter object occurs twice. */
    ghost predicate Valid() {
      && (forall p :: 0 <= p < |ports| ==> Distinct(ports[p]))
      && (forall p, q :: 0 <= p < |ports| && 0 <= q < |ports| && p != q ==> Apart(ports[p], ports[q]))
    }

    constructor (cfg: Config, ports: seq<seq<Counter>>)
      ensures this.cfg == cfg && this.ports == ports
    {
      this.cfg, this.ports, lastTimestamp := cfg, ports, 0;
    }

    function PortDefs(): (d: seq<seq<Def>>)
      ensures |d| == |ports| && forall p :: 0 <= p < |ports| ==> d[p] == Defs(ports[p])
    {
      seq(|ports|, p requires 0 <= p < |ports| => Defs(ports[p]))
    }

    function PortStates(): (s: seq<seq<CounterState>>)
      reads Flat(ports)
      ensures |s| == |ports| && forall p :: 0 <= p < |ports| ==> s[p] == States(ports[p])
    {
      seq(|ports|, p requires 0 <= p < |ports| reads Flat(ports) => States(ports[p]))
    }

    /** The first n ports have taken their step, the others not yet. */
    ghost predicate Stepped(n: nat, before: seq<seq<CounterState>>, values: seq<seq<Option<U64>>>)
      requires |before| == |values| == |ports|
      requires forall p :: 0 <= p < |ports| ==> |before[p]| == |values[p]| == |ports[p]|
      reads Flat(ports)
    {
      forall p :: 0 <= p < |ports| ==>
        States(ports[p]) == if p < n then StepAll(cfg, before[p], values[p]) else before[p]
    }

    /** Port p alone; the other ports keep their states. */
    method ReadPortAt(p: nat, ghost before: seq<seq<CounterState>>, values: seq<seq<Option<U64>>>, dt: int)
      returns (output: seq<Event>)
      requires Valid() && |before| == |values| == |ports| && p < |ports|
      requires forall q :: 0 <= q < |ports| ==> |before[q]| == |values[q]| == |ports[q]|
      requires Stepped(p, before, values)
      modifies ports[p]
      ensures Stepped(p + 1, before, values)
      ensures output == PortEvents(cfg, p, PortDefs()[p], before[p], values[p], dt)
    {
      output := ReadPort(cfg, p, ports[p], values[p], dt);
      forall q | 0 <= q < |ports| && q != p ensures States(ports[q]) == old(States(ports[q])) {
        assert Apart(ports[q], ports[p]);
        forall k | 0 <= k < |ports[q]| ensures ports[q][k].State() == old(ports[q][k].State()) {
          assert ports[q][k] in ports[q];
        }
      }
    }

    /** The loop over the ports. */
    method ReadPorts(ghost before: seq<seq<CounterState>>, values: seq<seq<Option<U64>>>, dt: int)
      returns (output: seq<Event>)
      requires Valid() && |values| == |ports| && PortStates() == before
      requires forall p :: 0 <= p < |ports| ==> |values[p]| == |ports[p]|
      modifies Flat(ports)
      ensures Stepped(|ports|, before, values)
      ensures output == AllEvents(cfg, PortDefs(), before, values, dt)
    {
      ghost var defs := PortDefs();
      output := [];
      for p := 0 to |ports|
        invariant Stepped(p, before, values)
        invariant SentUpTo(cfg, defs, before, values, dt, p, output)
      {
        SentStep(cfg, defs, before, values, dt, p, output);
        var events := ReadPortAt(p, before, values, dt);
        output := output + events;
      }
      assert PortDefs() == defs;
      SentAll(cfg, PortDefs(), before, values, dt, output);
    }

    /** One Read at time `now`; a value is None if the counter file could not be read or parsed. */
    method Read(now: Time, values: seq<seq<Option<U64>>>) returns (output: seq<Event>)
      requires Valid() && |values| == |ports|
      requires forall p :: 0 <= p < |ports| ==> |values[p]| == |ports[p]|
      modifies `lastTimestamp, Flat(ports)
      ensures lastTimestamp == now
      ensures Stepped(|ports|, old(PortStates()), values)
      ensures output == AllEvents(cfg, PortDefs(), old(PortStates()), values, now - old(lastTimestamp))
    {
      hide AllEvents, Stepped, StepAll, Distinct, Apart;
      ghost var before := PortStates();
      var timeDiff := now - lastTimestamp;
      lastTimestamp := now;
      output := ReadPorts(before, values, timeDiff);
    }
  }

  // ----- what the rates mean, over whole runs of one counter -----

  /** What n units of a counter stand for in bytes or packets. */
  function Times(d: Def, n: int): (r: int)
    ensures n >= 0 ==> r >= 0
  {
    if d.scaleByFour then 4 * n else n
  }

  /** One Read as the counter sees it: its time, and the true number of units counted so far, None if the read of
      this counter failed. */
  datatype Observation = Observation(now: Time, total: Option<nat>)

  function Raw(total: Option<nat>): Option<U64> {
    match total
    case None => None
    case Some(t) => Some(t % TWO64)
  }

  /** A counter together with the collector's lastTimestamp. */
  datatype Tracked = Tracked(state: CounterState, lastTimestamp: Time)

  function After(cfg: Config, t: Tracked, run: seq<Observation>): Tracked {
    if run == [] then t
    else
      var o := run[|run| - 1];
      Tracked(Step(cfg, After(cfg, t, run[..|run| - 1]).state, Raw(o.total)), o.now)
  }

  /** lastState is available exactly if the latest read succeeded, and then it was read at lastTimestamp. */
  lemma LastStateIsLatest(cfg: Config, t: Tracked, run: seq<Observation>)
    requires cfg.sendDerived && run != []
    ensures var o := run[|run| - 1];
            && After(cfg, t, run).lastTimestamp == o.now
            && (After(cfg, t, run).state.available <==> o.total.Some?)
            && (o.total.Some? ==> After(cfg, t, run).state.last == o.total.value % TWO64)
  {
  }

  lemma MinusModulo(a: nat, b: nat)
    requires a <= b
    ensures Minus(b % TWO64, a % TWO64) == (b - a) % TWO64
  {
    var x := b % TWO64 - a % TWO64;
    var q := b / TWO64 - a / TWO64;
    assert b - a == TWO64 * q + x;
    assert x == TWO64 * (x / TWO64) + x % TWO64;
    DivModUnique(b - a, TWO64, q + x / TWO64, x % TWO64);
  }

  lemma RateTimesTime(units: int, dt: int, factor: real)
    requires dt != 0
    ensures units as real / dt as real * factor * dt as real == factor * units as real
  {
    var u := units as real / dt as real;
    assert u * dt as real == units as real;
    assert u * factor * dt as real == factor * (u * dt as real);
  }

  /** Rate times time. */
  function Reported(r: Rate, dt: int): real {
    if r.Some? then r.value * dt as real else 0.0
  }

  lemma RateModulo(d: Def, a: nat, b: nat, dt: int)
    requires a <= b && dt != 0
    ensures var r := RateSince(d, CounterState(a % TWO64, true), b % TWO64, dt);
      r.Some? && Reported(r, dt) == Times(d, (b - a) % TWO64) as real
  {
    MinusModulo(a, b);
    RateTimesTime((b - a) % TWO64, dt, if d.scaleByFour then 4.0 else 1.0);
  }

  lemma FewUnits(units: nat)
    ensures units % TWO64 == units <==> units < TWO64
  {
  }

  /** Rate times time is the true scaled traffic since the last read exactly if fewer than 2^64 units passed. */
  lemma RateExact(d: Def, a: nat, b: nat, dt: int)
    requires a <= b && dt != 0
    ensures var r := RateSince(d, CounterState(a % TWO64, true), b % TWO64, dt);
            && r.Some?
            && Reported(r, dt) == Times(d, (b - a) % TWO64) as real
            && (Reported(r, dt) == Times(d, b - a) as real <==> b - a < TWO64)
  {
    RateModulo(d, a, b, dt);
    FewUnits(b - a);
  }

  /** The absolute value sent is the true number of bytes or packets modulo 2^64. */
  lemma AbsoluteModulo(d: Def, total: nat)
    ensures Scaled(d, total % TWO64) == Times(d, total) % TWO64
  {
    if d.scaleByFour {
      var q, r := total / TWO64, total % TWO64;
      assert total == TWO64 * q + r;
      assert r * 4 == TWO64 * (r * 4 / TWO64) + r * 4 % TWO64;
      assert 4 * total == TWO64 * (4 * q + r * 4 / TWO64) + r * 4 % TWO64;
      DivModUnique(4 * total, TWO64, 4 * q + r * 4 / TWO64, r * 4 % TWO64);
    }
  }

  // ----- what the totals mean -----

  lemma SumModulo(a: nat, b: nat)
    ensures (a % TWO64 + b % TWO64) % TWO64 == (a + b) % TWO64
  {
    var x := a % TWO64 + b % TWO64;
    var q := a / TWO64 + b / TWO64;
    assert a + b == TWO64 * q + x;
    assert x == TWO64 * (x / TWO64) + x % TWO64;
    assert a + b == TWO64 * (q + x / TWO64) + x % TWO64;
    DivModUnique(a + b, TWO64, q + x / TWO64, x % TWO64);
  }

  function RawAll(totals: seq<Option<nat>>): (values: seq<Option<U64>>)
    ensures |values| == |totals|
  {
    seq(|totals|, i requires 0 <= i < |totals| => Raw(totals[i]))
  }

  /** The true bytes or packets of the counters that were read. */
  function TrueTotal(defs: seq<Def>, totals: seq<Option<nat>>, pkgs: bool): nat
    requires |defs| == |totals|
  {
    if defs == [] then 0
    else
      var n := |defs| - 1;
      TrueTotal(defs[..n], totals[..n], pkgs)
      + if totals[n].Some? && CountsFor(defs[n], pkgs) then Times(defs[n], totals[n].value) else 0
  }

  /** A total is the sum of the true scaled counts of its members that could be read, modulo 2^64. */
  lemma {:induction false} TotalModulo(defs: seq<Def>, totals: seq<Option<nat>>, pkgs: bool)
    requires |defs| == |totals|
    ensures TotalOf(defs, RawAll(totals), pkgs) == TrueTotal(defs, totals, pkgs) % TWO64
  {
    if defs != [] {
      var n := |defs| - 1;
      TotalModulo(defs[..n], totals[..n], pkgs);
      assert RawAll(totals)[..n] == RawAll(totals[..n]);
      if totals[n].Some? && CountsFor(defs[n], pkgs) {
        AbsoluteModulo(defs[n], totals[n].value);
        SumModulo(TrueTotal(defs[..n], totals[..n], pkgs), Times(defs[n], totals[n].value));
      }
    }
  }

  predicate RateCounts(cfg: Config, d: Def, s: CounterState, value: Option<U64>, pkgs: bool) {
    HasRate(cfg, s, value) && CountsFor(d, pkgs)
  }

  /** The scaled traffic since their last reads of the counters whose rate enters a total. */
  function TrafficOf(cfg: Config, defs: seq<Def>, states: seq<CounterState>, values: seq<Option<U64>>, pkgs: bool): nat
    requires |defs| == |states| == |values|
  {
    if defs == [] then 0
    else
      var n := |defs| - 1;
      TrafficOf(cfg, defs[..n], states[..n], values[..n], pkgs)
      + if RateCounts(cfg, defs[n], states[n], values[n], pkgs)
        then Times(defs[n], Minus(values[n].value, states[n].last))
        else 0
  }

  lemma RateIsTraffic(d: Def, s: CounterState, raw: U64, dt: int)
    requires dt != 0
    ensures var r := RateSince(d, s, raw, dt);
      r.Some? && r.value * dt as real == Times(d, Minus(raw, s.last)) as real
  {
    RateTimesTime(Minus(raw, s.last), dt, if d.scaleByFour then 4.0 else 1.0);
  }

  lemma RatesAdd(a: real, b: real, t: real, x: nat, y: nat)
    requires a * t == x as real && b * t == y as real
    ensures (a + b) * t == (x + y) as real
  {
  }

  /** A total rate, if there is one, times the time difference is the traffic. */
  predicate Accounts(total: Option<Rate>, traffic: nat, dt: int) {
    match total
    case None => traffic == 0
    case Some(r) => r.Some? && r.value * dt as real == traffic as real
  }

  lemma PlusRateAccounts(total: Option<Rate>, traffic: nat, d: Def, s: CounterState, raw: U64, dt: int)
    requires dt != 0 && Accounts(total, traffic, dt)
    ensures Accounts(PlusRate(total, RateSince(d, s, raw, dt)), traffic + Times(d, Minus(raw, s.last)), dt)
  {
    RateIsTraffic(d, s, raw, dt);
    RatesAdd(if total.Some? then total.value.value else 0.0, RateSince(d, s, raw, dt).value, dt as real,
             traffic, Times(d, Minus(raw, s.last)));
  }

  /** A total rate times the time difference is the scaled traffic of its members. */
  lemma {:induction false} TotalRateExact(
    cfg: Config, defs: seq<Def>, states: seq<CounterState>, values: seq<Option<U64>>, dt: int, pkgs: bool)
    requires |defs| == |states| == |values| && dt != 0
    ensures Accounts(TotalRateOf(cfg, defs, states, values, dt, pkgs), TrafficOf(cfg, defs, states, values, pkgs), dt)
  {
    if defs != [] {
      var n := |defs| - 1;
      TotalRateExact(cfg, defs[..n], states[..n], values[..n], dt, pkgs);
      if RateCounts(cfg, defs[n], states[n], values[n], pkgs) {
        PlusRateAccounts(TotalRateOf(cfg, defs[..n], states[..n], values[..n], dt, pkgs),
                         TrafficOf(cfg, defs[..n], states[..n], values[..n], pkgs),
                         defs[n], states[n], values[n].value, dt);
      }
    }
  }

  /** It is sent exactly if some member has a rate. */
  lemma {:induction false} TotalRateSent(
    cfg: Config, defs: seq<Def>, states: seq<CounterState>, values: seq<Option<U64>>, dt: int, pkgs: bool)
    requires |defs| == |states| == |values|
    ensures TotalRateOf(cfg, defs, states, values, dt, pkgs).Some? <==>
            exists i :: 0 <= i < |defs| && RateCounts(cfg, defs[i], states[i], values[i], pkgs)
  {
    if defs != [] {
      var n := |defs| - 1;
      TotalRateSent(cfg, defs[..n], states[..n], values[..n], dt, pkgs);
      if i :| 0 <= i < n && RateCounts(cfg, defs[i], states[i], values[i], pkgs) {
        assert RateCounts(cfg, defs[..n][i], states[..n][i], values[..n][i], pkgs);
      }
    }
  }

  // ----- traffic over whole runs -----

  /** Time moves on and counters never run backwards. */
  ghost predicate Plausible(run: seq<Observation>) {
    forall i :: 0 < i < |run| ==>
      && run[i - 1].now < run[i].now
      && (run[i - 1].total.Some? && run[i].total.Some? ==> run[i - 1].total.value <= run[i].total.value)
  }

  /** Rate times time, summed over all rates sent in a run. */
  function ReportedTraffic(cfg: Config, d: Def, t: Tracked, run: seq<Observation>): real {
    if run == [] then 0.0
    else
      var n := |run| - 1;
      var before := After(cfg, t, run[..n]);
      ReportedTraffic(cfg, d, t, run[..n]) + Contribution(cfg, d, before, run[n])
  }

  function Contribution(cfg: Config, d: Def, before: Tracked, o: Observation): real {
    if HasRate(cfg, before.state, Raw(o.total)) then
      var dt := o.now - before.lastTimestamp;
      Reported(RateSince(d, before.state, Raw(o.total).value, dt), dt)
    else 0.0
  }

  /** The true traffic of the last interval, if the counter was read at both ends of it. */
  function Gain(run: seq<Observation>): nat
    requires Plausible(run)
  {
    var n := |run| - 1;
    if n > 0 && run[n - 1].total.Some? && run[n].total.Some? then run[n].total.value - run[n - 1].total.value else 0
  }

  /** The true traffic of exactly those intervals at both ends of which the counter was read. */
  function TrueTraffic(run: seq<Observation>): nat
    requires Plausible(run)
  {
    if run == [] then 0 else TrueTraffic(run[..|run| - 1]) + Gain(run)
  }

  /** Whole turns of the counter within such intervals. */
  function MissedTurns(run: seq<Observation>): nat
    requires Plausible(run)
  {
    if run == [] then 0 else MissedTurns(run[..|run| - 1]) + Gain(run) / TWO64
  }

  /** In any run with any pattern of failed reads and wraparounds, the rates account for the true scaled traffic of
      the intervals they cover, less one turn of the counter for every whole turn within one of them. */
  lemma {:induction false} TrafficConserved(cfg: Config, d: Def, t: Tracked, run: seq<Observation>)
    requires cfg.sendDerived && Plausible(run) && !t.state.available
    ensures ReportedTraffic(cfg, d, t, run) == Times(d, TrueTraffic(run) - TWO64 * MissedTurns(run)) as real
  {
    if run != [] {
      var n := |run| - 1;
      TrafficConserved(cfg, d, t, run[..n]);
      ContributionExact(cfg, d, t, run);
    }
  }

  lemma TurnsAndRest(gain: nat)
    ensures gain % TWO64 == gain - TWO64 * (gain / TWO64)
  {
  }

  lemma ContributionOf(cfg: Config, d: Def, before: Tracked, o: Observation, a: nat)
    requires cfg.sendDerived && before.lastTimestamp < o.now && o.total.Some?
    requires before.state == CounterState(a % TWO64, true) && a <= o.total.value
    ensures Contribution(cfg, d, before, o) == Times(d, (o.total.value - a) % TWO64) as real
  {
    RateModulo(d, a, o.total.value, o.now - before.lastTimestamp);
  }

  lemma ContributionExact(cfg: Config, d: Def, t: Tracked, run: seq<Observation>)
    requires cfg.sendDerived && Plausible(run) && !t.state.available && run != []
    ensures var n := |run| - 1;
      Contribution(cfg, d, After(cfg, t, run[..n]), run[n])
        == Times(d, Gain(run) - TWO64 * (Gain(run) / TWO64)) as real
  {
    var n := |run| - 1;
    if n > 0 {
      LastStateIsLatest(cfg, t, run[..n]);
      if run[n - 1].total.Some? && run[n].total.Some? {
        ContributionOf(cfg, d, After(cfg, t, run[..n]), run[n], run[n - 1].total.value);
        TurnsAndRest(Gain(run));
      }
    }
  }

  /** Fewer than 2^64 units pass between any two successive Reads that both read the counter. */
  ghost predicate NoTurnMissed(run: seq<Observation>)
    requires Plausible(run)
  {
    run == [] || (NoTurnMissed(run[..|run| - 1]) && Gain(run) < TWO64)
  }

  lemma {:induction false} MissedTurnsZero(run: seq<Observation>)
    requires Plausible(run)
    ensures MissedTurns(run) == 0 <==> NoTurnMissed(run)
  {
    if run != [] {
      MissedTurnsZero(run[..|run| - 1]);
      TurnsOf(Gain(run));
    }
  }

  lemma TurnsOf(gain: nat)
    ensures gain / TWO64 == 0 <==> gain < TWO64
  {
  }

  /** The traffic is reported in full exactly if no whole turn passed unseen. */
  lemma TrafficExact(cfg: Config, d: Def, t: Tracked, run: seq<Observation>)
    requires cfg.sendDerived && Plausible(run) && !t.state.available
    ensures ReportedTraffic(cfg, d, t, run) == Times(d, TrueTraffic(run)) as real <==> NoTurnMissed(run)
  {
    TrafficConserved(cfg, d, t, run);
    MissedTurnsZero(run);
  }
}
