/** collectors/raplMetric.go: average power from wrapping energy counters. */
module Rapl {
  import opened Common
  import opened Arithmetic

  /** A successful read of a zone's energy counter. Energies in micro joules, times in micro seconds. */
  datatype Reading = Reading(energy: int, time: Time)

  /** A published power value. None stands for the infinite or undefined result of a division by zero. */
  datatype Sample = Sample(zone: nat, power: Option<real>, time: Time)

  datatype ZoneState = ZoneState(energy: int, time: Time, range: int)

  // ----- specification of one read of one zone -----

  /** Energy since the last successful read. */
  function EnergySince(z: ZoneState, energy: int): int {
    if energy < z.energy then energy - z.energy + z.range else energy - z.energy
  }

  function Power(z: ZoneState, r: Reading): Option<real> {
    if r.time == z.time then None
    else Some(EnergySince(z, r.energy) as real / (r.time - z.time) as real)
  }

  function Step(z: ZoneState, r: Option<Reading>): ZoneState {
    match r
    case None => z
    case Some(m) => ZoneState(m.energy, m.time, z.range)
  }

  function SampleOf(i: nat, z: ZoneState, r: Option<Reading>): seq<Sample> {
    match r
    case None => []
    case Some(m) => [Sample(i, Power(z, m), m.time)]
  }

  function SamplesOf(zones: seq<ZoneState>, readings: seq<Option<Reading>>): seq<Sample>
    requires |zones| == |readings|
  {
    if zones == [] then []
    else
      var n := |zones| - 1;
      SamplesOf(zones[..n], readings[..n]) + SampleOf(n, zones[n], readings[n])
  }

  /** The states of all zones after one Read. */
  function StepAll(zones: seq<ZoneState>, readings: seq<Option<Reading>>): (s: seq<ZoneState>)
    requires |zones| == |readings|
    ensures |s| == |zones|
  {
    seq(|zones|, i requires 0 <= i < |zones| => Step(zones[i], readings[i]))
  }

  /** What the first n zones publish. */
  ghost predicate SampledUpTo(n: nat, zones: seq<ZoneState>, readings: seq<Option<Reading>>, output: seq<Sample>)
    requires n <= |zones| == |readings|
  {
    output == SamplesOf(zones[..n], readings[..n])
  }

  lemma SampledStep(n: nat, zones: seq<ZoneState>, readings: seq<Option<Reading>>, output: seq<Sample>)
    requires n < |zones| == |readings| && SampledUpTo(n, zones, readings, output)
    ensures SampledUpTo(n + 1, zones, readings, output + SampleOf(n, zones[n], readings[n]))
  {
    assert zones[..n + 1][..n] == zones[..n] && readings[..n + 1][..n] == readings[..n];
  }

  // ----- the code -----

  class Zone {
    var energy: int
    var energyTimestamp: Time
    const maxEnergyRange: int

    constructor (energy: int, energyTimestamp: Time, maxEnergyRange: int)
      ensures State() == ZoneState(energy, energyTimestamp, maxEnergyRange)
    {
      this.energy, this.energyTimestamp, this.maxEnergyRange := energy, energyTimestamp, maxEnergyRange;
    }

    function State(): ZoneState
      reads this
    {
      ZoneState(energy, energyTimestamp, maxEnergyRange)
    }
  }

  function States(zones: seq<Zone>): (s: seq<ZoneState>)
    reads zones
    ensures |s| == |zones| && forall i :: 0 <= i < |zones| ==> s[i] == zones[i].State()
  {
    if zones == [] then [] else States(zones[..|zones| - 1]) + [zones[|zones| - 1].State()]
  }

  class RaplCollector {
    var zones: seq<Zone>

    ghost predicate Valid()
      reads this
    {
      forall i, j :: 0 <= i < j < |zones| ==> zones[i] != zones[j]
    }

    constructor (zones: seq<Zone>)
      requires forall i, j :: 0 <= i < j < |zones| ==> zones[i] != zones[j]
      ensures Valid() && this.zones == zones
    {
      this.zones := zones;
    }

    /** The first n zones have taken their step, the others not yet. */
    ghost predicate Stepped(n: nat, before: seq<ZoneState>, readings: seq<Option<Reading>>)
      requires |before| == |readings| == |zones|
      reads this, zones
    {
      forall i :: 0 <= i < |zones| ==> zones[i].State() == if i < n then Step(before[i], readings[i]) else before[i]
    }

    /** The body of the loop: zone i. */
    method ReadZone(i: nat, ghost before: seq<ZoneState>, readings: seq<Option<Reading>>) returns (output: seq<Sample>)
      requires Valid() && |before| == |readings| == |zones| && i < |zones|
      requires Stepped(i, before, readings)
      modifies zones[i]
      ensures Stepped(i + 1, before, readings)
      ensures output == SampleOf(i, before[i], readings[i])
    {
      output := [];
      var p := zones[i];
      if readings[i].None? {
        return;
      }
      var energy, energyTimestamp := readings[i].value.energy, readings[i].value.time;
      var energyDiff := energy - p.energy;
      if energyDiff < 0 {
        energyDiff := energyDiff + p.maxEnergyRange;
      }
      var timeDiff := energyTimestamp - p.energyTimestamp;
      var averagePower := if timeDiff == 0 then None else Some(energyDiff as real / timeDiff as real);
      output := [Sample(i, averagePower, energyTimestamp)];
      p.energy := energy;
      p.energyTimestamp := energyTimestamp;
    }

    /** One Read; readings[i] is None if the counter file of zone i could not be read or parsed. */
    method Read(readings: seq<Option<Reading>>) returns (output: seq<Sample>)
      requires Valid() && |readings| == |zones|
      modifies zones
      ensures Valid() && zones == old(zones)
      ensures States(zones) == StepAll(old(States(zones)), readings)
      ensures output == SamplesOf(old(States(zones)), readings)
    {
      ghost var before := States(zones);
      output := [];
      for i := 0 to |zones|
        invariant zones == old(zones) && Valid() && Stepped(i, before, readings)
        invariant SampledUpTo(i, before, readings, output)
      {
        SampledStep(i, before, readings, output);
        var samples := ReadZone(i, before, readings);
        output := output + samples;
      }
      assert before[..|zones|] == before && readings[..|zones|] == readings;
    }
  }

  // ----- energy conservation over whole runs of one zone -----

  /** A successful read: the energy truly consumed since some origin, and the time. */
  datatype Truth = Truth(total: nat, time: Time)

  /** What the counter of the given range shows. */
  function Shown(t: Truth, range: int): Reading
    requires range > 0
  {
    Reading(t.total % range, t.time)
  }

  function ZoneAt(t: Truth, range: int): ZoneState
    requires range > 0
  {
    ZoneState(t.total % range, t.time, range)
  }

  /** Neither energy nor time runs backwards; time moves on between successful reads. */
  ghost predicate Plausible(first: Truth, run: seq<Option<Truth>>)
    decreases |run|
  {
    run == [] ||
    match run[0]
    case None => Plausible(first, run[1..])
    case Some(t) => first.total <= t.total && first.time < t.time && Plausible(t, run[1..])
  }

  /** The last successful read. */
  function Last(first: Truth, run: seq<Option<Truth>>): Truth
    decreases |run|
  {
    if run == [] then first
    else match run[0]
         case None => Last(first, run[1..])
         case Some(t) => Last(t, run[1..])
  }

  /** Reported power times elapsed time of one read. */
  function Reported(z: ZoneState, r: Reading): real {
    match Power(z, r)
    case None => 0.0
    case Some(p) => p * (r.time - z.time) as real
  }

  /** The same, summed over a run of the zone. */
  function ReportedEnergy(z: ZoneState, run: seq<Option<Truth>>): real
    requires z.range > 0
    decreases |run|
  {
    if run == [] then 0.0
    else match run[0]
         case None => ReportedEnergy(Step(z, None), run[1..])
         case Some(t) =>
           Reported(z, Shown(t, z.range)) + ReportedEnergy(Step(z, Some(Shown(t, z.range))), run[1..])
  }

  /** Whole counter ranges that passed between successive successful reads. */
  function MissedRanges(first: Truth, run: seq<Option<Truth>>, range: int): int
    requires range > 0
    decreases |run|
  {
    if run == [] then 0
    else match run[0]
         case None => MissedRanges(first, run[1..], range)
         case Some(t) => (t.total - first.total) / range + MissedRanges(t, run[1..], range)
  }

  lemma EnergySinceModulo(a: nat, b: nat, range: int)
    requires range > 0 && a <= b
    ensures EnergySince(ZoneState(a % range, 0, range), b % range) == b - a - range * ((b - a) / range)
  {
    var d := EnergySince(ZoneState(a % range, 0, range), b % range);
    var wrap := if b % range < a % range then 1 else 0;
    var q := b / range - a / range - wrap;
    assert b - a == range * (b / range) - range * (a / range) + b % range - a % range;
    assert range * q == range * (b / range) - range * (a / range) - range * wrap;
    DivModUnique(b - a, range, q, d);
  }

  lemma ReportedIsEnergySince(z: ZoneState, r: Reading)
    requires r.time != z.time
    ensures Reported(z, r) == EnergySince(z, r.energy) as real
  {
  }

  lemma ReportedModulo(a: Truth, b: Truth, range: int)
    requires range > 0 && a.total <= b.total && a.time < b.time
    ensures Reported(ZoneAt(a, range), Shown(b, range)) ==
            (b.total - a.total - range * ((b.total - a.total) / range)) as real
  {
    ReportedIsEnergySince(ZoneAt(a, range), Shown(b, range));
    EnergySinceModulo(a.total, b.total, range);
  }

  lemma Distribute(range: int, q: int, m: int)
    ensures range * (q + m) == range * q + range * m
  {
  }

  lemma ConservedStep(first: Truth, t: Truth, range: int, reported: real, last: int, missed: int)
    requires range > 0 && first.total <= t.total && first.time < t.time
    requires reported == (last - t.total - range * missed) as real
    ensures Reported(ZoneAt(first, range), Shown(t, range)) + reported ==
            (last - first.total - range * ((t.total - first.total) / range + missed)) as real
  {
    ReportedModulo(first, t, range);
    Distribute(range, (t.total - first.total) / range, missed);
  }

  lemma {:induction false} ReportedConserved(first: Truth, run: seq<Option<Truth>>, range: int)
    requires range > 0 && Plausible(first, run)
    ensures ReportedEnergy(ZoneAt(first, range), run) ==
            (Last(first, run).total - first.total - range * MissedRanges(first, run, range)) as real
    decreases |run|
  {
    if run == [] {
      assert range * 0 == 0;
    } else if run[0].None? {
      ReportedConserved(first, run[1..], range);
    } else {
      var t := run[0].value;
      ReportedConserved(t, run[1..], range);
      ConservedStep(first, t, range, ReportedEnergy(ZoneAt(t, range), run[1..]), Last(t, run[1..]).total,
                    MissedRanges(t, run[1..], range));
    }
  }

  /** Less than one range passes between any two successive successful reads. */
  ghost predicate NoRangeMissed(first: Truth, run: seq<Option<Truth>>, range: int)
    decreases |run|
  {
    run == [] ||
    match run[0]
    case None => NoRangeMissed(first, run[1..], range)
    case Some(t) => t.total - first.total < range && NoRangeMissed(t, run[1..], range)
  }

  lemma UnseenZero(d: nat, range: int)
    requires range > 0
    ensures 0 <= d / range
    ensures d / range == 0 <==> d < range
  {
    if d < range {
      DivModUnique(d, range, 0, d);
    }
  }

  lemma {:induction false} MissedRangesZero(first: Truth, run: seq<Option<Truth>>, range: int)
    requires range > 0 && Plausible(first, run)
    ensures 0 <= MissedRanges(first, run, range)
    ensures MissedRanges(first, run, range) == 0 <==> NoRangeMissed(first, run, range)
    decreases |run|
  {
    if run != [] {
      if run[0].None? {
        MissedRangesZero(first, run[1..], range);
      } else {
        var t := run[0].value;
        MissedRangesZero(t, run[1..], range);
        UnseenZero(t.total - first.total, range);
      }
    }
  }

  // ----- the samples that whole runs of Reads publish -----

  /** What the counters of all zones show in one Read; None where the read fails. */
  function ShownAll(truths: seq<Option<Truth>>, zones: seq<ZoneState>): (readings: seq<Option<Reading>>)
    requires |truths| == |zones| && forall i :: 0 <= i < |zones| ==> zones[i].range > 0
    ensures |readings| == |zones|
  {
    seq(|zones|, i requires 0 <= i < |zones| =>
      if truths[i].None? then None else Some(Shown(truths[i].value, zones[i].range)))
  }

  ghost predicate Readable(zones: seq<ZoneState>, run: seq<seq<Option<Truth>>>) {
    && (forall i :: 0 <= i < |zones| ==> zones[i].range > 0)
    && (forall j :: 0 <= j < |run| ==> |run[j]| == |zones|)
  }

  /** Everything published by a run of Reads, one after the other. */
  function Published(zones: seq<ZoneState>, run: seq<seq<Option<Truth>>>): seq<Sample>
    requires Readable(zones, run)
    decreases |run|
  {
    if run == [] then []
    else
      var readings := ShownAll(run[0], zones);
      SamplesOf(zones, readings) + Published(StepAll(zones, readings), run[1..])
  }

  /** The samples of one zone. */
  function OfZone(samples: seq<Sample>, i: nat): seq<Sample> {
    if samples == [] then []
    else
      var n := |samples| - 1;
      OfZone(samples[..n], i) + if samples[n].zone == i then [samples[n]] else []
  }

  /** The successful reads of one zone. */
  function TruthsOf(run: seq<seq<Option<Truth>>>, i: nat): seq<Option<Truth>>
    requires forall j :: 0 <= j < |run| ==> i < |run[j]|
  {
    if run == [] then [] else [run[0][i]] + TruthsOf(run[1..], i)
  }

  /** The times at which they succeed. */
  function TimesOf(run: seq<Option<Truth>>): seq<Time> {
    if run == [] then [] else (if run[0].Some? then [run[0].value.time] else []) + TimesOf(run[1..])
  }

  function SampleTimes(samples: seq<Sample>): seq<Time> {
    if samples == [] then [] else [samples[0].time] + SampleTimes(samples[1..])
  }

  /** Power times the time since the sample before, summed; time is that of the sample before the first. */
  function EnergyOf(samples: seq<Sample>, time: Time): real {
    if samples == [] then 0.0
    else
      (match samples[0].power
       case None => 0.0
       case Some(p) => p * (samples[0].time - time) as real)
      + EnergyOf(samples[1..], samples[0].time)
  }

  lemma {:induction false} OfZoneMore(a: seq<Sample>, b: seq<Sample>, i: nat)
    ensures OfZone(a + b, i) == OfZone(a, i) + OfZone(b, i)
  {
    if b == [] {
      assert a + b == a;
    } else {
      var n := |b| - 1;
      assert (a + b)[..|a| + n] == a + b[..n];
      OfZoneMore(a, b[..n], i);
    }
  }

  lemma {:induction false} OfOtherZones(zones: seq<ZoneState>, readings: seq<Option<Reading>>, i: nat)
    requires |zones| == |readings| <= i
    ensures OfZone(SamplesOf(zones, readings), i) == []
  {
    if zones != [] {
      var n := |zones| - 1;
      OfOtherZones(zones[..n], readings[..n], i);
      OfZoneMore(SamplesOf(zones[..n], readings[..n]), SampleOf(n, zones[n], readings[n]), i);
    }
  }

  /** A Read publishes one sample of a zone if its reading succeeds, and none otherwise. */
  lemma {:induction false} OneSample(zones: seq<ZoneState>, readings: seq<Option<Reading>>, i: nat)
    requires i < |zones| == |readings|
    ensures OfZone(SamplesOf(zones, readings), i) == SampleOf(i, zones[i], readings[i])
  {
    var n := |zones| - 1;
    OfZoneMore(SamplesOf(zones[..n], readings[..n]), SampleOf(n, zones[n], readings[n]), i);
    if i < n {
      OneSample(zones[..n], readings[..n], i);
    } else {
      OfOtherZones(zones[..n], readings[..n], i);
    }
  }

  lemma FirstRead(zones: seq<ZoneState>, run: seq<seq<Option<Truth>>>, i: nat)
    requires Readable(zones, run) && i < |zones| && run != []
    ensures var readings := ShownAll(run[0], zones);
            var rest := OfZone(Published(StepAll(zones, readings), run[1..]), i);
            && OfZone(Published(zones, run), i) ==
               (match readings[i]
                case None => rest
                case Some(r) => [Sample(i, Power(zones[i], r), r.time)] + rest)
            && TruthsOf(run, i) == [run[0][i]] + TruthsOf(run[1..], i)
  {
    var readings := ShownAll(run[0], zones);
    OfZoneMore(SamplesOf(zones, readings), Published(StepAll(zones, readings), run[1..]), i);
    OneSample(zones, readings, i);
  }

  lemma FirstSample(i: nat, z: ZoneState, r: Reading, rest: seq<Sample>)
    ensures var samples := [Sample(i, Power(z, r), r.time)] + rest;
            && SampleTimes(samples) == [r.time] + SampleTimes(rest)
            && EnergyOf(samples, z.time) == Reported(z, r) + EnergyOf(rest, r.time)
  {
    assert ([Sample(i, Power(z, r), r.time)] + rest)[1..] == rest;
  }

  lemma FirstTruth(z: ZoneState, t: Option<Truth>, rest: seq<Option<Truth>>)
    requires z.range > 0
    ensures TimesOf([t] + rest) == (if t.Some? then [t.value.time] else []) + TimesOf(rest)
    ensures ReportedEnergy(z, [t] + rest) ==
            if t.None? then ReportedEnergy(z, rest)
            else Reported(z, Shown(t.value, z.range)) + ReportedEnergy(ZoneAt(t.value, z.range), rest)
  {
    assert ([t] + rest)[1..] == rest;
  }

  /** The zone of a run, from its state at the beginning. */
  lemma {:induction false} ZonePublishes(zones: seq<ZoneState>, run: seq<seq<Option<Truth>>>, i: nat, first: Truth)
    requires Readable(zones, run) && i < |zones| && zones[i] == ZoneAt(first, zones[i].range)
    ensures SampleTimes(OfZone(Published(zones, run), i)) == TimesOf(TruthsOf(run, i))
    ensures EnergyOf(OfZone(Published(zones, run), i), first.time) == ReportedEnergy(zones[i], TruthsOf(run, i))
    decreases |run|
  {
    if run != [] {
      hide Published, OfZone, TruthsOf, SampleTimes, TimesOf, EnergyOf, ReportedEnergy, Power, Reported;
      var readings := ShownAll(run[0], zones);
      var next := StepAll(zones, readings);
      FirstRead(zones, run, i);
      FirstTruth(zones[i], run[0][i], TruthsOf(run[1..], i));
      match run[0][i] {
        case None =>
          ZonePublishes(next, run[1..], i, first);
        case Some(t) =>
          ZonePublishes(next, run[1..], i, t);
          FirstSample(i, zones[i], readings[i].value, OfZone(Published(next, run[1..]), i));
      }
    }
  }

  /** In any run of Reads, with any pattern of failing readings, a zone has one sample for each successful reading, at
      the time of that reading; and their power times the time since the reading before adds up to the true energy
      between the first and the last successful reading, less one counter range for every whole range that passed
      unseen. */
  lemma EnergyConserved(zones: seq<ZoneState>, run: seq<seq<Option<Truth>>>, i: nat, first: Truth)
    requires Readable(zones, run) && i < |zones| && zones[i] == ZoneAt(first, zones[i].range)
    requires Plausible(first, TruthsOf(run, i))
    ensures
      var samples, truths := OfZone(Published(zones, run), i), TruthsOf(run, i);
      && SampleTimes(samples) == TimesOf(truths)
      && EnergyOf(samples, first.time) ==
         (Last(first, truths).total - first.total
          - zones[i].range * MissedRanges(first, truths, zones[i].range)) as real
  {
    ZonePublishes(zones, run, i, first);
    ReportedConserved(first, TruthsOf(run, i), zones[i].range);
  }

  /** The samples account for all of the energy exactly when no range passed unseen. */
  lemma EnergyExact(zones: seq<ZoneState>, run: seq<seq<Option<Truth>>>, i: nat, first: Truth)
    requires Readable(zones, run) && i < |zones| && zones[i] == ZoneAt(first, zones[i].range)
    requires Plausible(first, TruthsOf(run, i))
    ensures
      var truths := TruthsOf(run, i);
      EnergyOf(OfZone(Published(zones, run), i), first.time) == (Last(first, truths).total - first.total) as real <==>
        NoRangeMissed(first, truths, zones[i].range)
  {
    var truths, range := TruthsOf(run, i), zones[i].range;
    EnergyConserved(zones, run, i, first);
    MissedRangesZero(first, truths, range);
    if MissedRanges(first, truths, range) != 0 {
      MulAtLeast(range, MissedRanges(first, truths, range));
    }
  }
}
