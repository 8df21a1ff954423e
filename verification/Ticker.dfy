/** pkg/multiChanTicker: one goroutine fans every tick out to a growing list of unbuffered channels. */
module Ticker {
  import opened Common

  datatype Pc =
    | Select                                          // waiting for `done` or for the timer
    | Sending(snapshot: nat, next: nat, ts: Time)     // nested select: `done`, or send `ts` to channel `next`
    | Closing                                         // `done` received, about to close it
    | Ended

  datatype State = State(
    pc: Pc,
    clock: Time,                  // latest reading of the wall clock
    timer: Option<Time>,          // the one-slot channel of the operating timer
    ticks: seq<Time>,             // every tick taken from the timer
    starts: seq<nat>,             // per channel: how many ticks had been taken when it was registered
    delivered: seq<seq<Time>>)    // per channel: the ticks it has received

  datatype Action = Fire(now: Time) | Observe(now: Time) | Take | Deliver | Register | Accept | Close

  const INITIAL: State := State(Select, 0, None, [], [], [])

  predicate Enabled(s: State, a: Action) {
    match a
    case Fire(now) => s.timer.None? && s.clock <= now
    case Observe(now) => s.clock <= now
    case Take => s.pc.Select? && s.timer.Some?
    case Deliver => s.pc.Sending? && s.pc.next < s.pc.snapshot <= |s.delivered|
    case Register => true
    case Accept => s.pc.Select? || s.pc.Sending?
    case Close => s.pc.Closing?
  }

  function Apply(s: State, a: Action): State
    requires Enabled(s, a)
  {
    match a
    case Fire(now) => s.(timer := Some(now), clock := now)
    case Observe(now) => s.(clock := now)
    case Take =>
      s.(ticks := s.ticks + [s.timer.value], timer := None,
         pc := if |s.starts| == 0 then Select else Sending(|s.starts|, 0, s.timer.value))
    case Deliver =>
      var c := s.pc.next;
      s.(delivered := s.delivered[c := s.delivered[c] + [s.pc.ts]],
         pc := if c + 1 == s.pc.snapshot then Select else s.pc.(next := c + 1))
    case Register => s.(starts := s.starts + [|s.ticks|], delivered := s.delivered + [[]])
    case Accept => s.(pc := Closing)
    case Close => s.(pc := Ended)
  }

  /** Number of the first tick channel `c` has not got (counting from the first tick ever taken). */
  function Progress(s: State, c: nat): nat
    requires c < |s.starts| == |s.delivered|
  {
    s.starts[c] + |s.delivered[c]|
  }

  ghost predicate Sorted(ts: seq<Time>) {
    forall i, j :: 0 <= i < j < |ts| ==> ts[i] <= ts[j]
  }

  ghost predicate ClockInv(s: State) {
    && Sorted(s.ticks)
    && (forall i :: 0 <= i < |s.ticks| ==> s.ticks[i] <= s.clock)
    && (s.timer.Some? ==> s.timer.value <= s.clock)
    && (s.timer.Some? ==> forall i :: 0 <= i < |s.ticks| ==> s.ticks[i] <= s.timer.value)
  }

  /** Every channel has received a contiguous run of the ticks, starting with the first one taken
      after it was registered, and misses at most the newest. */
  ghost predicate Contiguous(s: State)
    requires |s.starts| == |s.delivered|
  {
    forall c :: 0 <= c < |s.starts| ==>
      && s.starts[c] <= Progress(s, c) <= |s.ticks| <= Progress(s, c) + 1
      && s.delivered[c] == s.ticks[s.starts[c]..Progress(s, c)]
  }

  /** A channel is never behind one registered later, and at most one tick ahead of it. */
  ghost predicate FanOut(s: State)
    requires |s.starts| == |s.delivered|
  {
    forall c, d :: 0 <= c < d < |s.starts| && s.delivered[d] != [] ==>
      Progress(s, d) <= Progress(s, c) <= Progress(s, d) + 1
  }

  ghost predicate Ordered(s: State) {
    forall c, d :: 0 <= c < d < |s.starts| ==> s.starts[c] <= s.starts[d]
  }

  ghost predicate PcInv(s: State)
    requires |s.starts| == |s.delivered|
  {
    match s.pc
    case Select => forall c :: 0 <= c < |s.starts| ==> Progress(s, c) == |s.ticks|
    case Sending(n, i, ts) =>
      && i < n <= |s.starts|
      && 0 < |s.ticks| && ts == s.ticks[|s.ticks| - 1]
      && (forall c :: 0 <= c < i ==> Progress(s, c) == |s.ticks|)
      && (forall c :: i <= c < n ==> Progress(s, c) == |s.ticks| - 1)
      && (forall c :: n <= c < |s.starts| ==> s.starts[c] == |s.ticks| && s.delivered[c] == [])
    case _ => true
  }

  ghost predicate Inv(s: State) {
    && |s.starts| == |s.delivered|
    && ClockInv(s)
    && Contiguous(s)
    && Ordered(s)
    && FanOut(s)
    && PcInv(s)
  }

  lemma InitialInv()
    ensures Inv(INITIAL)
  {
  }

  lemma TakeInv(s: State)
    requires Inv(s) && Enabled(s, Take)
    ensures Inv(Apply(s, Take))
  {
    var s' := Apply(s, Take);
    forall c | 0 <= c < |s.starts|
      ensures Progress(s', c) == Progress(s, c) == |s.ticks|
      ensures s'.delivered[c] == s'.ticks[s'.starts[c]..Progress(s', c)]
    {
      assert s'.ticks[s'.starts[c]..Progress(s', c)] == s.ticks[s.starts[c]..Progress(s, c)];
    }
    assert Contiguous(s');
    assert FanOut(s');
    assert PcInv(s');
  }

  lemma DeliverInv(s: State)
    requires Inv(s) && Enabled(s, Deliver)
    ensures Inv(Apply(s, Deliver))
  {
    var s', c := Apply(s, Deliver), s.pc.next;
    assert Progress(s', c) == |s.ticks|;
    assert s'.delivered[c] == s.ticks[s.starts[c]..Progress(s', c)];
    forall d | 0 <= d < |s.starts| && d != c
      ensures Progress(s', d) == Progress(s, d) && s'.delivered[d] == s.delivered[d]
    {
    }
    assert Contiguous(s');
    assert FanOut(s');
    assert PcInv(s');
  }

  /** One more channel; the others are as before. */
  lemma Registered(s: State, c: nat)
    requires |s.starts| == |s.delivered| && c < |s.starts|
    ensures var s' := Apply(s, Register);
            && s'.starts[c] == s.starts[c] && s'.delivered[c] == s.delivered[c] && Progress(s', c) == Progress(s, c)
  {
  }

  lemma RegisterContiguous(s: State)
    requires |s.starts| == |s.delivered| && Contiguous(s)
    ensures Contiguous(Apply(s, Register))
  {
    forall c | 0 <= c < |s.starts|
      ensures Progress(Apply(s, Register), c) == Progress(s, c)
    {
      Registered(s, c);
    }
  }

  lemma RegisterFanOut(s: State)
    requires |s.starts| == |s.delivered| && FanOut(s)
    ensures FanOut(Apply(s, Register))
  {
    var s' := Apply(s, Register);
    forall c, d | 0 <= c < d < |s'.starts| && s'.delivered[d] != []
      ensures Progress(s', d) <= Progress(s', c) <= Progress(s', d) + 1
    {
      Registered(s, c);
      Registered(s, d);
    }
  }

  lemma RegisterPc(s: State)
    requires |s.starts| == |s.delivered| && PcInv(s)
    ensures PcInv(Apply(s, Register))
  {
    forall c | 0 <= c < |s.starts| ensures Progress(Apply(s, Register), c) == Progress(s, c) {
      Registered(s, c);
    }
  }

  lemma RegisterOrdered(s: State)
    requires |s.starts| == |s.delivered| && Contiguous(s) && Ordered(s)
    ensures Ordered(Apply(s, Register))
  {
    forall c | 0 <= c < |s.starts| ensures s.starts[c] <= |s.ticks| {
      assert s.starts[c] <= Progress(s, c) <= |s.ticks|;
    }
  }

  lemma RegisterInv(s: State)
    requires Inv(s) && Enabled(s, Register)
    ensures Inv(Apply(s, Register))
  {
    RegisterContiguous(s);
    RegisterOrdered(s);
    RegisterFanOut(s);
    RegisterPc(s);
    hide Contiguous, Ordered, FanOut, PcInv;
  }

  /** The timer, the clock and the end of the goroutine leave the channels alone. */
  lemma OtherInv(s: State, a: Action)
    requires Inv(s) && Enabled(s, a) && !a.Take? && !a.Deliver? && !a.Register?
    ensures Inv(Apply(s, a))
  {
    SameChannels(s, Apply(s, a));
    hide Contiguous, Ordered, FanOut, PcInv;
  }

  lemma SameChannels(s: State, s': State)
    requires |s.starts| == |s.delivered| && Contiguous(s) && Ordered(s) && FanOut(s) && PcInv(s)
    requires s'.ticks == s.ticks && s'.starts == s.starts && s'.delivered == s.delivered
    requires s'.pc == s.pc || s'.pc.Closing? || s'.pc.Ended?
    ensures Contiguous(s') && Ordered(s') && FanOut(s') && PcInv(s')
  {
    forall c | 0 <= c < |s.starts| ensures Progress(s', c) == Progress(s, c) {
    }
  }

  lemma StepInv(s: State, a: Action)
    requires Inv(s) && Enabled(s, a)
    ensures Inv(Apply(s, a))
  {
    hide Inv, Apply;
    match a
    case Take => TakeInv(s);
    case Deliver => DeliverInv(s);
    case Register => RegisterInv(s);
    case _ => OtherInv(s, a);
  }
}
