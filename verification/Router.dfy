/** internal/metricRouter/metricRouter.go: merges the collector, receiver and cache inputs into every output,
    in batches of at most maxForward messages of one input. */
module Router {
  import opened Common

  datatype Source = Coll | Recv | Agg

  /** process: the message processor; nOut: number of outputs. */
  datatype Config = Config(
    process: Msg -> Processed,
    nOut: nat,
    maxForward: int,              // the configured value
    intervalStamp: bool,
    cacheOn: bool)
  {
    /** The bound the router works with. */
    function Limit(): int {
      if maxForward < 1 then 1 else maxForward
    }
  }

  datatype Pc =
    | NotStarted
    | Select
    | Forward(src: Source, m: Processed, i: nat, k: nat)   // about to send to output i, after k messages of the batch
    | CacheAdd(m: Processed, k: nat)
    | Batch(src: Source, k: nat)                           // loop condition of the batch loop
    | BatchRecv(src: Source, k: nat)                       // blocking receive inside the batch loop
    | Closing
    | Ended

  /** A message taken from an input, how many ticks the router had seen by then, and the message after stamping. */
  datatype Item = Item(src: Source, raw: Msg, nTicks: nat, stamped: Msg)

  datatype State = State(
    pc: Pc,
    start: Time,                  // the initial time stamp
    got: seq<Time>,               // ticks received
    consumed: seq<Item>,          // every message taken from an input
    mark: nat,                    // |consumed| when the current batch began
    sentTo: seq<seq<Msg>>,        // per output: everything sent to it
    cached: seq<Option<Msg>>)     // everything handed to the metric cache

  datatype Action =
    | SetStart(now: Time) | Start | Tick(ts: Time)
    | Receive(src: Source, p: Msg) | Send | Finish | AddToCache
    | Check(len: nat) | Next(p: Msg)
    | Accept | Close

  function Initial(c: Config): State {
    State(NotStarted, 0, [], [], 0, seq(c.nOut, _ => []), [])
  }

  /** The router's `timestamp` field. */
  function Timestamp(s: State): Time {
    if s.got == [] then s.start else s.got[|s.got| - 1]
  }

  function Stamp(c: Config, s: State, src: Source, p: Msg): Msg {
    if c.intervalStamp && !src.Agg? then p.(time := Timestamp(s)) else p
  }

  function Take(c: Config, s: State, src: Source, p: Msg, k: nat): State {
    var q := Stamp(c, s, src, p);
    s.(pc := Forward(src, c.process(q), 0, k), consumed := s.consumed + [Item(src, p, |s.got|, q)])
  }

  predicate Enabled(c: Config, s: State, a: Action) {
    match a
    case SetStart(_) => s.pc.NotStarted? && s.consumed == [] && s.got == []
    case Start => s.pc.NotStarted?
    case Tick(_) => s.pc.Select?
    case Receive(_, _) => s.pc.Select?
    case Send => s.pc.Forward? && s.pc.m.Forwarded() && s.pc.i < c.nOut == |s.sentTo|
    case Finish => s.pc.Forward? && (s.pc.m.Forwarded() ==> s.pc.i == c.nOut)
    case AddToCache => s.pc.CacheAdd?
    case Check(_) => s.pc.Batch?
    case Next(_) => s.pc.BatchRecv?
    case Accept => s.pc.Select?
    case Close => s.pc.Closing?
  }

  function Apply(c: Config, s: State, a: Action): State
    requires Enabled(c, s, a)
  {
    match a
    case SetStart(now) => s.(start := now)
    case Start => s.(pc := Select)
    case Tick(ts) => s.(got := s.got + [ts])
    case Receive(src, p) => Take(c, s, src, p, 0).(mark := |s.consumed|)
    case Send =>
      s.(pc := s.pc.(i := s.pc.i + 1), sentTo := s.sentTo[s.pc.i := s.sentTo[s.pc.i] + [s.pc.m.msg.value]])
    case Finish =>
      s.(pc := if s.pc.src.Coll? && c.cacheOn then CacheAdd(s.pc.m, s.pc.k) else Batch(s.pc.src, s.pc.k))
    case AddToCache => s.(pc := Batch(Coll, s.pc.k), cached := s.cached + [s.pc.m.msg])
    case Check(len) =>
      s.(pc := if len > 0 && s.pc.k < c.Limit() - 1 then BatchRecv(s.pc.src, s.pc.k) else Select)
    case Next(p) => Take(c, s, s.pc.src, p, s.pc.k + 1)
    case Accept => s.(pc := Closing)
    case Close => s.(pc := Ended)
  }

  /** What every output must receive for the messages taken so far, in the order they were taken. */
  function Emitted(c: Config, items: seq<Item>): seq<Msg> {
    if items == [] then []
    else
      var n := |items| - 1;
      var m := c.process(items[n].stamped);
      Emitted(c, items[..n]) + (if !m.failed && m.msg.Some? then [m.msg.value] else [])
  }

  /** What the cache must receive: the processed collector messages, dropped ones included. */
  function ForCache(c: Config, items: seq<Item>): seq<Option<Msg>> {
    if items == [] then []
    else
      var n := |items| - 1;
      ForCache(c, items[..n]) + (if items[n].src.Coll? && c.cacheOn then [c.process(items[n].stamped).msg] else [])
  }

  /** The messages taken from one input. */
  function From(src: Source, items: seq<Item>): seq<Item> {
    if items == [] then []
    else
      var n := |items| - 1;
      From(src, items[..n]) + (if items[n].src == src then [items[n]] else [])
  }

  predicate Busy(pc: Pc) {
    pc.Forward? || pc.CacheAdd? || pc.Batch? || pc.BatchRecv?
  }

  function BatchCount(pc: Pc): nat
    requires Busy(pc)
  {
    pc.k
  }

  function BatchSource(pc: Pc): Source
    requires Busy(pc)
  {
    if pc.CacheAdd? then Coll else pc.src
  }

  /** All but the message still being sent to the outputs. */
  function Settled(s: State): seq<Item> {
    if s.pc.Forward? && s.consumed != [] then s.consumed[..|s.consumed| - 1] else s.consumed
  }

  /** All but the message not yet handed to the cache. */
  function CacheSettled(s: State): seq<Item> {
    if (s.pc.Forward? || s.pc.CacheAdd?) && s.consumed != [] then s.consumed[..|s.consumed| - 1] else s.consumed
  }

  ghost predicate OutputInv(c: Config, s: State) {
    && |s.sentTo| == c.nOut
    && (s.pc.Forward? || s.pc.CacheAdd? ==>
          s.consumed != [] && s.pc.m == c.process(s.consumed[|s.consumed| - 1].stamped))
    && (s.pc.CacheAdd? ==> s.consumed[|s.consumed| - 1].src.Coll? && c.cacheOn)
    && (s.pc.Forward? ==> s.pc.i <= c.nOut && s.consumed[|s.consumed| - 1].src == s.pc.src)
    && (forall j :: 0 <= j < c.nOut ==>
          s.sentTo[j] == Emitted(c, Settled(s)) +
                         (if s.pc.Forward? && s.pc.m.Forwarded() && j < s.pc.i then [s.pc.m.msg.value] else []))
    && s.cached == ForCache(c, CacheSettled(s))
  }

  ghost predicate BatchInv(c: Config, s: State) {
    && s.mark <= |s.consumed|
    && (Busy(s.pc) ==>
          && |s.consumed| == s.mark + BatchCount(s.pc) + 1
          && BatchCount(s.pc) < c.Limit()
          && (s.pc.BatchRecv? ==> s.pc.k + 1 < c.Limit())
          && (forall i :: s.mark <= i < |s.consumed| ==> s.consumed[i].src == BatchSource(s.pc)))
  }

  /** The time stamp a message taken after nTicks ticks carries. */
  function StampAt(s: State, nTicks: nat): Time
    requires nTicks <= |s.got|
  {
    if nTicks == 0 then s.start else s.got[nTicks - 1]
  }

  ghost predicate StampInv(c: Config, s: State) {
    && (s.pc.NotStarted? ==> s.consumed == [] && s.got == [])
    && (forall i :: 0 <= i < |s.consumed| ==>
          && s.consumed[i].nTicks <= |s.got|
          && s.consumed[i].stamped ==
             if c.intervalStamp && !s.consumed[i].src.Agg?
             then s.consumed[i].raw.(time := StampAt(s, s.consumed[i].nTicks))
             else s.consumed[i].raw)
    && (forall i, j :: 0 <= i < j < |s.consumed| ==> s.consumed[i].nTicks <= s.consumed[j].nTicks)
  }

  ghost predicate Inv(c: Config, s: State) {
    OutputInv(c, s) && BatchInv(c, s) && StampInv(c, s)
  }

  lemma InitialInv(c: Config)
    ensures Inv(c, Initial(c))
  {
  }

  lemma TakeInv(c: Config, s: State, src: Source, p: Msg, k: nat)
    requires OutputInv(c, s) && StampInv(c, s) && (s.pc.Select? || s.pc.BatchRecv?)
    ensures OutputInv(c, Take(c, s, src, p, k)) && StampInv(c, Take(c, s, src, p, k))
  {
    var s' := Take(c, s, src, p, k);
    assert s'.consumed[..|s.consumed|] == s.consumed;
  }

  lemma NextBatchInv(c: Config, s: State, p: Msg)
    requires BatchInv(c, s) && s.pc.BatchRecv?
    ensures BatchInv(c, Take(c, s, s.pc.src, p, s.pc.k + 1))
  {
    var s' := Take(c, s, s.pc.src, p, s.pc.k + 1);
    assert forall i :: 0 <= i < |s.consumed| ==> s'.consumed[i] == s.consumed[i];
    assert s'.consumed[|s.consumed|].src == s.pc.src;
  }

  lemma FinishInv(c: Config, s: State)
    requires Inv(c, s) && Enabled(c, s, Finish)
    ensures Inv(c, Apply(c, s, Finish))
  {
    FinishOutputs(c, s);
    hide OutputInv, Emitted, ForCache;
  }

  lemma FinishOutputs(c: Config, s: State)
    requires OutputInv(c, s) && Enabled(c, s, Finish)
    ensures OutputInv(c, Apply(c, s, Finish))
  {
  }

  lemma SendInv(c: Config, s: State)
    requires Inv(c, s) && Enabled(c, s, Send)
    ensures Inv(c, Apply(c, s, Send))
  {
    SendOutputs(c, s);
    hide OutputInv, Emitted, ForCache;
  }

  lemma SendOutputs(c: Config, s: State)
    requires OutputInv(c, s) && Enabled(c, s, Send)
    ensures OutputInv(c, Apply(c, s, Send))
  {
    hide Emitted, ForCache;
  }

  lemma AddToCacheInv(c: Config, s: State)
    requires Inv(c, s) && Enabled(c, s, AddToCache)
    ensures Inv(c, Apply(c, s, AddToCache))
  {
  }

  lemma ReceiveInv(c: Config, s: State, src: Source, p: Msg)
    requires Inv(c, s) && Enabled(c, s, Receive(src, p))
    ensures Inv(c, Apply(c, s, Receive(src, p)))
  {
    TakeInv(c, s, src, p, 0);
    MarkInv(c, Take(c, s, src, p, 0), |s.consumed|);
    FirstOfBatch(c, s, src, p);
  }

  lemma MarkInv(c: Config, s: State, mark: nat)
    requires OutputInv(c, s) && StampInv(c, s)
    ensures OutputInv(c, s.(mark := mark)) && StampInv(c, s.(mark := mark))
  {
    assert Settled(s.(mark := mark)) == Settled(s) && CacheSettled(s.(mark := mark)) == CacheSettled(s);
  }

  lemma FirstOfBatch(c: Config, s: State, src: Source, p: Msg)
    ensures BatchInv(c, Take(c, s, src, p, 0).(mark := |s.consumed|))
  {
  }

  lemma NextInv(c: Config, s: State, p: Msg)
    requires Inv(c, s) && Enabled(c, s, Next(p))
    ensures Inv(c, Apply(c, s, Next(p)))
  {
    TakeInv(c, s, s.pc.src, p, s.pc.k + 1);
    NextBatchInv(c, s, p);
    assert Apply(c, s, Next(p)) == Take(c, s, s.pc.src, p, s.pc.k + 1);
  }

  /** The start, the ticks, the loop condition of a batch and the end take no message and send none. */
  lemma OtherInv(c: Config, s: State, a: Action)
    requires Inv(c, s) && Enabled(c, s, a)
    requires a.SetStart? || a.Start? || a.Tick? || a.Check? || a.Accept? || a.Close?
    ensures Inv(c, Apply(c, s, a))
  {
    hide Emitted, ForCache;
  }

  lemma StepInv(c: Config, s: State, a: Action)
    requires Inv(c, s) && Enabled(c, s, a)
    ensures Inv(c, Apply(c, s, a))
  {
    hide Inv, Apply;
    match a
    case Receive(src, p) => ReceiveInv(c, s, src, p);
    case Send => SendInv(c, s);
    case Finish => FinishInv(c, s);
    case AddToCache => AddToCacheInv(c, s);
    case Next(p) => NextInv(c, s, p);
    case _ => OtherInv(c, s, a);
  }
}
