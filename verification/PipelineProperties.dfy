/** What holds in every reachable state of the program, in every interleaving. */
module PipelineProperties {
  import opened Common
  import opened Pipeline
  import opened PipelineInvariant
  import Ticker
  import Manager
  import ManagerRounds
  import Router

  lemma {:induction false} RunAppend(c: Config, s: State, schedule: seq<Label>, l: Label)
    requires RunFrom(c, s, schedule).Some? && Enabled(c, RunFrom(c, s, schedule).value, l)
    ensures RunFrom(c, s, schedule + [l]) == Some(Apply(c, RunFrom(c, s, schedule).value, l))
    decreases |schedule|
  {
    if schedule == [] {
      assert [l][1..] == [];
    } else {
      assert (schedule + [l])[1..] == schedule[1..] + [l];
      RunAppend(c, Apply(c, s, schedule[0]), schedule[1..], l);
    }
  }

  lemma InitialReachable(c: Config, recvLeft: Option<nat>)
    ensures Reachable(c, Initial(c, recvLeft))
  {
    hide Initial;
    assert RunFrom(c, Initial(c, recvLeft), []) == Some(Initial(c, recvLeft));
  }

  lemma ReachableStep(c: Config, s: State, l: Label)
    requires Reachable(c, s) && Enabled(c, s, l)
    ensures Reachable(c, Apply(c, s, l))
  {
    var recvLeft: Option<nat>, schedule: seq<Label> :| RunFrom(c, Initial(c, recvLeft), schedule) == Some(s);
    RunAppend(c, Initial(c, recvLeft), schedule, l);
  }

  // ----- Reads and Closes of the collectors -----

  /** The wait group counts the Reads in flight (and the one about to be started); no collector is read twice at
      the same time; a serial Read is alone; nothing is closed while a Read runs. */
  lemma ReadsExclusive(c: Config, s: State)
    requires Reachable(c, s)
    ensures var m := s.manager;
            && m.wg == Manager.InFlight(m.tasks) + (if m.pc.ParGo? then 1 else 0)
            && (forall j, k :: 0 <= j < k < |m.tasks| && m.tasks[j].Active() && m.tasks[k].Active() ==>
                  m.tasks[j].coll != m.tasks[k].coll)
            && (forall k :: 0 <= k < |m.tasks| && m.tasks[k].Active() ==>
                  && !m.pc.SerRead? && m.tasks[k].coll < c.mgr.nPar
                  && (forall j :: 0 <= j < c.mgr.nPar ==> |m.closed| == c.mgr.nPar && m.closed[j] == 0))
  {
    hide Reachable, Stages, Conserved, InnerReceive, TicksLinked, Causal, Ticker.Inv, Router.Inv;
    ReachableInv(c, s);
    Manager.InFlightZero(s.manager.tasks);
  }

  function Each(n: nat, times: nat): seq<nat> {
    seq(n, _ => times)
  }

  /** When Close of the manager has returned, every parallel collector has been closed exactly once and no serial
      one at all, every Read has ended, and nothing the program does afterwards starts a Read, sends a message of
      a collector or closes one. */
  lemma NothingAfterClose(c: Config, s: State, schedule: seq<Label>, s': State)
    requires Reachable(c, s) && s.handler.Stage() > 4
    requires RunFrom(c, s, schedule) == Some(s')
    ensures s'.manager == s.manager
    ensures s.manager.closed == Each(c.mgr.nPar, 1) && s.manager.serialClosed == Each(c.mgr.nSer, 0)
    ensures forall k :: 0 <= k < |s.manager.tasks| ==> s.manager.tasks[k].phase.Finished?
  {
    hide Enabled, Apply, Reachable, Components, Stages, Conserved, InnerReceive, TicksLinked, Causal;
    ReachableInv(c, s);
    ManagerIsOver(c, s);
    ManagerFrozen(c, s, schedule, s');
    AllClosedOnce(c.mgr, s.manager);
  }

  lemma AllClosedOnce(c: Manager.Config, m: Manager.State)
    requires Manager.Inv(c, m) && m.pc.Ended?
    ensures m.closed == Each(c.nPar, 1) && m.serialClosed == Each(c.nSer, 0)
    ensures forall k :: 0 <= k < |m.tasks| ==> m.tasks[k].phase.Finished?
  {
    Manager.InFlightZero(m.tasks);
  }

  /** Nothing the manager or one of its readers can do is left. */
  predicate ManagerOver(s: State) {
    s.manager.pc.Ended? && s.handler.Stage() > 4 && s.main >= 7
    && forall k :: 0 <= k < |s.manager.tasks| ==> !s.manager.tasks[k].Active()
  }

  lemma ManagerIsOver(c: Config, s: State)
    requires Components(c, s) && Stages(c, s) && s.handler.Stage() > 4
    ensures Manager.Inv(c.mgr, s.manager) && ManagerOver(s)
  {
    hide Ticker.Inv, Router.Inv, TickerStage, RouterStage, CacheStage;
    Manager.InFlightZero(s.manager.tasks);
  }

  lemma {:induction false} ManagerFrozen(c: Config, s: State, schedule: seq<Label>, s': State)
    requires ManagerOver(s) && RunFrom(c, s, schedule) == Some(s')
    ensures s'.manager == s.manager
    decreases |schedule|
  {
    hide Enabled, Apply, ManagerOver;
    if schedule != [] {
      ManagerRests(c, s, schedule[0]);
      ManagerFrozen(c, Apply(c, s, schedule[0]), schedule[1..], s');
    }
  }

  lemma ManagerRests(c: Config, s: State, l: Label)
    requires ManagerOver(s) && Enabled(c, s, l)
    ensures Apply(c, s, l).manager == s.manager && ManagerOver(Apply(c, s, l))
  {
    hide Ticker.Enabled, Ticker.Apply, Manager.Apply, Router.Enabled, Router.Apply, TickerAct, RouterAct;
    hide ApplyColl, ApplyRecv, ApplyOuts, ApplyCache;
  }

  // ----- what a tick makes the manager do -----

  /** When the manager waits for the next tick, each parallel collector has been read exactly once for every tick so
      far, and that Read is over. */
  lemma EveryCollectorRead(c: Config, s: State, i: nat, r: nat) returns (k: nat)
    requires Reachable(c, s) && s.manager.pc.Select? && i < c.mgr.nPar && r < |s.manager.got|
    ensures var tasks := s.manager.tasks;
            && k < |tasks| && tasks[k].coll == i && tasks[k].round == r && tasks[k].phase.Finished?
            && forall j :: 0 <= j < |tasks| && tasks[j].coll == i && tasks[j].round == r ==> j == k
  {
    hide Reachable, Stages, Conserved, InnerReceive, TicksLinked, Causal, Ticker.Inv, Manager.Inv, Router.Inv;
    hide ManagerRounds.Inv;
    ReachableInv(c, s);
    k := ManagerRounds.ReadOnce(c.mgr, s.manager, i, r);
  }

  /** Then each serial collector has been read once for every tick so far: in order, each Read beginning after the one
      before it has returned, the first one after all parallel Reads for that tick have returned. */
  lemma SerialAfterParallel(c: Config, s: State, r: nat)
    requires Reachable(c, s) && s.manager.pc.Select? && r < |s.manager.got|
    ensures var m := s.manager;
            && ManagerRounds.TurnsOf(m.log, r) == ManagerRounds.InTurn(c.mgr.nSer)
            && (forall k :: 0 <= k < |m.tasks| ==> Manager.ParReturned(m.tasks[k].coll, m.tasks[k].round) in m.log)
            && (forall a, b :: 0 <= a < b < |m.log| && m.log[a].round == m.log[b].round && !m.log[a].ParReturned? ==>
                  !m.log[b].ParReturned?)
  {
    hide Reachable, Stages, Conserved, InnerReceive, TicksLinked, Causal, Ticker.Inv, Router.Inv;
    hide ManagerRounds.TurnsOf, ManagerRounds.InTurn, ManagerRounds.SentBy;
    ReachableInv(c, s);
    Manager.InFlightZero(s.manager.tasks);
  }

  /** Whatever a Read has to send, it has sent in order and completely by the time it has returned. */
  lemma EveryMessageSent(c: Config, s: State)
    requires Reachable(c, s)
    ensures var m := s.manager;
            && (forall k :: 0 <= k < |m.tasks| && (m.tasks[k].phase.Returned? || m.tasks[k].phase.Finished?) ==>
                  ManagerRounds.SentBy(m.sent, Manager.Parallel(k), m.tasks[k].round) == m.tasks[k].phase.msgs)
            && (forall a :: 0 <= a < |m.log| && m.log[a].SerReturned? ==>
                  ManagerRounds.SentBy(m.sent, Manager.Serial(m.log[a].coll), m.log[a].round) == m.log[a].msgs)
  {
    hide Reachable, Stages, Conserved, InnerReceive, TicksLinked, Causal, Ticker.Inv, Router.Inv;
    ReachableInv(c, s);
    hide ManagerRounds.TurnsOf, ManagerRounds.InTurn, ManagerRounds.SentBy;
  }

  // ----- conservation and order through the router -----

  /** End to end: the collectors' messages are consumed in the order they were sent, without loss or duplication,
      up to what is still in the channel; each sink has received, in that order, a prefix of the processed
      messages that were not dropped; the cache has been given every processed collector message. */
  lemma EndToEnd(c: Config, s: State, j: nat)
    requires Reachable(c, s) && j < c.router.nOut
    ensures RawOf(Router.From(Router.Coll, s.router.consumed)) + s.coll == MsgsOf(s.manager.sent)
    ensures RawOf(Router.From(Router.Recv, s.router.consumed)) + s.recv == s.received
    ensures j < |s.sunk| == |s.outs|
    ensures s.sunk[j] + s.outs[j] <= Router.Emitted(c.router, s.router.consumed)
    ensures !s.router.pc.Forward? ==> s.sunk[j] + s.outs[j] == Router.Emitted(c.router, s.router.consumed)
    ensures !s.router.pc.Forward? && !s.router.pc.CacheAdd? ==>
              s.router.cached == Router.ForCache(c.router, s.router.consumed)
  {
    hide Reachable, Stages, InnerReceive, TicksLinked, Causal, Ticker.Inv, Manager.Inv;
    hide Router.BatchInv, Router.StampInv, Router.ForCache, Router.From, RawOf, MsgsOf;
    ReachableInv(c, s);
  }

  lemma {:induction false} CacheGetsColl(c: Router.Config, items: seq<Router.Item>)
    ensures !c.cacheOn ==> Router.ForCache(c, items) == []
    ensures c.cacheOn ==> Router.ForCache(c, items) == AllProcessed(c, Router.From(Router.Coll, items))
  {
    if items != [] { CacheGetsColl(c, items[..|items| - 1]); }
  }

  /** What the processor makes of each message; nothing for one that is dropped. */
  function AllProcessed(c: Router.Config, items: seq<Router.Item>): seq<Option<Msg>> {
    seq(|items|, i requires 0 <= i < |items| => c.process(items[i].stamped).msg)
  }

  /** The cache is handed the processed messages of the collectors, each one and in order, and nothing of the receivers
      or of its own aggregates; the last one may still be on its way. */
  lemma CacheFed(c: Config, s: State)
    requires Reachable(c, s)
    ensures var all := AllProcessed(c.router, Router.From(Router.Coll, s.router.consumed));
            && (c.router.cacheOn ==> s.router.cached <= all && |all| - 1 <= |s.router.cached|)
            && (c.router.cacheOn && !s.router.pc.Forward? && !s.router.pc.CacheAdd? ==> s.router.cached == all)
            && (!c.router.cacheOn ==> s.router.cached == [])
  {
    hide Reachable, Stages, Conserved, InnerReceive, TicksLinked, Causal, Ticker.Inv, Manager.Inv;
    hide Router.BatchInv, Router.StampInv, Router.Emitted;
    ReachableInv(c, s);
    CacheGetsColl(c.router, s.router.consumed);
    CacheGetsColl(c.router, Router.CacheSettled(s.router));
  }

  /** Two outputs differ by at most the one message being sent, and the earlier output is the one ahead. */
  lemma OutputsInStep(c: Config, s: State, i: nat, j: nat)
    requires Reachable(c, s) && i < j < c.router.nOut
    ensures |s.router.sentTo| == c.router.nOut
    ensures || s.router.sentTo[i] == s.router.sentTo[j]
            || (s.router.pc.Forward? && s.router.pc.m.Forwarded()
                && s.router.sentTo[i] == s.router.sentTo[j] + [s.router.pc.m.msg.value])
  {
    hide Reachable, Stages, Conserved, InnerReceive, TicksLinked, Causal, Ticker.Inv, Manager.Inv;
    hide Router.BatchInv, Router.StampInv, Router.Emitted, Router.ForCache;
    ReachableInv(c, s);
  }

  /** A visit to an input takes between one and the configured number of messages of that input, and ends early
      only when the input was seen empty. */
  lemma BatchBounds(c: Config, s: State)
    requires Reachable(c, s) && s.router.pc.Batch? && Enabled(c, s, RouterStep)
    requires Apply(c, s, RouterStep).router.pc.Select?
    ensures var r := s.router;
            && r.mark <= |r.consumed|
            && var n := |r.consumed| - r.mark;
            && 1 <= n && (n == 1 || n <= c.router.maxForward)
            && (n < c.router.maxForward ==> Input(s, r.pc.src) == [])
            && (forall i :: r.mark <= i < |r.consumed| ==> r.consumed[i].src == r.pc.src)
  {
    hide Reachable, Stages, Conserved, InnerReceive, TicksLinked, Causal, Ticker.Inv, Manager.Inv;
    hide Router.OutputInv, Router.StampInv, ApplyColl, ApplyRecv, ApplyOuts, ApplyCache, TickerAct, ManagerAct;
    ReachableInv(c, s);
  }

  // ----- what is left behind at the shutdown -----

  /** Nothing is sent to the router any more, and it takes nothing. */
  predicate RouterOver(s: State) {
    ManagerOver(s) && 7 <= s.handler.Stage() && RouterStopping(s.router.pc)
  }

  lemma RouterRests(c: Config, s: State, l: Label)
    requires RouterOver(s) && Enabled(c, s, l)
    ensures var s' := Apply(c, s, l);
      && 7 <= s'.handler.Stage() && RouterStopping(s'.router.pc) && s'.received == s.received
      && s'.coll == s.coll && s'.recv == s.recv && s'.router.consumed == s.router.consumed
  {
    hide Ticker.Enabled, Ticker.Apply, Manager.Apply, TickerAct, ApplyOuts, ApplyCache;
  }

  lemma RouterStaysOver(c: Config, s: State, l: Label)
    requires RouterOver(s) && Enabled(c, s, l)
    ensures RouterOver(Apply(c, s, l)) && Apply(c, s, l).manager == s.manager
  {
    hide Enabled, Apply, ManagerOver;
    ManagerRests(c, s, l);
    RouterRests(c, s, l);
  }

  lemma {:induction false} RouterFrozen(c: Config, s: State, schedule: seq<Label>, s': State)
    requires RouterOver(s) && RunFrom(c, s, schedule) == Some(s')
    ensures s'.manager == s.manager && s'.received == s.received
    ensures s'.coll == s.coll && s'.recv == s.recv && s'.router.consumed == s.router.consumed
    decreases |schedule|
  {
    hide Enabled, Apply, RouterOver;
    if schedule != [] {
      RouterRests(c, s, schedule[0]);
      RouterStaysOver(c, s, schedule[0]);
      RouterFrozen(c, Apply(c, s, schedule[0]), schedule[1..], s');
    }
  }

  /** Once the router has accepted the stop request, nothing is sent to it and it consumes nothing any more. */
  lemma InputsFrozen(c: Config, s: State, schedule: seq<Label>, s': State)
    requires Inv(c, s) && 7 <= s.handler.Stage()
    requires RunFrom(c, s, schedule) == Some(s')
    ensures s'.manager == s.manager && s'.received == s.received
    ensures s'.coll == s.coll && s'.recv == s.recv && s'.router.consumed == s.router.consumed
  {
    hide Components, ManagerOver, TickerStage, ManagerStage, CacheStage, Conserved, InnerReceive, TicksLinked, Causal;
    ManagerIsOver(c, s);
    RouterFrozen(c, s, schedule, s');
  }

  predicate AllConsumed(s: State) {
    && MsgsOf(s.manager.sent) == RawOf(Router.From(Router.Coll, s.router.consumed))
    && s.received == RawOf(Router.From(Router.Recv, s.router.consumed))
  }

  lemma AllConsumedNow(s: State)
    requires CollConserved(s) && RecvConserved(s)
    ensures AllConsumed(s) <==> s.coll == [] && s.recv == []
  {
    var coll := RawOf(Router.From(Router.Coll, s.router.consumed));
    var recv := RawOf(Router.From(Router.Recv, s.router.consumed));
    assert |coll + s.coll| == |coll| + |s.coll| && |recv + s.recv| == |recv| + |s.recv|;
  }

  /** When the shutdown has finished, every message a collector or a receiver sent has been consumed exactly if both
      inputs were empty at the moment the router accepted the stop request; otherwise what they held is lost. */
  lemma NothingLostExactly(c: Config, s: State, schedule: seq<Label>, s': State)
    requires Reachable(c, s) && Enabled(c, s, StopRouter)
    requires RunFrom(c, Apply(c, s, StopRouter), schedule) == Some(s') && s'.handler.Finished?
    ensures AllConsumed(s') <==> s.coll == [] && s.recv == []
    ensures s'.coll == s.coll && s'.recv == s.recv
  {
    hide Enabled, Apply, Reachable, AllConsumed, RunFrom;
    var s1 := Apply(c, s, StopRouter);
    ReachableStep(c, s, StopRouter);
    ReachableInv(c, s1);
    StopKeepsInputs(c, s);
    InputsFrozen(c, s1, schedule, s');
    RunInv(c, s1, schedule, s');
    hide Components, Stages, OutsConserved, InnerReceive, TicksLinked, Causal;
    AllConsumedNow(s');
  }

  predicate InputsFit(c: Config, s: State) {
    |s.coll| <= c.collCap && |s.recv| <= c.recvCap
  }

  lemma InputsFitStep(c: Config, s: State, l: Label)
    requires InputsFit(c, s) && Enabled(c, s, l)
    ensures InputsFit(c, Apply(c, s, l))
  {
    hide Ticker.Enabled, Ticker.Apply, Manager.Enabled, Manager.Apply, Router.Enabled, Router.Apply;
    hide ApplyOuts, ApplyCache, TickerAct, ManagerAct, RouterAct;
  }

  lemma {:induction false} InputsFitFrom(c: Config, s: State, schedule: seq<Label>, s': State)
    requires InputsFit(c, s) && RunFrom(c, s, schedule) == Some(s')
    ensures InputsFit(c, s')
    decreases |schedule|
  {
    hide Enabled, Apply, InputsFit;
    if schedule != [] {
      InputsFitStep(c, s, schedule[0]);
      InputsFitFrom(c, Apply(c, s, schedule[0]), schedule[1..], s');
    }
  }

  /** At any time, and so after any shutdown, no more messages are sent but not consumed than the channels hold. */
  lemma LossBounded(c: Config, s: State)
    requires Reachable(c, s)
    ensures |s.manager.sent| <= |Router.From(Router.Coll, s.router.consumed)| + c.collCap
    ensures |s.received| <= |Router.From(Router.Recv, s.router.consumed)| + c.recvCap
  {
    hide RunFrom, Components, Stages, OutsConserved, InnerReceive, TicksLinked, Causal, Router.From;
    ReachableInv(c, s);
    var recvLeft: Option<nat>, schedule: seq<Label> :| RunFrom(c, Initial(c, recvLeft), schedule) == Some(s);
    InputsFitFrom(c, Initial(c, recvLeft), schedule, s);
    assert |MsgsOf(s.manager.sent)| == |RawOf(Router.From(Router.Coll, s.router.consumed))| + |s.coll|;
    assert |s.received| == |RawOf(Router.From(Router.Recv, s.router.consumed))| + |s.recv|;
  }

  lemma StopKeepsInputs(c: Config, s: State)
    requires Enabled(c, s, StopRouter)
    ensures Apply(c, s, StopRouter).handler.Stage() == 7
    ensures Apply(c, s, StopRouter).coll == s.coll && Apply(c, s, StopRouter).recv == s.recv
  {
    hide Ticker.Apply, Manager.Apply, Router.Apply, Ticker.Enabled, Manager.Enabled, ApplyOuts, ApplyCache;
  }

  // ----- ticks and time stamps -----

  /** Ticks go to every registered channel without gaps, earlier channels first. */
  lemma TicksFanOut(c: Config, s: State, i: nat, j: nat)
    requires Reachable(c, s) && i < j < |s.ticker.starts|
    ensures |s.ticker.delivered| == |s.ticker.starts|
    ensures Ticker.Contiguous(s.ticker)
    ensures s.ticker.delivered[j] != [] ==>
              Ticker.Progress(s.ticker, j) <= Ticker.Progress(s.ticker, i) <= Ticker.Progress(s.ticker, j) + 1
  {
    ReachableInv(c, s);
  }

  lemma RouterTicksSorted(c: Config, s: State)
    requires Inv(c, s)
    ensures Ticker.Sorted(s.router.got)
  {
    if s.main > 1 && c.router.intervalStamp {
      assert Ticker.Contiguous(s.ticker);
    }
  }

  /** With interval time stamps, a collector's message is never stamped earlier than the tick that triggered the
      Read that sent it. */
  lemma StampedAfterItsTick(c: Config, s: State, i: nat)
    requires Reachable(c, s) && c.router.intervalStamp
    requires i < |Router.From(Router.Coll, s.router.consumed)|
    ensures i < |s.manager.sent| && s.manager.sent[i].round < |s.manager.got|
    ensures var item := Router.From(Router.Coll, s.router.consumed)[i];
            item.raw == s.manager.sent[i].msg
            && s.manager.got[s.manager.sent[i].round] <= item.stamped.time
  {
    hide Reachable, Stages, RecvConserved, OutsConserved, InnerReceive, Router.From;
    hide Ticker.Contiguous, Ticker.FanOut, Ticker.PcInv, Router.OutputInv, Router.BatchInv;
    ReachableInv(c, s);
    var items := Router.From(Router.Coll, s.router.consumed);
    assert MsgsOf(s.manager.sent)[i] == (RawOf(items) + s.coll)[i];
    assert CausalAt(c, s, i);
    CollStamp(c.router, s.router, i);
    TickOrder(c, s, s.manager.sent[i].round, items[i].nTicks);
  }

  /** A collector message carries the newest tick the router had received, or its start if there was none. */
  lemma CollStamp(c: Router.Config, r: Router.State, i: nat)
    requires Router.StampInv(c, r) && c.intervalStamp && i < |Router.From(Router.Coll, r.consumed)|
    ensures var item := Router.From(Router.Coll, r.consumed)[i];
            item.nTicks <= |r.got| && item.stamped.time == Router.StampAt(r, item.nTicks)
  {
    FromIsConsumed(Router.Coll, r.consumed, i);
  }

  lemma TickAt(t: Ticker.State, channel: nat, i: nat)
    requires |t.starts| == |t.delivered| && Ticker.Contiguous(t)
    requires channel < |t.delivered| && i < |t.delivered[channel]|
    ensures t.starts[channel] + i < |t.ticks| && t.delivered[channel][i] == t.ticks[t.starts[channel] + i]
  {
    assert Ticker.Progress(t, channel) <= |t.ticks|;
  }

  lemma TickOrder(c: Config, s: State, round: nat, nTicks: nat)
    requires Ticker.Inv(s.ticker) && TicksLinked(c, s) && c.router.intervalStamp && s.main > 5
    requires round < |s.manager.got| && nTicks <= |s.router.got|
    requires s.ticker.starts[c.ManagerChan()] + round < s.ticker.starts[0] + nTicks
    ensures 0 < nTicks && s.manager.got[round] <= s.router.got[nTicks - 1]
  {
    hide Ticker.Contiguous, Ticker.FanOut, Ticker.PcInv;
    var m := c.ManagerChan();
    assert s.ticker.starts[0] <= s.ticker.starts[m];
    TickAt(s.ticker, 0, nTicks - 1);
    TickAt(s.ticker, m, round);
  }

  lemma {:induction false} FromIsConsumed(src: Router.Source, items: seq<Router.Item>, i: nat)
    requires i < |Router.From(src, items)|
    ensures exists k :: 0 <= k < |items| && items[k] == Router.From(src, items)[i]
    ensures Router.From(src, items)[i].src == src
  {
    var n := |items| - 1;
    if i < |Router.From(src, items[..n])| {
      FromIsConsumed(src, items[..n], i);
      var k :| 0 <= k < n && items[..n][k] == Router.From(src, items[..n])[i];
      assert items[k] == Router.From(src, items)[i];
    } else {
      assert items[n] == Router.From(src, items)[i];
    }
  }

  /** The time stamps the router gives out decrease in exactly one case: the earlier message was stamped before
      the router had received any tick, and the first ticks it received are older than its start. */
  lemma StampsDecreaseExactly(c: Config, s: State, i: nat, j: nat)
    requires Reachable(c, s) && c.router.intervalStamp
    requires i < j < |s.router.consumed| && !s.router.consumed[i].src.Agg? && !s.router.consumed[j].src.Agg?
    ensures var a, b := s.router.consumed[i], s.router.consumed[j];
            b.nTicks <= |s.router.got| &&
            (b.stamped.time < a.stamped.time <==>
               a.nTicks == 0 && 0 < b.nTicks && s.router.got[b.nTicks - 1] < s.router.start)
  {
    ReachableInv(c, s);
    RouterTicksSorted(c, s);
    StampOrder(c.router, s.router, i, j);
  }

  lemma StampOrder(c: Router.Config, r: Router.State, i: nat, j: nat)
    requires Router.StampInv(c, r) && c.intervalStamp && Ticker.Sorted(r.got)
    requires i < j < |r.consumed| && !r.consumed[i].src.Agg? && !r.consumed[j].src.Agg?
    ensures var a, b := r.consumed[i], r.consumed[j];
            b.nTicks <= |r.got| &&
            (b.stamped.time < a.stamped.time <==> a.nTicks == 0 && 0 < b.nTicks && r.got[b.nTicks - 1] < r.start)
  {
  }

  /** So none decreases if the first tick the router received, if any, is not older than its start. */
  lemma StampsNeverDecrease(c: Config, s: State, i: nat, j: nat)
    requires Reachable(c, s) && c.router.intervalStamp
    requires s.router.got == [] || s.router.start <= s.router.got[0]
    requires i < j < |s.router.consumed| && !s.router.consumed[i].src.Agg? && !s.router.consumed[j].src.Agg?
    ensures s.router.consumed[i].stamped.time <= s.router.consumed[j].stamped.time
  {
    hide Reachable, Components, Stages, Conserved, InnerReceive, TicksLinked, Causal;
    ReachableInv(c, s);
    RouterTicksSorted(c, s);
    StampsDecreaseExactly(c, s, i, j);
    var n := s.router.consumed[j].nTicks;
    assert 0 < n ==> s.router.got[0] <= s.router.got[n - 1];
  }

  /** On collector messages they never decrease: a collector only runs after the router has had a tick. */
  lemma CollectorStampsOrdered(c: Config, s: State, i: nat, j: nat)
    requires Reachable(c, s) && c.router.intervalStamp
    requires i < j < |Router.From(Router.Coll, s.router.consumed)|
    ensures var items := Router.From(Router.Coll, s.router.consumed);
            items[i].stamped.time <= items[j].stamped.time
  {
    ReachableInv(c, s);
    RouterTicksSorted(c, s);
    CollHasTick(c, s, i);
    CollStampsGrow(c.router, s.router, i, j);
  }

  lemma CollHasTick(c: Config, s: State, i: nat)
    requires Inv(c, s) && c.router.intervalStamp && i < |Router.From(Router.Coll, s.router.consumed)|
    ensures 0 < Router.From(Router.Coll, s.router.consumed)[i].nTicks
  {
    var items := Router.From(Router.Coll, s.router.consumed);
    assert |MsgsOf(s.manager.sent)| == |RawOf(items) + s.coll|;
    assert CausalAt(c, s, i);
    assert s.ticker.starts[0] <= s.ticker.starts[c.ManagerChan()];
  }

  lemma CollStampsGrow(c: Router.Config, r: Router.State, i: nat, j: nat)
    requires Router.StampInv(c, r) && c.intervalStamp && Ticker.Sorted(r.got)
    requires i < j < |Router.From(Router.Coll, r.consumed)|
    requires 0 < Router.From(Router.Coll, r.consumed)[i].nTicks
    ensures Router.From(Router.Coll, r.consumed)[i].stamped.time <= Router.From(Router.Coll, r.consumed)[j].stamped.time
  {
    CollStamp(c, r, i);
    CollStamp(c, r, j);
    CollTicksOrdered(r.consumed, i, j);
  }

  ghost predicate TicksGrow(items: seq<Router.Item>) {
    forall i, j :: 0 <= i < j < |items| ==> items[i].nTicks <= items[j].nTicks
  }

  lemma {:induction false} CollTicksOrdered(items: seq<Router.Item>, i: nat, j: nat)
    requires TicksGrow(items) && i < j < |Router.From(Router.Coll, items)|
    ensures Router.From(Router.Coll, items)[i].nTicks <= Router.From(Router.Coll, items)[j].nTicks
  {
    var n := |items| - 1;
    if j < |Router.From(Router.Coll, items[..n])| {
      CollTicksOrdered(items[..n], i, j);
    } else {
      FromIsConsumed(Router.Coll, items[..n], i);
    }
  }
}
