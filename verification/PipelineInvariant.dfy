/** What every step of the whole program keeps, whatever the interleaving. */
module PipelineInvariant {
  import opened Common
  import opened Pipeline
  import Ticker
  import Manager
  import ManagerRounds
  import Router

  // ----- the components keep their own invariants -----

  ghost predicate Components(c: Config, s: State) {
    && Ticker.Inv(s.ticker) && Router.Inv(c.router, s.router)
    && Manager.Inv(c.mgr, s.manager) && ManagerRounds.Inv(c.mgr, s.manager)
  }

  lemma ComponentsStep(c: Config, s: State, l: Label)
    requires Components(c, s) && Enabled(c, s, l)
    ensures Components(c, Apply(c, s, l))
  {
    hide Ticker.Inv, Manager.Inv, ManagerRounds.Inv, Router.Inv, TickerAct, ManagerAct, RouterAct, Ready;
    hide Ticker.Enabled, Ticker.Apply, Manager.Enabled, Manager.Apply, Router.Enabled, Router.Apply;
    hide ApplyColl, ApplyRecv, ApplyOuts, ApplyCache;
    if TickerAct(c, s, l).Some? { Ticker.StepInv(s.ticker, TickerAct(c, s, l).value); }
    if ManagerAct(c, s, l).Some? {
      Manager.StepInv(c.mgr, s.manager, ManagerAct(c, s, l).value);
      ManagerRounds.StepInv(c.mgr, s.manager, ManagerAct(c, s, l).value);
    }
    if RouterAct(c, s, l).Some? { Router.StepInv(c.router, s.router, RouterAct(c, s, l).value); }
  }

  // ----- who runs when -----

  predicate ManagerStopping(pc: Manager.Pc) {
    pc.DoneWait? || pc.Closing? || pc.CloseDone? || pc.Ended?
  }

  // Startup and shutdown stages fix which goroutines exist and which have been told to stop.

  predicate TickerStage(s: State) {
    var h := s.handler.Stage();
    && (h <= 1 <==> s.ticker.pc.Select? || s.ticker.pc.Sending?)
    && (2 < h ==> s.ticker.pc.Ended?)
  }

  predicate ManagerStage(s: State) {
    var h := s.handler.Stage();
    && (s.manager.pc.NotStarted? <==> s.main <= 6)
    && (h <= 3 <==> !ManagerStopping(s.manager.pc))
    && (4 < h ==> s.manager.pc.Ended?)
  }

  predicate RouterStage(s: State) {
    var h := s.handler.Stage();
    && (s.router.pc.NotStarted? <==> s.main <= 4)
    && (h <= 6 <==> !s.router.pc.Closing? && !s.router.pc.Ended?)
    && (7 < h ==> s.router.pc.Ended?)
  }

  predicate CacheStage(c: Config, s: State) {
    var h := s.handler.Stage();
    && (s.cache.NotStarted? <==> s.main <= 3 || !c.router.cacheOn)
    && (s.handler.CacheSend? || s.handler.CacheWait? ==> c.router.cacheOn)
    && (h <= 8 ==> !s.cache.Closing? && !s.cache.Ended?)
    && (h == 9 ==> s.cache.Closing? || s.cache.Ended?)
    && (9 < h && c.router.cacheOn ==> s.cache.Ended?)
  }

  predicate Stages(c: Config, s: State) {
    s.main <= 8 && TickerStage(s) && ManagerStage(s) && RouterStage(s) && CacheStage(c, s)
  }

  predicate TickerRuns(pc: Ticker.Pc) {
    pc.Select? || pc.Sending?
  }

  lemma TickerPc(t: Ticker.State, a: Ticker.Action)
    requires Ticker.Enabled(t, a)
    ensures TickerRuns(Ticker.Apply(t, a).pc) <==> TickerRuns(t.pc) && !a.Accept?
    ensures t.pc.Ended? ==> Ticker.Apply(t, a).pc.Ended?
    ensures a.Accept? ==> TickerRuns(t.pc)
  {
  }

  lemma ManagerPc(c: Manager.Config, m: Manager.State, a: Manager.Action)
    requires Manager.Enabled(c, m, a)
    ensures Manager.Apply(c, m, a).pc.NotStarted? <==> m.pc.NotStarted? && !a.Start?
    ensures ManagerStopping(Manager.Apply(c, m, a).pc) <==> ManagerStopping(m.pc) || a.Accept?
    ensures m.pc.Ended? ==> Manager.Apply(c, m, a).pc.Ended?
    ensures (a.Start? ==> m.pc.NotStarted?) && (a.Accept? ==> !ManagerStopping(m.pc))
  {
  }

  predicate RouterStopping(pc: Router.Pc) {
    pc.Closing? || pc.Ended?
  }

  lemma RouterPc(c: Router.Config, r: Router.State, a: Router.Action)
    requires Router.Enabled(c, r, a)
    ensures Router.Apply(c, r, a).pc.NotStarted? <==> r.pc.NotStarted? && !a.Start?
    ensures RouterStopping(Router.Apply(c, r, a).pc) <==> RouterStopping(r.pc) || a.Accept?
    ensures r.pc.Ended? ==> Router.Apply(c, r, a).pc.Ended?
    ensures (a.Start? ==> r.pc.NotStarted?) && (a.Accept? ==> !RouterStopping(r.pc))
  {
  }

  lemma TickerStageStep(c: Config, s: State, l: Label)
    requires TickerStage(s) && Enabled(c, s, l)
    ensures TickerStage(Apply(c, s, l))
  {
    hide Ticker.Enabled, Ticker.Apply, Manager.Enabled, Manager.Apply, Router.Enabled, Router.Apply;
    hide ApplyColl, ApplyRecv, ApplyOuts, ApplyCache, ManagerAct, RouterAct;
    if TickerAct(c, s, l).Some? { TickerPc(s.ticker, TickerAct(c, s, l).value); }
  }

  lemma ManagerStageStep(c: Config, s: State, l: Label)
    requires ManagerStage(s) && Enabled(c, s, l)
    ensures ManagerStage(Apply(c, s, l))
  {
    hide Ticker.Enabled, Ticker.Apply, Manager.Enabled, Manager.Apply, Router.Enabled, Router.Apply;
    hide ApplyColl, ApplyRecv, ApplyOuts, ApplyCache, TickerAct, RouterAct;
    if ManagerAct(c, s, l).Some? { ManagerPc(c.mgr, s.manager, ManagerAct(c, s, l).value); }
  }

  lemma RouterStageStep(c: Config, s: State, l: Label)
    requires RouterStage(s) && Enabled(c, s, l)
    ensures RouterStage(Apply(c, s, l))
  {
    hide Ticker.Enabled, Ticker.Apply, Manager.Enabled, Manager.Apply, Router.Enabled, Router.Apply;
    hide ApplyColl, ApplyRecv, ApplyOuts, ApplyCache, TickerAct, ManagerAct;
    if RouterAct(c, s, l).Some? { RouterPc(c.router, s.router, RouterAct(c, s, l).value); }
  }

  lemma CacheStageStep(c: Config, s: State, l: Label)
    requires CacheStage(c, s) && Enabled(c, s, l)
    ensures CacheStage(c, Apply(c, s, l))
  {
    hide Ticker.Enabled, Ticker.Apply, Manager.Enabled, Manager.Apply, Router.Enabled, Router.Apply;
    hide ApplyColl, ApplyRecv, ApplyOuts, TickerAct, ManagerAct, RouterAct;
  }

  lemma StagesStep(c: Config, s: State, l: Label)
    requires Stages(c, s) && Enabled(c, s, l)
    ensures Stages(c, Apply(c, s, l))
  {
    hide TickerStage, ManagerStage, RouterStage, CacheStage, TickerAct, ManagerAct, RouterAct;
    hide Ticker.Enabled, Ticker.Apply, Manager.Enabled, Manager.Apply, Router.Enabled, Router.Apply;
    hide ApplyColl, ApplyRecv, ApplyOuts, ApplyCache;
    TickerStageStep(c, s, l);
    ManagerStageStep(c, s, l);
    RouterStageStep(c, s, l);
    CacheStageStep(c, s, l);
  }

  // ----- nothing is lost or duplicated on the channels -----

  function RawOf(items: seq<Router.Item>): seq<Msg> {
    seq(|items|, i requires 0 <= i < |items| => items[i].raw)
  }

  function MsgsOf(sent: seq<Manager.Sent>): seq<Msg> {
    seq(|sent|, i requires 0 <= i < |sent| => sent[i].msg)
  }

  /** What the collectors sent is what the router took from them, followed by the channel's content. */
  ghost predicate CollConserved(s: State) {
    MsgsOf(s.manager.sent) == RawOf(Router.From(Router.Coll, s.router.consumed)) + s.coll
  }

  ghost predicate RecvConserved(s: State) {
    s.received == RawOf(Router.From(Router.Recv, s.router.consumed)) + s.recv
  }

  /** What the router sent to an output is what the sink took, followed by the channel's content. */
  ghost predicate OutsConserved(c: Config, s: State) {
    && |s.router.sentTo| == |s.outs| == |s.sunk| == c.router.nOut
    && forall j :: 0 <= j < c.router.nOut ==>
         s.router.sentTo[j] == s.sunk[j] + s.outs[j] && |s.outs[j]| <= c.outCap
  }

  ghost predicate Conserved(c: Config, s: State) {
    CollConserved(s) && RecvConserved(s) && OutsConserved(c, s)
  }

  lemma FromOneMore(items: seq<Router.Item>, items': seq<Router.Item>, src: Router.Source)
    requires |items'| == |items| + 1 && items'[..|items|] == items
    ensures RawOf(Router.From(src, items')) == RawOf(Router.From(src, items)) +
              if items'[|items|].src == src then [items'[|items|].raw] else []
  {
  }

  /** How an action changes what the router has consumed. */
  lemma ConsumedStep(c: Router.Config, r: Router.State, a: Router.Action, src: Router.Source)
    requires Router.Enabled(c, r, a)
    ensures var r' := Router.Apply(c, r, a);
            RawOf(Router.From(src, r'.consumed)) == RawOf(Router.From(src, r.consumed)) +
              (if a.Receive? && a.src == src then [a.p]
               else if a.Next? && r.pc.src == src then [a.p] else [])
  {
    match a {
      case Receive(source, p) => FromOneMore(r.consumed, Router.Apply(c, r, a).consumed, src);
      case Next(p) => FromOneMore(r.consumed, Router.Apply(c, r, a).consumed, src);
      case _ =>
    }
  }

  /** How an action changes what the collectors have sent. */
  lemma SentStep(c: Manager.Config, m: Manager.State, a: Manager.Action)
    requires Manager.Enabled(c, m, a)
    ensures var m' := Manager.Apply(c, m, a);
            MsgsOf(m'.sent) == MsgsOf(m.sent) +
              (if a.Send? then [m.tasks[a.k].phase.left[0]] else if a.SerSend? then [m.pc.left[0]] else [])
  {
  }

  /** What a label takes out of an input, and what it puts on the collectors' channel. */
  function Taken(s: State, l: Label, src: Router.Source): seq<Msg> {
    if l.TakeFrom? && l.src == src && Input(s, src) != [] then [Input(s, src)[0]] else []
  }

  function Put(c: Config, s: State, l: Label): seq<Msg>
    requires Enabled(c, s, l)
  {
    if l.Mgr? && l.a.Send? then [s.manager.tasks[l.a.k].phase.left[0]]
    else if l.Mgr? && l.a.SerSend? then [s.manager.pc.left[0]]
    else []
  }

  lemma TakenStep(c: Config, s: State, l: Label, src: Router.Source)
    requires Enabled(c, s, l) && !src.Agg?
    ensures RawOf(Router.From(src, Apply(c, s, l).router.consumed)) ==
            RawOf(Router.From(src, s.router.consumed)) + Taken(s, l, src)
  {
    hide Router.From, RawOf, TickerAct, ManagerAct;
    hide Ticker.Enabled, Ticker.Apply, Manager.Enabled, Manager.Apply, Router.Enabled, Router.Apply;
    hide ApplyColl, ApplyRecv, ApplyOuts, ApplyCache;
    if RouterAct(c, s, l).Some? {
      ConsumedStep(c.router, s.router, RouterAct(c, s, l).value, src);
    }
  }

  lemma PutStep(c: Config, s: State, l: Label)
    requires Enabled(c, s, l)
    ensures MsgsOf(Apply(c, s, l).manager.sent) == MsgsOf(s.manager.sent) + Put(c, s, l)
  {
    hide MsgsOf, TickerAct, RouterAct, Ticker.Enabled, Ticker.Apply, Manager.Apply, Router.Enabled, Router.Apply;
    hide ApplyColl, ApplyRecv, ApplyOuts, ApplyCache;
    if ManagerAct(c, s, l).Some? { SentStep(c.mgr, s.manager, ManagerAct(c, s, l).value); }
  }

  lemma CollStep(c: Config, s: State, l: Label)
    requires Enabled(c, s, l)
    ensures Taken(s, l, Router.Coll) + Apply(c, s, l).coll == s.coll + Put(c, s, l)
  {
    hide Ticker.Enabled, Ticker.Apply, Manager.Apply, Router.Enabled, Router.Apply;
    hide ApplyRecv, ApplyOuts, ApplyCache, TickerAct, RouterAct;
  }

  lemma RecvStep(c: Config, s: State, l: Label)
    requires Enabled(c, s, l)
    ensures var s' := Apply(c, s, l);
            && Taken(s, l, Router.Recv) + s'.recv == s.recv + s'.received[|s.received|..]
            && |s.received| <= |s'.received| && s.received == s'.received[..|s.received|]
  {
    hide Ticker.Enabled, Ticker.Apply, Manager.Enabled, Manager.Apply, Router.Enabled, Router.Apply;
    hide ApplyColl, ApplyOuts, ApplyCache, TickerAct, ManagerAct, RouterAct;
  }

  /** Taking from the front of a channel and putting at its end keeps what went through it. */
  lemma ThroughChannel(
    went: seq<Msg>, took: seq<Msg>, chan: seq<Msg>, taken: seq<Msg>, put: seq<Msg>, chan': seq<Msg>)
    requires went == took + chan && taken + chan' == chan + put
    ensures went + put == (took + taken) + chan'
  {
    assert took + (taken + chan') == (took + chan) + put;
  }

  lemma CollConservedStep(c: Config, s: State, l: Label)
    requires CollConserved(s) && Enabled(c, s, l)
    ensures CollConserved(Apply(c, s, l))
  {
    hide Enabled, Apply, MsgsOf, RawOf, Router.From, Taken, Put;
    TakenStep(c, s, l, Router.Coll);
    PutStep(c, s, l);
    CollStep(c, s, l);
    ThroughChannel(MsgsOf(s.manager.sent), RawOf(Router.From(Router.Coll, s.router.consumed)), s.coll,
                   Taken(s, l, Router.Coll), Put(c, s, l), Apply(c, s, l).coll);
  }

  lemma RecvConservedStep(c: Config, s: State, l: Label)
    requires RecvConserved(s) && Enabled(c, s, l)
    ensures RecvConserved(Apply(c, s, l))
  {
    hide Enabled, Apply, RawOf, Router.From, Taken;
    var s' := Apply(c, s, l);
    TakenStep(c, s, l, Router.Recv);
    RecvStep(c, s, l);
    ThroughChannel(s.received, RawOf(Router.From(Router.Recv, s.router.consumed)), s.recv,
                   Taken(s, l, Router.Recv), s'.received[|s.received|..], s'.recv);
  }

  lemma OutsConservedStep(c: Config, s: State, l: Label)
    requires OutsConserved(c, s) && Enabled(c, s, l)
    ensures OutsConserved(c, Apply(c, s, l))
  {
    hide Ticker.Enabled, Ticker.Apply, Manager.Enabled, Manager.Apply, ApplyColl, ApplyRecv, ApplyCache;
    hide TickerAct, ManagerAct;
    var s' := Apply(c, s, l);
    if l.Drain? {
      assert s.outs[l.j] == [s.outs[l.j][0]] + s.outs[l.j][1..];
      assert s'.sunk[l.j] + s'.outs[l.j] == s.sunk[l.j] + s.outs[l.j];
    } else if !RouterSends(c, s, l) {
      assert s'.outs == s.outs && s'.sunk == s.sunk && s'.router.sentTo == s.router.sentTo;
    }
  }

  /** The blocking receive inside a batch never blocks: the router alone takes messages out of a channel it has
      seen non-empty. */
  predicate InnerReceive(s: State) {
    s.router.pc.BatchRecv? ==> Input(s, s.router.pc.src) != []
  }

  lemma InnerReceiveStep(c: Config, s: State, l: Label)
    requires InnerReceive(s) && Enabled(c, s, l)
    ensures InnerReceive(Apply(c, s, l))
  {
    hide Ticker.Enabled, Ticker.Apply, Manager.Enabled, Manager.Apply, ApplyOuts, ApplyCache;
    hide TickerAct, ManagerAct;
  }

  // ----- ticks reach their owners -----

  function Registered(c: Config, main: nat): nat {
    (if main > 1 && c.router.intervalStamp then 1 else 0) +
    (if main > 2 && c.router.cacheOn then 1 else 0) +
    (if main > 5 then 1 else 0)
  }

  ghost predicate TicksLinked(c: Config, s: State) {
    && |s.ticker.starts| == |s.ticker.delivered| == Registered(c, s.main)
    && s.router.got == (if s.main > 1 && c.router.intervalStamp then s.ticker.delivered[0] else [])
    && s.manager.got == (if s.main > 5 then s.ticker.delivered[c.ManagerChan()] else [])
  }

  /** The channels after a label: one more if it registers one, one more tick if it delivers one; the owner
      of the channel gets that tick. */
  predicate TickDelta(c: Config, s: State, l: Label, s': State) {
    && s'.main == (if l.Main? then s.main + 1 else s.main)
    && ChannelDelta(s.ticker, s'.ticker, TickerAct(c, s, l) == Some(Ticker.Register), l.Deliver?)
    && s'.router.got == s.router.got + (if DeliverTo(c, s, l, OfRouter) then [s.ticker.pc.ts] else [])
    && s'.manager.got == s.manager.got + (if DeliverTo(c, s, l, OfManager) then [s.ticker.pc.ts] else [])
  }

  predicate ChannelDelta(t: Ticker.State, t': Ticker.State, registers: bool, delivers: bool) {
    && |t'.starts| == |t'.delivered|
    && if registers then t'.delivered == t.delivered + [[]] && t'.starts == t.starts + [|t.ticks|]
       else if delivers then
         && t.pc.Sending? && t.pc.next < |t.delivered|
         && t'.delivered == t.delivered[t.pc.next := t.delivered[t.pc.next] + [t.pc.ts]] && t'.starts == t.starts
       else t'.delivered == t.delivered && t'.starts == t.starts
  }

  lemma RouterGot(c: Router.Config, r: Router.State, a: Router.Action)
    requires Router.Enabled(c, r, a)
    ensures Router.Apply(c, r, a).got == r.got + if a.Tick? then [a.ts] else []
  {
  }

  lemma ManagerGot(c: Manager.Config, m: Manager.State, a: Manager.Action)
    requires Manager.Enabled(c, m, a)
    ensures Manager.Apply(c, m, a).got == m.got + if a.Tick? then [a.ts] else []
  {
  }

  lemma TickerDelivered(t: Ticker.State, a: Ticker.Action)
    requires Ticker.Enabled(t, a) && |t.starts| == |t.delivered|
    ensures ChannelDelta(t, Ticker.Apply(t, a), a.Register?, a.Deliver?)
  {
  }

  lemma ChannelsStep(c: Config, s: State, l: Label)
    requires Enabled(c, s, l) && |s.ticker.starts| == |s.ticker.delivered|
    ensures ChannelDelta(s.ticker, Apply(c, s, l).ticker, TickerAct(c, s, l) == Some(Ticker.Register), l.Deliver?)
  {
    hide Ticker.Enabled, Ticker.Apply, Manager.Enabled, Manager.Apply, Router.Enabled, Router.Apply;
    hide Ready, ManagerAct, RouterAct, ApplyColl, ApplyRecv, ApplyOuts, ApplyCache;
    if TickerAct(c, s, l).Some? { TickerDelivered(s.ticker, TickerAct(c, s, l).value); }
  }

  lemma RouterTickStep(c: Config, s: State, l: Label)
    requires Enabled(c, s, l)
    ensures Apply(c, s, l).router.got == s.router.got + if DeliverTo(c, s, l, OfRouter) then [s.ticker.pc.ts] else []
  {
    hide Ticker.Enabled, Ticker.Apply, Manager.Enabled, Manager.Apply, Router.Enabled, Router.Apply;
    hide Ready, OwnerOf, TickerAct, ManagerAct, ApplyColl, ApplyRecv, ApplyOuts, ApplyCache;
    if RouterAct(c, s, l).Some? { RouterGot(c.router, s.router, RouterAct(c, s, l).value); }
  }

  lemma ManagerTickStep(c: Config, s: State, l: Label)
    requires Enabled(c, s, l)
    ensures Apply(c, s, l).manager.got == s.manager.got + if DeliverTo(c, s, l, OfManager) then [s.ticker.pc.ts] else []
  {
    hide Ticker.Enabled, Ticker.Apply, Manager.Enabled, Manager.Apply, Router.Enabled, Router.Apply;
    hide OwnerOf, TickerAct, RouterAct, ApplyColl, ApplyRecv, ApplyOuts, ApplyCache;
    if ManagerAct(c, s, l).Some? { ManagerGot(c.mgr, s.manager, ManagerAct(c, s, l).value); }
  }

  lemma TickStep(c: Config, s: State, l: Label)
    requires Enabled(c, s, l) && |s.ticker.starts| == |s.ticker.delivered|
    ensures TickDelta(c, s, l, Apply(c, s, l))
  {
    hide Enabled, ChannelDelta, DeliverTo, TickerAct, ManagerAct, RouterAct;
    hide Ticker.Apply, Manager.Apply, Router.Apply, ApplyColl, ApplyRecv, ApplyOuts, ApplyCache;
    ChannelsStep(c, s, l);
    RouterTickStep(c, s, l);
    ManagerTickStep(c, s, l);
  }

  lemma TicksLinkedAfter(c: Config, s: State, l: Label, s': State)
    requires TicksLinked(c, s) && TickDelta(c, s, l, s')
    ensures TicksLinked(c, s')
  {
  }

  lemma TicksLinkedStep(c: Config, s: State, l: Label)
    requires TicksLinked(c, s) && Enabled(c, s, l)
    ensures TicksLinked(c, Apply(c, s, l))
  {
    hide Enabled, Apply, TickDelta;
    TickStep(c, s, l);
    TicksLinkedAfter(c, s, l, Apply(c, s, l));
  }

  /** No tick is overtaken: when the router stamped the i-th collector message, it had already received the
      tick that triggered the Read which sent it. */
  ghost predicate CausalAt(c: Config, s: State, i: nat)
    requires TicksLinked(c, s)
  {
    var items := Router.From(Router.Coll, s.router.consumed);
    i < |items| && i < |s.manager.sent| ==>
      && s.main > 5
      && s.ticker.starts[c.ManagerChan()] + s.manager.sent[i].round < s.ticker.starts[0] + items[i].nTicks
  }

  ghost predicate Causal(c: Config, s: State)
    requires TicksLinked(c, s)
  {
    c.router.intervalStamp ==> forall i: nat :: CausalAt(c, s, i)
  }

  /** The logs of sent and consumed collector messages only grow; a newly consumed message records how many
      ticks the router has seen. */
  predicate LogDelta(s: State, l: Label, s': State) {
    TakenDelta(s.router, s'.router, l.TakeFrom? && l.src.Coll?) && SentDelta(s.manager, s'.manager)
  }

  predicate TakenDelta(r: Router.State, r': Router.State, takes: bool) {
    var items, items' := Router.From(Router.Coll, r.consumed), Router.From(Router.Coll, r'.consumed);
    if takes then |items'| == |items| + 1 && items'[..|items|] == items && items'[|items|].nTicks == |r.got|
    else items' == items
  }

  predicate SentDelta(m: Manager.State, m': Manager.State) {
    |m.sent| <= |m'.sent| && m'.sent[..|m.sent|] == m.sent
  }

  lemma RouterLogStep(c: Router.Config, r: Router.State, a: Router.Action)
    requires Router.Enabled(c, r, a)
    ensures TakenDelta(r, Router.Apply(c, r, a), (a.Receive? && a.src.Coll?) || (a.Next? && r.pc.src.Coll?))
  {
    if a.Receive? || a.Next? {
      assert Router.Apply(c, r, a).consumed[..|r.consumed|] == r.consumed;
    }
  }

  lemma ManagerLogStep(c: Manager.Config, m: Manager.State, a: Manager.Action)
    requires Manager.Enabled(c, m, a)
    ensures SentDelta(m, Manager.Apply(c, m, a))
  {
  }

  lemma TakenLogStep(c: Config, s: State, l: Label)
    requires Enabled(c, s, l)
    ensures TakenDelta(s.router, Apply(c, s, l).router, l.TakeFrom? && l.src.Coll?)
  {
    hide Ticker.Enabled, Ticker.Apply, Manager.Enabled, Manager.Apply, Router.Apply, Router.From;
    hide TickerAct, ManagerAct, ApplyColl, ApplyRecv, ApplyOuts, ApplyCache;
    if RouterAct(c, s, l).Some? { RouterLogStep(c.router, s.router, RouterAct(c, s, l).value); }
  }

  lemma SentLogStep(c: Config, s: State, l: Label)
    requires Enabled(c, s, l)
    ensures SentDelta(s.manager, Apply(c, s, l).manager)
  {
    hide Ticker.Enabled, Ticker.Apply, Manager.Enabled, Manager.Apply, Router.Enabled, Router.Apply;
    hide Ready, TickerAct, ManagerAct, RouterAct, ApplyColl, ApplyRecv, ApplyOuts, ApplyCache;
    if ManagerAct(c, s, l).Some? { ManagerLogStep(c.mgr, s.manager, ManagerAct(c, s, l).value); }
  }

  lemma LogStep(c: Config, s: State, l: Label)
    requires Enabled(c, s, l)
    ensures LogDelta(s, l, Apply(c, s, l))
  {
    hide Enabled, Apply, TakenDelta, SentDelta;
    TakenLogStep(c, s, l);
    SentLogStep(c, s, l);
  }

  lemma SentLength(s: State)
    requires CollConserved(s)
    ensures |s.manager.sent| == |Router.From(Router.Coll, s.router.consumed)| + |s.coll|
  {
    var items := Router.From(Router.Coll, s.router.consumed);
    assert |MsgsOf(s.manager.sent)| == |RawOf(items)| + |s.coll|;
  }

  /** The message taken just now. */
  lemma CausalNew(c: Config, s: State, l: Label, s': State, i: nat)
    requires |s.ticker.starts| == |s.ticker.delivered| && Ticker.FanOut(s.ticker) && TicksLinked(c, s)
    requires TickDelta(c, s, l, s') && LogDelta(s, l, s') && TicksLinked(c, s')
    requires c.router.intervalStamp && l.TakeFrom? && l.src.Coll?
    requires i == |Router.From(Router.Coll, s.router.consumed)| < |s.manager.sent|
    requires s.manager.sent[i].round < |s.manager.got|
    ensures CausalAt(c, s', i)
  {
    var m := c.ManagerChan();
    assert s.main > 5 && |s.manager.got| == |s.ticker.delivered[m]| && |s.router.got| == |s.ticker.delivered[0]|;
    assert s'.manager.sent[i] == s.manager.sent[i];
    if m > 0 {
      assert Ticker.Progress(s.ticker, m) <= Ticker.Progress(s.ticker, 0);
    }
  }

  /** A message taken before. */
  lemma CausalOld(c: Config, s: State, l: Label, s': State, i: nat)
    requires TicksLinked(c, s) && CausalAt(c, s, i)
    requires TickDelta(c, s, l, s') && LogDelta(s, l, s') && TicksLinked(c, s')
    requires i < |Router.From(Router.Coll, s.router.consumed)| && i < |s.manager.sent|
    ensures CausalAt(c, s', i)
  {
    assert s'.manager.sent[i] == s.manager.sent[i];
    assert Router.From(Router.Coll, s'.router.consumed)[i] == Router.From(Router.Coll, s.router.consumed)[i];
  }

  lemma CausalAfter(c: Config, s: State, l: Label, s': State)
    requires Components(c, s) && CollConserved(s) && TicksLinked(c, s) && Causal(c, s)
    requires TickDelta(c, s, l, s') && LogDelta(s, l, s') && TicksLinked(c, s')
    requires l.TakeFrom? && l.src.Coll? ==> s.coll != []
    ensures Causal(c, s')
  {
    SentLength(s);
    if c.router.intervalStamp {
      forall i: nat ensures CausalAt(c, s', i) {
        if i < |Router.From(Router.Coll, s.router.consumed)| {
          CausalOld(c, s, l, s', i);
        } else if i < |Router.From(Router.Coll, s'.router.consumed)| {
          CausalNew(c, s, l, s', i);
        }
      }
    }
  }

  lemma CausalStep(c: Config, s: State, l: Label)
    requires Inv(c, s) && Enabled(c, s, l)
    ensures TicksLinked(c, Apply(c, s, l)) && Causal(c, Apply(c, s, l))
  {
    hide Apply, Components, Stages, CollConserved, RecvConserved, OutsConserved, InnerReceive, Causal;
    hide TickDelta, LogDelta;
    hide Ticker.Enabled, Manager.Enabled, Router.Enabled, TickerAct, ManagerAct, RouterAct;
    TicksLinkedStep(c, s, l);
    TickStep(c, s, l);
    LogStep(c, s, l);
    CausalAfter(c, s, l, Apply(c, s, l));
  }

  // ----- all of it, in every reachable state -----

  ghost predicate Inv(c: Config, s: State) {
    Components(c, s) && Stages(c, s) && Conserved(c, s) && InnerReceive(s) && TicksLinked(c, s) && Causal(c, s)
  }

  lemma InitialComponents(c: Config, recvLeft: Option<nat>)
    ensures Components(c, Initial(c, recvLeft))
  {
    hide Ticker.Inv, Manager.Inv, ManagerRounds.Inv, Router.Inv, Manager.Initial, Router.Initial, Ticker.INITIAL;
    Ticker.InitialInv();
    Manager.InitialInv(c.mgr);
    ManagerRounds.InitialInv(c.mgr);
    Router.InitialInv(c.router);
  }

  lemma InitialInv(c: Config, recvLeft: Option<nat>)
    ensures Inv(c, Initial(c, recvLeft))
  {
    hide Components;
    InitialComponents(c, recvLeft);
  }

  lemma StepInv(c: Config, s: State, l: Label)
    requires Inv(c, s) && Enabled(c, s, l)
    ensures Inv(c, Apply(c, s, l))
  {
    hide Enabled, Apply, Components, Stages, InnerReceive, Causal, TicksLinked;
    hide CollConserved, RecvConserved, OutsConserved;
    ComponentsStep(c, s, l);
    StagesStep(c, s, l);
    CollConservedStep(c, s, l);
    RecvConservedStep(c, s, l);
    OutsConservedStep(c, s, l);
    InnerReceiveStep(c, s, l);
    CausalStep(c, s, l);
  }

  /** The state a schedule leads to, if every label of it is enabled in turn. */
  function RunFrom(c: Config, s: State, schedule: seq<Label>): Option<State>
    decreases |schedule|
  {
    if schedule == [] then Some(s)
    else if !Enabled(c, s, schedule[0]) then None
    else RunFrom(c, Apply(c, s, schedule[0]), schedule[1..])
  }

  ghost predicate Reachable(c: Config, s: State) {
    exists recvLeft: Option<nat>, schedule: seq<Label> :: RunFrom(c, Initial(c, recvLeft), schedule) == Some(s)
  }

  lemma {:induction false} RunInv(c: Config, s: State, schedule: seq<Label>, s': State)
    requires Inv(c, s) && RunFrom(c, s, schedule) == Some(s')
    ensures Inv(c, s')
    decreases |schedule|
  {
    if schedule == [] {
      assert s' == s;
    } else {
      var s1 := Apply(c, s, schedule[0]);
      StepInv(c, s, schedule[0]);
      RunInv(c, s1, schedule[1..], s');
    }
  }

  lemma ReachableInv(c: Config, s: State)
    requires Reachable(c, s)
    ensures Inv(c, s)
  {
    var recvLeft: Option<nat>, schedule: seq<Label> :| RunFrom(c, Initial(c, recvLeft), schedule) == Some(s);
    InitialInv(c, recvLeft);
    RunInv(c, Initial(c, recvLeft), schedule, s);
  }
}
