/** What holds of whole schedules, read off their labels: which ticks there are, what becomes of the aggregates, and in
    which order the shutdown goes through the parts of the program. */
module Schedules {
  import opened Common
  import opened Pipeline
  import opened PipelineInvariant
  import opened PipelineProperties
  import opened Sequences
  import Ticker
  import Manager
  import Router

  // ----- ticks -----

  /** The times at which the timer fired. */
  function FiredIn(schedule: seq<Label>): seq<Time> {
    if schedule == [] then []
    else (if schedule[0].TimerFire? then [schedule[0].now] else []) + FiredIn(schedule[1..])
  }

  /** The ticks taken, and the one waiting in the timer's channel. */
  function Ticks(t: Ticker.State): seq<Time> {
    t.ticks + if t.timer.Some? then [t.timer.value] else []
  }

  lemma TicksStep(c: Config, s: State, l: Label)
    requires Enabled(c, s, l)
    ensures Ticks(Apply(c, s, l).ticker) == Ticks(s.ticker) + if l.TimerFire? then [l.now] else []
  {
    hide Manager.Enabled, Manager.Apply, Router.Enabled, Router.Apply, ManagerAct, RouterAct;
    hide ApplyColl, ApplyRecv, ApplyOuts, ApplyCache;
  }

  lemma {:induction false} TicksFrom(c: Config, s: State, schedule: seq<Label>, s': State)
    requires RunFrom(c, s, schedule) == Some(s')
    ensures Ticks(s'.ticker) == Ticks(s.ticker) + FiredIn(schedule)
    decreases |schedule|
  {
    hide Enabled, Apply, Ticks;
    if schedule != [] {
      var l := schedule[0];
      TicksStep(c, s, l);
      TicksFrom(c, Apply(c, s, l), schedule[1..], s');
      Associative(Ticks(s.ticker), if l.TimerFire? then [l.now] else [], FiredIn(schedule[1..]));
    }
  }

  /** The ticks are the times at which the timer fired, all of them, in order and unchanged. */
  lemma TicksAreFired(c: Config, recvLeft: Option<nat>, schedule: seq<Label>, s: State)
    requires RunFrom(c, Initial(c, recvLeft), schedule) == Some(s)
    ensures s.ticker.ticks + (if s.ticker.timer.Some? then [s.ticker.timer.value] else []) == FiredIn(schedule)
  {
    hide RunFrom;
    TicksFrom(c, Initial(c, recvLeft), schedule, s);
  }

  // ----- aggregates -----

  function Undelivered(cache: Cache): seq<Msg> {
    if cache.Evaluating? then cache.left else []
  }

  function Offered(c: Config, s: State, l: Label): seq<Msg> {
    if DeliverTo(c, s, l, OfCache) then l.aggregates else []
  }

  function Dropped(s: State, l: Label): seq<Msg> {
    if l.AggDrop? && !s.router.pc.Select? && Undelivered(s.cache) != [] then [Undelivered(s.cache)[0]] else []
  }

  /** Everything the evaluations of a schedule produce, and what of it finds the router away from its select. */
  function OfferedIn(c: Config, s: State, schedule: seq<Label>): multiset<Msg>
    requires RunFrom(c, s, schedule).Some?
    decreases |schedule|
  {
    if schedule == [] then multiset{}
    else multiset(Offered(c, s, schedule[0])) + OfferedIn(c, Apply(c, s, schedule[0]), schedule[1..])
  }

  function DroppedIn(c: Config, s: State, schedule: seq<Label>): multiset<Msg>
    requires RunFrom(c, s, schedule).Some?
    decreases |schedule|
  {
    if schedule == [] then multiset{}
    else multiset(Dropped(s, schedule[0])) + DroppedIn(c, Apply(c, s, schedule[0]), schedule[1..])
  }

  /** The aggregates the router has taken. */
  function Aggregates(s: State): seq<Msg> {
    RawOf(Router.From(Router.Agg, s.router.consumed))
  }

  function Taken(s: State, l: Label): seq<Msg> {
    if l.AggSend? && Undelivered(s.cache) != [] then [Undelivered(s.cache)[0]] else []
  }

  lemma AggregatesStep(c: Config, s: State, l: Label)
    requires Enabled(c, s, l)
    ensures Aggregates(Apply(c, s, l)) == Aggregates(s) + Taken(s, l)
  {
    hide Router.From, RawOf, TickerAct, ManagerAct;
    hide Ticker.Enabled, Ticker.Apply, Manager.Enabled, Manager.Apply, Router.Apply;
    hide ApplyColl, ApplyRecv, ApplyOuts, ApplyCache;
    if RouterAct(c, s, l).Some? {
      ConsumedStep(c.router, s.router, RouterAct(c, s, l).value, Router.Agg);
    }
  }

  lemma UndeliveredStep(c: Config, s: State, l: Label)
    requires Enabled(c, s, l) && CacheStage(c, s)
    ensures Undelivered(s.cache) + Offered(c, s, l) ==
            Taken(s, l) + Dropped(s, l) + Undelivered(Apply(c, s, l).cache)
  {
    hide Ticker.Enabled, Ticker.Apply, Manager.Enabled, Manager.Apply, Router.Enabled, Router.Apply;
    hide ApplyColl, ApplyRecv, ApplyOuts, TickerAct, ManagerAct, RouterAct;
  }

  lemma InBags(took: seq<Msg>, a: seq<Msg>, a': seq<Msg>, u: seq<Msg>, o: seq<Msg>, d: seq<Msg>, u': seq<Msg>, m: Msg)
    requires a' == a + took && u + o == took + d + u'
    ensures multiset(a)[m] + multiset(u)[m] + multiset(o)[m] == multiset(a')[m] + multiset(u')[m] + multiset(d)[m]
  {
    assert multiset(a')[m] == multiset(a + took)[m] == multiset(a)[m] + multiset(took)[m];
    assert multiset(u + o)[m] == multiset(u)[m] + multiset(o)[m];
    assert multiset((took + d) + u')[m] == multiset(took)[m] + multiset(d)[m] + multiset(u')[m];
    assert u + o == (took + d) + u';
  }

  /** How often a message is among the aggregates taken and those still to be offered. */
  function InHand(s: State, m: Msg): nat {
    multiset(Aggregates(s))[m] + multiset(Undelivered(s.cache))[m]
  }

  lemma BalanceStep(c: Config, s: State, l: Label, m: Msg)
    requires Enabled(c, s, l) && CacheStage(c, s)
    ensures InHand(s, m) + multiset(Offered(c, s, l))[m] == InHand(Apply(c, s, l), m) + multiset(Dropped(s, l))[m]
  {
    hide Enabled, Apply, Aggregates, Undelivered, Offered, Dropped, Taken;
    var s' := Apply(c, s, l);
    AggregatesStep(c, s, l);
    UndeliveredStep(c, s, l);
    InBags(Taken(s, l), Aggregates(s), Aggregates(s'), Undelivered(s.cache), Offered(c, s, l), Dropped(s, l),
           Undelivered(s'.cache), m);
  }

  lemma {:induction false} BalanceFrom(c: Config, s: State, schedule: seq<Label>, s': State, m: Msg)
    requires Inv(c, s) && RunFrom(c, s, schedule) == Some(s')
    ensures InHand(s, m) + OfferedIn(c, s, schedule)[m] == InHand(s', m) + DroppedIn(c, s, schedule)[m]
    decreases |schedule|
  {
    hide Enabled, Apply, InHand, Offered, Dropped;
    hide Components, Conserved, InnerReceive, TicksLinked, Causal;
    if schedule != [] {
      StepInv(c, s, schedule[0]);
      BalanceStep(c, s, schedule[0], m);
      BalanceFrom(c, Apply(c, s, schedule[0]), schedule[1..], s', m);
    }
  }

  /** Every aggregate the evaluations have produced has been taken by the router, found it away from its select, or
      waits for its turn; and the router takes no other. */
  lemma AggregatesAccounted(c: Config, recvLeft: Option<nat>, schedule: seq<Label>, s: State, m: Msg)
    requires RunFrom(c, Initial(c, recvLeft), schedule) == Some(s)
    ensures OfferedIn(c, Initial(c, recvLeft), schedule)[m] ==
            multiset(RawOf(Router.From(Router.Agg, s.router.consumed)))[m]
            + DroppedIn(c, Initial(c, recvLeft), schedule)[m]
            + multiset(if s.cache.Evaluating? then s.cache.left else [])[m]
  {
    hide Inv, RunFrom, OfferedIn, DroppedIn;
    var s0 := Initial(c, recvLeft);
    InitialInv(c, recvLeft);
    BalanceFrom(c, s0, schedule, s, m);
    assert Aggregates(s0) == [] && Undelivered(s0.cache) == [];
  }

  // ----- the order of the shutdown -----

  /** The stations the shutdown handler comes to in a schedule. */
  function Stations(c: Config, s: State, schedule: seq<Label>): seq<Handler>
    requires RunFrom(c, s, schedule).Some?
    decreases |schedule|
  {
    if schedule == [] then []
    else
      var s1 := Apply(c, s, schedule[0]);
      (if s1.handler != s.handler then [s1.handler] else []) + Stations(c, s1, schedule[1..])
  }

  /** Ticker, collector manager, receivers, router, cache if there is one, sinks. */
  function Plan(c: Config): seq<Handler> {
    [Handler.TickerSend, TickerWait, Handler.ManagerSend, ManagerWait, Receivers, Handler.RouterSend, RouterWait]
    + (if c.router.cacheOn then [Handler.CacheSend, CacheWait] else [])
    + [Sinks, Handler.Finished]
  }

  /** How far the plan has been carried out. */
  function Done(c: Config, h: Handler): nat {
    match h
    case Running => 0
    case TickerSend => 1
    case TickerWait => 2
    case ManagerSend => 3
    case ManagerWait => 4
    case Receivers => 5
    case RouterSend => 6
    case RouterWait => 7
    case CacheSend => 8
    case CacheWait => 9
    case Sinks => if c.router.cacheOn then 10 else 8
    case Finished => if c.router.cacheOn then 11 else 9
  }

  lemma StationStep(c: Config, s: State, l: Label)
    requires Enabled(c, s, l) && CacheStage(c, s)
    ensures var h, h' := s.handler, Apply(c, s, l).handler;
            h' == h || (Done(c, h) < |Plan(c)| && h' == Plan(c)[Done(c, h)] && Done(c, h') == Done(c, h) + 1)
  {
    hide Ticker.Enabled, Ticker.Apply, Manager.Enabled, Manager.Apply, Router.Enabled, Router.Apply;
    hide ApplyColl, ApplyRecv, ApplyOuts, ApplyCache, TickerAct, ManagerAct, RouterAct;
  }

  lemma SliceFrom<T>(s: seq<T>, n: nat, m: nat)
    requires n < m <= |s|
    ensures s[n..m] == [s[n]] + s[n + 1..m]
  {
  }

  lemma {:induction false} StationsFrom(c: Config, s: State, schedule: seq<Label>, s': State)
    requires RunFrom(c, s, schedule) == Some(s') && Inv(c, s)
    ensures Done(c, s.handler) <= Done(c, s'.handler) <= |Plan(c)|
    ensures Stations(c, s, schedule) == Plan(c)[Done(c, s.handler)..Done(c, s'.handler)]
    decreases |schedule|
  {
    hide Enabled, Apply, Components, Conserved, InnerReceive, TicksLinked, Causal, Plan;
    if schedule == [] {
      PlanLength(c, s.handler);
    } else {
      StationStep(c, s, schedule[0]);
      StepInv(c, s, schedule[0]);
      var s1 := Apply(c, s, schedule[0]);
      StationsFrom(c, s1, schedule[1..], s');
      if s1.handler != s.handler { SliceFrom(Plan(c), Done(c, s.handler), Done(c, s'.handler)); }
    }
  }

  lemma PlanLength(c: Config, h: Handler)
    requires h.CacheSend? || h.CacheWait? ==> c.router.cacheOn
    ensures Done(c, h) <= |Plan(c)| && (Done(c, h) == |Plan(c)| <==> h.Finished?)
  {
  }

  /** Whatever the schedule, the shutdown goes through its parts in this order and leaves none out; when it has
      finished, each of the goroutines has ended. */
  lemma ShutdownInOrder(c: Config, recvLeft: Option<nat>, schedule: seq<Label>, s: State)
    requires RunFrom(c, Initial(c, recvLeft), schedule) == Some(s)
    ensures Stations(c, Initial(c, recvLeft), schedule) <= Plan(c)
    ensures s.handler.Finished? ==>
      && Stations(c, Initial(c, recvLeft), schedule) == Plan(c)
      && s.ticker.pc.Ended? && s.manager.pc.Ended? && s.router.pc.Ended? && (c.router.cacheOn ==> s.cache.Ended?)
  {
    hide Enabled, Apply, Components, Conserved, InnerReceive, TicksLinked, Causal, Stations, RunFrom;
    InitialInv(c, recvLeft);
    RunInv(c, Initial(c, recvLeft), schedule, s);
    StationsFrom(c, Initial(c, recvLeft), schedule, s);
    PlanLength(c, s.handler);
  }

  // ----- the stop request to the manager -----

  /** The manager has decided on one more Read. */
  function Decided(pc: Manager.Pc): nat {
    if pc.ParAdd? || pc.ParGo? then 1 else 0
  }

  /** From m to m' no Read begins beyond the one decided on. */
  ghost predicate NoNewRead(m: Manager.State, m': Manager.State) {
    && |m.tasks| <= |m'.tasks|
    && |m'.tasks| + Decided(m'.pc) == |m.tasks| + Decided(m.pc)
    && m'.got == m.got
    && m.log <= m'.log
    && forall a :: |m.log| <= a < |m'.log| ==> !m'.log[a].SerBegun?
  }

  lemma HeedsAction(c: Manager.Config, m: Manager.State, a: Manager.Action)
    requires Manager.Enabled(c, m, a) && !a.ParDefault? && !a.SerDefault? && !a.Tick?
    ensures NoNewRead(m, Manager.Apply(c, m, a))
  {
  }

  lemma HeedsStep(c: Config, s: State, l: Label)
    requires Enabled(c, s, l) && TickerStage(s) && ManagerStage(s) && s.handler.Stage() >= 3
    ensures NoNewRead(s.manager, Apply(c, s, l).manager)
  {
    hide Manager.Apply, Router.Enabled, Router.Apply, NoNewRead, Ticker.Apply;
    hide ApplyColl, ApplyRecv, ApplyOuts, ApplyCache, TickerAct, RouterAct;
    if ManagerAct(c, s, l).Some? {
      HeedsAction(c.mgr, s.manager, ManagerAct(c, s, l).value);
    } else {
      NoRead(s.manager);
    }
  }

  lemma NoRead(m: Manager.State)
    ensures NoNewRead(m, m)
  {
  }

  lemma {:induction false} HeedsFrom(c: Config, s: State, schedule: seq<Label>, s': State)
    requires Inv(c, s) && s.handler.Stage() >= 3 && RunFrom(c, s, schedule) == Some(s')
    ensures NoNewRead(s.manager, s'.manager)
    decreases |schedule|
  {
    hide Enabled, Apply, Components, Conserved, InnerReceive, TicksLinked, Causal, NoNewRead;
    hide RouterStage, CacheStage, TickerStage, ManagerStage;
    if schedule == [] {
      NoRead(s.manager);
    } else {
      var s1 := Apply(c, s, schedule[0]);
      HeedsStep(c, s, schedule[0]);
      StepInv(c, s, schedule[0]);
      StageGrows(c, s, schedule[0]);
      HeedsFrom(c, s1, schedule[1..], s');
      NoReadTwice(s.manager, s1.manager, s'.manager);
    }
  }

  lemma NoReadTwice(m: Manager.State, m1: Manager.State, m2: Manager.State)
    requires NoNewRead(m, m1) && NoNewRead(m1, m2)
    ensures NoNewRead(m, m2)
  {
  }

  lemma StageGrows(c: Config, s: State, l: Label)
    requires Enabled(c, s, l) && CacheStage(c, s)
    ensures s.handler.Stage() <= Apply(c, s, l).handler.Stage()
  {
    hide Ticker.Enabled, Ticker.Apply, Manager.Enabled, Manager.Apply, Router.Enabled, Router.Apply;
    hide ApplyColl, ApplyRecv, ApplyOuts, ApplyCache, TickerAct, ManagerAct, RouterAct;
  }

  /** Once the handler waits to stop the manager, no serial Read begins any more, and of the parallel ones at most the
      one the manager has already decided on. */
  lemma StopHeeded(c: Config, s: State, schedule: seq<Label>, s': State)
    requires Reachable(c, s) && s.handler.ManagerSend? && RunFrom(c, s, schedule) == Some(s')
    ensures var m, m' := s.manager, s'.manager;
            && |m.tasks| <= |m'.tasks| <= |m.tasks| + (if m.pc.ParAdd? || m.pc.ParGo? then 1 else 0)
            && m.log <= m'.log && (forall a :: |m.log| <= a < |m'.log| ==> !m'.log[a].SerBegun?)
  {
    hide Reachable, RunFrom, Inv;
    ReachableInv(c, s);
    HeedsFrom(c, s, schedule, s');
  }
}
