/** The whole program: main goroutine, shutdown handler, ticker, collector manager with its readers, router,
    metric cache, receivers and sinks, joined by channels. A step of the system is one label; a label names
    the action of every component taking part in it, so that a send and a receive on an unbuffered channel
    are one step. */
module Pipeline {
  import opened Common
  import Ticker
  import Manager
  import Router

  /** Progress of shutdownHandler. A `Send` stage waits to hand over the stop request, the `Wait` stage after
      it waits for the channel to be closed. */
  datatype Handler =
    | Running
    | TickerSend | TickerWait
    | ManagerSend | ManagerWait
    | Receivers
    | RouterSend | RouterWait
    | CacheSend | CacheWait
    | Sinks
    | Finished
  {
    function Stage(): nat {
      match this
      case Running => 0
      case TickerSend => 1
      case TickerWait => 2
      case ManagerSend => 3
      case ManagerWait => 4
      case Receivers => 5
      case RouterSend => 6
      case RouterWait => 7
      case CacheSend => 8
      case CacheWait => 9
      case Sinks => 10
      case Finished => 11
    }
  }

  /** The cache goroutine; Evaluating holds the aggregates still to be offered to the router. */
  datatype Cache = NotStarted | Select | Evaluating(left: seq<Msg>) | Closing | Ended

  datatype Config = Config(
    mgr: Manager.Config, router: Router.Config,
    collCap: nat, recvCap: nat, outCap: nat,     // channel capacities
    useRecv: bool)
  {
    predicate Valid() {
      collCap > 0 && recvCap > 0 && outCap > 0
    }
    /** Numbers of the channels registered with the ticker, in the order of registration. */
    function CacheChan(): nat { if router.intervalStamp then 1 else 0 }
    function ManagerChan(): nat { CacheChan() + if router.cacheOn then 1 else 0 }
  }

  datatype State = State(
    main: nat,                  // next startup action of mainFunc
    handler: Handler,
    ticker: Ticker.State,
    manager: Manager.State,
    router: Router.State,
    cache: Cache,
    coll: seq<Msg>,             // channel from collectors to router
    recv: seq<Msg>,             // channel from receivers to router
    received: seq<Msg>,         // everything the receivers ever sent
    outs: seq<seq<Msg>>,        // channels from router to sinks
    sunk: seq<seq<Msg>>,        // what each sink has taken from its channel
    recvLeft: Option<nat>)      // how many more messages the receivers will send, None: no bound

  datatype Label =
    | Signal                                  // interrupt or termination signal
    | Main(now: Time)                         // next startup action
    | TimerFire(now: Time) | TickerTake
    | Deliver(aggregates: seq<Msg>)           // the ticker hands a tick to the next channel's owner
    | StopTicker | CloseTicker
    | Mgr(a: Manager.Action) | StopManager
    | TakeFrom(src: Router.Source)            // the router takes a message from an input
    | RouterStep | StopRouter
    | AggSend | AggDrop | EvalEnd | StopCache | CloseCache
    | ReceiverSend(m: Msg)
    | Drain(j: nat)                           // sink j takes a message
    | Handle                                  // the shutdown handler moves on by itself

  function Initial(c: Config, recvLeft: Option<nat>): State {
    State(0, Running, Ticker.INITIAL, Manager.Initial(c.mgr), Router.Initial(c.router), NotStarted,
          [], [], [], seq(c.router.nOut, _ => []), seq(c.router.nOut, _ => []), recvLeft)
  }

  datatype Owner = OfRouter | OfCache | OfManager

  function OwnerOf(c: Config, channel: nat): Owner {
    if c.router.intervalStamp && channel == 0 then OfRouter
    else if c.router.cacheOn && channel == c.CacheChan() then OfCache
    else OfManager
  }

  predicate DeliverTo(c: Config, s: State, l: Label, o: Owner) {
    l.Deliver? && s.ticker.pc.Sending? && OwnerOf(c, s.ticker.pc.next) == o
  }

  /** The part each component plays in a label. */
  function TickerAct(c: Config, s: State, l: Label): Option<Ticker.Action> {
    match l
    case Main(now) =>
      if s.main == 0 then Some(Ticker.Observe(now))
      else if (s.main == 1 && c.router.intervalStamp) || (s.main == 2 && c.router.cacheOn) || s.main == 5
      then Some(Ticker.Register)
      else None
    case TimerFire(now) => Some(Ticker.Fire(now))
    case TickerTake => Some(Ticker.Take)
    case Deliver(_) => Some(Ticker.Deliver)
    case StopTicker => Some(Ticker.Accept)
    case CloseTicker => Some(Ticker.Close)
    case _ => None
  }

  function ManagerAct(c: Config, s: State, l: Label): Option<Manager.Action> {
    match l
    case Main(_) => if s.main == 6 then Some(Manager.Start) else None
    case Deliver(_) => if DeliverTo(c, s, l, OfManager) then Some(Manager.Tick(s.ticker.pc.ts)) else None
    case Mgr(a) => Some(a)
    case StopManager => Some(Manager.Accept)
    case _ => None
  }

  function RouterAct(c: Config, s: State, l: Label): Option<Router.Action> {
    match l
    case Main(now) =>
      if s.main == 0 then Some(Router.SetStart(now)) else if s.main == 4 then Some(Router.Start) else None
    case Deliver(_) => if DeliverTo(c, s, l, OfRouter) then Some(Router.Tick(s.ticker.pc.ts)) else None
    case TakeFrom(src) =>
      var m := if Input(s, src) == [] then Msg(0, 0) else Input(s, src)[0];
      if s.router.pc.BatchRecv? then Some(Router.Next(m)) else Some(Router.Receive(src, m))
    case AggSend =>
      Some(Router.Receive(Router.Agg, if s.cache.Evaluating? && s.cache.left != [] then s.cache.left[0] else Msg(0, 0)))
    case RouterStep =>
      if s.router.pc.Forward? then
        if s.router.pc.m.Forwarded() && s.router.pc.i < c.router.nOut then Some(Router.Send) else Some(Router.Finish)
      else if s.router.pc.CacheAdd? then Some(Router.AddToCache)
      else if s.router.pc.Batch? then Some(Router.Check(|Input(s, s.router.pc.src)|))
      else Some(Router.Close)
    case StopRouter => Some(Router.Accept)
    case _ => None
  }

  /** What `len` and a receive see of an input; the channel from the cache is unbuffered. */
  function Input(s: State, src: Router.Source): seq<Msg> {
    match src
    case Coll => s.coll
    case Recv => s.recv
    case Agg => []
  }

  predicate Internal(a: Manager.Action) {
    !a.Start? && !a.Tick? && !a.Accept?
  }

  predicate Puts(a: Manager.Action) {
    a.Send? || a.SerSend?
  }

  /** Conditions of a label beyond those of the single components. */
  predicate Ready(c: Config, s: State, l: Label) {
    match l
    case Signal => s.handler.Running?
    case Main(_) => s.main < 8
    case TimerFire(_) => true
    case TickerTake => true
    case Deliver(_) => DeliverTo(c, s, l, OfCache) ==> s.cache.Select?
    case StopTicker => s.handler.TickerSend?
    case CloseTicker => true
    case Mgr(a) =>
      && Internal(a)
      // `default` is taken only when nobody waits to send on `done`
      && (a.ParDefault? || a.SerDefault? ==> !s.handler.ManagerSend?)
      && (Puts(a) ==> |s.coll| < c.collCap)
    case StopManager => s.handler.ManagerSend?
    case TakeFrom(src) => Input(s, src) != [] && (s.router.pc.BatchRecv? ==> s.router.pc.src == src)
    case RouterStep =>
      if s.router.pc.Forward? then
        s.router.pc.m.Forwarded() && s.router.pc.i < c.router.nOut ==>
          s.router.pc.i < |s.outs| && |s.outs[s.router.pc.i]| < c.outCap
      else true
    case StopRouter => s.handler.RouterSend?
    case AggSend => s.cache.Evaluating? && s.cache.left != []
    case AggDrop => s.cache.Evaluating? && s.cache.left != [] && !s.router.pc.Select?
    case EvalEnd => s.cache == Evaluating([])
    case StopCache => s.handler.CacheSend? && s.cache.Select?
    case CloseCache => s.cache.Closing?
    case ReceiverSend(_) =>
      && c.useRecv && s.main == 8 && s.handler.Stage() <= Receivers.Stage()
      && |s.recv| < c.recvCap && s.recvLeft != Some(0)
    case Drain(j) => j < |s.outs| == |s.sunk| && s.outs[j] != []
    case Handle =>
      match s.handler
      case TickerWait => s.ticker.pc.Ended?
      case ManagerWait => s.manager.pc.Ended?
      case Receivers => true
      case RouterWait => s.router.pc.Ended?
      case CacheWait => s.cache.Ended?
      case Sinks => true
      case _ => false
  }

  predicate Enabled(c: Config, s: State, l: Label) {
    && Ready(c, s, l)
    && (TickerAct(c, s, l).Some? ==> Ticker.Enabled(s.ticker, TickerAct(c, s, l).value))
    && (ManagerAct(c, s, l).Some? ==> Manager.Enabled(c.mgr, s.manager, ManagerAct(c, s, l).value))
    && (RouterAct(c, s, l).Some? ==> Router.Enabled(c.router, s.router, RouterAct(c, s, l).value))
  }

  function NextHandler(c: Config, h: Handler): Handler {
    match h
    case Running => TickerSend
    case TickerSend => TickerWait
    case TickerWait => ManagerSend
    case ManagerSend => ManagerWait
    case ManagerWait => Receivers
    case Receivers => RouterSend
    case RouterSend => RouterWait
    case RouterWait => if c.router.cacheOn then CacheSend else Sinks
    case CacheSend => CacheWait
    case CacheWait => Sinks
    case Sinks => Finished
    case Finished => Finished
  }

  predicate MovesHandler(l: Label) {
    l.Signal? || l.StopTicker? || l.StopManager? || l.StopRouter? || l.StopCache? || l.Handle?
  }

  function ApplyCache(c: Config, s: State, l: Label): Cache {
    match l
    case Main(_) => if s.main == 3 && c.router.cacheOn then Select else s.cache
    case Deliver(aggregates) => if DeliverTo(c, s, l, OfCache) then Evaluating(aggregates) else s.cache
    case AggSend => if s.cache.Evaluating? && s.cache.left != [] then Evaluating(s.cache.left[1..]) else s.cache
    case AggDrop => if s.cache.Evaluating? && s.cache.left != [] then Evaluating(s.cache.left[1..]) else s.cache
    case EvalEnd => Select
    case StopCache => Closing
    case CloseCache => Ended
    case _ => s.cache
  }

  function ApplyColl(c: Config, s: State, l: Label): seq<Msg>
    requires Enabled(c, s, l)
  {
    match l
    case Mgr(a) =>
      if a.Send? then s.coll + [s.manager.tasks[a.k].phase.left[0]]
      else if a.SerSend? then s.coll + [s.manager.pc.left[0]]
      else s.coll
    case TakeFrom(src) => if src.Coll? then s.coll[1..] else s.coll
    case _ => s.coll
  }

  function ApplyRecv(c: Config, s: State, l: Label): seq<Msg>
    requires Enabled(c, s, l)
  {
    match l
    case ReceiverSend(m) => s.recv + [m]
    case TakeFrom(src) => if src.Recv? then s.recv[1..] else s.recv
    case _ => s.recv
  }

  predicate RouterSends(c: Config, s: State, l: Label) {
    l.RouterStep? && s.router.pc.Forward? && s.router.pc.m.Forwarded() && s.router.pc.i < c.router.nOut
  }

  function ApplyOuts(c: Config, s: State, l: Label): seq<seq<Msg>>
    requires Enabled(c, s, l)
  {
    if RouterSends(c, s, l) then
      var i := s.router.pc.i;
      s.outs[i := s.outs[i] + [s.router.pc.m.msg.value]]
    else if l.Drain? then s.outs[l.j := s.outs[l.j][1..]]
    else s.outs
  }

  function Apply(c: Config, s: State, l: Label): State
    requires Enabled(c, s, l)
  {
    State(
      if l.Main? then s.main + 1 else s.main,
      if MovesHandler(l) then NextHandler(c, s.handler) else s.handler,
      if TickerAct(c, s, l).Some? then Ticker.Apply(s.ticker, TickerAct(c, s, l).value) else s.ticker,
      if ManagerAct(c, s, l).Some? then Manager.Apply(c.mgr, s.manager, ManagerAct(c, s, l).value) else s.manager,
      if RouterAct(c, s, l).Some? then Router.Apply(c.router, s.router, RouterAct(c, s, l).value) else s.router,
      ApplyCache(c, s, l),
      ApplyColl(c, s, l),
      ApplyRecv(c, s, l),
      if l.ReceiverSend? then s.received + [l.m] else s.received,
      ApplyOuts(c, s, l),
      if l.Drain? then s.sunk[l.j := s.sunk[l.j] + [s.outs[l.j][0]]] else s.sunk,
      if l.ReceiverSend? && s.recvLeft.Some? then Some(s.recvLeft.value - 1) else s.recvLeft)
  }
}
