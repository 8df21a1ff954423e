/** Shutdown never gets stuck and terminates. */
module Shutdown {
  import opened Common
  import opened Pipeline
  import opened PipelineInvariant
  import Ticker
  import Manager
  import ManagerRounds
  import Router

  // ----- progress: while the handler is not finished, the program can move -----

  /** Labels of the program and of the sinks that drain its outputs; not the timer, the signal or the receivers. */
  predicate ProgramLabel(l: Label) {
    !l.Signal? && !l.TimerFire? && !l.ReceiverSend?
  }

  ghost predicate CanMove(c: Config, s: State) {
    exists l :: ProgramLabel(l) && Enabled(c, s, l)
  }

  /** A router that is between two visits to its select is never stuck, provided the sinks drain. */
  lemma RouterMoves(c: Config, s: State)
    requires c.Valid() && OutsConserved(c, s) && InnerReceive(s) && Router.OutputInv(c.router, s.router)
    requires Router.Busy(s.router.pc)
    ensures CanMove(c, s)
  {
    hide Ticker.Enabled, Manager.Enabled, Router.Emitted, Router.ForCache;
    if s.router.pc.BatchRecv? {
      assert Enabled(c, s, TakeFrom(s.router.pc.src));
    } else if RouterSends(c, s, RouterStep) && |s.outs[s.router.pc.i]| >= c.outCap {
      assert Enabled(c, s, Drain(s.router.pc.i));
    } else {
      assert Enabled(c, s, RouterStep);
    }
  }

  predicate RouterRuns(s: State) {
    s.router.pc.Select? || Router.Busy(s.router.pc)
  }

  ghost predicate RouterReady(c: Config, s: State) {
    c.Valid() && OutsConserved(c, s) && InnerReceive(s) && Router.OutputInv(c.router, s.router) && RouterRuns(s)
  }

  /** A full input channel does not stop the program: the router takes from it. */
  lemma FullChannelMoves(c: Config, s: State)
    requires RouterReady(c, s) && s.coll != []
    ensures CanMove(c, s)
  {
    if s.router.pc.Select? {
      assert Enabled(c, s, TakeFrom(Router.Coll));
    } else {
      RouterMoves(c, s);
    }
  }

  // ----- what the parties that carry the shutdown want to do next -----

  /** The steps that bring the startup to its end and the shutdown forward while collectors and receivers may still
      send. */
  predicate Carries(l: Label) {
    l.Main? || l.CloseTicker? || l.Mgr? || l.StopManager? || l.Handle?
  }

  /** Such a step is possible, or would be if there were room in the collectors' channel. */
  predicate Wants(c: Config, s: State, l: Label) {
    Carries(l) && Enabled(c, s.(coll := []), l)
  }

  lemma WantsEnabled(c: Config, s: State, l: Label)
    requires Wants(c, s, l) && (|s.coll| < c.collCap || !l.Mgr? || !Puts(l.a))
    ensures Enabled(c, s, l)
  {
  }

  lemma MgrWants(c: Config, s: State, a: Manager.Action)
    requires c.Valid() && Internal(a) && Manager.Enabled(c.mgr, s.manager, a)
    requires a.ParDefault? || a.SerDefault? ==> !s.handler.ManagerSend?
    ensures Wants(c, s, Mgr(a))
  {
  }

  /** A Read in flight has something to do. */
  lemma TaskWants(c: Config, s: State, k: nat) returns (l: Label)
    requires c.Valid() && k < |s.manager.tasks| && s.manager.tasks[k].Active() && s.manager.wg > 0
    ensures Wants(c, s, l)
  {
    var a :=
      match s.manager.tasks[k].phase
      case Spawned => Manager.Begin(k, [])
      case Returned(_) => Manager.WgDone(k)
      case Reading(_, left) => if left == [] then Manager.Return(k) else Manager.Send(k)
      case Finished(_) => Manager.Start;
    MgrWants(c, s, a);
    l := Mgr(a);
  }

  lemma WaitWants(c: Config, s: State) returns (l: Label)
    requires c.Valid() && (s.manager.pc.Wait? || s.manager.pc.DoneWait?) && Manager.WgInv(s.manager)
    ensures Wants(c, s, l)
  {
    if s.manager.wg == 0 {
      MgrWants(c, s, Manager.WgWait);
      l := Mgr(Manager.WgWait);
    } else {
      Manager.InFlightZero(s.manager.tasks);
      var k :| 0 <= k < |s.manager.tasks| && s.manager.tasks[k].Active();
      l := TaskWants(c, s, k);
    }
  }

  lemma StopManagerWanted(c: Config, s: State)
    requires s.handler.ManagerSend? && Manager.Enabled(c.mgr, s.manager, Manager.Accept)
    ensures Wants(c, s, StopManager)
  {
  }

  /** The stop request reaches the collector manager, wherever it is. */
  lemma ManagerSendWants(c: Config, s: State) returns (l: Label)
    requires c.Valid() && Manager.Inv(c.mgr, s.manager)
    requires s.handler.ManagerSend? && !s.manager.pc.NotStarted? && !ManagerStopping(s.manager.pc)
    ensures Wants(c, s, l)
  {
    if s.manager.pc.Wait? {
      l := WaitWants(c, s);
    } else if Manager.Enabled(c.mgr, s.manager, Manager.Accept) {
      StopManagerWanted(c, s);
      l := StopManager;
    } else {
      var a :=
        match s.manager.pc
        case ParPoll(_) => Manager.ParEnd
        case ParAdd(_) => Manager.Add
        case ParGo(_) => Manager.Go
        case SerPoll(_) => Manager.SerEnd
        case SerRead(_, _, left) => if left == [] then Manager.SerReturn else Manager.SerSend
        case _ => Manager.Start;
      MgrWants(c, s, a);
      l := Mgr(a);
    }
  }

  /** The manager that has been told to stop goes on until it has closed the channel. */
  lemma ManagerWaitWants(c: Config, s: State) returns (l: Label)
    requires c.Valid() && Manager.Inv(c.mgr, s.manager)
    requires s.handler.ManagerWait? && ManagerStopping(s.manager.pc)
    ensures Wants(c, s, l)
  {
    if s.manager.pc.DoneWait? {
      l := WaitWants(c, s);
    } else if s.manager.pc.Ended? {
      l := Handle;
    } else {
      var a :=
        if s.manager.pc.CloseDone? then Manager.CloseChannel
        else if s.manager.pc.i < c.mgr.nPar then Manager.CloseOne
        else Manager.CloseEnd;
      MgrWants(c, s, a);
      l := Mgr(a);
    }
  }

  lemma MainWanted(c: Config, s: State)
    requires Stages(c, s) && s.main < 8 && Router.StampInv(c.router, s.router)
    ensures Wants(c, s, Main(s.ticker.clock))
  {
  }

  lemma TickerWanted(c: Config, s: State) returns (l: Label)
    requires TickerStage(s) && s.handler.TickerWait?
    ensures Wants(c, s, l)
  {
    l := if s.ticker.pc.Closing? then CloseTicker else Handle;
  }

  /** Between the stop of the ticker and the close of the receivers, somebody who carries the shutdown has something to
      do. */
  lemma SomebodyWants(c: Config, s: State) returns (l: Label)
    requires c.Valid() && Components(c, s) && Stages(c, s) && 2 <= s.handler.Stage() <= 5
    ensures Wants(c, s, l) && (s.main < 8 ==> l.Main?)
  {
    hide ManagerRounds.Inv, Router.BatchInv, Router.Emitted, Router.ForCache;
    if s.main < 8 {
      MainWanted(c, s);
      l := Main(s.ticker.clock);
    } else if s.handler.TickerWait? {
      l := TickerWanted(c, s);
    } else if s.handler.ManagerSend? {
      l := ManagerSendWants(c, s);
    } else if s.handler.ManagerWait? {
      l := ManagerWaitWants(c, s);
    } else {
      l := Handle;
    }
  }

  lemma WantsMoves(c: Config, s: State, l: Label)
    requires Wants(c, s, l) && (!l.Main? ==> RouterReady(c, s))
    ensures CanMove(c, s)
  {
    if l.Mgr? && |s.coll| >= c.collCap {
      FullChannelMoves(c, s);
    } else {
      WantsEnabled(c, s, l);
    }
  }

  lemma RouterIsReady(c: Config, s: State)
    requires c.Valid() && Inv(c, s) && s.main > 4 && s.handler.Stage() <= 6
    ensures RouterReady(c, s)
  {
  }

  // ----- the other stages -----

  lemma CacheMoves(c: Config, s: State)
    requires s.router.pc.Ended? && (s.handler.CacheSend? || s.handler.CacheWait?) && !s.cache.NotStarted?
    requires s.handler.CacheSend? ==> !s.cache.Closing? && !s.cache.Ended?
    requires s.handler.CacheWait? ==> s.cache.Closing? || s.cache.Ended?
    ensures CanMove(c, s)
  {
    hide Ticker.Enabled, Manager.Enabled, Router.Enabled;
    match s.cache
    case Select => assert Enabled(c, s, StopCache);
    case Evaluating(left) => if left == [] { assert Enabled(c, s, EvalEnd); } else { assert Enabled(c, s, AggDrop); }
    case Closing => assert Enabled(c, s, CloseCache);
    case Ended => assert Enabled(c, s, Handle);
  }

  lemma RouterStopMoves(c: Config, s: State)
    requires s.handler.RouterSend? ==> RouterReady(c, s)
    requires s.handler.RouterSend? || (s.handler.RouterWait? && (s.router.pc.Closing? || s.router.pc.Ended?))
    ensures CanMove(c, s)
  {
    if s.handler.RouterSend? {
      if s.router.pc.Select? { assert Enabled(c, s, StopRouter); } else { RouterMoves(c, s); }
    } else if s.router.pc.Closing? {
      assert Enabled(c, s, RouterStep);
    } else {
      assert Enabled(c, s, Handle);
    }
  }

  /** Deadlock freedom: once the signal has arrived, in every reachable state some step of the program or of a
      sink is possible, until the shutdown handler has finished. */
  lemma NeverStuck(c: Config, s: State)
    requires c.Valid() && Inv(c, s)
    requires 1 <= s.handler.Stage() && !s.handler.Finished?
    ensures CanMove(c, s)
  {
    hide ManagerRounds.Inv, Router.BatchInv, Router.Emitted, Router.ForCache;
    if s.handler.Stage() == 1 {
      assert Enabled(c, s, StopTicker);
    } else if s.handler.Stage() <= 5 {
      var l := SomebodyWants(c, s);
      if !l.Main? { RouterIsReady(c, s); }
      WantsMoves(c, s, l);
    } else if s.main < 8 {
      MainWanted(c, s);
      WantsMoves(c, s, Main(s.ticker.clock));
    } else {
      LateStages(c, s);
    }
  }

  lemma LateStages(c: Config, s: State)
    requires c.Valid() && Inv(c, s) && s.main == 8
    requires 6 <= s.handler.Stage() && !s.handler.Finished?
    ensures CanMove(c, s)
  {
    hide ManagerRounds.Inv, Router.BatchInv, Router.Emitted, Router.ForCache;
    if s.handler.RouterSend? { RouterIsReady(c, s); }
    match s.handler
    case RouterSend => RouterStopMoves(c, s);
    case RouterWait => RouterStopMoves(c, s);
    case CacheSend => CacheMoves(c, s);
    case CacheWait => CacheMoves(c, s);
    case Sinks => assert Enabled(c, s, Handle);
  }

  // ----- termination: a rank that every step after the ticker stopped makes smaller -----

  /** Compared lexicographically, from the first component to the last. */
  datatype Rank = Rank(
    phases: nat,        // startup and shutdown stages to come
    arrivals: nat,      // messages the receivers will still send, if that is bounded
    round: nat,         // what the manager still has to do in this round, or to close
    unstarted: nat,     // Read goroutines that have not entered Read
    work: nat,          // sends left in running Reads and in the aggregation
    buffered: nat,      // messages in the router's inputs
    routing: nat,       // what the router still has to do with the current message
    drains: nat)        // messages in the router's outputs, and loose ends
  {
    predicate Below(r: Rank) {
      || phases < r.phases
      || (phases == r.phases && (
        || arrivals < r.arrivals
        || (arrivals == r.arrivals && (
          || round < r.round
          || (round == r.round && (
            || unstarted < r.unstarted
            || (unstarted == r.unstarted && (
              || work < r.work
              || (work == r.work && (
                || buffered < r.buffered
                || (buffered == r.buffered && (
                  || routing < r.routing
                  || (routing == r.routing && drains < r.drains)))))))))))))
    }
  }

  function RoundLeft(c: Manager.Config, pc: Manager.Pc): int {
    match pc
    case NotStarted => 0
    case Select => 0
    case ParPoll(i) => 2 * c.nSer + 3 + 3 * (c.nPar - i)
    case ParAdd(i) => 2 * c.nSer + 2 + 3 * (c.nPar - i)
    case ParGo(i) => 2 * c.nSer + 1 + 3 * (c.nPar - i)
    case Wait => 2 * c.nSer + 2
    case SerPoll(i) => 2 * (c.nSer - i) + 1
    case SerRead(i, _, _) => 2 * (c.nSer - i)
    case DoneWait => c.nPar + 3
    case Closing(i) => c.nPar - i + 2
    case CloseDone => 1
    case Ended => 0
  }

  function Unstarted(tasks: seq<Manager.Task>): nat {
    if tasks == [] then 0
    else Unstarted(tasks[..|tasks| - 1]) + (if tasks[|tasks| - 1].phase.Spawned? then 1 else 0)
  }

  function PhaseWork(p: Manager.Phase): nat {
    match p
    case Spawned => 0
    case Reading(_, left) => |left| + 2
    case Returned(_) => 1
    case Finished(_) => 0
  }

  function TaskWork(tasks: seq<Manager.Task>): nat {
    if tasks == [] then 0
    else TaskWork(tasks[..|tasks| - 1]) + PhaseWork(tasks[|tasks| - 1].phase)
  }

  function SerialWork(pc: Manager.Pc): nat {
    if pc.SerRead? then |pc.left| else 0
  }

  function CacheWork(cache: Cache): nat {
    if cache.Evaluating? then |cache.left| + 1 else 0
  }

  function Routing(c: Router.Config, pc: Router.Pc): int {
    match pc
    case Forward(_, m, i, _) => if m.Forwarded() then 4 + c.nOut - i else 4
    case CacheAdd(_, _) => 3
    case Batch(_, _) => 2
    case BatchRecv(_, _) => 1
    case Closing => 1
    case _ => 0
  }

  function Buffered(outs: seq<seq<Msg>>): nat {
    if outs == [] then 0 else Buffered(outs[..|outs| - 1]) + |outs[|outs| - 1]|
  }

  function Loose(s: State): nat {
    (if s.ticker.timer.None? then 1 else 0) + (if s.ticker.pc.Closing? then 1 else 0)
    + (if s.cache.Closing? then 1 else 0)
  }

  ghost predicate Ranked(c: Config, s: State) {
    && s.main <= 8 && Manager.Bounds(c.mgr, s.manager)
    && (s.router.pc.Forward? ==> s.router.pc.i <= c.router.nOut)
  }

  ghost function RankOf(c: Config, s: State): Rank
    requires Ranked(c, s)
  {
    Rank(8 - s.main + 11 - s.handler.Stage(),
         if s.recvLeft.Some? then s.recvLeft.value else 0,
         RoundLeft(c.mgr, s.manager.pc),
         Unstarted(s.manager.tasks),
         TaskWork(s.manager.tasks) + SerialWork(s.manager.pc) + CacheWork(s.cache),
         |s.coll| + |s.recv|,
         Routing(c.router, s.router.pc),
         Buffered(s.outs) + Loose(s))
  }

  lemma {:induction false} TasksUpdate(tasks: seq<Manager.Task>, k: nat, t: Manager.Task)
    requires k < |tasks|
    ensures TaskWork(tasks[k := t]) == TaskWork(tasks) + PhaseWork(t.phase) - PhaseWork(tasks[k].phase)
    ensures Unstarted(tasks[k := t]) ==
            Unstarted(tasks) + (if t.phase.Spawned? then 1 else 0) - (if tasks[k].phase.Spawned? then 1 else 0)
  {
    var n := |tasks| - 1;
    if k < n {
      TasksUpdate(tasks[..n], k, t);
      assert tasks[k := t][..n] == tasks[..n][k := t];
    } else {
      assert tasks[k := t][..n] == tasks[..n];
    }
  }

  lemma {:induction false} BufferedUpdate(outs: seq<seq<Msg>>, k: nat, q: seq<Msg>)
    requires k < |outs|
    ensures Buffered(outs[k := q]) == Buffered(outs) + |q| - |outs[k]|
  {
    var n := |outs| - 1;
    if k < n {
      BufferedUpdate(outs[..n], k, q);
      assert outs[k := q][..n] == outs[..n][k := q];
    } else {
      assert outs[k := q][..n] == outs[..n];
    }
  }

  /** What an action of the manager does to its part of the rank. */
  lemma ManagerRank(c: Manager.Config, m: Manager.State, a: Manager.Action)
    requires Manager.Enabled(c, m, a) && Internal(a) && Manager.Bounds(c, m)
    ensures var m' := Manager.Apply(c, m, a);
            && Manager.Bounds(c, m')
            && (|| RoundLeft(c, m'.pc) < RoundLeft(c, m.pc)
                || (RoundLeft(c, m'.pc) == RoundLeft(c, m.pc) && (
                    || Unstarted(m'.tasks) < Unstarted(m.tasks)
                    || (Unstarted(m'.tasks) == Unstarted(m.tasks)
                        && TaskWork(m'.tasks) + SerialWork(m'.pc) < TaskWork(m.tasks) + SerialWork(m.pc)))))
  {
    match a
    case Begin(k, left) => TasksUpdate(m.tasks, k, m.tasks[k].(phase := Manager.Reading(left, left)));
    case Send(k) => TasksUpdate(m.tasks, k, Manager.Apply(c, m, a).tasks[k]);
    case Return(k) => TasksUpdate(m.tasks, k, Manager.Apply(c, m, a).tasks[k]);
    case WgDone(k) => TasksUpdate(m.tasks, k, Manager.Apply(c, m, a).tasks[k]);
    case _ =>
  }

  predicate TickerStopped(s: State) {
    s.ticker.pc.Closing? || s.ticker.pc.Ended?
  }

  predicate MovesPhase(l: Label) {
    l.Main? || l.StopManager? || l.StopRouter? || l.StopCache? || l.Handle?
  }

  lemma PhaseRanked(c: Config, s: State, l: Label)
    requires Ranked(c, s) && Enabled(c, s, l) && MovesPhase(l)
    ensures Ranked(c, Apply(c, s, l))
  {
    hide Ticker.Enabled, Ticker.Apply, TickerAct, ApplyColl, ApplyRecv, ApplyOuts, ApplyCache;
  }

  lemma PhaseFalls(c: Config, s: State, l: Label)
    requires Ranked(c, s) && TickerStopped(s) && Enabled(c, s, l) && MovesPhase(l) && !s.handler.Running?
    ensures var s' := Apply(c, s, l); 8 - s'.main + 11 - s'.handler.Stage() < 8 - s.main + 11 - s.handler.Stage()
  {
    hide Ticker.Enabled, Ticker.Apply, Manager.Enabled, Manager.Apply, Router.Enabled, Router.Apply;
    hide TickerAct, ManagerAct, RouterAct, ApplyColl, ApplyRecv, ApplyOuts, ApplyCache;
  }

  lemma PhaseRank(c: Config, s: State, l: Label)
    requires Ranked(c, s) && TickerStopped(s) && Enabled(c, s, l) && MovesPhase(l) && !s.handler.Running?
    ensures Ranked(c, Apply(c, s, l)) && RankOf(c, Apply(c, s, l)).Below(RankOf(c, s))
  {
    hide Enabled, Apply, Ranked, TickerStopped;
    PhaseRanked(c, s, l);
    PhaseFalls(c, s, l);
  }

  lemma ManagerLabelRank(c: Config, s: State, l: Label)
    requires Ranked(c, s) && Enabled(c, s, l) && l.Mgr?
    ensures Ranked(c, Apply(c, s, l)) && RankOf(c, Apply(c, s, l)).Below(RankOf(c, s))
  {
    ManagerRank(c.mgr, s.manager, l.a);
  }

  lemma RouterStepRank(c: Config, s: State)
    requires Ranked(c, s) && Enabled(c, s, RouterStep)
    ensures Ranked(c, Apply(c, s, RouterStep)) && RankOf(c, Apply(c, s, RouterStep)).Below(RankOf(c, s))
  {
  }

  lemma TakeRank(c: Config, s: State, l: Label)
    requires Ranked(c, s) && Enabled(c, s, l) && (l.TakeFrom? || l.AggSend?)
    ensures Ranked(c, Apply(c, s, l)) && RankOf(c, Apply(c, s, l)).Below(RankOf(c, s))
  {
  }

  lemma DrainRank(c: Config, s: State, j: nat)
    requires Ranked(c, s) && Enabled(c, s, Drain(j))
    ensures Ranked(c, Apply(c, s, Drain(j))) && RankOf(c, Apply(c, s, Drain(j))).Below(RankOf(c, s))
  {
    BufferedUpdate(s.outs, j, s.outs[j][1..]);
  }

  lemma TickerRank(c: Config, s: State, l: Label)
    requires Ranked(c, s) && Enabled(c, s, l) && (l.TimerFire? || l.CloseTicker?)
    ensures Ranked(c, Apply(c, s, l)) && RankOf(c, Apply(c, s, l)).Below(RankOf(c, s))
  {
    hide Manager.Enabled, Manager.Apply, Router.Enabled, Router.Apply;
  }

  lemma CacheRank(c: Config, s: State, l: Label)
    requires Ranked(c, s) && Enabled(c, s, l) && (l.AggDrop? || l.EvalEnd? || l.CloseCache?)
    ensures Ranked(c, Apply(c, s, l)) && RankOf(c, Apply(c, s, l)).Below(RankOf(c, s))
  {
    hide Ticker.Enabled, Ticker.Apply, Manager.Enabled, Manager.Apply, Router.Enabled, Router.Apply;
  }

  lemma ArrivalRank(c: Config, s: State, m: Msg)
    requires Ranked(c, s) && Enabled(c, s, ReceiverSend(m)) && s.recvLeft.Some?
    ensures var s' := Apply(c, s, ReceiverSend(m)); Ranked(c, s') && RankOf(c, s').Below(RankOf(c, s))
  {
    hide Ticker.Enabled, Ticker.Apply, Manager.Enabled, Manager.Apply, Router.Enabled, Router.Apply;
  }

  /** Once the ticker has been told to stop, every step of every component, and of the environment, makes the
      rank smaller; the one exception is one more message of receivers that never run out of them. */
  lemma RankStep(c: Config, s: State, l: Label)
    requires Ranked(c, s) && TickerStopped(s) && 2 <= s.handler.Stage() && Enabled(c, s, l)
    requires l.ReceiverSend? ==> s.recvLeft.Some?
    ensures Ranked(c, Apply(c, s, l)) && RankOf(c, Apply(c, s, l)).Below(RankOf(c, s))
  {
    hide Ranked, RankOf, Manager.Enabled, Router.Enabled;
    hide Apply, ManagerAct, RouterAct;
    match l
    case Mgr(_) => ManagerLabelRank(c, s, l);
    case RouterStep => RouterStepRank(c, s);
    case TakeFrom(_) => TakeRank(c, s, l);
    case AggSend => TakeRank(c, s, l);
    case Drain(j) => DrainRank(c, s, j);
    case Main(_) => PhaseRank(c, s, l);
    case StopManager => PhaseRank(c, s, l);
    case StopRouter => PhaseRank(c, s, l);
    case StopCache => PhaseRank(c, s, l);
    case Handle => PhaseRank(c, s, l);
    case TimerFire(_) => TickerRank(c, s, l);
    case CloseTicker => TickerRank(c, s, l);
    case ReceiverSend(m) => ArrivalRank(c, s, m);
    case _ => CacheRank(c, s, l);
  }
}
