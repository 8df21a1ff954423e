/** Shutdown terminates although receivers go on sending until they are closed, in every run in which each goroutine
    gets its turn and the router does not pass over the collectors' channel for ever. */
module FairShutdown {
  import opened Common
  import opened Pipeline
  import opened PipelineInvariant
  import opened Shutdown
  import opened Liveness
  import Ticker
  import Manager
  import Router

  // ----- fairness -----

  /** Goroutines whose turn must come; the manager goroutine stands for itself and for the Reads it has started. */
  datatype Party = Starter | TickerGoroutine | ManagerGoroutine | ShutdownHandler | RouterGoroutine | Sink(j: nat)

  predicate Plays(p: Party, l: Label) {
    match p
    case Starter => l.Main?
    case TickerGoroutine => l.TickerTake? || l.Deliver? || l.CloseTicker?
    case ManagerGoroutine => l.Mgr?
    case ShutdownHandler => l.StopTicker? || l.StopManager? || l.StopRouter? || l.StopCache? || l.Handle?
    case RouterGoroutine => l.RouterStep? || l.TakeFrom? || l.AggSend?
    case Sink(j) => l == Drain(j)
  }

  ghost predicate ReadyFor(c: Config, s: State, p: Party) {
    exists l :: Plays(p, l) && Enabled(c, s, l)
  }

  ghost predicate TurnAt(c: Config, r: Run, p: Party, m: nat) {
    Plays(p, r.step(m)) || !ReadyFor(c, r.state(m), p)
  }

  ghost predicate TurnFrom(c: Config, r: Run, p: Party, n: nat) {
    exists m: nat :: n <= m && TurnAt(c, r, p, m)
  }

  /** A party that can always move does move. */
  ghost predicate WeaklyFair(c: Config, r: Run, p: Party) {
    forall n: nat :: TurnFrom(c, r, p, n)
  }

  ghost predicate OfferedFrom(c: Config, r: Run, k: nat) {
    exists m: nat :: k <= m && Enabled(c, r.state(m), TakeFrom(Router.Coll))
  }

  ghost predicate TakenFrom(r: Run, n: nat) {
    exists m: nat :: n <= m && r.step(m) == TakeFrom(Router.Coll)
  }

  /** If the router can take a collector's message again and again, it does so some time. */
  ghost predicate FairToCollectors(c: Config, r: Run) {
    forall n: nat :: (forall k: nat :: n <= k ==> OfferedFrom(c, r, k)) ==> TakenFrom(r, n)
  }

  ghost predicate Fair(c: Config, r: Run) {
    (forall p :: WeaklyFair(c, r, p)) && FairToCollectors(c, r)
  }

  lemma GetsTurn(c: Config, r: Run, p: Party, n: nat) returns (m: nat)
    requires WeaklyFair(c, r, p)
    ensures n <= m && TurnAt(c, r, p, m)
  {
    assert TurnFrom(c, r, p, n);
    m :| n <= m && TurnAt(c, r, p, m);
  }

  // ----- what one step leaves alone -----

  /** The time between the stop of the ticker and the close of the receivers. */
  predicate During(s: State) {
    2 <= s.handler.Stage() <= 5
  }

  predicate Same(s: State, s': State) {
    s'.main == s.main && s'.handler == s.handler && s'.ticker.pc == s.ticker.pc && s'.manager == s.manager
  }

  /** Only the parties that carry the shutdown change their part of the state, or put something into the collectors'
      channel. */
  lemma OthersKeep(c: Config, s: State, l: Label)
    requires TickerStage(s) && During(s) && Enabled(c, s, l) && !Carries(l)
    ensures Same(s, Apply(c, s, l)) && |Apply(c, s, l).coll| <= |s.coll|
    ensures l == TakeFrom(Router.Coll) ==> |Apply(c, s, l).coll| < |s.coll|
  {
  }

  lemma WantsKept(c: Config, s: State, s': State, l: Label)
    requires Same(s, s') && Wants(c, s, l) && !l.Main? && During(s)
    ensures Wants(c, s', l)
  {
  }

  /** While the router is busy, only its own steps change it, and only they fill an output. */
  lemma OthersKeepRouter(c: Config, s: State, l: Label)
    requires During(s) && TickerStage(s) && OutsConserved(c, s) && Enabled(c, s, l)
    requires Router.Busy(s.router.pc) && !Plays(RouterGoroutine, l) && !l.Main?
    ensures Apply(c, s, l).router == s.router && OutsShrink(s, Apply(c, s, l))
  {
  }

  predicate OutsShrink(s: State, s': State) {
    |s'.outs| == |s.outs| && forall j :: 0 <= j < |s.outs| ==> |s'.outs[j]| <= |s.outs[j]|
  }

  // ----- runs in that time -----

  ghost predicate FairRun(c: Config, r: Run) {
    c.Valid() && IsRun(c, r) && Fair(c, r)
  }

  ghost predicate StepTaken(c: Config, r: Run, m: nat) {
    Enabled(c, r.state(m), r.step(m)) && r.state(m + 1) == Apply(c, r.state(m), r.step(m))
  }

  lemma StepAt(c: Config, r: Run, m: nat)
    requires FairRun(c, r) && During(r.state(m))
    ensures StepTaken(c, r, m) && Inv(c, r.state(m))
  {
    hide Enabled, Apply, Reachable, Inv, Fair;
    RunKeepsInv(c, r, m);
    NeverStuck(c, r.state(m));
    assert FollowsAt(c, r, m);
  }

  /** Nobody carries the shutdown on between n and m. */
  ghost predicate QuietBetween(r: Run, n: nat, m: nat) {
    forall k: nat :: n <= k < m ==> !Carries(r.step(k))
  }

  ghost predicate Quiet(r: Run, n: nat) {
    forall k: nat :: n <= k ==> !Carries(r.step(k))
  }

  lemma {:induction false} QuietKeeps(c: Config, r: Run, n: nat, m: nat)
    requires FairRun(c, r) && During(r.state(n)) && n <= m && QuietBetween(r, n, m)
    ensures Same(r.state(n), r.state(m)) && |r.state(m).coll| <= |r.state(n).coll|
    decreases m - n
  {
    if n < m {
      QuietKeeps(c, r, n, m - 1);
      QuietStep(c, r, m - 1);
    }
  }

  lemma QuietStep(c: Config, r: Run, m: nat)
    requires FairRun(c, r) && During(r.state(m)) && !Carries(r.step(m))
    ensures Same(r.state(m), r.state(m + 1)) && |r.state(m + 1).coll| <= |r.state(m).coll|
    ensures r.step(m) == TakeFrom(Router.Coll) ==> |r.state(m + 1).coll| < |r.state(m).coll|
  {
    StepAt(c, r, m);
    OthersKeep(c, r.state(m), r.step(m));
  }

  // ----- the router comes back to its select -----

  /** Nobody carries the shutdown on any more, and the router has been started. */
  ghost predicate Waiting(c: Config, r: Run, n: nat) {
    FairRun(c, r) && During(r.state(n)) && r.state(n).main > 4 && Quiet(r, n)
  }

  lemma ReadyStill(c: Config, r: Run, n: nat, m: nat)
    requires Waiting(c, r, n) && n <= m
    ensures During(r.state(m)) && RouterReady(c, r.state(m))
  {
    QuietKeeps(c, r, n, m);
    RunKeepsInv(c, r, m);
    RouterIsReady(c, r.state(m));
  }

  lemma RouterRunsStill(c: Config, r: Run, n: nat, m: nat)
    requires Waiting(c, r, n) && n <= m
    ensures During(r.state(m)) && RouterRuns(r.state(m))
  {
    ReadyStill(c, r, n, m);
  }

  /** The next output is full. */
  predicate Blocked(c: Config, s: State) {
    RouterSends(c, s, RouterStep) && s.router.pc.i < |s.outs| && |s.outs[s.router.pc.i]| >= c.outCap
  }

  lemma RouterCan(c: Config, s: State)
    requires RouterReady(c, s) && Router.Busy(s.router.pc) && !Blocked(c, s)
    ensures ReadyFor(c, s, RouterGoroutine)
  {
    hide Ticker.Enabled, Manager.Enabled, Router.Emitted, Router.ForCache;
    if s.router.pc.BatchRecv? {
      assert Plays(RouterGoroutine, TakeFrom(s.router.pc.src)) && Enabled(c, s, TakeFrom(s.router.pc.src));
    } else {
      assert Plays(RouterGoroutine, RouterStep) && Enabled(c, s, RouterStep);
    }
  }

  lemma RouterCanStill(c: Config, r: Run, n: nat, m: nat)
    requires Waiting(c, r, n) && n <= m && Router.Busy(r.state(m).router.pc) && !Blocked(c, r.state(m))
    ensures ReadyFor(c, r.state(m), RouterGoroutine)
  {
    ReadyStill(c, r, n, m);
    RouterCan(c, r.state(m));
  }

  lemma SinkCan(c: Config, s: State)
    requires c.Valid() && OutsConserved(c, s) && Blocked(c, s)
    ensures ReadyFor(c, s, Sink(s.router.pc.i))
  {
    assert Plays(Sink(s.router.pc.i), Drain(s.router.pc.i)) && Enabled(c, s, Drain(s.router.pc.i));
  }

  /** The sink of a full output drains it. */
  lemma SinkMoves(c: Config, r: Run, m: nat, j: nat)
    requires FairRun(c, r) && During(r.state(m)) && TurnAt(c, r, Sink(j), m)
    requires Blocked(c, r.state(m)) && r.state(m).router.pc.i == j
    ensures !Blocked(c, r.state(m + 1))
  {
    hide Ticker.Apply, Manager.Enabled, Manager.Apply, Router.Apply, ApplyColl, ApplyRecv, ApplyCache;
    hide Components, Stages, CollConserved, RecvConserved, InnerReceive, TicksLinked, Causal;
    StepAt(c, r, m);
    SinkCan(c, r.state(m));
  }

  ghost predicate RouterRestsBetween(r: Run, k: nat, m: nat) {
    forall i: nat :: k <= i < m ==> !Plays(RouterGoroutine, r.step(i))
  }

  lemma RestStep(c: Config, r: Run, m: nat)
    requires FairRun(c, r) && During(r.state(m)) && Router.Busy(r.state(m).router.pc)
    requires !Carries(r.step(m)) && !Plays(RouterGoroutine, r.step(m))
    ensures r.state(m + 1).router == r.state(m).router && OutsShrink(r.state(m), r.state(m + 1))
  {
    StepAt(c, r, m);
    OthersKeepRouter(c, r.state(m), r.step(m));
  }

  /** While the router does not move, it stays where it is and its outputs do not fill. */
  lemma {:induction false} RestKeeps(c: Config, r: Run, n: nat, k: nat, m: nat)
    requires Waiting(c, r, n) && n <= k <= m
    requires Router.Busy(r.state(k).router.pc) && RouterRestsBetween(r, k, m)
    ensures r.state(m).router == r.state(k).router && OutsShrink(r.state(k), r.state(m))
    decreases m - k
  {
    hide Enabled, Apply, FairRun, RouterReady;
    if k < m {
      RestKeeps(c, r, n, k, m - 1);
      RouterRunsStill(c, r, n, m - 1);
      RestStep(c, r, m - 1);
    }
  }

  lemma BlockedBefore(c: Config, s: State, s': State)
    requires s'.router == s.router && OutsShrink(s, s') && Blocked(c, s')
    ensures Blocked(c, s)
  {
  }

  /** A full output is drained sooner or later, if the router does not move in between. */
  lemma Unblocked(c: Config, r: Run, n: nat, k: nat) returns (m: nat)
    requires Waiting(c, r, n) && n <= k && Router.Busy(r.state(k).router.pc)
    requires forall i: nat :: k <= i ==> !Plays(RouterGoroutine, r.step(i))
    ensures k <= m && !Blocked(c, r.state(m))
  {
    hide Enabled, Apply, IsRun, FairToCollectors, RouterReady;
    if !Blocked(c, r.state(k)) {
      return k;
    }
    var j := r.state(k).router.pc.i;
    m := GetsTurn(c, r, Sink(j), k);
    RestKeeps(c, r, n, k, m);
    RouterRunsStill(c, r, n, m);
    if Blocked(c, r.state(m)) {
      SinkMoves(c, r, m, j);
      m := m + 1;
    }
  }

  /** A busy router moves sooner or later. */
  lemma RouterMovesSoon(c: Config, r: Run, n: nat, k: nat)
    requires Waiting(c, r, n) && n <= k && Router.Busy(r.state(k).router.pc)
    ensures exists m: nat :: k <= m && Plays(RouterGoroutine, r.step(m))
  {
    if forall m: nat :: k <= m ==> !Plays(RouterGoroutine, r.step(m)) {
      var u := Unblocked(c, r, n, k);
      RestKeeps(c, r, n, k, u);
      var m := GetsTurn(c, r, RouterGoroutine, u);
      RestKeeps(c, r, n, u, m);
      if Blocked(c, r.state(m)) {
        BlockedBefore(c, r.state(u), r.state(m));
      }
      RouterCanStill(c, r, n, m);
    }
  }

  /** The first time the router moves. */
  lemma {:induction false} FirstMove(r: Run, k: nat, m: nat) returns (f: nat)
    requires k <= m && Plays(RouterGoroutine, r.step(m))
    ensures k <= f <= m && Plays(RouterGoroutine, r.step(f)) && RouterRestsBetween(r, k, f)
    decreases m - k
  {
    if Plays(RouterGoroutine, r.step(k)) {
      f := k;
    } else {
      f := FirstMove(r, k + 1, m);
    }
  }

  /** What is left of the batch. */
  function BatchLeft(c: Router.Config, pc: Router.Pc): int {
    if Router.Busy(pc) then c.Limit() - Router.BatchCount(pc) else 0
  }

  /** Nearer to the select: there, or less of the batch is left, or less of the current message. */
  predicate Nearer(c: Router.Config, pc: Router.Pc, pc': Router.Pc) {
    || pc'.Select?
    || (Router.Busy(pc') && (
         || BatchLeft(c, pc') < BatchLeft(c, pc)
         || (BatchLeft(c, pc') == BatchLeft(c, pc) && Routing(c, pc') < Routing(c, pc))))
  }

  lemma RouterGetsOn(c: Config, s: State, l: Label)
    requires Enabled(c, s, l) && Plays(RouterGoroutine, l) && Router.Busy(s.router.pc)
    requires Router.BatchInv(c.router, s.router) && Router.OutputInv(c.router, s.router)
    ensures Nearer(c.router, s.router.pc, Apply(c, s, l).router.pc)
    ensures 0 < BatchLeft(c.router, s.router.pc) && 0 <= Routing(c.router, s.router.pc)
  {
    hide Ticker.Enabled, Ticker.Apply, Manager.Enabled, Manager.Apply, ApplyColl, ApplyRecv, ApplyOuts, ApplyCache;
    hide Router.Emitted, Router.ForCache;
  }

  /** The next move of the router. */
  lemma NextMove(c: Config, r: Run, n: nat, k: nat) returns (f: nat)
    requires Waiting(c, r, n) && n <= k && Router.Busy(r.state(k).router.pc)
    ensures k <= f && Nearer(c.router, r.state(k).router.pc, r.state(f + 1).router.pc)
    ensures 0 < BatchLeft(c.router, r.state(k).router.pc) && 0 <= Routing(c.router, r.state(k).router.pc)
  {
    RouterMovesSoon(c, r, n, k);
    var some: nat :| k <= some && Plays(RouterGoroutine, r.step(some));
    f := FirstMove(r, k, some);
    RestKeeps(c, r, n, k, f);
    RouterRunsStill(c, r, n, f);
    MoveAt(c, r, f);
  }

  lemma MoveAt(c: Config, r: Run, f: nat)
    requires FairRun(c, r) && During(r.state(f)) && Router.Busy(r.state(f).router.pc)
    requires Plays(RouterGoroutine, r.step(f))
    ensures Nearer(c.router, r.state(f).router.pc, r.state(f + 1).router.pc)
    ensures 0 < BatchLeft(c.router, r.state(f).router.pc) && 0 <= Routing(c.router, r.state(f).router.pc)
  {
    StepAt(c, r, f);
    RouterGetsOn(c, r.state(f), r.step(f));
  }

  lemma {:induction false} RouterSelects(c: Config, r: Run, n: nat, k: nat) returns (m: nat)
    requires Waiting(c, r, n) && n <= k
    ensures k <= m && r.state(m).router.pc.Select?
    decreases if r.state(k).router.pc.Select? then 0 else 1,
              BatchLeft(c.router, r.state(k).router.pc), Routing(c.router, r.state(k).router.pc)
  {
    RouterRunsStill(c, r, n, k);
    if r.state(k).router.pc.Select? {
      return k;
    }
    var f := NextMove(c, r, n, k);
    m := RouterSelects(c, r, n, f + 1);
  }

  // ----- the collectors' channel gets room -----

  lemma SelectOffers(c: Config, s: State)
    requires s.router.pc.Select? && s.coll != []
    ensures Enabled(c, s, TakeFrom(Router.Coll))
  {
  }

  lemma ChannelShrinks(c: Config, r: Run, n: nat) returns (m: nat)
    requires Waiting(c, r, n) && r.state(n).coll != []
    ensures n <= m && |r.state(m).coll| < |r.state(n).coll|
  {
    if TakenFrom(r, n) {
      var t: nat :| n <= t && r.step(t) == TakeFrom(Router.Coll);
      QuietKeeps(c, r, n, t);
      QuietStep(c, r, t);
      m := t + 1;
    } else {
      var k: nat :| n <= k && !OfferedFrom(c, r, k);
      m := RouterSelects(c, r, n, k);
      if r.state(m).coll != [] {
        SelectOffers(c, r.state(m));
      }
    }
  }

  lemma {:induction false} RoomSoon(c: Config, r: Run, n: nat) returns (m: nat)
    requires Waiting(c, r, n)
    ensures n <= m && |r.state(m).coll| < c.collCap
    decreases |r.state(n).coll|
  {
    if |r.state(n).coll| < c.collCap {
      return n;
    }
    var shorter := ChannelShrinks(c, r, n);
    QuietKeeps(c, r, n, shorter);
    m := RoomSoon(c, r, shorter);
  }

  // ----- somebody always carries the shutdown on -----

  function PartyOf(l: Label): Party {
    if l.Main? then Starter
    else if l.CloseTicker? then TickerGoroutine
    else if l.Mgr? then ManagerGoroutine
    else ShutdownHandler
  }

  lemma PartyCarries(c: Config, s: State, p: Party, l: Label)
    requires TickerStage(s) && During(s) && Enabled(c, s, l)
    requires Plays(p, l) && !p.RouterGoroutine? && !p.Sink?
    ensures Carries(l)
  {
  }

  /** If nobody carries the shutdown on, none of the parties that could is able to. */
  lemma PartyMoves(c: Config, r: Run, n: nat, p: Party) returns (m: nat)
    requires FairRun(c, r) && During(r.state(n)) && Quiet(r, n) && !p.RouterGoroutine? && !p.Sink?
    ensures n <= m && !ReadyFor(c, r.state(m), p)
  {
    hide Enabled, Apply, IsRun, FairToCollectors;
    m := GetsTurn(c, r, p, n);
    QuietKeeps(c, r, n, m);
    StepAt(c, r, m);
    if Plays(p, r.step(m)) {
      PartyCarries(c, r.state(m), p, r.step(m));
    }
  }

  lemma ReadyToWant(c: Config, s: State, l: Label)
    requires Wants(c, s, l) && (|s.coll| < c.collCap || !l.Mgr? || !Puts(l.a))
    ensures ReadyFor(c, s, PartyOf(l))
  {
    WantsEnabled(c, s, l);
    assert Plays(PartyOf(l), l);
  }

  lemma SomebodyWantsAt(c: Config, r: Run, n: nat) returns (l: Label)
    requires FairRun(c, r) && During(r.state(n))
    ensures Wants(c, r.state(n), l) && (r.state(n).main < 8 ==> l.Main?)
  {
    RunKeepsInv(c, r, n);
    l := SomebodyWants(c, r.state(n));
  }

  /** What is wanted now is possible later. */
  lemma WantedLater(c: Config, r: Run, n: nat, m: nat, l: Label)
    requires FairRun(c, r) && During(r.state(n)) && Quiet(r, n) && n <= m
    requires Wants(c, r.state(n), l) && (l.Mgr? && Puts(l.a) ==> |r.state(m).coll| < c.collCap)
    ensures ReadyFor(c, r.state(m), PartyOf(l))
  {
    QuietKeeps(c, r, n, m);
    if l.Main? {
      RunKeepsInv(c, r, m);
      MainWanted(c, r.state(m));
      ReadyToWant(c, r.state(m), Main(r.state(m).ticker.clock));
    } else {
      WantsKept(c, r.state(n), r.state(m), l);
      ReadyToWant(c, r.state(m), l);
    }
  }

  lemma SomebodyCarries(c: Config, r: Run, n: nat)
    requires FairRun(c, r) && During(r.state(n))
    ensures !Quiet(r, n)
  {
    if Quiet(r, n) {
      var l := SomebodyWantsAt(c, r, n);
      var room := n;
      if l.Mgr? && Puts(l.a) {
        room := RoomSoon(c, r, n);
      }
      QuietKeeps(c, r, n, room);
      var m := PartyMoves(c, r, room, PartyOf(l));
      QuietKeeps(c, r, room, m);
      WantedLater(c, r, n, m, l);
    }
  }

  /** The first step that carries it on. */
  lemma {:induction false} FirstCarry(r: Run, n: nat, m: nat) returns (f: nat)
    requires n <= m && Carries(r.step(m))
    ensures n <= f <= m && Carries(r.step(f)) && QuietBetween(r, n, f)
    decreases m - n
  {
    if Carries(r.step(n)) {
      f := n;
    } else {
      f := FirstCarry(r, n + 1, m);
    }
  }

  // ----- and there is only so much to carry -----

  ghost function Phases(s: State): int {
    19 - s.main - s.handler.Stage()
  }

  ghost function Closing(s: State): nat {
    if s.ticker.pc.Closing? then 1 else 0
  }

  ghost function ReadsLeft(s: State): nat {
    TaskWork(s.manager.tasks) + SerialWork(s.manager.pc)
  }

  lemma CarryDecreases(c: Config, s: State, l: Label)
    requires During(s) && Ranked(c, s) && TickerStopped(s) && Enabled(c, s, l) && Carries(l)
    ensures LessToCarry(c, Apply(c, s, l), s)
  {
    if l.Mgr? {
      ManagerRank(c.mgr, s.manager, l.a);
      MgrKeepsPhases(c, s, l);
    } else if l.CloseTicker? {
      CloseDecreases(c, s);
    } else {
      PhaseRank(c, s, l);
      PhasesOf(c, s, l);
    }
  }

  lemma MgrKeepsPhases(c: Config, s: State, l: Label)
    requires Enabled(c, s, l) && l.Mgr?
    ensures var s' := Apply(c, s, l);
      && Phases(s') == Phases(s) && Closing(s') == Closing(s)
      && s'.manager == Manager.Apply(c.mgr, s.manager, l.a)
  {
  }

  lemma CloseDecreases(c: Config, s: State)
    requires Enabled(c, s, CloseTicker)
    ensures var s' := Apply(c, s, CloseTicker);
      Phases(s') == Phases(s) && Closing(s') < Closing(s) && s'.manager == s.manager
  {
  }

  lemma PhasesOf(c: Config, s: State, l: Label)
    requires Ranked(c, s) && TickerStopped(s) && 2 <= s.handler.Stage() && Enabled(c, s, l)
    requires l.Main? || l.StopManager? || l.Handle?
    ensures Phases(Apply(c, s, l)) < Phases(s) && 0 <= Phases(Apply(c, s, l))
    ensures Manager.Bounds(c.mgr, s.manager) ==> Manager.Bounds(c.mgr, Apply(c, s, l).manager)
  {
  }

  lemma {:induction false} ReceiversClose(c: Config, r: Run, n: nat) returns (k: nat)
    requires FairRun(c, r) && 2 <= r.state(n).handler.Stage()
    ensures n <= k && 6 <= r.state(k).handler.Stage()
    decreases Phases(r.state(n)), Closing(r.state(n)), RoundLeft(c.mgr, r.state(n).manager.pc),
              Unstarted(r.state(n).manager.tasks), ReadsLeft(r.state(n))
  {
    if 6 <= r.state(n).handler.Stage() {
      return n;
    }
    var f := NextCarry(c, r, n);
    k := ReceiversClose(c, r, f + 1);
  }

  ghost predicate LessToCarry(c: Config, s': State, s: State) {
    || Phases(s') < Phases(s)
    || (Phases(s') == Phases(s) && (
        || Closing(s') < Closing(s)
        || (Closing(s') == Closing(s) && (
            || RoundLeft(c.mgr, s'.manager.pc) < RoundLeft(c.mgr, s.manager.pc)
            || (RoundLeft(c.mgr, s'.manager.pc) == RoundLeft(c.mgr, s.manager.pc) && (
                || Unstarted(s'.manager.tasks) < Unstarted(s.manager.tasks)
                || (Unstarted(s'.manager.tasks) == Unstarted(s.manager.tasks)
                    && ReadsLeft(s') < ReadsLeft(s))))))))
  }

  lemma NextCarry(c: Config, r: Run, n: nat) returns (f: nat)
    requires FairRun(c, r) && During(r.state(n))
    ensures n <= f && 2 <= r.state(f + 1).handler.Stage()
    ensures LessToCarry(c, r.state(f + 1), r.state(n))
    ensures 0 <= Phases(r.state(n)) && 0 <= RoundLeft(c.mgr, r.state(n).manager.pc)
  {
    SomebodyCarries(c, r, n);
    var some: nat :| n <= some && Carries(r.step(some));
    f := FirstCarry(r, n, some);
    QuietKeeps(c, r, n, f);
    CarryAt(c, r, f);
  }

  lemma CarryAt(c: Config, r: Run, f: nat)
    requires FairRun(c, r) && During(r.state(f)) && Carries(r.step(f))
    ensures 2 <= r.state(f + 1).handler.Stage() && LessToCarry(c, r.state(f + 1), r.state(f))
    ensures 0 <= Phases(r.state(f)) && 0 <= RoundLeft(c.mgr, r.state(f).manager.pc)
  {
    hide Enabled, Apply, Inv, FairRun, LessToCarry;
    StepAt(c, r, f);
    RankedAndStopped(c, r.state(f));
    CarryDecreases(c, r.state(f), r.step(f));
    StageGrows(c, r.state(f), r.step(f));
  }

  /** The handler's turn includes the stop of the ticker. */
  lemma FairImpliesFairToStop(c: Config, r: Run)
    requires IsRun(c, r) && Fair(c, r)
    ensures FairToStop(c, r)
  {
    forall n: nat ensures StopNotIgnoredFrom(c, r, n) {
      assert WeaklyFair(c, r, ShutdownHandler) && TurnFrom(c, r, ShutdownHandler, n);
      var m: nat :| n <= m && TurnAt(c, r, ShutdownHandler, m);
      StopTurn(c, r, m);
      assert StopTakenOrNotReady(c, r, m);
    }
  }

  lemma OnlyStop(c: Config, s: State, l: Label)
    requires Enabled(c, s, StopTicker) && Enabled(c, s, l) && Plays(ShutdownHandler, l)
    ensures l.StopTicker?
  {
  }

  lemma StopTurn(c: Config, r: Run, m: nat)
    requires IsRun(c, r) && TurnAt(c, r, ShutdownHandler, m)
    ensures StopTakenOrNotReady(c, r, m)
  {
    if Enabled(c, r.state(m), StopTicker) {
      assert Plays(ShutdownHandler, StopTicker);
      assert FollowsAt(c, r, m);
      OnlyStop(c, r.state(m), r.step(m));
    }
  }

  /** Termination of the shutdown with receivers that may go on sending for ever: in every fair run, if the signal has
      arrived by step i, the handler finishes. */
  lemma ShutdownTerminatesFairly(c: Config, r: Run, i: nat)
    requires c.Valid() && IsRun(c, r) && Fair(c, r)
    requires 1 <= r.state(i).handler.Stage()
    ensures exists n: nat :: i <= n && r.state(n).handler.Finished?
  {
    FairImpliesFairToStop(c, r);
    var stopped := TickerToldToStop(c, r, i);
    var k := ReceiversClose(c, r, stopped);
    RunKeepsInv(c, r, k);
    RankedAndStopped(c, r.state(k));
    var n := FinishesOnceStopped(c, r, k);
  }
}
