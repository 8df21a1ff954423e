/** Every run in which the stop request is not ignored for ever by the ticker ends with a finished shutdown. */
module Liveness {
  import opened Common
  import opened Pipeline
  import opened PipelineInvariant
  import opened Shutdown
  import Manager
  import Router
  import Ticker

  /** States and labels of an endless schedule. It rests only where nothing at all can move. */
  datatype Run = Run(state: nat -> State, step: nat -> Label)

  ghost predicate CanStep(c: Config, s: State) {
    exists l :: Enabled(c, s, l)
  }

  ghost predicate Follows(c: Config, s: State, l: Label, s': State) {
    if CanStep(c, s) then Enabled(c, s, l) && s' == Apply(c, s, l) else s' == s
  }

  ghost predicate FollowsAt(c: Config, r: Run, n: nat) {
    Follows(c, r.state(n), r.step(n), r.state(n + 1))
  }

  ghost predicate IsRun(c: Config, r: Run) {
    Reachable(c, r.state(0)) && forall n: nat :: FollowsAt(c, r, n)
  }

  ghost predicate StopTakenOrNotReady(c: Config, r: Run, m: nat) {
    r.step(m).StopTicker? || !Enabled(c, r.state(m), StopTicker)
  }

  ghost predicate StopNotIgnoredFrom(c: Config, r: Run, n: nat) {
    exists m: nat :: n <= m && StopTakenOrNotReady(c, r, m)
  }

  /** Weak fairness of one handshake: the ticker does not for ever choose other work in a select in which the
      stop request stays ready. */
  ghost predicate FairToStop(c: Config, r: Run) {
    forall n: nat :: StopNotIgnoredFrom(c, r, n)
  }

  lemma {:induction false} RunKeepsInv(c: Config, r: Run, n: nat)
    requires IsRun(c, r)
    ensures Inv(c, r.state(n))
  {
    hide Enabled, Apply, Reachable, Inv;
    if n == 0 {
      ReachableInv(c, r.state(0));
    } else {
      RunKeepsInv(c, r, n - 1);
      assert FollowsAt(c, r, n - 1);
      if CanStep(c, r.state(n - 1)) {
        StepInv(c, r.state(n - 1), r.step(n - 1));
      }
    }
  }

  lemma StageGrows(c: Config, s: State, l: Label)
    requires Enabled(c, s, l)
    ensures s.handler.Stage() <= Apply(c, s, l).handler.Stage()
    ensures l.StopTicker? ==> Apply(c, s, l).handler.Stage() == 2
  {
    hide Ticker.Enabled, Ticker.Apply, Manager.Enabled, Manager.Apply, Router.Enabled, Router.Apply;
    hide ApplyColl, ApplyRecv, ApplyOuts, ApplyCache, TickerAct, ManagerAct, RouterAct;
  }

  lemma {:induction false} StageKept(c: Config, r: Run, i: nat, n: nat)
    requires IsRun(c, r) && i <= n
    ensures r.state(i).handler.Stage() <= r.state(n).handler.Stage()
    decreases n - i
  {
    hide Enabled, Apply, Reachable;
    if i < n {
      assert FollowsAt(c, r, i);
      if CanStep(c, r.state(i)) {
        StageGrows(c, r.state(i), r.step(i));
      }
      StageKept(c, r, i + 1, n);
    }
  }

  lemma RankedAndStopped(c: Config, s: State)
    requires Inv(c, s)
    ensures Ranked(c, s)
    ensures 2 <= s.handler.Stage() ==> TickerStopped(s)
  {
  }

  /** From the moment the ticker has accepted the stop request, no schedule can avoid finishing, provided the receivers
      run out of messages or have been closed. */
  lemma {:induction false} FinishesOnceStopped(c: Config, r: Run, i: nat) returns (n: nat)
    requires c.Valid() && IsRun(c, r) && 2 <= r.state(i).handler.Stage()
    requires Ranked(c, r.state(i)) && (r.state(i).recvLeft.Some? || 6 <= r.state(i).handler.Stage())
    ensures i <= n && r.state(n).handler.Finished?
    decreases RankOf(c, r.state(i)).phases, RankOf(c, r.state(i)).arrivals, RankOf(c, r.state(i)).round,
              RankOf(c, r.state(i)).unstarted, RankOf(c, r.state(i)).work, RankOf(c, r.state(i)).buffered,
              RankOf(c, r.state(i)).routing, RankOf(c, r.state(i)).drains
  {
    var s := r.state(i);
    if s.handler.Finished? {
      return i;
    }
    RankFalls(c, r, i);
    n := FinishesOnceStopped(c, r, i + 1);
  }

  /** Receivers that have been closed send nothing. */
  lemma ClosedReceivers(c: Config, s: State, l: Label)
    requires Enabled(c, s, l) && 6 <= s.handler.Stage()
    ensures !l.ReceiverSend?
  {
    hide Ticker.Enabled, Manager.Enabled, Router.Enabled, TickerAct, ManagerAct, RouterAct;
  }

  lemma RankFalls(c: Config, r: Run, i: nat)
    requires c.Valid() && IsRun(c, r) && 2 <= r.state(i).handler.Stage() && !r.state(i).handler.Finished?
    requires Ranked(c, r.state(i)) && (r.state(i).recvLeft.Some? || 6 <= r.state(i).handler.Stage())
    ensures Ranked(c, r.state(i + 1)) && RankOf(c, r.state(i + 1)).Below(RankOf(c, r.state(i)))
    ensures r.state(i).handler.Stage() <= r.state(i + 1).handler.Stage()
    ensures r.state(i + 1).recvLeft.Some? == r.state(i).recvLeft.Some?
  {
    hide Enabled, Apply, Reachable, Inv, RankOf, Ranked, TickerStopped;
    var s := r.state(i);
    RunKeepsInv(c, r, i);
    RankedAndStopped(c, s);
    NeverStuck(c, s);
    assert FollowsAt(c, r, i);
    if 6 <= s.handler.Stage() { ClosedReceivers(c, s, r.step(i)); }
    RankStep(c, s, r.step(i));
    StageGrows(c, s, r.step(i));
    SupplyKept(c, s, r.step(i));
  }

  lemma SupplyKept(c: Config, s: State, l: Label)
    requires Enabled(c, s, l)
    ensures Apply(c, s, l).recvLeft.Some? == s.recvLeft.Some?
  {
    hide Ticker.Enabled, Ticker.Apply, Manager.Enabled, Manager.Apply, Router.Enabled, Router.Apply;
    hide ApplyColl, ApplyRecv, ApplyOuts, ApplyCache, TickerAct, ManagerAct, RouterAct;
  }

  /** The ticker accepts a stop request in any of its selects. */
  lemma StoppedSoon(c: Config, r: Run, m: nat) returns (k: nat)
    requires IsRun(c, r) && StopTakenOrNotReady(c, r, m) && TickerStage(r.state(m))
    requires 1 <= r.state(m).handler.Stage()
    ensures m <= k && 2 <= r.state(k).handler.Stage()
  {
    k := m;
    if r.state(m).handler.TickerSend? {
      assert Enabled(c, r.state(m), StopTicker);
      assert FollowsAt(c, r, m);
      StageGrows(c, r.state(m), r.step(m));
      k := m + 1;
    }
  }

  /** From the signal on, the ticker is told to stop sooner or later. */
  lemma TickerToldToStop(c: Config, r: Run, i: nat) returns (k: nat)
    requires IsRun(c, r) && FairToStop(c, r) && 1 <= r.state(i).handler.Stage()
    ensures i <= k && 2 <= r.state(k).handler.Stage() && Inv(c, r.state(k))
  {
    hide Enabled, Apply, Reachable, Components, Conserved, InnerReceive, TicksLinked, Causal;
    assert StopNotIgnoredFrom(c, r, i);
    var m: nat :| i <= m && StopTakenOrNotReady(c, r, m);
    StageKept(c, r, i, m);
    RunKeepsInv(c, r, m);
    k := StoppedSoon(c, r, m);
    RunKeepsInv(c, r, k);
  }

  lemma {:induction false} SupplyStays(c: Config, r: Run, i: nat, n: nat)
    requires IsRun(c, r) && i <= n
    ensures r.state(n).recvLeft.Some? == r.state(i).recvLeft.Some?
    decreases n - i
  {
    hide Enabled, Apply, Reachable;
    if i < n {
      assert FollowsAt(c, r, i);
      if CanStep(c, r.state(i)) {
        SupplyKept(c, r.state(i), r.step(i));
      }
      SupplyStays(c, r, i + 1, n);
    }
  }

  /** Termination of the shutdown if the receivers send finitely many messages: if the signal has arrived by step i, the
      handler finishes, whatever the interleaving, the number of collectors, the channel capacities and the messages in
      flight, with no fairness but that of one handshake. */
  lemma ShutdownTerminates(c: Config, r: Run, i: nat)
    requires c.Valid() && IsRun(c, r) && FairToStop(c, r) && r.state(i).recvLeft.Some?
    requires 1 <= r.state(i).handler.Stage()
    ensures exists n: nat :: i <= n && r.state(n).handler.Finished?
  {
    hide Enabled, Apply, Reachable, Inv, IsRun, FairToStop, Ranked, RankOf;
    var k := TickerToldToStop(c, r, i);
    SupplyStays(c, r, i, k);
    RankedAndStopped(c, r.state(k));
    var n := FinishesOnceStopped(c, r, k);
  }
}
