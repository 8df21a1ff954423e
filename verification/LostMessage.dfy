/** A schedule in which a message is lost at shutdown: a collector has sent it, and the router accepts the stop request
    while the message is still in the channel. */
module LostMessage {
  import opened Common
  import opened Pipeline
  import opened PipelineInvariant
  import opened PipelineProperties
  import Ticker
  import Manager
  import Router

  /** One serial collector, no interval time stamps, no cache, no receivers. */
  const C: Config := Config(Manager.Config(0, 1), Router.Config(m => Processed(Some(m), false), 0, 50, false, false),
                            200, 200, 200, false)

  const M: Msg := Msg(0, 0)

  /** Everything that changes in this run. */
  function StateOf(main: nat, handler: Handler, ticker: Ticker.State, manager: Manager.State, router: Router.Pc,
                   coll: seq<Msg>): State {
    State(main, handler, ticker, manager, Router.State(router, 0, [], [], 0, [], []), NotStarted,
          coll, [], [], [], [], None)
  }

  function TickerAt(pc: Ticker.Pc, ticked: bool): Ticker.State {
    Ticker.State(pc, 0, None, if ticked then [0] else [], [0], if ticked then [[0]] else [[]])
  }

  const SENT: Manager.Sent := Manager.Sent(M, Manager.Serial(0), 0)

  /** How far the one Read has come: 1 ticked, 2 begun, 3 sent, 4 returned. */
  function ManagerAt(pc: Manager.Pc, running: bool, progress: nat): Manager.State {
    Manager.State(pc, running, 0, [], if progress >= 1 then [0] else [], if progress >= 3 then [SENT] else [],
                  if progress >= 4 then [Manager.SerBegun(0, 0), Manager.SerReturned(0, 0, [M])]
                  else if progress >= 2 then [Manager.SerBegun(0, 0)]
                  else [],
                  [], [0])
  }

  // ----- startup -----

  predicate Leads(s: State, l: Label, s': State) {
    Enabled(C, s, l) && Apply(C, s, l) == s'
  }

  function Starting(main: nat): State {
    StateOf(main, Running,
            Ticker.State(Ticker.Select, 0, None, [], if main > 5 then [0] else [], if main > 5 then [[]] else []),
            ManagerAt(if main > 6 then Manager.Select else Manager.NotStarted, false, 0),
            if main > 4 then Router.Select else Router.NotStarted, [])
  }

  lemma StartingStep(main: nat)
    requires main < 8
    ensures Leads(Starting(main), Main(0), Starting(main + 1))
  {
  }

  lemma {:induction false} Started(main: nat)
    requires main <= 8
    ensures Reachable(C, Starting(main))
  {
    hide Enabled, Apply, Reachable;
    if main == 0 {
      InitialReachable(C, None);
      assert Initial(C, None) == Starting(0);
    } else {
      Started(main - 1);
      StartingStep(main - 1);
      ReachableStep(C, Starting(main - 1), Main(0));
    }
  }

  // ----- one tick, one message -----

  /** The states of the run from the end of the startup to the message in the channel. */
  function Collecting(k: nat): State {
    var ticker :=
      if k == 0 then TickerAt(Ticker.Select, false)
      else if k == 1 then Ticker.State(Ticker.Select, 0, Some(0), [], [0], [[]])
      else if k == 2 then Ticker.State(Ticker.Sending(1, 0, 0), 0, None, [0], [0], [[]])
      else TickerAt(Ticker.Select, true);
    var pc :=
      if k <= 2 then Manager.Select
      else if k == 3 then Manager.ParPoll(0)
      else if k == 4 then Manager.Wait
      else if k == 5 then Manager.SerPoll(0)
      else if k == 6 then Manager.SerRead(0, [M], [M])
      else if k == 7 then Manager.SerRead(0, [M], [])
      else if k == 8 then Manager.SerPoll(1)
      else Manager.Select;
    var progress := if k < 3 then 0 else if k < 6 then 1 else if k < 7 then 2 else if k < 8 then 3 else 4;
    StateOf(8, Running, ticker, ManagerAt(pc, k == 3 || k == 4, progress), Router.Select,
            if k >= 7 then [M] else [])
  }

  function CollectLabel(k: nat): Label {
    if k == 0 then TimerFire(0)
    else if k == 1 then TickerTake
    else if k == 2 then Deliver([])
    else if k == 3 then Mgr(Manager.ParEnd)
    else if k == 4 then Mgr(Manager.WgWait)
    else if k == 5 then Mgr(Manager.SerDefault([M]))
    else if k == 6 then Mgr(Manager.SerSend)
    else if k == 7 then Mgr(Manager.SerReturn)
    else Mgr(Manager.SerEnd)
  }

  lemma FireStep(k: nat)
    requires k < 2
    ensures Leads(Collecting(k), CollectLabel(k), Collecting(k + 1))
  {
    hide Manager.Enabled, Manager.Apply, Router.Enabled, Router.Apply;
  }

  lemma DeliverStep()
    ensures Leads(Collecting(2), CollectLabel(2), Collecting(3))
  {
    hide Router.Enabled, Router.Apply;
    var none: seq<Time> := [];
    assert none + [0] == [0];
  }

  lemma ReadStep(k: nat)
    requires 3 <= k < 6
    ensures Leads(Collecting(k), CollectLabel(k), Collecting(k + 1))
  {
    hide Ticker.Enabled, Ticker.Apply, Router.Enabled, Router.Apply;
  }

  lemma SendStep()
    ensures Leads(Collecting(6), CollectLabel(6), Collecting(7))
  {
    hide Ticker.Enabled, Ticker.Apply, Router.Enabled, Router.Apply;
    var none: seq<Msg> := [];
    var nothing: seq<Manager.Sent> := [];
    assert none + [M] == [M] && [M][1..] == none && nothing + [SENT] == [SENT];
  }

  lemma ReturnStep(k: nat)
    requires 7 <= k < 9
    ensures Leads(Collecting(k), CollectLabel(k), Collecting(k + 1))
  {
    hide Ticker.Enabled, Ticker.Apply, Router.Enabled, Router.Apply;
  }

  lemma {:induction false} Collected(k: nat)
    requires k <= 9
    ensures Reachable(C, Collecting(k))
  {
    hide Enabled, Apply, Reachable;
    if k == 0 {
      Started(8);
      assert Starting(8) == Collecting(0);
    } else {
      Collected(k - 1);
      if k <= 2 { FireStep(k - 1); } else if k == 3 { DeliverStep(); } else if k <= 6 { ReadStep(k - 1); }
      else if k == 7 { SendStep(); } else { ReturnStep(k - 1); }
      ReachableStep(C, Collecting(k - 1), CollectLabel(k - 1));
    }
  }

  // ----- shutdown -----

  /** The states from there to the end: nobody takes the message. */
  function Stopping(k: nat): State {
    var handler :=
      if k == 0 then Running
      else if k == 1 then TickerSend
      else if k <= 3 then TickerWait
      else if k == 4 then ManagerSend
      else if k <= 7 then ManagerWait
      else if k == 8 then Receivers
      else if k == 9 then RouterSend
      else if k <= 11 then RouterWait
      else if k == 12 then Sinks
      else Finished;
    var ticker := if k <= 1 then Ticker.Select else if k == 2 then Ticker.Closing else Ticker.Ended;
    var pc :=
      if k <= 4 then Manager.Select
      else if k == 5 then Manager.Closing(0)
      else if k == 6 then Manager.CloseDone
      else Manager.Ended;
    var router := if k <= 9 then Router.Select else if k == 10 then Router.Closing else Router.Ended;
    StateOf(8, handler, TickerAt(ticker, true), ManagerAt(pc, false, 4), router, [M])
  }

  function StopLabel(k: nat): Label {
    if k == 0 then Signal
    else if k == 1 then StopTicker
    else if k == 2 then CloseTicker
    else if k == 4 then StopManager
    else if k == 5 then Mgr(Manager.CloseEnd)
    else if k == 6 then Mgr(Manager.CloseChannel)
    else if k == 9 then StopRouter
    else if k == 10 then RouterStep
    else Handle
  }

  lemma StopTickerStep(k: nat)
    requires k < 4
    ensures Leads(Stopping(k), StopLabel(k), Stopping(k + 1))
  {
    hide Manager.Enabled, Manager.Apply, Router.Enabled, Router.Apply;
  }

  lemma StopManagerStep(k: nat)
    requires 4 <= k < 9
    ensures Leads(Stopping(k), StopLabel(k), Stopping(k + 1))
  {
    hide Ticker.Enabled, Ticker.Apply, Router.Enabled, Router.Apply;
  }

  lemma StopRouterStep(k: nat)
    requires 9 <= k < 13
    ensures Leads(Stopping(k), StopLabel(k), Stopping(k + 1))
  {
    hide Ticker.Enabled, Ticker.Apply, Manager.Enabled, Manager.Apply;
  }

  lemma {:induction false} Stopped(k: nat)
    requires k <= 13
    ensures Reachable(C, Stopping(k))
  {
    hide Enabled, Apply, Reachable;
    if k == 0 {
      Collected(9);
      assert Collecting(9) == Stopping(0);
    } else {
      Stopped(k - 1);
      if k <= 4 { StopTickerStep(k - 1); } else if k <= 9 { StopManagerStep(k - 1); } else { StopRouterStep(k - 1); }
      ReachableStep(C, Stopping(k - 1), StopLabel(k - 1));
    }
  }

  /** The shutdown has finished and the collector's message is still in the channel. */
  lemma MessageLost()
    ensures exists s: State :: Reachable(C, s) && s.handler.Finished? && s.coll == [M] && !AllConsumed(s)
  {
    Stopped(13);
    NotConsumed();
  }

  lemma NotConsumed()
    ensures !AllConsumed(Stopping(13))
  {
    assert |MsgsOf(Stopping(13).manager.sent)| == 1;
    assert Router.From(Router.Coll, []) == [];
  }
}
