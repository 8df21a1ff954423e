/** A schedule in which the time stamps of received messages go backwards: the timer fires before the router has
    started, and the ticker takes that tick only afterwards. */
module StaleTick {
  import opened Common
  import opened Pipeline
  import opened PipelineInvariant
  import opened PipelineProperties
  import Ticker
  import Manager
  import Router

  const C: Config := Config(Manager.Config(0, 0), Router.Config(m => Processed(Some(m), false), 0, 50, true, false),
                            200, 200, 200, true)

  /** After startup: the timer fired at 1, the router started at 5. */
  const STARTED: State :=
    State(8, Running,
          Ticker.State(Ticker.Select, 5, Some(1), [], [0, 0], [[], []]),
          Manager.State(Manager.Select, false, 0, [], [], [], [], [], []),
          Router.State(Router.Select, 5, [], [], 0, [], []),
          NotStarted, [], [], [], [], [], None)

  const M: Msg := Msg(7, 0)
  const FIRST: Router.Item := Router.Item(Router.Recv, M, 0, Msg(5, 0))
  const SECOND: Router.Item := Router.Item(Router.Recv, M, 1, Msg(1, 0))

  function At(main: nat): State {
    STARTED.(main := main,
      ticker := Ticker.State(Ticker.Select, if main == 0 then 1 else 5, Some(1), [],
                             if main > 5 then [0, 0] else if main > 1 then [0] else [],
                             if main > 5 then [[], []] else if main > 1 then [[]] else []),
      manager := STARTED.manager.(pc := if main > 6 then Manager.Select else Manager.NotStarted),
      router := STARTED.router.(pc := if main > 4 then Router.Select else Router.NotStarted,
                                start := if main > 0 then 5 else 0))
  }

  predicate Leads(s: State, l: Label, s': State) {
    Enabled(C, s, l) && Apply(C, s, l) == s'
  }

  lemma FirstFire()
    ensures Leads(Initial(C, None), TimerFire(1), At(0))
  {
  }

  lemma StartupStep(main: nat)
    requires main < 8
    ensures Leads(At(main), Main(5), At(main + 1))
  {
  }

  lemma {:induction false} Startup(main: nat)
    requires main <= 8
    ensures Reachable(C, At(main))
  {
    hide Enabled, Apply, Reachable, At;
    if main == 0 {
      InitialReachable(C, None);
      FirstFire();
      ReachableStep(C, Initial(C, None), TimerFire(1));
    } else {
      Startup(main - 1);
      StartupStep(main - 1);
      ReachableStep(C, At(main - 1), Main(5));
    }
  }

  /** The receivers send a message and the router takes it. */
  function Taken(s: State, item: Router.Item): State {
    s.(received := s.received + [M],
       router := s.router.(pc := Router.Forward(Router.Recv, Processed(Some(item.stamped), false), 0, 0),
                           consumed := s.router.consumed + [item], mark := |s.router.consumed|))
  }

  predicate Ready(s: State) {
    s.main == 8 && s.handler.Running? && s.recv == [] && s.recvLeft.None? && s.router.pc.Select?
  }

  function Sent(s: State): State
    requires Ready(s)
  {
    s.(recv := [M], received := s.received + [M])
  }

  lemma SendStep(s: State)
    requires Ready(s)
    ensures Leads(s, ReceiverSend(M), Sent(s))
  {
    hide Ticker.Enabled, Ticker.Apply, Manager.Enabled, Manager.Apply, Router.Enabled, Router.Apply;
  }

  lemma TakeStep(s: State, item: Router.Item)
    requires Ready(s)
    requires item == Router.Item(Router.Recv, M, |s.router.got|, M.(time := Router.Timestamp(s.router)))
    ensures Leads(Sent(s), TakeFrom(Router.Recv), Taken(s, item))
  {
    hide Ticker.Enabled, Ticker.Apply, Manager.Enabled, Manager.Apply;
  }

  lemma ReceiveStep(s: State, item: Router.Item)
    requires Reachable(C, s) && Ready(s)
    requires item == Router.Item(Router.Recv, M, |s.router.got|, M.(time := Router.Timestamp(s.router)))
    ensures Reachable(C, Taken(s, item))
  {
    hide Enabled, Apply, Reachable, Taken, Sent;
    SendStep(s);
    ReachableStep(C, s, ReceiverSend(M));
    TakeStep(s, item);
    ReachableStep(C, Sent(s), TakeFrom(Router.Recv));
  }

  /** The router is done with the message and back at its select. */
  const FORWARDED: State :=
    Taken(STARTED, FIRST).(router := Taken(STARTED, FIRST).router.(pc := Router.Batch(Router.Recv, 0)))

  const IDLE: State := Taken(STARTED, FIRST).(router := Taken(STARTED, FIRST).router.(pc := Router.Select))

  /** The ticker has taken the old tick, and then handed it to the router. */
  const TAKING: State :=
    IDLE.(ticker := Ticker.State(Ticker.Sending(2, 0, 1), 5, None, [1], [0, 0], [[], []]))

  const TICKED: State :=
    IDLE.(ticker := Ticker.State(Ticker.Sending(2, 1, 1), 5, None, [1], [0, 0], [[1], []]),
          router := IDLE.router.(got := [1]))

  lemma FirstTaken()
    ensures Reachable(C, Taken(STARTED, FIRST))
  {
    hide Enabled, Apply, Reachable;
    Startup(8);
    assert At(8) == STARTED;
    ReceiveStep(STARTED, FIRST);
  }

  lemma RouterSteps()
    ensures Leads(Taken(STARTED, FIRST), RouterStep, FORWARDED) && Leads(FORWARDED, RouterStep, IDLE)
  {
    hide Ticker.Enabled, Ticker.Apply, Manager.Enabled, Manager.Apply;
  }

  lemma TakeTickStep()
    ensures Leads(IDLE, TickerTake, TAKING)
  {
    hide Manager.Enabled, Manager.Apply, Router.Enabled, Router.Apply;
    var none: seq<Time> := [];
    assert none + [1] == [1];
  }

  lemma DeliverStep()
    ensures Leads(TAKING, Deliver([]), TICKED)
  {
    hide Manager.Enabled, Manager.Apply;
    var none: seq<Time> := [];
    assert none + [1] == [1];
  }

  lemma TickedReachable()
    ensures Reachable(C, TICKED)
  {
    hide Enabled, Apply, Reachable, Taken, FORWARDED;
    FirstTaken();
    RouterSteps();
    ReachableStep(C, Taken(STARTED, FIRST), RouterStep);
    ReachableStep(C, FORWARDED, RouterStep);
    TakeTickStep();
    ReachableStep(C, IDLE, TickerTake);
    DeliverStep();
    ReachableStep(C, TAKING, Deliver([]));
  }

  /** So the decreasing case of PipelineProperties.StampsDecreaseExactly does occur. */
  lemma StampsGoBackwards()
    ensures exists s: State :: Reachable(C, s) && |s.router.consumed| == 2
              && s.router.consumed[0].src.Recv? && s.router.consumed[1].src.Recv?
              && s.router.consumed[1].stamped.time < s.router.consumed[0].stamped.time
  {
    hide Reachable;
    TickedReachable();
    ReceiveStep(TICKED, SECOND);
    assert Taken(TICKED, SECOND).router.consumed == [FIRST, SECOND];
  }
}
