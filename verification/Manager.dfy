/** collectors/collectorManager.go: on every tick the parallel collectors are read in goroutines of
    their own behind a wait group, then the serial ones one after the other. */
module Manager {
  import opened Common

  /** One goroutine that reads a parallel collector. */
  datatype Phase =
    | Spawned                     // created, Read not entered yet
    | Reading(msgs: seq<Msg>, left: seq<Msg>)   // inside Read: all it has to send, and what is still to be sent
    | Returned(msgs: seq<Msg>)    // Read has returned, the wait group not told yet
    | Finished(msgs: seq<Msg>)
  datatype Task = Task(coll: nat, round: nat, phase: Phase) {
    predicate Active() { !phase.Finished? }
  }

  datatype Pc =
    | NotStarted
    | Select                      // outer select: `done` or a tick
    | ParPoll(i: nat)             // parallel loop, `select { done / default }` for collector i
    | ParAdd(i: nat)              // collector_wg.Add(1)
    | ParGo(i: nat)               // go Read(i)
    | Wait                        // collector_wg.Wait() after the parallel loop
    | SerPoll(i: nat)             // serial loop, `select { done / default }` for collector i
    | SerRead(i: nat, msgs: seq<Msg>, left: seq<Msg>)
    | DoneWait                    // done(): collector_wg.Wait() because a parallel run is in progress
    | Closing(i: nat)             // done(): about to close collector i
    | CloseDone                   // done(): close(cm.done)
    | Ended

  /** Who sends: the Read in a goroutine, by its number, or the Read of a serial collector. */
  datatype Reader = Parallel(task: nat) | Serial(coll: nat)

  /** A message put on the output channel, with the number of the tick that triggered its Read. */
  datatype Sent = Sent(msg: Msg, reader: Reader, round: nat)

  /** Reads in the order in which they return, and for the serial ones also begin. */
  datatype Event =
    | ParReturned(coll: nat, round: nat)
    | SerBegun(coll: nat, round: nat)
    | SerReturned(coll: nat, round: nat, msgs: seq<Msg>)

  /** nPar parallel and nSer serial collectors. */
  datatype Config = Config(nPar: nat, nSer: nat)

  datatype State = State(
    pc: Pc,
    parallelRun: bool,
    wg: nat,                      // counter of collector_wg
    tasks: seq<Task>,             // every Read goroutine ever created
    got: seq<Time>,               // ticks received
    sent: seq<Sent>,              // everything ever put on the output channel
    log: seq<Event>,
    closed: seq<nat>,             // how often each parallel collector was closed
    serialClosed: seq<nat>)       // how often each serial collector was closed

  datatype Action =
    | Start | Tick(ts: Time) | Accept
    | ParDefault | ParEnd | Add | Go | WgWait
    | SerDefault(left: seq<Msg>) | SerEnd | SerSend | SerReturn
    | Begin(k: nat, left: seq<Msg>) | Send(k: nat) | Return(k: nat) | WgDone(k: nat)
    | CloseOne | CloseEnd | CloseChannel

  function Initial(c: Config): State {
    State(NotStarted, false, 0, [], [], [], [], seq(c.nPar, _ => 0), seq(c.nSer, _ => 0))
  }

  predicate Enabled(c: Config, s: State, a: Action) {
    match a
    case Start => s.pc.NotStarted?
    case Tick(_) => s.pc.Select?
    case Accept => s.pc.Select? || (s.pc.ParPoll? && s.pc.i < c.nPar) || (s.pc.SerPoll? && s.pc.i < c.nSer)
    case ParDefault => s.pc.ParPoll? && s.pc.i < c.nPar
    case ParEnd => s.pc.ParPoll? && s.pc.i == c.nPar
    case Add => s.pc.ParAdd?
    case Go => s.pc.ParGo? && |s.got| > 0
    case WgWait => (s.pc.Wait? || s.pc.DoneWait?) && s.wg == 0
    case SerDefault(_) => s.pc.SerPoll? && s.pc.i < c.nSer && |s.got| > 0
    case SerEnd => s.pc.SerPoll? && s.pc.i == c.nSer
    case SerSend => s.pc.SerRead? && s.pc.left != [] && |s.got| > 0
    case SerReturn => s.pc.SerRead? && s.pc.left == [] && |s.got| > 0
    case Begin(k, _) => k < |s.tasks| && s.tasks[k].phase.Spawned?
    case Send(k) => k < |s.tasks| && s.tasks[k].phase.Reading? && s.tasks[k].phase.left != []
    case Return(k) => k < |s.tasks| && s.tasks[k].phase.Reading? && s.tasks[k].phase.left == []
    case WgDone(k) => k < |s.tasks| && s.tasks[k].phase.Returned? && s.wg > 0
    case CloseOne => s.pc.Closing? && s.pc.i < c.nPar == |s.closed|
    case CloseEnd => s.pc.Closing? && s.pc.i == c.nPar
    case CloseChannel => s.pc.CloseDone?
  }

  function SetPhase(s: State, k: nat, p: Phase): State
    requires k < |s.tasks|
  {
    s.(tasks := s.tasks[k := s.tasks[k].(phase := p)])
  }

  function Apply(c: Config, s: State, a: Action): State
    requires Enabled(c, s, a)
  {
    match a
    case Start => s.(pc := Select)
    case Tick(ts) => s.(pc := ParPoll(0), parallelRun := true, got := s.got + [ts])
    case Accept => s.(pc := if s.parallelRun then DoneWait else Closing(0))
    case ParDefault => s.(pc := ParAdd(s.pc.i))
    case ParEnd => s.(pc := Wait)
    case Add => s.(pc := ParGo(s.pc.i), wg := s.wg + 1)
    case Go => s.(pc := ParPoll(s.pc.i + 1), tasks := s.tasks + [Task(s.pc.i, |s.got| - 1, Spawned)])
    case WgWait => s.(pc := if s.pc.Wait? then SerPoll(0) else Closing(0), parallelRun := false)
    case SerDefault(left) => s.(pc := SerRead(s.pc.i, left, left), log := s.log + [SerBegun(s.pc.i, |s.got| - 1)])
    case SerEnd => s.(pc := Select)
    case SerSend =>
      s.(pc := s.pc.(left := s.pc.left[1..]), sent := s.sent + [Sent(s.pc.left[0], Serial(s.pc.i), |s.got| - 1)])
    case SerReturn => s.(pc := SerPoll(s.pc.i + 1), log := s.log + [SerReturned(s.pc.i, |s.got| - 1, s.pc.msgs)])
    case Begin(k, left) => SetPhase(s, k, Reading(left, left))
    case Send(k) =>
      var p := s.tasks[k].phase;
      SetPhase(s, k, p.(left := p.left[1..])).(sent := s.sent + [Sent(p.left[0], Parallel(k), s.tasks[k].round)])
    case Return(k) =>
      SetPhase(s, k, Returned(s.tasks[k].phase.msgs)).(
        log := s.log + [ParReturned(s.tasks[k].coll, s.tasks[k].round)])
    case WgDone(k) => SetPhase(s, k, Finished(s.tasks[k].phase.msgs)).(wg := s.wg - 1)
    case CloseOne => s.(pc := Closing(s.pc.i + 1), closed := s.closed[s.pc.i := s.closed[s.pc.i] + 1])
    case CloseEnd => s.(pc := CloseDone)
    case CloseChannel => s.(pc := Ended)
  }

  /** Number of Reads in flight. */
  ghost function InFlight(tasks: seq<Task>): nat {
    if tasks == [] then 0
    else InFlight(tasks[..|tasks| - 1]) + (if tasks[|tasks| - 1].Active() then 1 else 0)
  }

  lemma {:induction false} InFlightUpdate(tasks: seq<Task>, k: nat, t: Task)
    requires k < |tasks|
    ensures InFlight(tasks[k := t]) ==
            InFlight(tasks) + (if t.Active() then 1 else 0) - (if tasks[k].Active() then 1 else 0)
  {
    var n := |tasks| - 1;
    if k < n {
      InFlightUpdate(tasks[..n], k, t);
      assert tasks[k := t][..n] == tasks[..n][k := t];
    } else {
      assert tasks[k := t][..n] == tasks[..n];
    }
  }

  lemma {:induction false} InFlightZero(tasks: seq<Task>)
    ensures InFlight(tasks) == 0 <==> forall k :: 0 <= k < |tasks| ==> !tasks[k].Active()
  {
    if tasks != [] {
      var n := |tasks| - 1;
      InFlightZero(tasks[..n]);
      if InFlight(tasks) == 0 {
        forall k | 0 <= k < |tasks| ensures !tasks[k].Active() {
          if k < n { assert tasks[..n][k] == tasks[k]; }
        }
      } else if !tasks[n].Active() {
        var k :| 0 <= k < n && tasks[..n][k].Active();
        assert tasks[k].Active();
      }
    }
  }

  predicate PcInParallelRun(pc: Pc) {
    pc.ParPoll? || pc.ParAdd? || pc.ParGo? || pc.Wait? || pc.DoneWait?
  }

  ghost predicate Bounds(c: Config, s: State) {
    match s.pc
    case ParPoll(i) => i <= c.nPar
    case ParAdd(i) => i < c.nPar
    case ParGo(i) => i < c.nPar
    case SerPoll(i) => i <= c.nSer
    case SerRead(i, _, _) => i < c.nSer
    case Closing(i) => i <= c.nPar
    case _ => true
  }

  ghost predicate WgInv(s: State) {
    && s.wg == InFlight(s.tasks) + (if s.pc.ParGo? then 1 else 0)
    && (s.parallelRun <==> PcInParallelRun(s.pc))
    && (!s.parallelRun ==> InFlight(s.tasks) == 0)
  }

  /** No two goroutines read the same collector, and only collectors already visited in this round are
      being read. */
  ghost predicate TasksInv(c: Config, s: State) {
    && (s.parallelRun || s.pc.SerPoll? || s.pc.SerRead? ==> |s.got| > 0)
    && (forall k :: 0 <= k < |s.tasks| ==> s.tasks[k].round < |s.got|)
    && (forall k :: 0 <= k < |s.tasks| && s.tasks[k].Active() ==>
          && s.tasks[k].coll < c.nPar && s.tasks[k].round == |s.got| - 1
          && ((s.pc.ParPoll? || s.pc.ParAdd? || s.pc.ParGo?) ==> s.tasks[k].coll < s.pc.i))
    && (forall j, k :: 0 <= j < k < |s.tasks| && s.tasks[j].Active() && s.tasks[k].Active() ==>
          s.tasks[j].coll != s.tasks[k].coll)
    && (forall i :: 0 <= i < |s.sent| ==> s.sent[i].round < |s.got|)
  }

  ghost predicate ClosedInv(c: Config, s: State) {
    && |s.closed| == c.nPar
    && s.serialClosed == seq(c.nSer, _ => 0)
    && forall j :: 0 <= j < c.nPar ==>
         s.closed[j] == if s.pc.CloseDone? || s.pc.Ended? || (s.pc.Closing? && j < s.pc.i) then 1 else 0
  }

  ghost predicate Inv(c: Config, s: State) {
    Bounds(c, s) && WgInv(s) && TasksInv(c, s) && ClosedInv(c, s)
  }

  lemma InitialInv(c: Config)
    ensures Inv(c, Initial(c))
  {
  }

  // A goroutine moves on; `sent` and the counter move with it.

  function MoveTask(s: State, k: nat, p: Phase, sent: seq<Sent>, log: seq<Event>): State
    requires k < |s.tasks| && (p.Finished? ==> s.wg > 0)
  {
    SetPhase(s, k, p).(wg := if p.Finished? then s.wg - 1 else s.wg, sent := sent, log := log)
  }

  predicate SentMore(s: State, k: nat, sent: seq<Sent>)
    requires k < |s.tasks|
  {
    || sent == s.sent
    || (|sent| == |s.sent| + 1 && sent[..|s.sent|] == s.sent && sent[|s.sent|].round == s.tasks[k].round)
  }

  lemma TaskWg(s: State, k: nat, p: Phase, sent: seq<Sent>, log: seq<Event>)
    requires WgInv(s) && k < |s.tasks| && s.tasks[k].Active()
    ensures s.wg > 0 && WgInv(MoveTask(s, k, p, sent, log))
  {
    InFlightUpdate(s.tasks, k, s.tasks[k].(phase := p));
    InFlightZero(s.tasks);
    hide InFlight;
  }

  lemma TaskTasks(c: Config, s: State, k: nat, p: Phase, sent: seq<Sent>, log: seq<Event>)
    requires TasksInv(c, s) && k < |s.tasks| && s.tasks[k].Active() && s.wg > 0 && SentMore(s, k, sent)
    ensures TasksInv(c, MoveTask(s, k, p, sent, log))
  {
  }

  lemma TaskStepInv(c: Config, s: State, k: nat, p: Phase, sent: seq<Sent>, log: seq<Event>)
    requires Inv(c, s) && k < |s.tasks| && s.tasks[k].Active() && SentMore(s, k, sent)
    ensures s.wg > 0 && Inv(c, MoveTask(s, k, p, sent, log))
  {
    TaskWg(s, k, p, sent, log);
    TaskTasks(c, s, k, p, sent, log);
    hide WgInv, TasksInv;
  }

  lemma SendInv(c: Config, s: State, k: nat)
    requires Inv(c, s) && Enabled(c, s, Send(k))
    ensures Inv(c, Apply(c, s, Send(k)))
  {
    var p := s.tasks[k].phase;
    TaskStepInv(c, s, k, p.(left := p.left[1..]), s.sent + [Sent(p.left[0], Parallel(k), s.tasks[k].round)], s.log);
  }

  predicate ControlAction(a: Action) {
    !a.Tick? && !a.Go? && !a.CloseOne? && !a.Begin? && !a.Send? && !a.Return? && !a.WgDone?
  }

  // A control action moves the program counter, and at most the wait group counter and parallelRun with it.

  lemma ControlWg(c: Config, s: State, a: Action)
    requires WgInv(s) && Enabled(c, s, a) && ControlAction(a)
    ensures WgInv(Apply(c, s, a))
  {
    hide InFlight;
  }

  lemma ControlTasks(c: Config, s: State, a: Action)
    requires Bounds(c, s) && WgInv(s) && TasksInv(c, s) && Enabled(c, s, a) && ControlAction(a)
    ensures TasksInv(c, Apply(c, s, a))
  {
    InFlightZero(s.tasks);
    hide InFlight;
  }

  lemma ControlClosed(c: Config, s: State, a: Action)
    requires Bounds(c, s) && ClosedInv(c, s) && Enabled(c, s, a) && ControlAction(a)
    ensures ClosedInv(c, Apply(c, s, a))
  {
  }

  lemma ControlInv(c: Config, s: State, a: Action)
    requires Inv(c, s) && Enabled(c, s, a) && ControlAction(a)
    ensures Inv(c, Apply(c, s, a))
  {
    ControlWg(c, s, a);
    ControlTasks(c, s, a);
    ControlClosed(c, s, a);
    hide WgInv, TasksInv, ClosedInv;
  }

  lemma GoInv(c: Config, s: State)
    requires Inv(c, s) && Enabled(c, s, Go)
    ensures Inv(c, Apply(c, s, Go))
  {
    var t := Task(s.pc.i, |s.got| - 1, Spawned);
    assert (s.tasks + [t])[..|s.tasks|] == s.tasks;
  }

  lemma TickInv(c: Config, s: State, ts: Time)
    requires Inv(c, s) && Enabled(c, s, Tick(ts))
    ensures Inv(c, Apply(c, s, Tick(ts)))
  {
    InFlightZero(s.tasks);
  }

  lemma CloseOneInv(c: Config, s: State)
    requires Inv(c, s) && Enabled(c, s, CloseOne)
    ensures Inv(c, Apply(c, s, CloseOne))
  {
  }

  lemma StepInv(c: Config, s: State, a: Action)
    requires Inv(c, s) && Enabled(c, s, a)
    ensures Inv(c, Apply(c, s, a))
  {
    hide Inv;
    match a
    case Tick(ts) => TickInv(c, s, ts);
    case Go => GoInv(c, s);
    case CloseOne => CloseOneInv(c, s);
    case Begin(k, left) => TaskStepInv(c, s, k, Reading(left, left), s.sent, s.log);
    case Send(k) => SendInv(c, s, k);
    case Return(k) =>
      TaskStepInv(c, s, k, Returned(s.tasks[k].phase.msgs), s.sent,
                  s.log + [ParReturned(s.tasks[k].coll, s.tasks[k].round)]);
    case WgDone(k) => TaskStepInv(c, s, k, Finished(s.tasks[k].phase.msgs), s.sent, s.log);
    case _ => ControlInv(c, s, a);
  }
}
