/** What a tick makes the collector manager do: one Read of every parallel collector, then one of every serial collector
    in order, and every message of every Read on the output channel. */
module ManagerRounds {
  import opened Common
  import opened Manager
  import opened Sequences

  // ----- every parallel collector once a round -----

  ghost predicate Started(tasks: seq<Task>, i: nat, r: nat) {
    exists k :: 0 <= k < |tasks| && tasks[k].coll == i && tasks[k].round == r
  }

  predicate InParallelLoop(pc: Pc) {
    pc.ParPoll? || pc.ParAdd? || pc.ParGo?
  }

  /** For how many parallel collectors the current round has started a Read; nothing is claimed of a round cut short. */
  function Visited(c: Config, pc: Pc): nat {
    if InParallelLoop(pc) then pc.i
    else if pc.DoneWait? || pc.Closing? || pc.CloseDone? || pc.Ended? then 0
    else c.nPar
  }

  ghost predicate OnceEach(tasks: seq<Task>) {
    forall j, k :: 0 <= j < k < |tasks| && tasks[j].round == tasks[k].round ==> tasks[j].coll != tasks[k].coll
  }

  ghost predicate AllStarted(c: Config, s: State) {
    forall i: nat, r: nat :: i < c.nPar && (r + 1 < |s.got| || (r + 1 == |s.got| && i < Visited(c, s.pc))) ==>
      Started(s.tasks, i, r)
  }

  ghost predicate ParallelInv(c: Config, s: State) {
    && (forall k :: 0 <= k < |s.tasks| ==> s.tasks[k].coll < c.nPar && s.tasks[k].round < |s.got|)
    && (forall k :: 0 <= k < |s.tasks| && InParallelLoop(s.pc) && s.tasks[k].round == |s.got| - 1 ==>
          s.tasks[k].coll < s.pc.i)
    && OnceEach(s.tasks)
    && AllStarted(c, s)
  }

  predicate SameReads(tasks: seq<Task>, tasks': seq<Task>) {
    |tasks'| == |tasks| &&
    forall k :: 0 <= k < |tasks| ==> tasks'[k].coll == tasks[k].coll && tasks'[k].round == tasks[k].round
  }

  lemma StartedStill(tasks: seq<Task>, tasks': seq<Task>, i: nat, r: nat)
    requires SameReads(tasks, tasks') && Started(tasks, i, r)
    ensures Started(tasks', i, r)
  {
    var k :| 0 <= k < |tasks| && tasks[k].coll == i && tasks[k].round == r;
    assert tasks'[k].coll == i && tasks'[k].round == r;
  }

  lemma GoParallel(c: Config, s: State)
    requires ParallelInv(c, s) && Bounds(c, s) && Enabled(c, s, Go)
    ensures ParallelInv(c, Apply(c, s, Go))
  {
    var s' := Apply(c, s, Go);
    var n := |s.tasks|;
    assert forall k :: 0 <= k < n ==> s'.tasks[k] == s.tasks[k];
    forall i: nat, r: nat | i < c.nPar && (r + 1 < |s.got| || (r + 1 == |s.got| && i < Visited(c, s'.pc)))
      ensures Started(s'.tasks, i, r)
    {
      if r + 1 == |s.got| && i == s.pc.i {
        assert s'.tasks[n].coll == i && s'.tasks[n].round == r;
      } else {
        assert Started(s.tasks, i, r);
        var k :| 0 <= k < n && s.tasks[k].coll == i && s.tasks[k].round == r;
        assert s'.tasks[k].coll == i && s'.tasks[k].round == r;
      }
    }
  }

  lemma OtherParallel(c: Config, s: State, a: Action)
    requires ParallelInv(c, s) && Bounds(c, s) && Enabled(c, s, a) && !a.Go?
    requires s.pc.NotStarted? ==> s.got == []
    ensures ParallelInv(c, Apply(c, s, a))
  {
    var s' := Apply(c, s, a);
    assert SameReads(s.tasks, s'.tasks);
    forall i: nat, r: nat | i < c.nPar && (r + 1 < |s'.got| || (r + 1 == |s'.got| && i < Visited(c, s'.pc)))
      ensures Started(s'.tasks, i, r)
    {
      StartedStill(s.tasks, s'.tasks, i, r);
    }
  }

  // ----- the serial collectors in turn -----

  datatype Turn = Starts(coll: nat) | Ends(coll: nat)

  /** The serial Reads of a round. */
  function TurnsOf(log: seq<Event>, r: nat): seq<Turn> {
    if log == [] then []
    else
      var e := log[|log| - 1];
      TurnsOf(log[..|log| - 1], r) +
      if e.round != r || e.ParReturned? then []
      else if e.SerBegun? then [Starts(e.coll)]
      else [Ends(e.coll)]
  }

  /** Collectors 0 to n - 1, each beginning after the one before has returned. */
  function InTurn(n: nat): seq<Turn> {
    if n == 0 then [] else InTurn(n - 1) + [Starts(n - 1), Ends(n - 1)]
  }

  ghost predicate TurnInv(c: Config, pc: Pc, turns: seq<Turn>) {
    match pc
    case SerPoll(i) => turns == InTurn(i)
    case SerRead(i, _, _) => turns == InTurn(i) + [Starts(i)]
    case Select => turns == InTurn(c.nSer)
    case _ => PcInParallelRun(pc) ==> turns == []
  }

  ghost predicate SerialInv(c: Config, s: State) {
    && (s.pc.NotStarted? ==> s.got == [])
    && (forall a :: 0 <= a < |s.log| ==> s.log[a].round < |s.got|)
    && (forall r: nat :: r + 1 < |s.got| ==> TurnsOf(s.log, r) == InTurn(c.nSer))
    && (s.got != [] ==> TurnInv(c, s.pc, TurnsOf(s.log, |s.got| - 1)))
  }

  lemma TurnsMore(log: seq<Event>, e: Event, r: nat)
    ensures TurnsOf(log + [e], r) ==
            TurnsOf(log, r) + if e.round != r || e.ParReturned? then []
                              else if e.SerBegun? then [Starts(e.coll)]
                              else [Ends(e.coll)]
  {
    Appended(log, e);
  }

  lemma {:induction false} NoTurnsYet(log: seq<Event>, r: nat)
    requires forall a :: 0 <= a < |log| ==> log[a].round != r
    ensures TurnsOf(log, r) == []
  {
    if log != [] {
      NoTurnsYet(log[..|log| - 1], r);
    }
  }

  lemma {:induction false} OnlyParallel(log: seq<Event>, r: nat)
    requires TurnsOf(log, r) == []
    ensures forall a :: 0 <= a < |log| && log[a].round == r ==> log[a].ParReturned?
  {
    if log != [] {
      OnlyParallel(log[..|log| - 1], r);
    }
  }

  lemma TickSerial(c: Config, s: State, ts: Time)
    requires SerialInv(c, s) && Enabled(c, s, Tick(ts))
    ensures SerialInv(c, Apply(c, s, Tick(ts)))
  {
    NoTurnsYet(s.log, |s.got|);
    hide TurnsOf, InTurn;
  }

  /** The events an action adds. */
  lemma LogSerial(c: Config, s: State, a: Action)
    requires SerialInv(c, s) && Bounds(c, s) && Enabled(c, s, a) && (a.SerDefault? || a.SerReturn?)
    ensures SerialInv(c, Apply(c, s, a))
  {
    var s' := Apply(c, s, a);
    var n := |s.log|;
    assert s'.log == s.log + [s'.log[n]];
    forall r: nat { TurnsMore(s.log, s'.log[n], r); }
    if a.SerReturn? {
      Associative(InTurn(s.pc.i), [Starts(s.pc.i)], [Ends(s.pc.i)]);
      assert InTurn(s.pc.i + 1) == InTurn(s.pc.i) + [Starts(s.pc.i), Ends(s.pc.i)];
    }
    hide TurnsOf, InTurn;
  }

  lemma ReturnSerial(c: Config, s: State, k: nat)
    requires SerialInv(c, s) && Enabled(c, s, Return(k)) && s.tasks[k].round < |s.got|
    ensures SerialInv(c, Apply(c, s, Return(k)))
  {
    forall r: nat { TurnsMore(s.log, ParReturned(s.tasks[k].coll, s.tasks[k].round), r); }
    hide TurnsOf, InTurn;
  }

  lemma OtherSerial(c: Config, s: State, a: Action)
    requires SerialInv(c, s) && Bounds(c, s) && WgInv(s) && Enabled(c, s, a)
    requires !a.Tick? && !a.SerDefault? && !a.SerReturn? && !a.Return?
    ensures SerialInv(c, Apply(c, s, a))
  {
    assert Apply(c, s, a).log == s.log;
    assert InTurn(0) == [];
    hide TurnsOf, InTurn, InFlight;
  }

  lemma SerialStep(c: Config, s: State, a: Action)
    requires SerialInv(c, s) && Manager.Inv(c, s) && Enabled(c, s, a)
    ensures SerialInv(c, Apply(c, s, a))
  {
    hide SerialInv, WgInv, ClosedInv;
    match a
    case Tick(ts) => TickSerial(c, s, ts);
    case SerDefault(_) => LogSerial(c, s, a);
    case SerReturn => LogSerial(c, s, a);
    case Return(k) => ReturnSerial(c, s, k);
    case _ => OtherSerial(c, s, a);
  }

  // ----- after the parallel ones -----

  /** Rounds follow one another, and in each the serial Reads come after the parallel ones have returned. */
  ghost predicate OrderInv(log: seq<Event>) {
    forall a, b :: 0 <= a < b < |log| ==>
      && log[a].round <= log[b].round
      && (log[a].round == log[b].round && !log[a].ParReturned? ==> !log[b].ParReturned?)
  }

  lemma OrderStep(c: Config, s: State, a: Action)
    requires OrderInv(s.log) && SerialInv(c, s) && Manager.Inv(c, s) && Enabled(c, s, a)
    ensures OrderInv(Apply(c, s, a).log)
  {
    if a.Return? {
      InFlightZero(s.tasks);
      OnlyParallel(s.log, |s.got| - 1);
    }
    hide TurnsOf, InTurn, InFlight, ClosedInv;
  }

  ghost predicate ReturnedInv(s: State) {
    forall k :: 0 <= k < |s.tasks| && (s.tasks[k].phase.Returned? || s.tasks[k].phase.Finished?) ==>
      ParReturned(s.tasks[k].coll, s.tasks[k].round) in s.log
  }

  lemma ReturnedStep(c: Config, s: State, a: Action)
    requires ReturnedInv(s) && Enabled(c, s, a)
    ensures ReturnedInv(Apply(c, s, a))
  {
    var s' := Apply(c, s, a);
    assert s.log <= s'.log;
    forall e | e in s.log ensures e in s'.log {
      var n :| 0 <= n < |s.log| && s.log[n] == e;
      assert s'.log[n] == e;
    }
    if a.Return? { assert s'.log[|s.log|] in s'.log; }
  }

  // ----- every message of a Read is sent, in order -----

  /** What a Read has sent so far. */
  function SentBy(sent: seq<Sent>, reader: Reader, r: nat): seq<Msg> {
    if sent == [] then []
    else
      var x := sent[|sent| - 1];
      SentBy(sent[..|sent| - 1], reader, r) + if x.reader == reader && x.round == r then [x.msg] else []
  }

  lemma SentMoreBy(sent: seq<Sent>, x: Sent, reader: Reader, r: nat)
    ensures SentBy(sent + [x], reader, r) ==
            SentBy(sent, reader, r) + if x.reader == reader && x.round == r then [x.msg] else []
  {
    Appended(sent, x);
  }

  lemma {:induction false} NothingSentBy(sent: seq<Sent>, reader: Reader, r: nat)
    requires forall i :: 0 <= i < |sent| ==> sent[i].reader != reader || sent[i].round != r
    ensures SentBy(sent, reader, r) == []
  {
    if sent != [] {
      NothingSentBy(sent[..|sent| - 1], reader, r);
    }
  }

  ghost predicate TaskDelivers(sent: seq<Sent>, t: Task, k: nat) {
    match t.phase
    case Spawned => SentBy(sent, Parallel(k), t.round) == []
    case Reading(msgs, left) => SentBy(sent, Parallel(k), t.round) + left == msgs
    case Returned(msgs) => SentBy(sent, Parallel(k), t.round) == msgs
    case Finished(msgs) => SentBy(sent, Parallel(k), t.round) == msgs
  }

  ghost predicate TasksDeliver(s: State) {
    && (forall i :: 0 <= i < |s.sent| && s.sent[i].reader.Parallel? ==> s.sent[i].reader.task < |s.tasks|)
    && (forall k :: 0 <= k < |s.tasks| ==> TaskDelivers(s.sent, s.tasks[k], k))
  }

  lemma SendDelivers(c: Config, s: State, k: nat)
    requires TasksDeliver(s) && Enabled(c, s, Send(k))
    ensures TasksDeliver(Apply(c, s, Send(k)))
  {
    var s' := Apply(c, s, Send(k));
    var t := s.tasks[k];
    var x := Sent(t.phase.left[0], Parallel(k), t.round);
    forall j | 0 <= j < |s.tasks| ensures TaskDelivers(s'.sent, s'.tasks[j], j) {
      SentMoreBy(s.sent, x, Parallel(j), s.tasks[j].round);
      assert TaskDelivers(s.sent, s.tasks[j], j);
      if j == k {
        assert t.phase.left == [t.phase.left[0]] + t.phase.left[1..];
        Associative(SentBy(s.sent, Parallel(k), t.round), [t.phase.left[0]], t.phase.left[1..]);
      }
    }
    hide SentBy, TaskDelivers;
  }

  lemma SerSendDelivers(c: Config, s: State)
    requires TasksDeliver(s) && Enabled(c, s, SerSend)
    ensures TasksDeliver(Apply(c, s, SerSend))
  {
    var s' := Apply(c, s, SerSend);
    forall j | 0 <= j < |s.tasks| ensures TaskDelivers(s'.sent, s'.tasks[j], j) {
      SentMoreBy(s.sent, s'.sent[|s.sent|], Parallel(j), s.tasks[j].round);
      assert TaskDelivers(s.sent, s.tasks[j], j);
    }
    hide SentBy, TaskDelivers;
  }

  lemma OtherDelivers(c: Config, s: State, a: Action)
    requires TasksDeliver(s) && Enabled(c, s, a) && !a.Send? && !a.SerSend?
    ensures TasksDeliver(Apply(c, s, a))
  {
    var s' := Apply(c, s, a);
    if a.Go? {
      NothingSentBy(s.sent, Parallel(|s.tasks|), |s.got| - 1);
      assert forall j :: 0 <= j < |s.tasks| ==> s'.tasks[j] == s.tasks[j];
    }
    hide SentBy;
  }

  lemma TasksDeliverStep(c: Config, s: State, a: Action)
    requires TasksDeliver(s) && Enabled(c, s, a)
    ensures TasksDeliver(Apply(c, s, a))
  {
    hide TasksDeliver, Apply;
    match a
    case Send(k) => SendDelivers(c, s, k);
    case SerSend => SerSendDelivers(c, s);
    case _ => OtherDelivers(c, s, a);
  }

  /** The serial collector that is next, or is being read. */
  predicate BeforeTurn(pc: Pc, coll: nat) {
    && !PcInParallelRun(pc)
    && (pc.SerPoll? || pc.SerRead? ==> coll < pc.i)
  }

  ghost predicate SerialDelivers(s: State) {
    && (forall i :: 0 <= i < |s.sent| && s.sent[i].reader.Serial? && s.sent[i].round + 1 == |s.got| ==>
          BeforeTurn(s.pc, s.sent[i].reader.coll) || (s.pc.SerRead? && s.sent[i].reader.coll == s.pc.i))
    && (forall a :: 0 <= a < |s.log| && s.log[a].SerReturned? ==>
          && (s.log[a].round + 1 == |s.got| ==> BeforeTurn(s.pc, s.log[a].coll))
          && SentBy(s.sent, Serial(s.log[a].coll), s.log[a].round) == s.log[a].msgs)
    && (s.pc.SerRead? && s.got != [] ==>
          SentBy(s.sent, Serial(s.pc.i), |s.got| - 1) + s.pc.left == s.pc.msgs)
  }

  lemma SerSendSerial(c: Config, s: State)
    requires SerialDelivers(s) && Enabled(c, s, SerSend)
    ensures SerialDelivers(Apply(c, s, SerSend))
  {
    var s' := Apply(c, s, SerSend);
    var left := s.pc.left;
    var x := Sent(left[0], Serial(s.pc.i), |s.got| - 1);
    forall reader, r { SentMoreBy(s.sent, x, reader, r); }
    assert left == [left[0]] + left[1..];
    Associative(SentBy(s.sent, Serial(s.pc.i), |s.got| - 1), [left[0]], left[1..]);
    hide SentBy;
  }

  lemma SendSerial(c: Config, s: State, k: nat)
    requires SerialDelivers(s) && Enabled(c, s, Send(k))
    ensures SerialDelivers(Apply(c, s, Send(k)))
  {
    var t := s.tasks[k];
    forall reader, r { SentMoreBy(s.sent, Sent(t.phase.left[0], Parallel(k), t.round), reader, r); }
    hide SentBy;
  }

  lemma SerDefaultSerial(c: Config, s: State, left: seq<Msg>)
    requires SerialDelivers(s) && Enabled(c, s, SerDefault(left))
    ensures SerialDelivers(Apply(c, s, SerDefault(left)))
  {
    NothingSentBy(s.sent, Serial(s.pc.i), |s.got| - 1);
    hide SentBy;
  }

  lemma OtherSerialDelivers(c: Config, s: State, a: Action)
    requires SerialDelivers(s) && Manager.Inv(c, s) && SerialInv(c, s) && Enabled(c, s, a)
    requires !a.Send? && !a.SerSend? && !a.SerDefault?
    ensures SerialDelivers(Apply(c, s, a))
  {
    hide SentBy, TurnsOf, InTurn, InFlight, ClosedInv;
  }

  lemma SerialDeliversStep(c: Config, s: State, a: Action)
    requires SerialDelivers(s) && Manager.Inv(c, s) && SerialInv(c, s) && Enabled(c, s, a)
    ensures SerialDelivers(Apply(c, s, a))
  {
    hide SerialDelivers, Apply, Manager.Inv, SerialInv;
    match a
    case Send(k) => SendSerial(c, s, k);
    case SerSend => SerSendSerial(c, s);
    case SerDefault(left) => SerDefaultSerial(c, s, left);
    case _ => OtherSerialDelivers(c, s, a);
  }

  // ----- all of it -----

  ghost predicate Inv(c: Config, s: State) {
    ParallelInv(c, s) && SerialInv(c, s) && OrderInv(s.log) && ReturnedInv(s) && TasksDeliver(s) && SerialDelivers(s)
  }

  lemma InitialInv(c: Config)
    ensures Inv(c, Initial(c))
  {
  }

  lemma StepInv(c: Config, s: State, a: Action)
    requires Inv(c, s) && Manager.Inv(c, s) && Enabled(c, s, a)
    ensures Inv(c, Apply(c, s, a))
  {
    ParallelStep(c, s, a);
    SerialStep(c, s, a);
    OrderStep(c, s, a);
    ReturnedStep(c, s, a);
    TasksDeliverStep(c, s, a);
    SerialDeliversStep(c, s, a);
    hide ParallelInv, SerialInv, OrderInv, ReturnedInv, TasksDeliver, SerialDelivers, Apply;
  }

  lemma ParallelStep(c: Config, s: State, a: Action)
    requires ParallelInv(c, s) && SerialInv(c, s) && Manager.Inv(c, s) && Enabled(c, s, a)
    ensures ParallelInv(c, Apply(c, s, a))
  {
    hide ParallelInv, WgInv, ClosedInv, Apply;
    if a.Go? { GoParallel(c, s); } else { OtherParallel(c, s, a); }
  }

  lemma ReadOnce(c: Config, s: State, i: nat, r: nat) returns (k: nat)
    requires Manager.Inv(c, s) && Inv(c, s) && s.pc.Select? && i < c.nPar && r < |s.got|
    ensures k < |s.tasks| && s.tasks[k].coll == i && s.tasks[k].round == r && s.tasks[k].phase.Finished?
    ensures forall j :: 0 <= j < |s.tasks| && s.tasks[j].coll == i && s.tasks[j].round == r ==> j == k
  {
    hide TurnsOf, SentBy;
    InFlightZero(s.tasks);
    assert Started(s.tasks, i, r);
    k :| 0 <= k < |s.tasks| && s.tasks[k].coll == i && s.tasks[k].round == r;
  }
}
