/** internal/metricAggregator/metricAggregator.go: the memo of compiled expressions shared by EvalBoolCondition and
    EvalFloat64Condition. Any number of callers run at once; each access to the map is one step under the lock, so
    another caller can compile and store the same condition between a look-up and a store. */
module Evaluables {
  import opened Common

  function ReplaceAll(s: string, from: char, to: char): (r: string)
    ensures |r| == |s|
  {
    seq(|s|, i requires 0 <= i < |s| => if s[i] == from then to else s[i])
  }

  /** The text that is compiled. */
  function Normalized(condition: string): string {
    ReplaceAll(ReplaceAll(condition, '\'', '"'), '%', '\\')
  }

  datatype Kind = EvalBool | EvalFloat64

  /** A call and how far it is. */
  datatype Phase<P> =
    | Looking
    | Compiling
    | Storing(compiled: P)
    | Evaluating(program: P)
    | Failed

  datatype Call<P> = Call(kind: Kind, condition: string, phase: Phase<P>)

  datatype State<P> = State(mapping: map<string, P>, calls: seq<Call<P>>)

  datatype Action =
    | Begin(kind: Kind, condition: string)
    | LookUp(i: nat)
    | Compile(i: nat)
    | Store(i: nat)

  predicate Enabled<P>(s: State<P>, a: Action) {
    match a
    case Begin(_, _) => true
    case LookUp(i) => i < |s.calls| && s.calls[i].phase.Looking?
    case Compile(i) => i < |s.calls| && s.calls[i].phase.Compiling?
    case Store(i) => i < |s.calls| && s.calls[i].phase.Storing?
  }

  function Move<P>(s: State<P>, i: nat, phase: Phase<P>): State<P>
    requires i < |s.calls|
  {
    s.(calls := s.calls[i := s.calls[i].(phase := phase)])
  }

  function Apply<P>(compile: string -> Option<P>, s: State<P>, a: Action): State<P>
    requires Enabled(s, a)
  {
    match a
    case Begin(kind, condition) => s.(calls := s.calls + [Call(kind, condition, Looking)])
    case LookUp(i) =>
      var c := s.calls[i].condition;
      Move(s, i, if c in s.mapping then Evaluating(s.mapping[c]) else Compiling)
    case Compile(i) =>
      (match compile(Normalized(s.calls[i].condition))
       case Some(p) => Move(s, i, Storing(p))
       case None => Move(s, i, Failed))
    case Store(i) =>
      var p := s.calls[i].phase.compiled;
      Move(s.(mapping := s.mapping[s.calls[i].condition := p]), i, Evaluating(p))
  }

  ghost predicate RunsTo<P(!new)>(compile: string -> Option<P>, s: State<P>, actions: seq<Action>, t: State<P>)
    decreases |actions|
  {
    if actions == [] then s == t
    else Enabled(s, actions[0]) && RunsTo(compile, Apply(compile, s, actions[0]), actions[1..], t)
  }

  /** What evaluating without the memo gives: the program of the text with single quotes turned into double ones and
      percent signs into backslashes, or nothing if that does not compile. */
  function Uncached<P>(compile: string -> Option<P>, condition: string): Option<P> {
    compile(seq(|condition|, i requires 0 <= i < |condition| =>
                  if condition[i] == '\'' then '"' else if condition[i] == '%' then '\\' else condition[i]))
  }

  lemma NormalizedIsUncached<P>(compile: string -> Option<P>, condition: string)
    ensures compile(Normalized(condition)) == Uncached(compile, condition)
  {
    var text := seq(|condition|, i requires 0 <= i < |condition| =>
                      if condition[i] == '\'' then '"' else if condition[i] == '%' then '\\' else condition[i]);
    assert Normalized(condition) == text;
  }

  ghost predicate MappingInv<P>(compile: string -> Option<P>, s: State<P>) {
    forall c :: c in s.mapping ==> Uncached(compile, c) == Some(s.mapping[c])
  }

  ghost predicate CallInv<P>(compile: string -> Option<P>, call: Call<P>) {
    match call.phase
    case Looking => true
    case Compiling => true
    case Storing(p) => Uncached(compile, call.condition) == Some(p)
    case Evaluating(p) => Uncached(compile, call.condition) == Some(p)
    case Failed => Uncached(compile, call.condition).None?
  }

  /** An answered call has its condition in the memo, or it failed. */
  ghost predicate Answered<P>(s: State<P>, call: Call<P>) {
    call.phase.Evaluating? ==> call.condition in s.mapping
  }

  ghost predicate Inv<P>(compile: string -> Option<P>, s: State<P>) {
    && MappingInv(compile, s)
    && forall i :: 0 <= i < |s.calls| ==> CallInv(compile, s.calls[i]) && Answered(s, s.calls[i])
  }

  lemma StepInv<P>(compile: string -> Option<P>, s: State<P>, a: Action)
    requires Inv(compile, s) && Enabled(s, a)
    ensures Inv(compile, Apply(compile, s, a))
    ensures forall c :: c in s.mapping ==>
      c in Apply(compile, s, a).mapping && Apply(compile, s, a).mapping[c] == s.mapping[c]
  {
    hide Uncached, Normalized;
    if a.Store? {
      assert CallInv(compile, s.calls[a.i]);
    } else if a.Compile? {
      NormalizedIsUncached(compile, s.calls[a.i].condition);
    }
  }

  lemma {:induction false} RunInv<P(!new)>(
    compile: string -> Option<P>, s: State<P>, actions: seq<Action>, t: State<P>)
    requires Inv(compile, s) && RunsTo(compile, s, actions, t)
    ensures Inv(compile, t)
    ensures forall c :: c in s.mapping ==> c in t.mapping && t.mapping[c] == s.mapping[c]
    decreases |actions|
  {
    if actions != [] {
      StepInv(compile, s, actions[0]);
      RunInv(compile, Apply(compile, s, actions[0]), actions[1..], t);
    }
  }

  predicate Initial<P>(s: State<P>) {
    s.mapping == map[] && s.calls == []
  }

  /** What a finished call returns, given what evaluating a program on the parameters of the call returns. */
  function Result<P, V>(call: Call<P>, evaluate: (Kind, P) -> V, failure: Kind -> V): V
    requires call.phase.Evaluating? || call.phase.Failed?
  {
    if call.phase.Evaluating? then evaluate(call.kind, call.phase.program) else failure(call.kind)
  }

  function UncachedResult<P, V>(
    compile: string -> Option<P>, kind: Kind, condition: string, evaluate: (Kind, P) -> V, failure: Kind -> V): V
  {
    match Uncached(compile, condition)
    case Some(p) => evaluate(kind, p)
    case None => failure(kind)
  }

  /** Under any interleaving every finished call of either evaluator returns what it would return without the memo. */
  lemma CachedAgrees<P(!new), V>(
    compile: string -> Option<P>, s: State<P>, actions: seq<Action>, t: State<P>, i: nat,
    evaluate: (Kind, P) -> V, failure: Kind -> V)
    requires Initial(s) && RunsTo(compile, s, actions, t) && i < |t.calls|
    requires t.calls[i].phase.Evaluating? || t.calls[i].phase.Failed?
    ensures Result(t.calls[i], evaluate, failure)
         == UncachedResult(compile, t.calls[i].kind, t.calls[i].condition, evaluate, failure)
  {
    RunInv(compile, s, actions, t);
    assert CallInv(compile, t.calls[i]);
  }

  /** Conditions that do not compile are never stored, those that were answered are; so a finished call has its
      condition in the memo exactly if it compiles. */
  lemma StoredExactly<P(!new)>(compile: string -> Option<P>, s: State<P>, actions: seq<Action>, t: State<P>, i: nat)
    requires Initial(s) && RunsTo(compile, s, actions, t) && i < |t.calls|
    requires t.calls[i].phase.Evaluating? || t.calls[i].phase.Failed?
    ensures t.calls[i].condition in t.mapping <==> Uncached(compile, t.calls[i].condition).Some?
    ensures forall c :: c in t.mapping ==> Uncached(compile, c).Some?
  {
    RunInv(compile, s, actions, t);
    assert CallInv(compile, t.calls[i]) && Answered(t, t.calls[i]);
  }

  /** Once a condition is stored, every later look-up finds the same program. */
  lemma FoundLater<P(!new)>(
    compile: string -> Option<P>, s: State<P>, first: seq<Action>, mid: State<P>, more: seq<Action>, t: State<P>,
    i: nat)
    requires Initial(s) && RunsTo(compile, s, first, mid) && RunsTo(compile, mid, more, t)
    requires Enabled(t, LookUp(i)) && t.calls[i].condition in mid.mapping
    ensures Apply(compile, t, LookUp(i)).calls[i].phase == Evaluating(mid.mapping[t.calls[i].condition])
  {
    RunInv(compile, s, first, mid);
    RunInv(compile, mid, more, t);
  }
}
