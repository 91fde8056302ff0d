/**
 The host daemon's mutation fence: every mutation checks the block and counts itself under one
 mutex, and a drain polls the counter under the same mutex.
 */
module HostFence {
  import opened Options

  /** A mutation on its way: queued, inside the mutex before and after its check, running. */
  datatype Phase = Waiting | Locked | Passed | Turned | Running
  datatype Drain = Off | Polling | Drained | TimedOut

  /** `held` says the block was in force at the poll that found nothing in flight, and has been since. */
  datatype State = State(
    block: bool,
    holder: Option<nat>,
    threads: map<nat, Phase>,
    mutations: int,
    drain: Drain,
    held: bool)

  datatype Action =
    | Arrive(id: nat) | Lock(id: nat) | Stat(id: nat, fails: bool) | Count(id: nat) | Turn(id: nat) | Finish(id: nat)
    | Block | Unblock | Begin | Poll | Expire

  predicate Initial(s: State) {
    s.holder == None && s.threads == map[] && s.mutations == 0 && s.drain == Off && !s.held
  }

  predicate Enabled(s: State, a: Action) {
    match a
    case Arrive(id) => id !in s.threads
    case Lock(id) => id in s.threads && s.threads[id] == Waiting && s.holder == None
    case Stat(id, _) => id in s.threads && s.threads[id] == Locked
    case Count(id) => id in s.threads && s.threads[id] == Passed
    case Turn(id) => id in s.threads && s.threads[id] == Turned
    case Finish(id) => id in s.threads && s.threads[id] == Running && s.holder == None
    case Begin => s.drain != Polling
    case Poll => s.drain == Polling && s.holder == None
    case Expire => s.drain == Polling
    case _ => true
  }

  function Step(s: State, a: Action): State
    requires Enabled(s, a)
  {
    match a
    case Arrive(id) => s.(threads := s.threads[id := Waiting])
    case Lock(id) => s.(threads := s.threads[id := Locked], holder := Some(id))
    case Stat(id, fails) => s.(threads := s.threads[id := if s.block || fails then Turned else Passed])
    case Count(id) => s.(threads := s.threads[id := Running], mutations := s.mutations + 1, holder := None)
    case Turn(id) => s.(threads := s.threads - {id}, holder := None)
    case Finish(id) => s.(threads := s.threads - {id}, mutations := s.mutations - 1)
    case Block => s.(block := true)
    case Unblock => s.(block := false, held := false)
    case Begin => s.(drain := Polling, held := false)
    case Poll => if s.mutations == 0 then s.(drain := Drained, held := s.block) else s
    case Expire => s.(drain := TimedOut)
  }

  function InFlight(threads: map<nat, Phase>): set<nat> {
    set id | id in threads && threads[id] == Running
  }

  predicate Inside(p: Phase) {
    p == Locked || p == Passed || p == Turned
  }

  predicate Inv(s: State) {
    && s.mutations == |InFlight(s.threads)|
    && (forall id | id in s.threads && Inside(s.threads[id]) :: s.holder == Some(id))
    && (s.holder.Some? ==> s.holder.value in s.threads && Inside(s.threads[s.holder.value]))
    && (s.held ==> s.drain == Drained && Clear(s))
  }

  /** The block is in force, and nobody has slipped past it. */
  predicate Clear(s: State) {
    s.block && forall id | id in s.threads :: s.threads[id] != Running && s.threads[id] != Passed
  }

  lemma Moved(m: map<nat, Phase>, id: nat, p: Phase)
    requires (id in m ==> m[id] != Running) && p != Running
    ensures InFlight(m[id := p]) == InFlight(m)
  {
  }

  lemma Started(m: map<nat, Phase>, id: nat)
    requires id in m && m[id] != Running
    ensures |InFlight(m[id := Running])| == |InFlight(m)| + 1
  {
    assert InFlight(m[id := Running]) == InFlight(m) + {id};
  }

  lemma Gone(m: map<nat, Phase>, id: nat)
    requires id in m
    ensures |InFlight(m - {id})| == if m[id] == Running then |InFlight(m)| - 1 else |InFlight(m)|
  {
    assert InFlight(m - {id}) == InFlight(m) - {id};
  }

  lemma InFlightStep(s: State, a: Action)
    requires s.mutations == |InFlight(s.threads)| && Enabled(s, a)
    ensures Step(s, a).mutations == |InFlight(Step(s, a).threads)|
  {
    hide InFlight;
    match a
    case Arrive(id) => Moved(s.threads, id, Waiting);
    case Lock(id) => Moved(s.threads, id, Locked);
    case Stat(id, fails) => Moved(s.threads, id, if s.block || fails then Turned else Passed);
    case Count(id) => Started(s.threads, id);
    case Turn(id) => Gone(s.threads, id);
    case Finish(id) => Gone(s.threads, id);
    case _ =>
  }

  lemma StepKeeps(s: State, a: Action)
    requires Inv(s) && Enabled(s, a)
    ensures Inv(Step(s, a))
  {
    InFlightStep(s, a);
    if a.Poll? && s.mutations == 0 {
      assert InFlight(s.threads) == {};
      forall id | id in s.threads ensures s.threads[id] != Running && s.threads[id] != Passed {
        assert id !in InFlight(s.threads);
      }
    }
  }

  ghost predicate Run(states: seq<State>, actions: seq<Action>) {
    && |states| == |actions| + 1 && Initial(states[0])
    && forall i | 0 <= i < |actions| :: Enabled(states[i], actions[i]) && states[i + 1] == Step(states[i], actions[i])
  }

  lemma {:induction false} RunInv(states: seq<State>, actions: seq<Action>, i: nat)
    requires Run(states, actions) && i < |states|
    ensures Inv(states[i])
  {
    hide Inv, Step;
    if i > 0 {
      RunInv(states, actions, i - 1);
      StepKeeps(states[i - 1], actions[i - 1]);
    } else {
      InitialInv(states[0]);
    }
  }

  lemma InitialInv(s: State)
    requires Initial(s)
    ensures Inv(s)
  {
    assert InFlight(s.threads) == {};
  }

  /** Where the actions lead, up to the first one that is impossible or lifts the block. */
  function After(s: State, actions: seq<Action>): State
    decreases |actions|
  {
    if actions == [] || actions[0] == Unblock || !Enabled(s, actions[0]) then s
    else After(Step(s, actions[0]), actions[1..])
  }

  /** However it goes on: as long as the block is not lifted, no mutation is in flight while it is in force. */
  ghost predicate Covered(s: State) {
    forall actions :: After(s, actions).block ==> InFlight(After(s, actions).threads) == {}
  }

  lemma {:induction false} ClearLasts(s: State, actions: seq<Action>)
    requires Clear(s)
    ensures InFlight(After(s, actions).threads) == {}
    decreases |actions|
  {
    if actions != [] && actions[0] != Unblock && Enabled(s, actions[0]) {
      ClearLasts(Step(s, actions[0]), actions[1..]);
    }
  }

  lemma {:induction false} FreshId(ids: set<nat>) returns (id: nat)
    ensures id !in ids && forall k | k in ids :: k < id
  {
    id := 0;
    if ids != {} {
      var k :| k in ids;
      var above := FreshId(ids - {k});
      id := if k < above then above else k + 1;
      forall i | i in ids ensures i < id {
        assert i == k || i in ids - {k};
      }
    }
  }

  lemma TwoSteps(s: State, a: Action, b: Action)
    requires a != Unblock && b != Unblock && Enabled(s, a) && Enabled(Step(s, a), b)
    ensures After(s, [a, b]) == Step(Step(s, a), b)
  {
    hide Enabled, Step;
    var t := Step(s, a);
    assert [a, b][1..] == [b] && [b][1..] == [];
    assert After(t, [b]) == After(Step(t, b), []);
  }

  lemma FirstStep(s: State, a: Action, rest: seq<Action>)
    requires a != Unblock && Enabled(s, a)
    ensures After(s, [a] + rest) == After(Step(s, a), rest)
  {
    hide Enabled, Step;
    assert ([a] + rest)[1..] == rest;
  }

  /** How far it is to a thread past the check. */
  function Ahead(s: State): nat
    requires Inv(s)
  {
    if s.holder == None then 2
    else match s.threads[s.holder.value] case Turned => 3 case Locked => 1 case _ => 0
  }

  /** Unless the block is in force and nobody is past it, some continuation blocks with a mutation in flight. */
  lemma Exposed(s: State) returns (actions: seq<Action>)
    requires Inv(s) && !Clear(s)
    ensures After(s, actions).block && InFlight(After(s, actions).threads) != {}
    decreases Ahead(s)
  {
    if id :| id in s.threads && s.threads[id] == Running {
      FirstStep(s, Block, []);
      actions := [Block] + [];
      assert id in InFlight(After(s, actions).threads);
    } else if id :| id in s.threads && s.threads[id] == Passed {
      TwoSteps(s, Block, Count(id));
      actions := [Block, Count(id)];
      assert id in InFlight(After(s, actions).threads);
    } else if s.holder.Some? {
      var id := s.holder.value;
      var a := if s.threads[id] == Locked then Stat(id, false) else Turn(id);
      StepKeeps(s, a);
      FirstStep(s, a, []);
      var rest := Exposed(Step(s, a));
      FirstStep(s, a, rest);
      actions := [a] + rest;
    } else {
      var id := FreshId(s.threads.Keys);
      var s1 := Step(s, Arrive(id));
      var s2 := Step(s1, Lock(id));
      StepKeeps(s, Arrive(id));
      StepKeeps(s1, Lock(id));
      var rest := Exposed(s2);
      FirstStep(s1, Lock(id), rest);
      FirstStep(s, Arrive(id), [Lock(id)] + rest);
      actions := [Arrive(id)] + ([Lock(id)] + rest);
    }
  }

  /** What a block is worth at any moment: it covers the future exactly when nobody has slipped past it. */
  lemma CoveredIff(s: State)
    requires Inv(s)
    ensures Covered(s) <==> Clear(s)
  {
    if Clear(s) {
      forall actions ensures InFlight(After(s, actions).threads) == {} {
        ClearLasts(s, actions);
      }
    } else {
      var actions := Exposed(s);
      assert After(s, actions).block && InFlight(After(s, actions).threads) != {};
    }
  }

  /** The poll that returns nil settles it exactly when the block is in force by then, however late it came. */
  lemma PollSettles(s: State)
    requires Inv(s) && s.drain == Polling && s.mutations == 0 && s.holder == None
    ensures Step(s, Poll).drain == Drained
    ensures Covered(Step(s, Poll)) <==> s.block
  {
    StepKeeps(s, Poll);
    CoveredIff(Step(s, Poll));
    assert InFlight(s.threads) == {};
    forall id | id in s.threads ensures s.threads[id] != Running && s.threads[id] != Passed {
      assert id !in InFlight(s.threads);
    }
  }

  /**
   A drain that returned nil over a block in force at its last poll and since has no mutation in
   flight, and has none until the block is lifted.
   */
  lemma {:induction false} DrainedMeansNoneInFlight(states: seq<State>, actions: seq<Action>)
    requires Run(states, actions)
    ensures forall i | 0 <= i < |states| && states[i].held ::
        states[i].mutations == 0 && InFlight(states[i].threads) == {} && Covered(states[i])
  {
    forall i | 0 <= i < |states| && states[i].held
      ensures states[i].mutations == 0 && InFlight(states[i].threads) == {} && Covered(states[i])
    {
      RunInv(states, actions, i);
      assert InFlight(states[i].threads) == {};
      CoveredIff(states[i]);
    }
  }

  /** A block that comes after the poll that returned nil is not covered: one mutation can be past the check. */
  lemma LateBlockIsUnsafe() returns (states: seq<State>, actions: seq<Action>)
    ensures Run(states, actions)
    ensures var last := states[|states| - 1];
            last.drain == Drained && last.block && !last.held && last.mutations == 1
  {
    var s0 := State(false, None, map[], 0, Off, false);
    var s1 := Step(s0, Begin);
    var s2 := Step(s1, Poll);
    var s3 := Step(s2, Arrive(0));
    var s4 := Step(s3, Lock(0));
    var s5 := Step(s4, Stat(0, false));
    var s6 := Step(s5, Block);
    var s7 := Step(s6, Count(0));
    states := [s0, s1, s2, s3, s4, s5, s6, s7];
    actions := [Begin, Poll, Arrive(0), Lock(0), Stat(0, false), Block, Count(0)];
  }
}
