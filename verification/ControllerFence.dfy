/**
 The controllers' side of a drain: one supervisor that stops them while a block is in force and
 acknowledges with the token it reads back at that moment, not the one it saw first.  A block
 carries a token the marker does not name.
 */
module ControllerFence {
  import opened Options

  type Token = nat

  /** `Acking` is about to read the token back; `first` is the acknowledgement right after a stop. */
  datatype Loop =
    | Idle
    | Seen(blocked: bool)
    | Acking(first: bool)
    | Writing(token: Option<Token>, first: bool)
    | Clearing
    | Launching

  datatype State = State(
    block: Option<Token>,
    marker: Option<Token>,
    running: bool,
    cancel: bool,
    loop: Loop)

  datatype Action =
    | Block(token: Token) | Unblock | Stat(fails: bool) | Decide | ReadBack(fails: bool)
    | Write(fails: bool) | Remove(fails: bool) | Launch | End | Crash

  predicate Initial(s: State) {
    !s.running && !s.cancel && s.loop == Idle && s.marker == None
  }

  predicate Enabled(s: State, a: Action) {
    match a
    case Block(t) => s.marker != Some(t)
    case Stat(_) => s.loop == Idle
    case Decide => s.loop.Seen?
    case ReadBack(_) => s.loop.Acking?
    case Write(_) => s.loop.Writing?
    case Remove(_) => s.loop == Clearing
    case Launch => s.loop == Launching
    case End => s.running
    case _ => true
  }

  function Step(s: State, a: Action): State
    requires Enabled(s, a)
  {
    match a
    case Block(t) => s.(block := Some(t))
    case Unblock => s.(block := None)
    case Stat(fails) => s.(loop := Seen(fails || s.block.Some?))
    // Stopping waits for the controllers to return.
    case Decide =>
      if s.loop.blocked then s.(loop := Acking(s.cancel), running := false, cancel := false)
      else s.(loop := if s.cancel then Idle else Clearing)
    case ReadBack(fails) => s.(loop := Writing(if fails then None else s.block, s.loop.first))
    case Write(fails) =>
      s.(marker := if fails then None else s.loop.token, loop := if s.loop.first then Acking(false) else Idle)
    case Remove(fails) => s.(marker := if fails then s.marker else None, loop := Launching)
    case Launch => s.(cancel := true, running := true, loop := Idle)
    case End => s.(running := false)
    case Crash => s.(running := false, cancel := false, loop := Idle)
  }

  predicate Acknowledged(s: State) {
    s.marker.Some? && s.marker == s.block
  }

  predicate Inv(s: State) {
    && Sequenced(s)
    && (s.block.Some? && (s.marker == s.block || (s.loop.Writing? && s.loop.token == s.block)) ==> Held(s))
  }

  /** Controllers run only under a handle, and no handle is left once they have been told to stop. */
  predicate Sequenced(s: State) {
    && (s.running ==> s.cancel)
    && (s.loop.Acking? || s.loop.Writing? || s.loop.Clearing? || s.loop.Launching? ==> !s.cancel)
  }

  /** No controller runs, and no step on its way starts one. */
  predicate Held(s: State) {
    s.block.Some? && !s.cancel && !s.running && !(s.loop.Seen? && !s.loop.blocked) && s.loop != Clearing
    && s.loop != Launching
  }

  lemma StepKeeps(s: State, a: Action)
    requires Inv(s) && Enabled(s, a)
    ensures Inv(Step(s, a))
    ensures Held(s) && Step(s, a).block == s.block ==> Held(Step(s, a))
  {
  }

  ghost predicate Run(states: seq<State>, actions: seq<Action>) {
    && |states| == |actions| + 1 && Initial(states[0])
    && forall i | 0 <= i < |actions| :: Enabled(states[i], actions[i]) && states[i + 1] == Step(states[i], actions[i])
  }

  lemma {:induction false} RunInv(states: seq<State>, actions: seq<Action>, i: nat)
    requires Run(states, actions) && i < |states|
    ensures Inv(states[i])
  {
    if i > 0 {
      RunInv(states, actions, i - 1);
      StepKeeps(states[i - 1], actions[i - 1]);
    }
  }

  lemma RunStep(states: seq<State>, actions: seq<Action>, i: nat)
    requires Run(states, actions) && i < |actions|
    ensures i + 1 < |states| && Enabled(states[i], actions[i]) && states[i + 1] == Step(states[i], actions[i])
  {
  }

  /** Once the block in force is acknowledged no controller runs until it is lifted or replaced. */
  lemma {:induction false} ControllersStayStopped(states: seq<State>, actions: seq<Action>, i: nat, k: nat)
    requires Run(states, actions) && i <= k < |states|
    requires Acknowledged(states[i]) && forall j | i <= j <= k :: states[j].block == states[i].block
    ensures !states[k].running
  {
    hide Run, Step, Enabled;
    RunInv(states, actions, i);
    var n := i;
    assert |states| == |actions| + 1 by { RunLength(states, actions); }
    while n < k
      invariant i <= n <= k && Held(states[n])
    {
      RunInv(states, actions, n);
      RunStep(states, actions, n);
      StepKeeps(states[n], actions[n]);
      n := n + 1;
    }
  }

  lemma RunLength(states: seq<State>, actions: seq<Action>)
    requires Run(states, actions)
    ensures |states| == |actions| + 1
  {
  }

  /** One undisturbed iteration over a block acknowledges it, whether controllers were running or not. */
  lemma IterationAcknowledges(s: State)
    requires Inv(s) && s.loop == Idle && s.block.Some?
    ensures var read := Step(Step(s, Stat(false)), Decide);
            && read.loop.Acking?
            && Acknowledged(Step(Step(read, ReadBack(false)), Write(false)))
  {
  }

  /** Where the actions lead, up to the first one that is impossible or touches the block. */
  function After(s: State, actions: seq<Action>): State
    decreases |actions|
  {
    if actions == [] || actions[0].Block? || actions[0].Unblock? || !Enabled(s, actions[0]) then s
    else After(Step(s, actions[0]), actions[1..])
  }

  /** However it goes on under this block: whenever the marker names it, no controller runs. */
  ghost predicate Covered(s: State) {
    forall actions :: Acknowledged(After(s, actions)) ==> !After(s, actions).running
  }

  /** No controller runs, and no iteration under way will start one. */
  predicate Sealed(s: State) {
    !s.running && s.loop != Clearing && s.loop != Launching && (s.loop.Seen? ==> s.loop.blocked || s.cancel)
  }

  lemma {:induction false} SealedLasts(s: State, actions: seq<Action>)
    requires Sealed(s) && Sequenced(s) && s.block.Some?
    ensures !After(s, actions).running
    decreases |actions|
  {
    if actions != [] && !actions[0].Block? && !actions[0].Unblock? && Enabled(s, actions[0]) {
      SealedLasts(Step(s, actions[0]), actions[1..]);
    }
  }

  lemma {:induction false} InvLasts(s: State, actions: seq<Action>)
    requires Inv(s)
    ensures Inv(After(s, actions))
    decreases |actions|
  {
    hide Inv, Step, Enabled;
    if actions != [] && !actions[0].Block? && !actions[0].Unblock? && Enabled(s, actions[0]) {
      StepKeeps(s, actions[0]);
      InvLasts(Step(s, actions[0]), actions[1..]);
    }
  }

  function Ahead(loop: Loop): nat {
    match loop case Seen(_) => 3 case Clearing => 2 case Launching => 1 case _ => 0
  }

  /** A block the marker already names, with controllers running or about to: they run acknowledged. */
  lemma Exposed(s: State) returns (actions: seq<Action>)
    requires Acknowledged(s) && Sequenced(s) && !Sealed(s)
    ensures Acknowledged(After(s, actions)) && After(s, actions).running
    decreases Ahead(s.loop)
  {
    if s.running {
      actions := [];
    } else {
      var a := match s.loop case Seen(_) => Decide case Clearing => Remove(true) case _ => Launch;
      var rest := Exposed(Step(s, a));
      actions := [a] + rest;
      assert actions[1..] == rest;
    }
  }

  /**
   Whether a token may be used again: exactly when the marker does not name it, or nothing runs
   that the block would have to stop.  An acknowledgement still being written does no harm here,
   since it is written only after the stop.
   */
  lemma ReuseIff(s: State, t: Token)
    requires Inv(s)
    ensures Covered(s.(block := Some(t))) <==> s.marker != Some(t) || Sealed(s)
  {
    var blocked := s.(block := Some(t));
    if s.marker != Some(t) {
      assert Inv(blocked);
      forall actions | Acknowledged(After(blocked, actions)) ensures !After(blocked, actions).running {
        InvLasts(blocked, actions);
      }
    } else if Sealed(s) {
      forall actions ensures !After(blocked, actions).running {
        SealedLasts(blocked, actions);
      }
    } else {
      var actions := Exposed(blocked);
      assert Acknowledged(After(blocked, actions)) && After(blocked, actions).running;
    }
  }
}
