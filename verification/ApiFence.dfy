/**
 The management API's maintenance fence: any number of requests against one supervisor that
 stops the alert evaluator and acknowledges a drain by copying the block's token to a marker.

 Every action below is one atomic step of one thread; a run interleaves them freely.  A block
 carries a token that neither the marker nor an acknowledgement on its way names.
 */
module ApiFence {
  import opened Options

  type Token = nat

  /** A counted request: before its check of the block, past it, or turned away by it. */
  datatype Request = Entered | Admitted | Refused

  /** Where the supervisor is in its iteration, with what it read at its start. */
  datatype Loop =
    | Idle
    | Seen(blocked: bool, token: Option<Token>)
    | Stopped(blocked: bool, token: Option<Token>)
    | Writing(operation: Token)
    | Removing(blocked: bool)
    | Ending(blocked: bool)

  datatype State = State(
    preflight: bool,
    block: Option<Token>,
    marker: Option<Token>,
    requests: map<nat, Request>,
    count: int,
    evaluator: bool,
    cancel: bool,
    loop: Loop)

  datatype Action =
    | Enter(id: nat)
    | Check(id: nat, fails: bool)
    | Leave(id: nat)
    | Block(token: Token)
    | Unblock
    | Read(fails: bool)
    | Stop
    | Count
    | Mark(fails: bool)
    | Launch
    | EvaluatorEnds
    | Crash

  predicate Initial(s: State) {
    s.requests == map[] && s.count == 0 && !s.evaluator && !s.cancel && s.loop == Idle && s.marker == None
  }

  /** Nothing acknowledges the token, nor is about to. */
  predicate Unclaimed(s: State, t: Token) {
    s.marker != Some(t) && s.loop != Writing(t)
  }

  predicate Enabled(s: State, a: Action) {
    match a
    case Enter(id) => id !in s.requests
    case Check(id, _) => id in s.requests && s.requests[id] == Entered
    case Leave(id) => id in s.requests && s.requests[id] != Entered
    case Block(t) => Unclaimed(s, t)
    case Unblock => true
    case Read(_) => s.loop == Idle
    case Stop => s.loop.Seen?
    case Count => s.loop.Stopped?
    case Mark(_) => s.loop.Writing? || s.loop.Removing?
    case Launch => s.loop.Ending?
    case EvaluatorEnds => s.evaluator
    case Crash => true
  }

  /** Only a drained iteration over a readable block writes the marker. */
  function Counted(loop: Loop, count: int): Loop
    requires loop.Stopped?
  {
    if loop.blocked && loop.token.Some? && count == 0 then Writing(loop.token.value) else Removing(loop.blocked)
  }

  function Step(s: State, a: Action): State
    requires Enabled(s, a)
  {
    match a
    case Enter(id) => s.(requests := s.requests[id := Entered], count := s.count + 1)
    // An error other than absence counts as a block.
    case Check(id, fails) =>
      s.(requests := s.requests[id := if s.preflight || s.block.Some? || fails then Refused else Admitted])
    case Leave(id) => s.(requests := s.requests - {id}, count := s.count - 1)
    case Block(t) => s.(block := Some(t))
    case Unblock => s.(block := None)
    case Read(fails) => s.(loop := Seen(s.preflight || fails || s.block.Some?, if fails then None else s.block))
    // Cancelling waits for the evaluator to return.
    case Stop => s.(loop := Stopped(s.loop.blocked, s.loop.token),
                    evaluator := s.evaluator && !s.loop.blocked, cancel := s.cancel && !s.loop.blocked)
    case Count => s.(loop := Counted(s.loop, s.count))
    // Neither the write nor the removal is checked for errors.
    case Mark(fails) =>
      if s.loop.Writing? then s.(marker := if fails then None else Some(s.loop.operation), loop := Ending(true))
      else s.(marker := if fails then s.marker else None, loop := Ending(s.loop.blocked))
    case Launch =>
      if !s.loop.blocked && !s.cancel then s.(cancel := true, evaluator := true, loop := Idle) else s.(loop := Idle)
    case EvaluatorEnds => s.(evaluator := false)
    case Crash => s.(requests := map[], count := 0, evaluator := false, cancel := false, loop := Idle)
  }

  /** The marker names the block in force. */
  predicate Acknowledged(s: State) {
    s.marker.Some? && s.marker == s.block
  }

  predicate Quiet(s: State) {
    !s.evaluator && forall id | id in s.requests :: s.requests[id] != Admitted
  }

  /** The block in force has been acknowledged, or is about to be. */
  predicate Settled(s: State) {
    s.block.Some? && (s.marker == s.block || s.loop == Writing(s.block.value))
  }

  /** Past its stop, an iteration that saw the block has no evaluator. */
  predicate Sequenced(s: State) {
    && (s.evaluator ==> s.cancel)
    && ((s.loop.Stopped? || s.loop.Removing? || s.loop.Ending?) && s.loop.blocked ==> !s.cancel)
    && (s.loop.Writing? ==> !s.cancel)
  }

  predicate Fenced(s: State) {
    Settled(s) ==> Quiet(s) && !s.cancel && (!s.loop.Idle? && !s.loop.Writing? ==> s.loop.blocked)
  }

  predicate Inv(s: State) {
    s.count == |s.requests| && Sequenced(s) && Fenced(s)
  }

  lemma CountKeeps(s: State, a: Action)
    requires s.count == |s.requests| && Enabled(s, a)
    ensures Step(s, a).count == |Step(s, a).requests|
  {
    hide Counted;
    if a.Enter? {
      Added(s.requests, a.id, Entered);
    } else if a.Check? {
      Changed(s.requests, a.id, Step(s, a).requests[a.id]);
    } else if a.Leave? {
      Removed(s.requests, a.id);
    } else if !a.Crash? {
      SameRequests(s, a);
      hide Step, Enabled;
    }
  }

  lemma SameRequests(s: State, a: Action)
    requires Enabled(s, a) && !a.Enter? && !a.Check? && !a.Leave? && !a.Crash?
    ensures Step(s, a).requests == s.requests && Step(s, a).count == s.count
  {
    hide Counted;
  }

  lemma Added(m: map<nat, Request>, id: nat, r: Request)
    requires id !in m
    ensures |m[id := r]| == |m| + 1
  {
    assert m[id := r].Keys == m.Keys + {id};
  }

  lemma Changed(m: map<nat, Request>, id: nat, r: Request)
    requires id in m
    ensures |m[id := r]| == |m|
  {
    assert m[id := r].Keys == m.Keys;
  }

  lemma Removed(m: map<nat, Request>, id: nat)
    requires id in m
    ensures |m - {id}| == |m| - 1
  {
    assert (m - {id}).Keys == m.Keys - {id};
  }

  /** The counter is read only once the evaluator is gone, and zero means nobody was let in before the block. */
  lemma FencedKeeps(s: State, a: Action)
    requires Inv(s) && Enabled(s, a)
    ensures Fenced(Step(s, a))
  {
    if a.Count? && s.count == 0 { assert s.requests == map[]; }
  }

  lemma SequencedKeeps(s: State, a: Action)
    requires Sequenced(s) && Enabled(s, a)
    ensures Sequenced(Step(s, a))
  {
  }

  lemma StepKeeps(s: State, a: Action)
    requires Inv(s) && Enabled(s, a)
    ensures Inv(Step(s, a))
  {
    FencedKeeps(s, a);
    CountKeeps(s, a);
    SequencedKeeps(s, a);
    hide Fenced, Sequenced, Enabled, Step;
  }

  /** A run: states, and the action between each and the next. */
  ghost predicate Run(states: seq<State>, actions: seq<Action>) {
    && |states| == |actions| + 1 && Initial(states[0])
    && forall i | 0 <= i < |actions| :: Enabled(states[i], actions[i]) && states[i + 1] == Step(states[i], actions[i])
  }

  lemma {:induction false} RunInv(states: seq<State>, actions: seq<Action>, i: nat)
    requires Run(states, actions) && i < |states|
    ensures Inv(states[i])
  {
    if i > 0 {
      RunInv(states, actions, i - 1);
      StepKeeps(states[i - 1], actions[i - 1]);
    }
  }

  /** Whatever the interleaving: once the block in force is acknowledged no mutation and no evaluator runs. */
  lemma {:induction false} DrainIsSafe(states: seq<State>, actions: seq<Action>)
    requires Run(states, actions)
    ensures forall i | 0 <= i < |states| && Acknowledged(states[i]) :: Quiet(states[i])
  {
    forall i | 0 <= i < |states| && Acknowledged(states[i]) ensures Quiet(states[i]) {
      RunInv(states, actions, i);
    }
  }

  /** And it stays that way until the block is lifted or replaced, whatever happens to the marker. */
  lemma {:induction false} QuietUntilUnblocked(states: seq<State>, actions: seq<Action>, i: nat, k: nat)
    requires Run(states, actions) && i <= k < |states|
    requires Acknowledged(states[i]) && forall j | i <= j <= k :: states[j].block == states[i].block
    ensures Quiet(states[k])
  {
    Lasting(states, actions, i, k);
  }

  lemma RunStep(states: seq<State>, actions: seq<Action>, i: nat)
    requires Run(states, actions) && i < |actions|
    ensures i + 1 < |states| && Enabled(states[i], actions[i]) && states[i + 1] == Step(states[i], actions[i])
  {
  }

  lemma {:induction false} Lasting(states: seq<State>, actions: seq<Action>, i: nat, k: nat)
    requires Run(states, actions) && i <= k < |states| == |actions| + 1
    requires Acknowledged(states[i]) && forall j | i <= j <= k :: states[j].block == states[i].block
    ensures Held(states[k])
  {
    hide Run, Inv, Step, Held, Enabled, Acknowledged;
    RunInv(states, actions, i);
    AcknowledgedHeld(states[i]);
    var n := i;
    while n < k
      invariant i <= n <= k && Held(states[n])
    {
      RunInv(states, actions, n);
      RunStep(states, actions, n);
      HeldKeeps(states[n], actions[n]);
      n := n + 1;
    }
  }

  lemma AcknowledgedHeld(s: State)
    requires Inv(s) && Acknowledged(s)
    ensures Held(s)
  {
  }

  /** What an acknowledged block guarantees even after its marker is gone. */
  ghost predicate Held(s: State) {
    s.block.Some? && Quiet(s) && !s.cancel && (!s.loop.Idle? && !s.loop.Writing? ==> s.loop.blocked)
  }

  lemma HeldKeeps(s: State, a: Action)
    requires Inv(s) && Held(s) && Enabled(s, a) && Step(s, a).block == s.block
    ensures Held(Step(s, a))
  {
  }

  /** One undisturbed iteration over a blocked, drained API acknowledges the block. */
  lemma QuietIterationAcknowledges(s: State)
    requires Inv(s) && s.loop == Idle && s.block.Some? && s.requests == map[]
    ensures var read := Step(s, Read(false));
            && Enabled(read, Stop) && Enabled(Step(read, Stop), Count)
               && Enabled(Step(Step(read, Stop), Count), Mark(false))
            && Acknowledged(Step(Step(Step(read, Stop), Count), Mark(false)))
  {
  }

  ghost predicate Reachable(s: State) {
    exists states, actions :: Run(states, actions) && states[|actions|] == s
  }

  lemma Begins(s: State)
    requires Initial(s)
    ensures Reachable(s)
  {
    assert Run([s], []);
  }

  lemma Extend(s: State, a: Action)
    requires Reachable(s) && Enabled(s, a)
    ensures Reachable(Step(s, a))
  {
    hide Enabled, Step, Initial;
    var states, actions :| Run(states, actions) && states[|actions|] == s;
    var more, also := states + [Step(s, a)], actions + [a];
    forall i | 0 <= i < |also| ensures Enabled(more[i], also[i]) && more[i + 1] == Step(more[i], also[i]) {
    }
    assert Run(more, also);
  }

  /** Where the actions lead, up to the first one that is impossible or touches the block. */
  function After(s: State, actions: seq<Action>): State
    decreases |actions|
  {
    if actions == [] || actions[0].Block? || actions[0].Unblock? || !Enabled(s, actions[0]) then s
    else After(Step(s, actions[0]), actions[1..])
  }

  /** However it goes on under this block: whenever the marker names it, the API is quiet. */
  ghost predicate Covered(s: State) {
    forall actions :: Acknowledged(After(s, actions)) ==> Quiet(After(s, actions))
  }

  /** Nothing runs, and no iteration under way will start the evaluator. */
  predicate Sealed(s: State) {
    Quiet(s) && (s.loop.Seen? || s.loop.Stopped? || s.loop.Removing? || s.loop.Ending? ==> s.loop.blocked || s.cancel)
  }

  lemma SealedKeeps(s: State, a: Action)
    requires Sealed(s) && Sequenced(s) && s.block.Some? && Enabled(s, a) && !a.Block? && !a.Unblock?
    ensures Sealed(Step(s, a)) && Sequenced(Step(s, a)) && Step(s, a).block == s.block
  {
    SequencedKeeps(s, a);
  }

  lemma {:induction false} SealedLasts(s: State, actions: seq<Action>)
    requires Sealed(s) && Sequenced(s) && s.block.Some?
    ensures Quiet(After(s, actions))
    decreases |actions|
  {
    if actions != [] && !actions[0].Block? && !actions[0].Unblock? && Enabled(s, actions[0]) {
      SealedKeeps(s, actions[0]);
      SealedLasts(Step(s, actions[0]), actions[1..]);
    }
  }

  lemma {:induction false} InvLasts(s: State, actions: seq<Action>)
    requires Inv(s)
    ensures Inv(After(s, actions))
    decreases |actions|
  {
    hide Inv, Step, Enabled;
    if actions != [] && !actions[0].Block? && !actions[0].Unblock? && Enabled(s, actions[0]) {
      StepKeeps(s, actions[0]);
      InvLasts(Step(s, actions[0]), actions[1..]);
    }
  }

  /** The supervisor's next step, with a removal that fails. */
  function Next(loop: Loop): Action {
    match loop
    case Idle => Read(false)
    case Seen(_, _) => Stop
    case Stopped(_, _) => Count
    case Writing(_) => Mark(false)
    case Removing(_) => Mark(true)
    case Ending(_) => Launch
  }

  function Ahead(loop: Loop): nat {
    match loop case Seen(_, _) => 4 case Stopped(_, _) => 3 case Ending(_) => 1 case Idle => 0 case _ => 2
  }

  /** A block that is claimed while something runs, or is about to, comes to be acknowledged over it. */
  lemma Exposed(s: State) returns (actions: seq<Action>)
    requires Settled(s) && Sequenced(s) && !Sealed(s)
    ensures Acknowledged(After(s, actions)) && !Quiet(After(s, actions))
    decreases Ahead(s.loop)
  {
    if Acknowledged(s) && !Quiet(s) {
      actions := [];
    } else {
      var a := Next(s.loop);
      SequencedKeeps(s, a);
      var rest := Exposed(Step(s, a));
      actions := [a] + rest;
      assert actions[1..] == rest;
    }
  }

  /**
   Whether a token may be used again: exactly when neither the marker nor an acknowledgement being
   written names it, or nothing runs that the block would have to stop.
   */
  lemma ReuseIff(s: State, t: Token)
    requires Inv(s)
    ensures Covered(s.(block := Some(t))) <==> Unclaimed(s, t) || Sealed(s)
    ensures !Quiet(s) ==> (Fenced(s.(block := Some(t))) <==> Unclaimed(s, t))
  {
    var blocked := s.(block := Some(t));
    if Unclaimed(s, t) {
      assert Inv(blocked);
      forall actions | Acknowledged(After(blocked, actions)) ensures Quiet(After(blocked, actions)) {
        InvLasts(blocked, actions);
      }
    } else if Sealed(s) {
      forall actions ensures Quiet(After(blocked, actions)) {
        SealedLasts(blocked, actions);
      }
    } else {
      var actions := Exposed(blocked);
      assert Acknowledged(After(blocked, actions)) && !Quiet(After(blocked, actions));
    }
  }

  /** Blocking again with the token just acknowledged would cover a running mutation. */
  lemma ReusedTokenIsUnsafe(t: Token) returns (s: State)
    ensures Reachable(s) && s.block == None && s.marker == Some(t)
    ensures Acknowledged(s.(block := Some(t))) && !Quiet(s.(block := Some(t)))
  {
    hide Reachable;
    s := State(false, None, None, map[], 0, false, false, Idle);
    assert Reachable(s) by { Begins(s); }
    Extend(s, Block(t));
    s := Step(s, Block(t));
    Extend(s, Read(false));
    s := Step(s, Read(false));
    Extend(s, Stop);
    s := Step(s, Stop);
    Extend(s, Count);
    s := Step(s, Count);
    Extend(s, Mark(false));
    s := Step(s, Mark(false));
    Extend(s, Unblock);
    s := Step(s, Unblock);
    Extend(s, Enter(0));
    s := Step(s, Enter(0));
    Extend(s, Check(0, false));
    s := Step(s, Check(0, false));
    assert s.requests[0] == Admitted;
  }
}
