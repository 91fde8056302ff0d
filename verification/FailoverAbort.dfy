/**
 Aborting a failover, for one stack: sequences register themselves, withdraw just before the
 address takeover, and an abort cancels whichever one is registered.

 Each action is one step of one sequence or of an abort; a run interleaves them freely.
 */
module FailoverAbort {
  import opened Options

  /** Before the withdrawal; withdrawn; past the check, taking the addresses; starting; on the way out; gone. */
  datatype Phase = Preparing | Withdrawn | TakingOver | Starting | Ending | Done

  /** `active` is the registered sequence; `aborted` are those an abort said it cancelled. */
  datatype State = State(active: Option<nat>, phase: map<nat, Phase>, cancelled: set<nat>, aborted: set<nat>)

  datatype Action =
    | Execute(id: nat) | Fail(id: nat) | Withdraw(id: nat) | Check(id: nat) | TookOver(id: nat) | Leave(id: nat)
    | Abort | Cancel(id: nat)

  predicate Enabled(s: State, a: Action) {
    match a
    case Execute(id) => id !in s.phase
    case Fail(id) => id in s.phase && s.phase[id] in {Preparing, TakingOver, Starting}
    case Withdraw(id) => id in s.phase && s.phase[id] == Preparing
    case Check(id) => id in s.phase && s.phase[id] == Withdrawn
    case TookOver(id) => id in s.phase && s.phase[id] == TakingOver
    case Leave(id) => id in s.phase && s.phase[id] == Ending
    case _ => true
  }

  function Step(s: State, a: Action): State
    requires Enabled(s, a)
  {
    match a
    case Execute(id) =>
      if s.active.Some? then s.(phase := s.phase[id := Done])
      else s.(active := Some(id), phase := s.phase[id := Preparing])
    case Fail(id) => s.(phase := s.phase[id := Ending])
    case Withdraw(id) => s.(active := None, phase := s.phase[id := Withdrawn])
    case Check(id) => s.(phase := s.phase[id := if id in s.cancelled then Ending else TakingOver])
    case TookOver(id) => s.(phase := s.phase[id := Starting])
    // The deferred cleanup deletes the stack's entry, whoever it belongs to.
    case Leave(id) => s.(active := None, phase := s.phase[id := Done], cancelled := s.cancelled + {id})
    case Abort =>
      if s.active.Some? then
        s.(cancelled := s.cancelled + {s.active.value}, aborted := s.aborted + {s.active.value})
      else s
    case Cancel(id) => s.(cancelled := s.cancelled + {id})
  }

  predicate Initial(s: State) {
    s == State(None, map[], {}, {})
  }

  predicate Past(p: Phase) {
    p == TakingOver || p == Starting
  }

  predicate Inv(s: State) {
    && (s.active.Some? ==> s.active.value in s.phase && s.phase[s.active.value] in {Preparing, Ending})
    && s.aborted <= s.cancelled
    && (forall id | id in s.aborted :: id in s.phase && !Past(s.phase[id]))
  }

  lemma StepKeeps(s: State, a: Action)
    requires Inv(s) && Enabled(s, a)
    ensures Inv(Step(s, a)) && s.aborted <= Step(s, a).aborted
  {
  }

  ghost predicate Run(states: seq<State>, actions: seq<Action>) {
    && |states| == |actions| + 1 && Initial(states[0])
    && forall i | 0 <= i < |actions| :: Enabled(states[i], actions[i]) && states[i + 1] == Step(states[i], actions[i])
  }

  lemma RunStep(states: seq<State>, actions: seq<Action>, i: nat)
    requires Run(states, actions) && i < |actions|
    ensures |states| == |actions| + 1 && Enabled(states[i], actions[i]) && states[i + 1] == Step(states[i], actions[i])
  {
  }

  lemma {:induction false} RunInv(states: seq<State>, actions: seq<Action>, i: nat, k: nat)
    requires Run(states, actions) && i <= k < |states|
    ensures Inv(states[k]) && states[i].aborted <= states[k].aborted
    decreases k
  {
    if k > 0 {
      RunInv(states, actions, if i < k then i else k - 1, k - 1);
      RunStep(states, actions, k - 1);
      StepKeeps(states[k - 1], actions[k - 1]);
    }
  }

  /**
   An abort that returns true at step `i` cancelled a sequence that never takes an address over
   nor starts the secondary.
   */
  lemma {:induction false} AbortIsHonoured(states: seq<State>, actions: seq<Action>, i: nat, k: nat)
    requires Run(states, actions) && i < |actions| && i <= k < |states|
    requires actions[i] == Abort && states[i].active.Some?
    ensures var id := states[i].active.value; id in states[k].phase && !Past(states[k].phase[id])
  {
    RunStep(states, actions, i);
    RunInv(states, actions, i, i);
    var id := states[i].active.value;
    if k > i {
      RunInv(states, actions, i + 1, k);
      assert id in states[k].aborted;
    }
  }

  /** Every sequence still before its withdrawal is the registered one. */
  predicate Exclusive(s: State) {
    forall id | id in s.phase && s.phase[id] == Preparing :: s.active == Some(id)
  }

  /** While that holds, an abort fails only when there is nothing left to abort. */
  lemma ExclusiveAbort(s: State)
    requires Inv(s) && Exclusive(s)
    ensures s.active.None? ==> forall id | id in s.phase :: s.phase[id] != Preparing
    ensures forall i, k | i in s.phase && k in s.phase && s.phase[i] == Preparing && s.phase[k] == Preparing :: i == k
  {
  }

  /** A sequence leaves while another one is registered and preparing. */
  predicate StrayLeave(s: State, a: Action) {
    a.Leave? && s.active.Some? && s.active.value in s.phase && s.phase[s.active.value] == Preparing
  }

  /** It is lost exactly at a stray leave. */
  lemma ExclusiveStep(s: State, a: Action)
    requires Inv(s) && Exclusive(s) && Enabled(s, a)
    ensures Exclusive(Step(s, a)) <==> !StrayLeave(s, a)
  {
    var t := Step(s, a);
    if StrayLeave(s, a) {
      assert t.phase[s.active.value] == Preparing && t.active.None?;
    }
  }

  /** In any run: every state up to the first stray leave is exclusive, and the one after it is not. */
  lemma {:induction false} ExclusiveUntilStrayLeave(states: seq<State>, actions: seq<Action>, k: nat)
    requires Run(states, actions) && k < |states| == |actions| + 1
    requires forall i | 0 <= i < k :: !StrayLeave(states[i], actions[i])
    ensures forall i | 0 <= i <= k :: Exclusive(states[i])
    ensures k < |actions| ==> (Exclusive(states[k + 1]) <==> !StrayLeave(states[k], actions[k]))
  {
    hide Run, Inv, Step, Enabled, Exclusive, StrayLeave;
    if k == 0 {
      NoneRegistered(states, actions);
    } else {
      ExclusiveUntilStrayLeave(states, actions, k - 1);
    }
    if k < |actions| {
      RunInv(states, actions, k, k);
      RunStep(states, actions, k);
      ExclusiveStep(states[k], actions[k]);
    }
  }

  lemma NoneRegistered(states: seq<State>, actions: seq<Action>)
    requires Run(states, actions)
    ensures |states| > 0 && Exclusive(states[0])
  {
  }

  ghost predicate Reachable(s: State) {
    exists states, actions :: Run(states, actions) && states[|actions|] == s
  }

  lemma Extend(s: State, a: Action)
    requires Reachable(s) && Enabled(s, a)
    ensures Reachable(Step(s, a))
  {
    hide Enabled, Step, Initial;
    var states, actions :| Run(states, actions) && states[|actions|] == s;
    var more, also := states + [Step(s, a)], actions + [a];
    forall i | 0 <= i < |also| ensures Enabled(more[i], also[i]) && more[i + 1] == Step(more[i], also[i]) {
    }
    assert Run(more, also);
  }

  /**
   And it can be: the entry of a second sequence goes with the first, an abort finds nothing, and
   the second takes over.
   */
  lemma MissedByAbort() returns (s: State)
    ensures Reachable(s) && 2 in s.phase && s.phase[2] == Preparing && Step(s, Abort) == s
    ensures Enabled(s, Withdraw(2)) && Enabled(Step(s, Withdraw(2)), Check(2))
    ensures Step(Step(s, Withdraw(2)), Check(2)).phase[2] == TakingOver
  {
    hide Reachable;
    s := State(None, map[], {}, {});
    assert Reachable(s) by { Start(s); }
    Extend(s, Execute(1));
    s := Step(s, Execute(1));
    Extend(s, Withdraw(1));
    s := Step(s, Withdraw(1));
    Extend(s, Execute(2));
    s := Step(s, Execute(2));
    Extend(s, Cancel(1));
    s := Step(s, Cancel(1));
    Extend(s, Check(1));
    s := Step(s, Check(1));
    Extend(s, Leave(1));
    s := Step(s, Leave(1));
  }

  lemma Start(s: State)
    requires Initial(s)
    ensures Reachable(s)
  {
    assert Run([s], []);
  }
}
