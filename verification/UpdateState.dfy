/**
 What a host update has on disk and in the running system, as values: the durable record,
 the firmware's one-shot selection, the booted release, and the invariant over them.
 */
module UpdateState {
  import opened Identifiers
  import opened Options
  import opened BootLayout

  datatype Action = Activate | Commit | Rollback | CleanUp

  /**
   host.json.  `requested` is Some(a) exactly when Phase is a's name with the suffix
   "_requested"; otherwise Phase repeats State.
   */
  datatype Record = Record(op: Operation, state: State, requested: Option<Action>, bootId: nat, finalized: bool)

  /** The release the root file system belongs to, its trial token ("" for none), its boot. */
  datatype Running = Running(version: string, token: string, bootId: nat)

  /** What the manager asks of the coordinators around it, with what was true when it asked. */
  datatype Request =
    | ValidateActivation
    | ValidateManagement
    | TakeCheckpoint(running: string)
    | RestoreCheckpoint(running: string)
    | ReleaseCheckpoint(recorded: State)
    | StartTrial(running: string)
    | StopTrial
    | Health
    | Reboot
    | Announce
    | Tidy

  /** `done` says the coordinator reported success. */
  datatype Call = Call(request: Request, done: bool)

  function Done(request: Request): Call {
    Call(request, true)
  }

  predicate BeforeActivation(state: State) {
    state == Idle || state == Staging || state == Staged || state == Failed
  }

  predicate Attempting(state: State) {
    state == Arming || state == Armed || state == Trial || state == Ready
  }

  /** The staged target is complete: its alias boots, and it carries this operation's token. */
  predicate TargetStaged(l: Layout, o: Operation) {
    l.Bootable(Next, o.target) && TrialToken(l, o, o.id)
  }

  /** How the boot aliases and the one-shot selection relate to the recorded state. */
  predicate LayoutMatches(state: State, l: Layout, bootNext: bool, o: Operation) {
    if BeforeActivation(state) then
      SourceCurrent(l, o) && l.Boots(Current) && !bootNext && (state == Staged ==> TargetStaged(l, o))
    else if Attempting(state) then
      SourceCurrent(l, o) && TargetStaged(l, o) && (bootNext ==> state == Arming || state == Armed)
    else match state
      case Committing => Safe(l, o) && TrialToken(l, o, o.id) && !bootNext
      case Committed => TargetCurrent(l, o) && l.Boots(Current) && !bootNext
      case Recovering =>
        (Safe(l, o) || SourceCurrent(l, o)) && (bootNext ==> SourceCurrent(l, o) && l.Bootable(Next, o.target))
      case Recovered => SourceCurrent(l, o) && l.Boots(Current) && !bootNext
  }

  predicate RunningMatches(state: State, bootId: nat, l: Layout, run: Running, o: Operation) {
    && l.From(Live, run.version)
    && bootId <= run.bootId
    && (BeforeActivation(state) ==> run.version == o.source)
    && (run.version == o.source ==> run.token == "")
  }

  /** The checkpoint is taken and restored on the source only, and let go of only after the commit. */
  predicate Allowed(request: Request, o: Operation) {
    match request
    case TakeCheckpoint(running) => running == o.source
    case RestoreCheckpoint(running) => running == o.source
    case ReleaseCheckpoint(recorded) => recorded == Committed
    case StartTrial(running) => running == o.target
    case _ => true
  }

  predicate CallsMatch(calls: seq<Call>, o: Operation) {
    forall c | c in calls :: Allowed(c.request, o)
  }

  /** No boot of the committed alias is a trial any more. */
  predicate Tokenless(l: Layout) {
    Current in l.ds && l.ds[Current].cmdline.Some? && l.ds[Current].cmdline.value.trial == ""
  }

  /** A record is finalized only once its commit is, and stays so through a later rollback. */
  predicate Closed(r: Record, l: Layout) {
    r.finalized ==>
      match r.state
      case Committed => Tokenless(l)
      case Recovering => true
      case Recovered => true
      case _ => false
  }

  /**
   What the record says was earned by what was asked for since it said `start`: a finalized commit
   has released the checkpoint, and an attempt that ended recovered has put the checkpoint back.
   */
  predicate Earned(start: Record, r: Record, calls: seq<Call>) {
    && (r.state == Committed && r.finalized && !(start.state == Committed && start.finalized) ==>
          Done(ReleaseCheckpoint(Committed)) in calls)
    && (start.state != Recovered && (!BeforeActivation(start.state) || Done(TakeCheckpoint(r.op.source)) in calls) ==>
          && !BeforeActivation(r.state)
          && (r.state == Recovered ==> Done(RestoreCheckpoint(r.op.source)) in calls))
  }

  predicate Consistent(o: Operation, state: State, bootId: nat, l: Layout, bootNext: bool, run: Running) {
    && o.source != o.target
    && IsOperationId(o.id)
    && SourceTokenless(l, o)
    && LayoutMatches(state, l, bootNext, o)
    && RunningMatches(state, bootId, l, run, o)
  }

  /** The trial conditions Commit and Recover check on the running system. */
  predicate IsTrial(run: Running, o: Operation) {
    run.version == o.target && run.token == o.id
  }

  lemma BeginRecovery(o: Operation, state: State, bootId: nat, l: Layout, bootNext: bool, run: Running)
    requires Consistent(o, state, bootId, l, bootNext, run) && state != Recovered
    ensures Consistent(o, Recovering, bootId, l, bootNext, run)
  {
  }

  lemma DropOneShot(o: Operation, state: State, bootId: nat, l: Layout, bootNext: bool, run: Running)
    requires Consistent(o, state, bootId, l, bootNext, run)
    ensures Consistent(o, state, bootId, l, false, run)
  {
  }

  /** One restoration, complete or interrupted, keeps Recovering consistent and can complete. */
  lemma RestorationKeeps(o: Operation, bootId: nat, a: Layout, b: Layout, run: Running)
    requires Consistent(o, Recovering, bootId, a, false, run) && Restores(a, b, o)
    ensures Consistent(o, Recovering, bootId, b, false, run) && Restorable(a, o) && o.source != o.target
    ensures b.From(Current, o.source) && b.Boots(Current) ==>
              SourceCurrent(b, o) && Consistent(o, Recovered, bootId, b, false, run)
  {
  }

  lemma PromotionKeeps(o: Operation, bootId: nat, a: Layout, b: Layout, run: Running)
    requires Consistent(o, Committing, bootId, a, false, run) && Advances(a, b, o)
    ensures Consistent(o, Committing, bootId, b, false, run)
    ensures b.From(Current, o.target) && b.Boots(Current) ==>
              TargetCurrent(b, o) && Consistent(o, Committed, bootId, b, false, run)
  {
  }

  /** Finalizing rewrites only the command line of the committed alias. */
  lemma FinalizationKeeps(o: Operation, bootId: nat, a: Layout, b: Layout, run: Running, cmdline: Cmdline)
    requires Consistent(o, Committed, bootId, a, false, run)
    requires Current in a.ds && cmdline.version == o.target
    requires b == a || b == a.WithProperties(Current, a.ds[Current].owner, Some(cmdline))
    ensures Consistent(o, Committed, bootId, b, false, run)
  {
  }

  /** What Recover does, given the record and the running system, when nothing fails. */
  datatype Outcome = Fails | Reaches(state: State)

  ghost function ActionOutcome(action: Action, r: Record, l: Layout, run: Running): Outcome {
    match action
    case Activate =>
      if r.state == Staged then Reaches(Armed)
      else if r.state == Armed || r.state == Trial || r.state == Ready then Reaches(r.state)
      else Fails
    case Commit =>
      if r.state == Committed then Reaches(Committed)
      else if (r.state == Ready || r.state == Committing) && IsTrial(run, r.op) && Promotable(l, r.op)
      then Reaches(Committed)
      else Fails
    case Rollback =>
      if r.state == Recovered || r.state == Staged || r.state == Failed then Reaches(Recovered)
      else Reaches(Recovering)
    case CleanUp => if Terminal(r.state) && Cleanable(l, r.op, r.state) then Reaches(r.state) else Fails
  }

  ghost function RecoverOutcome(r: Record, l: Layout, run: Running): Outcome {
    if r.requested.Some? then ActionOutcome(r.requested.value, r, l, run)
    else if Terminal(r.state) || r.state == Staged then Reaches(r.state)
    else if r.state == Staging then Reaches(Failed)
    else if r.state == Recovering && run.version == r.op.target then Reaches(Recovering)
    else if IsTrial(run, r.op) && r.state != Recovering then
      if r.state == Committing then (if Promotable(l, r.op) then Reaches(Committed) else Fails)
      else if r.state == Ready then Reaches(Ready)
      else Reaches(Trial)
    else if r.state == Armed && run.bootId == r.bootId then Fails
    else if run.version != r.op.source then Fails
    else Reaches(Recovered)
  }

  /** What finishing a commit asks for. */
  function Finishing(): seq<Call> {
    [Done(ReleaseCheckpoint(Committed)), Done(Announce)]
  }

  /** What an undisturbed action asks of the coordinators, up to a last request to tidy up. */
  ghost function ActionCalls(action: Action, r: Record, l: Layout, run: Running): seq<Call> {
    match action
    case Activate =>
      if r.state != Staged then []
      else [Done(ValidateActivation), Done(ValidateManagement), Done(TakeCheckpoint(r.op.source)), Done(Reboot)]
    case Commit =>
      if r.state == Committed then (if r.finalized then [] else Finishing())
      else if (r.state == Ready || r.state == Committing) && IsTrial(run, r.op) then
        [Done(Health)] + (if Promotable(l, r.op) then Finishing() else [])
      else []
    case Rollback =>
      if r.state == Recovered || r.state == Staged || r.state == Failed then [] else [Done(StopTrial), Done(Reboot)]
    case CleanUp => []
  }

  ghost function RecoverCalls(r: Record, l: Layout, run: Running): seq<Call> {
    if r.requested.Some? then ActionCalls(r.requested.value, r, l, run)
    else if r.state == Committed then (if r.finalized then [] else Finishing())
    else if Terminal(r.state) || BeforeActivation(r.state) then []
    else if r.state == Recovering && run.version == r.op.target then [Done(StopTrial), Done(Reboot)]
    else if IsTrial(run, r.op) && r.state != Recovering then
      if r.state != Committing then [Done(StartTrial(r.op.target))]
      else if Promotable(l, r.op) then Finishing()
      else []
    else if (r.state == Armed && run.bootId == r.bootId) || run.version != r.op.source then []
    else [Done(RestoreCheckpoint(r.op.source))]
  }

  /** Nothing but a last request to tidy up, which may fail, came after. */
  predicate Begun(before: seq<Call>, made: seq<Call>, after: seq<Call>) {
    Made(before, made, after) || after == before + made + [Call(Tidy, false)]
  }

  predicate Made(before: seq<Call>, made: seq<Call>, after: seq<Call>) {
    after == before + made || after == before + made + [Done(Tidy)]
  }

  /** What an operator may rely on at every instant of every run. */
  predicate Sound(r: Record, l: Layout, calls: seq<Call>) {
    && SelectsRelease(l, r.op)
    && (r.state == Committed ==> l.From(Current, r.op.target) && l.Boots(Current))
    && (r.state == Recovered ==> l.From(Current, r.op.source) && l.Boots(Current))
    && (r.state != Committed && r.state != Committing && r.state != Recovering ==> l.From(Current, r.op.source))
    && (r.state == Committed && r.finalized ==> Tokenless(l))
    && CallsMatch(calls, r.op)
  }

  predicate Settled(r: Record, l: Layout) {
    || (r.state == Committed && r.finalized && l.From(Current, r.op.target) && l.Boots(Current) && Tokenless(l))
    || (r.state == Recovered && l.From(Current, r.op.source) && l.Boots(Current))
  }

  lemma InvariantIsSound(r: Record, l: Layout, bootNext: bool, run: Running, calls: seq<Call>)
    requires Consistent(r.op, r.state, r.bootId, l, bootNext, run) && Closed(r, l) && CallsMatch(calls, r.op)
    ensures Sound(r, l, calls)
  {
  }
}
