/**
 The boot guard: a trial that never reports readiness, or stops reporting it, is rebooted away.
 Times are readings of one clock that never runs backwards, in nanoseconds; the checkpoint
 keeps the guard's deadline across its own restarts.
 */
module BootGuard {
  import opened Options
  import opened Identifiers

  const MINUTE := 60_000_000_000

  datatype Checkpoint = Checkpoint(started: int, heartbeat: int, nonce: int, ready: bool)

  /** The checkpoint file; Garbage does not parse. */
  datatype Disk = Missing | Garbage | Saved(checkpoint: Checkpoint)

  datatype Message = Message(operation: string, state: string, nonce: int)

  datatype Outcome = Waiting | Finished | Broken | Reboot

  datatype Event = Post(message: Message) | Tick(now: int, after: int, finalized: bool) | Restart(now: int)

  /** One tick as it went: what was on file, the checkpoint before and after it, the deadline in memory. */
  datatype Moment = Moment(now: int, after: int, message: Option<Message>, before: Checkpoint, end: Checkpoint,
                           deadline: int, outcome: Outcome)

  /** When the guard gives the trial up. */
  function Deadline(started: int, heartbeat: int, ready: bool): int {
    if ready then heartbeat + MINUTE else started + 10 * MINUTE
  }

  function DeadlineOf(c: Checkpoint): int {
    Deadline(c.started, c.heartbeat, c.ready)
  }

  /** A readiness report for this trial that has not been counted yet. */
  predicate Fresh(m: Option<Message>, operation: string, nonce: int) {
    m.Some? && m.value.operation == operation && m.value.state == "ready" && m.value.nonce != nonce
  }

  class GuardState {
    const operation: string
    var started: int
    var heartbeat: int
    var nonce: int
    var ready: bool

    constructor (operation: string, started: int)
      ensures this.operation == operation && this.started == started && nonce == 0 && !ready
    {
      this.operation, this.started, heartbeat, nonce, ready := operation, started, 0, 0, false;
    }

    method Observe(now: int, operation: string, state: string, nonce: int)
      modifies this
      ensures if Fresh(Some(Message(operation, state, nonce)), this.operation, old(this.nonce))
              then ready && heartbeat == now && this.nonce == nonce && started == old(started)
              else ready == old(ready) && heartbeat == old(heartbeat) && this.nonce == old(this.nonce)
                   && started == old(started)
    {
      if operation != this.operation || state != "ready" || nonce == this.nonce { return; }
      ready, heartbeat, this.nonce := true, now, nonce;
    }

    predicate Expired(now: int)
      reads this
    {
      if !ready then now - started >= 10 * MINUTE else now - heartbeat >= MINUTE
    }
  }

  class Guard {
    const operation: string
    var disk: Disk
    var message: Option<Message>
    var g: GuardState
    var saved: Checkpoint
    var alive: bool
    var clock: int

    /** A running guard knows what its checkpoint says, give or take the moment between looking and saving. */
    ghost predicate Inv()
      reads this, g
    {
      0 < clock && (alive ==> disk == Saved(saved) && 0 < saved.started <= clock && Follows())
    }

    ghost predicate Follows()
      reads this, g
    {
      && g.operation == operation
      && g.started == saved.started && g.nonce == saved.nonce && g.ready == saved.ready
      && (g.ready ==> g.heartbeat <= saved.heartbeat)
    }

    constructor (operation: string, disk: Disk, now: int)
      requires 0 < now
      ensures Inv() && this.operation == operation && this.disk == disk && message == None && !alive && clock == now
    {
      this.operation, this.disk, message, saved, alive := operation, disk, None, Checkpoint(now, 0, 0, false), false;
      g := new GuardState(operation, now);
      clock := now;
    }

    /** Replace the checkpoint atomically, or fail with either the old or the new one on disk. */
    method Write(c: Checkpoint) returns (ok: bool)
      modifies `disk
      ensures disk == old(disk) || disk == Saved(c)
      ensures ok ==> disk == Saved(c)
    {
      ok := *;
      var effect: bool := *;
      if ok || effect { disk := Saved(c); }
    }

    /** A guard process starts, or starts again: the deadline is the checkpoint's, if that makes sense in this boot. */
    method Start(now: int) returns (ok: bool)
      requires Inv() && clock <= now
      modifies this
      ensures Inv() && clock == now && message == old(message) && alive == ok
      ensures old(disk) != Missing ==> disk == old(disk)
      ensures old(disk).Garbage? ==> !ok
      ensures old(disk).Saved? ==> (ok <==> 0 < old(disk).checkpoint.started <= now)
      ensures old(disk).Missing? ==> disk in {Missing, Saved(Checkpoint(now, 0, 0, false))} && (ok ==> disk.Saved?)
      ensures !ok ==> g == old(g)
      ensures ok ==> fresh(g) && Deadline(g.started, g.heartbeat, g.ready) == DeadlineOf(saved)
    {
      clock := now;
      alive := false;
      var state := new GuardState(operation, now);
      var c := Checkpoint(now, 0, 0, false);
      match disk {
        case Garbage => return false;
        case Saved(d) =>
          c := d;
          if c.started <= 0 || c.started > now { return false; }
          state.started, state.ready, state.nonce := c.started, c.ready, c.nonce;
          if c.ready { state.heartbeat := c.heartbeat; }
          ok := true;
        case Missing => ok := Write(c);
      }
      if !ok { return; }
      g, saved, alive := state, c, true;
    }

    /**
     One tick at `now`; `after` is the clock when a new report is saved.  A report counts when its
     nonce differs from the last one counted, and the guard stops if it cannot save that.
     */
    method Tick(now: int, after: int, finalized: bool) returns (outcome: Outcome)
      requires Inv() && alive && clock <= now <= after
      modifies this, g
      ensures Inv() && clock == after && message == old(message) && g == old(g)
      ensures outcome == Finished ==> Committed(message, operation) && finalized
      ensures disk.Saved? && MomentIs(operation, Moment(now, after, message, old(saved), disk.checkpoint,
                                                        old(Deadline(g.started, g.heartbeat, g.ready)), outcome))
      ensures Fresh(message, operation, old(saved.nonce)) ==> Deadline(g.started, g.heartbeat, g.ready) == now + MINUTE
      ensures !Fresh(message, operation, old(saved.nonce)) ==>
                Deadline(g.started, g.heartbeat, g.ready) == old(Deadline(g.started, g.heartbeat, g.ready))
      ensures alive == (outcome == Waiting)
    {
      clock := after;
      if message.Some? && message.value.operation == operation {
        var m := message.value;
        if m.state == "committed" && finalized {
          alive := false;
          return Finished;
        }
        g.Observe(now, m.operation, m.state, m.nonce);
        if saved.nonce != g.nonce {
          saved := saved.(heartbeat := after, nonce := g.nonce, ready := g.ready);
          var ok := Write(saved);
          if !ok {
            alive := false;
            return Broken;
          }
        }
      }
      if g.Expired(now) {
        alive := false;
        return Reboot;
      }
      outcome := Waiting;
    }

    /**
     After a guard died, the report on file extends the deadline once more if and only if the
     checkpoint misses its nonce.
     */
    method StartOver(now: int, later: int, after: int) returns (ok: bool, outcome: Outcome)
      requires Inv() && disk.Saved? && clock <= now <= later <= after
      requires message.Some? && message.value.operation == operation && message.value.state == "ready"
      modifies this
      ensures Inv() && message == old(message) && (ok <==> 0 < old(disk).checkpoint.started <= now)
      ensures !ok || message.value.nonce == old(disk).checkpoint.nonce ==> disk == old(disk)
      ensures ok && message.value.nonce != old(disk).checkpoint.nonce && outcome != Broken ==>
                outcome == Waiting
                && disk == Saved(Checkpoint(old(disk).checkpoint.started, after, message.value.nonce, true))
    {
      ok := Start(now);
      outcome := Waiting;
      if ok { outcome := Tick(later, after, false); }
    }

    /** A tick, with the moment it makes. */
    method Watch(now: int, after: int, finalized: bool) returns (m: Moment)
      requires Inv() && alive && clock <= now <= after
      modifies this, g
      ensures Inv() && disk.Saved? && clock == after && message == old(message) && g == old(g)
      ensures MomentIs(operation, m) && m.message == message && m.before == old(saved) && m.end == disk.checkpoint
      ensures m.deadline == old(Deadline(g.started, g.heartbeat, g.ready))
      ensures alive == (m.outcome == Waiting)
      ensures Deadline(g.started, g.heartbeat, g.ready) == Kept(operation, m)
      ensures m.outcome == Finished ==> Committed(message, operation)
    {
      hide MomentIs, Deadline;
      var before, deadline := saved, Deadline(g.started, g.heartbeat, g.ready);
      var outcome := Tick(now, after, finalized);
      m := Moment(now, after, message, before, disk.checkpoint, deadline, outcome);
    }

    /**
     Any schedule of reports, ticks and restarts, up to the first reboot or finished commit.  Each
     tick that happens is a moment.  A restart between two of them leaves the checkpoint alone and
     puts its deadline in memory.
     */
    method Run(schedule: seq<Event>) returns (trace: seq<Moment>)
      requires Inv() && alive
      modifies this, g
      ensures Inv() && disk.Saved? && Traced(operation, old(saved), trace) && disk.checkpoint == Last(old(saved), trace)
      ensures Timed(operation, old(saved), old(Deadline(g.started, g.heartbeat, g.ready)), trace)
      ensures forall k | 0 <= k < |trace| - 1 :: trace[k].outcome == Waiting || trace[k].outcome == Broken
      ensures forall k | 0 <= k < |trace| && trace[k].outcome == Finished :: Committed(trace[k].message, operation)
      ensures forall k | 0 <= k < |trace| && trace[k].message != old(message) ::
          trace[k].message.Some? && Post(trace[k].message.value) in schedule
    {
      hide MomentIs, Remembers, Traced, Timed, Fresh, Deadline, DeadlineOf, Committed, Kept;
      trace := [];
      ghost var first := Deadline(g.started, g.heartbeat, g.ready);
      Untouched(operation, saved, first);
      for i := 0 to |schedule|
        invariant Inv() && disk.Saved? && (g == old(g) || fresh(g))
        invariant Traced(operation, old(saved), trace) && disk.checkpoint == Last(old(saved), trace)
        invariant Timed(operation, old(saved), first, trace)
        invariant alive ==> Remembers(operation, old(saved), first, trace, Deadline(g.started, g.heartbeat, g.ready))
        invariant forall k | 0 <= k < |trace| :: trace[k].outcome == Waiting || trace[k].outcome == Broken
        invariant forall k | 0 <= k < |trace| && trace[k].message != old(message) ::
            trace[k].message.Some? && Post(trace[k].message.value) in schedule
        invariant message != old(message) ==> message.Some? && Post(message.value) in schedule
      {
        assert schedule[i] in schedule;
        match schedule[i]
        case Post(m) => message := Some(m);
        case Restart(now) =>
          if clock <= now {
            var ok := Start(now);
            RememberCheckpoint(operation, old(saved), first, trace);
          }
        case Tick(now, after, finalized) =>
          if alive && clock <= now <= after {
            var m := Watch(now, after, finalized);
            TraceOne(operation, old(saved), trace, m);
            TimeOne(operation, old(saved), first, trace, m);
            trace := trace + [m];
            if m.outcome == Reboot || m.outcome == Finished { return; }
          }
      }
    }

    /**
     As long as the only reports are ones already counted, other trials', or not of readiness,
     neither ticks nor restarts move the deadline, and a tick past it reboots.
     */
    method RunUnrenewed(schedule: seq<Event>) returns (trace: seq<Moment>)
      requires Inv() && alive && !Fresh(message, operation, saved.nonce)
      requires forall e | e in schedule && e.Post? :: !Fresh(Some(e.message), operation, saved.nonce)
      modifies this, g
      ensures Inv() && disk == old(disk)
      ensures forall k | 0 <= k < |trace| :: trace[k].before == old(saved) && trace[k].outcome != Broken
      ensures forall k | 0 <= k < |trace| && trace[k].now >= DeadlineOf(old(saved)) ::
          trace[k].outcome == Reboot || trace[k].outcome == Finished
      ensures forall k | 0 <= k < |trace| && trace[k].outcome == Finished :: Committed(trace[k].message, operation)
    {
      ghost var c := saved;
      trace := Run(schedule);
      forall k | 0 <= k < |trace| ensures !Fresh(trace[k].message, operation, c.nonce) {
        if trace[k].message != old(message) {
          assert Post(trace[k].message.value) in schedule;
        }
      }
      Unrenewed(operation, c, trace, |trace|);
      forall k | 0 <= k < |trace| ensures MomentIs(operation, trace[k]) && trace[k].before == c {
        LastUpTo(operation, c, trace, k);
        Unrenewed(operation, c, trace, k);
      }
      assert trace[..|trace|] == trace;
    }
  }

  predicate Committed(m: Option<Message>, operation: string) {
    m.Some? && m.value.operation == operation && m.value.state == "committed"
  }

  /** What one tick may do: a fresh report moves the checkpoint to it; without one only the deadline counts. */
  predicate MomentIs(operation: string, m: Moment) {
    && m.deadline <= DeadlineOf(m.before)
    && (if Fresh(m.message, operation, m.before.nonce) then
          && (m.outcome == Waiting || m.outcome == Broken)
          && (m.end == m.before || m.end == Checkpoint(m.before.started, m.after, m.message.value.nonce, true))
          && (m.outcome == Waiting ==> m.end == Checkpoint(m.before.started, m.after, m.message.value.nonce, true))
        else
          && m.end == m.before && m.outcome != Broken
          && (m.outcome != Finished ==> (m.outcome == Reboot <==> m.now >= m.deadline)))
  }

  function Last(start: Checkpoint, trace: seq<Moment>): Checkpoint {
    if trace == [] then start else trace[|trace| - 1].end
  }

  /** A trace of ticks: each finds the checkpoint the one before left, across any restarts. */
  predicate Traced(operation: string, start: Checkpoint, trace: seq<Moment>) {
    forall k | 0 <= k < |trace| :: MomentIs(operation, trace[k]) && trace[k].before == Last(start, trace[..k])
  }

  /** Where the deadline in memory comes from: the checkpoint, the fresh report of the last tick, or before. */
  predicate Remembers(operation: string, start: Checkpoint, first: int, trace: seq<Moment>, deadline: int) {
    || deadline == DeadlineOf(Last(start, trace))
    || (trace == [] && deadline == first)
    || (trace != [] && trace[|trace| - 1].outcome == Waiting && deadline == Kept(operation, trace[|trace| - 1]))
  }

  /** The deadline a tick leaves in memory. */
  function Kept(operation: string, m: Moment): int {
    if Fresh(m.message, operation, m.before.nonce) then m.now + MINUTE else m.deadline
  }

  /** Every tick goes by the deadline the one before left in memory or, after a restart, by the checkpoint's. */
  predicate Timed(operation: string, start: Checkpoint, first: int, trace: seq<Moment>) {
    forall k | 0 <= k < |trace| :: Remembers(operation, start, first, trace[..k], trace[k].deadline)
  }

  lemma Untouched(operation: string, start: Checkpoint, first: int)
    ensures Traced(operation, start, []) && Timed(operation, start, first, [])
            && Remembers(operation, start, first, [], first)
  {
  }

  lemma RememberCheckpoint(operation: string, start: Checkpoint, first: int, trace: seq<Moment>)
    ensures Remembers(operation, start, first, trace, DeadlineOf(Last(start, trace)))
  {
  }

  lemma TimeOne(operation: string, start: Checkpoint, first: int, trace: seq<Moment>, m: Moment)
    requires Timed(operation, start, first, trace) && Remembers(operation, start, first, trace, m.deadline)
    ensures Timed(operation, start, first, trace + [m])
    ensures m.outcome == Waiting ==> Remembers(operation, start, first, trace + [m], Kept(operation, m))
  {
    var all := trace + [m];
    forall k | 0 <= k < |all| ensures Remembers(operation, start, first, all[..k], all[k].deadline) {
      assert all[..k] == trace[..k];
      assert trace[..|trace|] == trace;
    }
  }

  /**
   No tick reboots before the checkpoint's deadline, but for the time it takes to save a report:
   the checkpoint is stamped once the report is read, the guard's own heartbeat at the tick.
   */
  lemma {:induction false} NeverEarly(operation: string, start: Checkpoint, first: int, trace: seq<Moment>, delay: nat,
                                      k: nat)
    requires Traced(operation, start, trace) && Timed(operation, start, first, trace) && k < |trace|
    requires DeadlineOf(start) - delay <= first
    requires forall j | 0 <= j < k :: trace[j].after - trace[j].now <= delay
    ensures DeadlineOf(trace[k].before) - delay <= trace[k].deadline
    ensures trace[k].outcome == Reboot ==> DeadlineOf(trace[k].before) - delay <= trace[k].now
  {
    LastUpTo(operation, start, trace, k);
    assert Remembers(operation, start, first, trace[..k], trace[k].deadline);
    if k > 0 {
      NeverEarly(operation, start, first, trace, delay, k - 1);
      assert trace[..k][k - 1] == trace[k - 1];
    }
  }

  lemma TraceOne(operation: string, start: Checkpoint, trace: seq<Moment>, m: Moment)
    requires Traced(operation, start, trace) && MomentIs(operation, m) && m.before == Last(start, trace)
    ensures Traced(operation, start, trace + [m]) && Last(start, trace + [m]) == m.end
  {
    hide MomentIs;
    var all := trace + [m];
    forall k | 0 <= k < |all| ensures MomentIs(operation, all[k]) && all[k].before == Last(start, all[..k]) {
      assert all[..k] == trace[..k];
      assert trace[..|trace|] == trace;
    }
  }

  lemma LastUpTo(operation: string, start: Checkpoint, trace: seq<Moment>, k: nat)
    requires Traced(operation, start, trace) && k < |trace|
    ensures MomentIs(operation, trace[k]) && trace[k].before == Last(start, trace[..k])
  {
  }

  /** The checkpoint is the one of the last fresh report saved: without one it is where it was. */
  lemma {:induction false} Unrenewed(operation: string, start: Checkpoint, trace: seq<Moment>, n: nat)
    requires Traced(operation, start, trace) && n <= |trace|
    requires forall k | 0 <= k < n :: !Fresh(trace[k].message, operation, start.nonce)
    ensures Last(start, trace[..n]) == start
  {
    if n > 0 {
      Unrenewed(operation, start, trace, n - 1);
      LastUpTo(operation, start, trace, n - 1);
      assert trace[..n][n - 1] == trace[n - 1];
    }
  }

  /** Where the trace stands after `n` ticks: at the last moment that saved a fresh report, or at the start. */
  lemma {:induction false} LastFresh(operation: string, start: Checkpoint, trace: seq<Moment>, n: nat) returns (j: int)
    requires Traced(operation, start, trace) && n <= |trace|
    ensures -1 <= j < n && (j >= 0 ==> Fresh(trace[j].message, operation, trace[j].before.nonce))
    ensures Last(start, trace[..n]) == if j < 0 then start
                                       else Checkpoint(trace[j].before.started, trace[j].after,
                                                       trace[j].message.value.nonce, true)
    ensures forall k | j < k < n :: trace[k].end == trace[k].before
    ensures Last(start, trace[..n]).started == start.started
  {
    if n == 0 { return -1; }
    j := LastFresh(operation, start, trace, n - 1);
    LastUpTo(operation, start, trace, n - 1);
    assert trace[..n][n - 1] == trace[n - 1];
    if trace[n - 1].end != trace[n - 1].before { j := n - 1; }
  }

  // The trial's name on the kernel command line.

  const TRIAL := "floatlab.trial="

  predicate NamesTrial(word: string) {
    TRIAL <= word
  }

  datatype Scan = Trial(token: string) | NoTrial | Invalid

  /** TrialToken: none, exactly one well-formed token, or an error. */
  method ScanTrial(words: seq<string>) returns (r: Scan)
    ensures r == NoTrial <==> forall w | w in words :: !NamesTrial(w)
    ensures r.Trial? <==> exists i :: 0 <= i < |words| && OnlyTrial(words, i)
    ensures r.Trial? ==> IsOperationId(r.token) && TRIAL + r.token in words
  {
    var token := "";
    for i := 0 to |words|
      invariant token == "" ==> forall k | 0 <= k < i :: !NamesTrial(words[k])
      invariant token != "" ==> IsOperationId(token)
      invariant token != "" ==>
          exists j :: 0 <= j < i && words[j] == TRIAL + token
                      && forall k | 0 <= k < i && k != j :: !NamesTrial(words[k])
    {
      if NamesTrial(words[i]) {
        if token != "" { return Invalid; }
        token := words[i][|TRIAL|..];
        assert words[i] == TRIAL + token;
        if !IsOperationId(token) { return Invalid; }
      }
    }
    if token == "" { return NoTrial; }
    ghost var j :| 0 <= j < |words| && words[j] == TRIAL + token
                   && forall k | 0 <= k < |words| && k != j :: !NamesTrial(words[k]);
    assert words[j][|TRIAL|..] == token;
    assert OnlyTrial(words, j);
    r := Trial(token);
  }

  predicate OnlyTrial(words: seq<string>, i: nat)
    requires i < |words|
  {
    && NamesTrial(words[i]) && IsOperationId(words[i][|TRIAL|..])
    && forall k | 0 <= k < |words| && k != i :: !NamesTrial(words[k])
  }
}
