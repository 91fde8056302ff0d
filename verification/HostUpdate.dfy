/**
 The durable host-update state machine: every action, the recovery run before each core-stack
 start, and the reboots between them.

 Effects outside the boot aliases (record writes, firmware variables, the management
 coordinator) fail the same way pool commands do: before or after taking effect, possibly with
 the machine going down.  Once it is down nothing else in the interrupted call has any effect.
 */
module HostUpdate {
  import opened Identifiers
  import opened Options
  import opened BootLayout
  import opened BootPool
  import opened UpdateState

  class Manager {
    const pool: Pool
    const start: Record         // the record this run started from
    var record: Record
    var bootNext: bool
    var run: Running
    var calls: seq<Call>        // what was asked of the coordinators
    var written: set<Record>    // what host.json has been replaced with
    var up: bool
    var faults: nat

    ghost predicate Holds(r: Record)
      reads this, pool
    {
      && Consistent(r.op, r.state, r.bootId, pool.layout, bootNext, run)
      && Closed(r, pool.layout) && Earned(start, r, calls)
    }

    /** The invariant of every run, between any two effects. */
    ghost predicate Inv()
      reads this, pool
    {
      Holds(record) && (pool.responsive ==> up) && CallsMatch(calls, record.op)
    }

    twostate predicate Calm()
      reads this, pool
    {
      old(up) && faults == old(faults) && pool.faults == old(pool.faults)
    }

    twostate predicate Worsening()
      reads this, pool
    {
      && old(faults) <= faults && old(pool.faults) <= pool.faults && old(written) <= written
      && (up ==> old(up)) && (pool.responsive ==> old(pool.responsive))
      && (Calm() ==> up) && (Calm() && old(pool.responsive) ==> pool.responsive)
    }

    /** Exactly one effect failed, and the machine lived. */
    twostate predicate Once()
      reads this, pool
    {
      faults + pool.faults == old(faults) + old(pool.faults) + 1 && pool.responsive
    }

    constructor (pool: Pool, record: Record, run: Running)
      requires Consistent(record.op, record.state, record.bootId, pool.layout, false, run)
               && Closed(record, pool.layout)
      ensures Inv() && this.pool == pool && this.record == start == record && this.run == run && calls == []
    {
      this.pool, this.record, this.run, start := pool, record, run, record;
      bootNext, calls, written, up, faults := false, [], {}, true, 0;
    }

    method Attempt() returns (effect: bool, ok: bool)
      modifies `up, `faults, pool`responsive
      ensures Worsening()
      ensures ok ==> effect && up
      ensures effect ==> old(up)
      ensures ok <==> Calm()
      ensures old(pool.responsive ==> up) ==> pool.responsive ==> up
    {
      effect, ok := up, up;
      if up {
        if * {
          faults, ok := faults + 1, false;
          if * { effect := false; }
          if * {
            up := false;
            pool.responsive := false;
          }
        }
      }
    }

    /** Replace host.json atomically. */
    method Write(s: Record) returns (ok: bool)
      modifies `record, `written, `up, `faults, pool`responsive
      ensures Worsening()
      ensures record == old(record) || record == s
      ensures ok ==> record == s && up && s in written
      ensures ok <==> Calm()
      ensures old(pool.responsive ==> up) ==> pool.responsive ==> up
    {
      var effect;
      effect, ok := Attempt();
      if effect { record, written := s, written + {s}; }
    }

    /** save: State and Phase both become `state`, in memory and then on disk. */
    method Save(s: Record, state: State) returns (s': Record, ok: bool)
      modifies `record, `written, `up, `faults, pool`responsive
      ensures s' == s.(state := state, requested := None)
      ensures Worsening()
      ensures record == old(record) || record == s'
      ensures ok ==> record == s' && up
      ensures ok <==> Calm()
      ensures old(pool.responsive ==> up) ==> pool.responsive ==> up
    {
      s' := s.(state := state, requested := None);
      ok := Write(s');
    }

    /** Drop the firmware's one-shot selection, if there is one. */
    method Clear() returns (ok: bool)
      modifies `bootNext, `up, `faults, pool`responsive
      ensures Worsening()
      ensures bootNext ==> old(bootNext)
      ensures ok ==> !bootNext && up
      ensures ok <==> Calm()
      ensures old(pool.responsive ==> up) ==> pool.responsive ==> up
    {
      var effect;
      effect, ok := Attempt();
      if ok && bootNext {
        effect, ok := Attempt();
        if effect { bootNext := false; }
      }
    }

    method Arm() returns (ok: bool)
      modifies `bootNext, `up, `faults, pool`responsive
      ensures Worsening()
      ensures bootNext == old(bootNext) || bootNext
      ensures ok ==> bootNext && up
      ensures ok <==> Calm()
      ensures old(pool.responsive ==> up) ==> pool.responsive ==> up
    {
      var effect;
      effect, ok := Attempt();
      if effect { bootNext := true; }
    }

    /** Ask a coordinator, whose own effects are outside this model. */
    method Ask(request: Request) returns (ok: bool)
      modifies `calls, `up, `faults, pool`responsive
      ensures Worsening()
      ensures old(CallsMatch(calls, record.op)) && Allowed(request, record.op) ==> CallsMatch(calls, record.op)
      ensures calls == if old(up) then old(calls) + [Call(request, ok)] else old(calls)
      ensures ok ==> up && calls == old(calls) + [Done(request)]
      ensures ok <==> Calm()
      ensures old(pool.responsive ==> up) ==> pool.responsive ==> up
    {
      var asked := up;
      var effect;
      effect, ok := Attempt();
      if asked { calls := calls + [Call(request, ok)]; }
    }

    /** Boot aliases put back, then the management checkpoint: only ever called on the source. */
    method Restore(s0: Record) returns (s: Record, ok: bool)
      requires Inv() && s0 == record
      requires s0.state != Recovered && run.version == s0.op.source
      modifies `record, `written, `bootNext, `calls, `up, `faults, pool
      ensures Inv() && Holds(s) && Worsening() && s.op == record.op == old(record.op)
      ensures ok ==> s == record && s.state == Recovered && calls == old(calls) + [Done(RestoreCheckpoint(s.op.source))]
      ensures Calm() && old(pool.responsive) ==> ok
    {
      hide CallsMatch, Consistent, Restores, Restorable, SourceCurrent, Earned, Closed;
      BeginRecovery(s0.op, s0.state, s0.bootId, pool.layout, bootNext, run);
      RecoveryEarned(start, s0, calls);
      var ignored;
      s, ok := Save(s0, Recovering);
      if !ok { return; }
      DropOneShot(s.op, s.state, s.bootId, pool.layout, bootNext, run);
      ok := Clear();
      if !ok {
        s, ignored := Save(s, Recovering);
        return;
      }
      s, ok := RestoreSource(s);
    }

    /** The source becomes current and selected, and only then gets its management state back. */
    method RestoreSource(s0: Record) returns (s: Record, ok: bool)
      requires Inv() && s0 == record && s0.state == Recovering && s0.requested == None && !bootNext
      requires run.version == s0.op.source
      modifies `record, `written, `calls, `up, `faults, pool
      ensures Inv() && Holds(s) && Worsening() && s.op == record.op == old(record.op)
      ensures ok ==> s == record && s.state == Recovered && calls == old(calls) + [Done(RestoreCheckpoint(s.op.source))]
      ensures Calm() && old(pool.responsive) ==> ok
    {
      hide CallsMatch, Consistent, Restores, Restorable, SourceCurrent, Earned, Closed;
      s := s0;
      RecoveryEarned(start, s, calls);
      var ignored;
      ghost var before := pool.layout;
      ok := pool.RestoreBoot(s.op);
      RestorationKeeps(s.op, s.bootId, before, pool.layout, run);
      if !ok {
        s, ignored := Save(s, Recovering);
        return;
      }
      ok := Ask(RestoreCheckpoint(run.version));
      RecoveryEarned(start, s, calls);
      RecoveryEarned(start, record, calls);
      if !ok {
        s, ignored := Save(s, Recovering);
        return;
      }
      s, ok := Save(s, Recovered);
    }

    /** A question to the system; asking changes nothing. */
    method Query() returns (ok: bool)
      modifies `up, `faults, pool`responsive
      ensures Worsening()
      ensures ok ==> up
      ensures ok <==> Calm()
      ensures old(pool.responsive ==> up) ==> pool.responsive ==> up
    {
      var effect;
      effect, ok := Attempt();
    }

    /** The booted release, the origin of its root, its token and boot id. */
    method System() returns (version: string, origin: Option<string>, token: string, boot: nat, ok: bool)
      requires Inv()
      modifies `up, `faults, pool`responsive, pool`faults
      ensures Inv() && Worsening()
      ensures ok ==> version == run.version && origin == Some(run.version) && token == run.token && boot == run.bootId
      ensures ok ==> Calm() && (token == "" || !bootNext)
      ensures Calm() && old(pool.responsive) && (run.token == "" || !bootNext) ==> ok
    {
      version, origin, token, boot := run.version, None, run.token, run.bootId;
      ok := Query();
      if !ok { return; }
      var d := pool.Property(Live);
      if d.None? { ok := false; return; }
      origin := d.value.origin;
      if token != "" {
        ok := Query();
        if !ok { return; }
        if bootNext { ok := false; return; }
      }
    }

    method CleanUpOperation(s: Record) returns (ok: bool)
      requires Inv() && Holds(s) && s.op == record.op && s.state == record.state && Terminal(s.state)
      modifies `record, `written, `bootNext, `calls, `up, `faults, pool
      ensures Inv() && Holds(s) && Worsening() && record == old(record)
      ensures bootNext == old(bootNext)
      ensures ok ==> calls == old(calls) + [Done(Tidy)]
      ensures ok && s.state == Committed ==> NoneRetired(pool.layout)
      ensures ok && (s.state == Recovered || s.state == Failed) ==> Next !in pool.layout.ds
      ensures calls == old(calls) || calls == old(calls) + [Call(Tidy, ok)]
      ensures Calm() && !ok ==> calls == old(calls)
      ensures Calm() && old(pool.responsive) && Originals(old(pool.layout)) ==>
                (ok <==> Cleanable(old(pool.layout), s.op, s.state))
    {
      hide CallsMatch, Consistent, Shrinks, Cleanable, Originals, Earned, Tokenless, NoneRetired;
      EarnedOn(start, s, calls);
      EarnedOn(start, record, calls);
      ghost var before := pool.layout;
      ok := pool.Cleanup(s.op, s.state);
      CleanupKeeps(s.op, s.state, s.bootId, before, pool.layout, bootNext, run);
      CleanupKeeps(record.op, record.state, record.bootId, before, pool.layout, bootNext, run);
      if !ok { return; }
      ok := Ask(Tidy);
    }

    /** Release the checkpoint, drop the token, mark the record finalized; cleanup may lag. */
    method FinishCommit(s0: Record) returns (s: Record, ok: bool)
      requires Inv() && s0 == record && s0.state == Committed
      modifies `record, `written, `bootNext, `calls, `up, `faults, pool
      ensures Inv() && Holds(s) && Worsening() && s.op == record.op == old(record.op)
      ensures Calm() && old(pool.responsive) ==> s == record
      ensures s.state == record.state == Committed
      ensures ok ==> record.finalized && Tokenless(pool.layout) && Begun(old(calls), Finishing(), calls)
      ensures Calm() && old(pool.responsive) ==> ok && Made(old(calls), Finishing(), calls)
      ensures (&& Calm() && old(pool.responsive) && Originals(old(pool.layout))
               && Cleanable(old(pool.layout), record.op, Committed)) ==>
                NoneRetired(pool.layout)
    {
      hide CallsMatch, Consistent, Shrinks, Cleanable, Originals, NoneRetired, Earned, Tokenless;
      s := s0;
      CommittedFacts(s.op, s.bootId, pool.layout, bootNext, run);
      EarnedOn(start, s, calls);
      ok := Ask(ReleaseCheckpoint(s.state));
      if !ok { return; }
      ghost var before := pool.layout;
      ok := pool.FinalizeCommit(s.op);
      FinalizationKeeps(s.op, s.bootId, before, pool.layout, run, Cmdline(s.op.target, ""));
      FinalizedFacts(before, s.op);
      if !ok { return; }
      EarnedOn(start, s, calls);
      ok := Ask(Announce);
      if !ok { return; }
      s, ok := Conclude(s);
    }

    /** Mark the commit finalized, then clean up; cleanup may lag. */
    method Conclude(s0: Record) returns (s: Record, ok: bool)
      requires Inv() && s0 == record && s0.state == Committed && Tokenless(pool.layout)
      requires Done(ReleaseCheckpoint(Committed)) in calls
      modifies `record, `written, `bootNext, `calls, `up, `faults, pool
      ensures Inv() && Holds(s) && Worsening() && s.op == record.op == old(record.op)
      ensures Calm() && old(pool.responsive) ==> s == record && ok && Made(old(calls), [], calls)
      ensures s.state == record.state == Committed
      ensures ok ==> record.finalized && Tokenless(pool.layout) && Begun(old(calls), [], calls)
      ensures (&& Calm() && old(pool.responsive) && Originals(old(pool.layout))
               && Cleanable(old(pool.layout), record.op, Committed)) ==>
                NoneRetired(pool.layout)
    {
      hide CallsMatch, Consistent, Shrinks, Cleanable, Originals, NoneRetired, Earned, Tokenless;
      EarnedFinalized(start, s0, calls);
      s, ok := Save(s0.(finalized := true), Committed);
      if !ok { return; }
      var cleaned := CleanUpOperation(s);
      if !cleaned {
        var ignored;
        s, ignored := Save(s, Committed);
      }
    }

    /** Checkpoint, select the trial for one boot, record it, ask for the reboot. */
    method CheckpointAndArm(s0: Record) returns (s: Record, ok: bool)
      requires Inv() && s0 == record && s0.state == Arming && run.version == s0.op.source
      requires forall n :: Consistent(s0.op, Arming, s0.bootId, pool.layout, n, run)
                           && Consistent(s0.op, Armed, s0.bootId, pool.layout, n, run)
      modifies `record, `written, `bootNext, `calls, `up, `faults, pool
      ensures Inv() && Holds(s) && Worsening() && s.op == record.op == old(record.op)
      ensures Calm() && old(pool.responsive) ==> s == record
      ensures ok ==> record.state == Armed || record.state == Recovered
      ensures Calm() && old(pool.responsive) ==>
                && ok && record.state == Armed && bootNext && record.requested == None && record.bootId == s0.bootId
                && calls == old(calls) + [Done(TakeCheckpoint(s.op.source)), Done(Reboot)]
      // a checkpoint, selection or reboot that fails is undone
      ensures Once() && !ok ==> calls == old(calls) + [Done(TakeCheckpoint(s.op.source))] && bootNext
      ensures Once() && ok ==> record.state == Recovered && Done(RestoreCheckpoint(s.op.source)) in calls
    {
      hide CallsMatch, Consistent;
      s := s0;
      ok := Ask(TakeCheckpoint(run.version));
      if ok { ok := Arm(); }
      if !ok {
        s, ok := Restore(s);
        return;
      }
      s, ok := Save(s, Armed);
      if !ok { return; }
      ok := Ask(Reboot);
      if !ok { s, ok := Restore(s); }
    }

    method DoActivate(s0: Record) returns (s: Record, ok: bool)
      requires Inv() && s0 == record
      modifies `record, `written, `bootNext, `calls, `up, `faults, pool
      ensures Inv() && Holds(s) && Worsening() && s.op == record.op == old(record.op)
      ensures Calm() && old(pool.responsive) ==> s == record
      ensures Calm() && old(pool.responsive) ==>
                Follows(ActionOutcome(Activate, old(record), old(pool.layout), old(run)), ok, record.state)
      ensures Calm() && old(pool.responsive) && old(record.state) == Staged ==>
                bootNext && record.requested == None && record.bootId == run.bootId
      ensures Calm() && old(pool.responsive) ==>
                Made(old(calls), ActionCalls(Activate, old(record), old(pool.layout), run), calls)
      ensures ok ==> record.state in {Armed, Trial, Ready, Recovered}
      ensures old(record.state) != Staged ==>
                record == old(record) && pool.layout == old(pool.layout) && bootNext == old(bootNext)
      // one failure: nothing was begun, or it was undone, or only the record of the selection failed
      ensures Once() && old(record.state) == Staged ==>
                if ok then record.state == Recovered && Done(RestoreCheckpoint(s.op.source)) in calls
                else |calls| > 0 && calls != old(calls) ==>
                       calls[|calls| - 1] !in {Call(TakeCheckpoint(s.op.source), false), Call(Reboot, false)}
    {
      hide CallsMatch, Consistent;
      s := s0;
      if s.state == Armed || s.state == Trial || s.state == Ready { return s, true; }
      if s.state != Staged { return s, false; }
      s, ok := ActivateStaged(s);
    }

    /** Validate, note the running boot, then checkpoint and arm. */
    method ActivateStaged(s0: Record) returns (s: Record, ok: bool)
      requires Inv() && s0 == record && s0.state == Staged
      modifies `record, `written, `bootNext, `calls, `up, `faults, pool
      ensures Inv() && Holds(s) && Worsening() && s.op == record.op == old(record.op)
      ensures ok ==> record.state == Armed || record.state == Recovered
      ensures Calm() && old(pool.responsive) ==>
                && ok && s == record && record.state == Armed && bootNext && record.requested == None
                && record.bootId == run.bootId
                && calls == old(calls) + ActionCalls(Activate, old(record), old(pool.layout), run)
      // one failure: nothing was begun, or it was undone, or only the record of the selection failed
      ensures Once() ==>
                if ok then record.state == Recovered && Done(RestoreCheckpoint(s.op.source)) in calls
                else |calls| > 0 && calls != old(calls) ==>
                       calls[|calls| - 1] !in {Call(TakeCheckpoint(s.op.source), false), Call(Reboot, false)}
    {
      hide CallsMatch, Consistent;
      s := s0;
      StagedFacts(s.op, s.bootId, pool.layout, bootNext, run);
      ok := Ask(ValidateActivation);
      if !ok { return; }
      ok := Ask(ValidateManagement);
      if !ok { return; }
      var version, origin, token, boot;
      version, origin, token, boot, ok := System();
      if !ok { return; }
      BeginActivation(s.op, s.bootId, boot, pool.layout, bootNext, run);
      s := s.(bootId := boot);
      s, ok := Save(s, Arming);
      if !ok { return; }
      s, ok := CheckpointAndArm(s);
    }

    method DoCommit(s0: Record) returns (s: Record, ok: bool)
      requires Inv() && s0 == record
      modifies `record, `written, `bootNext, `calls, `up, `faults, pool
      ensures Inv() && Holds(s) && Worsening() && s.op == record.op == old(record.op)
      ensures Calm() && old(pool.responsive) ==> s == record
      ensures ok ==> record.state == Committed && record.finalized
      ensures Calm() && old(pool.responsive) && !old(bootNext) ==>
                Made(old(calls), ActionCalls(Commit, old(record), old(pool.layout), run), calls)
      ensures !(old(record.state) in {Ready, Committing, Committed}) ==>
                !ok && record == old(record) && pool.layout == old(pool.layout) && bootNext == old(bootNext)
      ensures old(record.state) != Committed && !IsTrial(run, s.op) ==>
                !ok && s == record == old(record) && pool.layout == old(pool.layout)
      ensures Calm() && old(pool.responsive) && !old(bootNext) ==>
                Follows(ActionOutcome(Commit, old(record), old(pool.layout), old(run)), ok, record.state)
    {
      hide CallsMatch, Consistent, Advances, Promotable, Earned, Closed;
      s := s0;
      if s.state == Committed {
        if !s.finalized {
          s, ok := FinishCommit(s);
          return;
        }
        return s, true;
      }
      if s.state != Ready && s.state != Committing { return s, false; }
      s, ok := CommitTrial(s);
    }

    /** Commit only what is running as this trial, and only once it is healthy. */
    method CommitTrial(s0: Record) returns (s: Record, ok: bool)
      requires Inv() && s0 == record && (s0.state == Ready || s0.state == Committing)
      modifies `record, `written, `bootNext, `calls, `up, `faults, pool
      ensures Inv() && Holds(s) && Worsening() && s.op == record.op == old(record.op)
      ensures Calm() && old(pool.responsive) ==> s == record
      ensures ok ==> record.state == Committed && record.finalized
      ensures !IsTrial(run, s.op) ==> !ok && s == record == old(record) && pool.layout == old(pool.layout)
      ensures Calm() && old(pool.responsive) && !old(bootNext) ==>
                && (ok <==> IsTrial(run, s.op) && Promotable(old(pool.layout), s.op))
                && Made(old(calls),
                        if !IsTrial(run, s.op) then [] else [Done(Health)] + if ok then Finishing() else [],
                        calls)
    {
      hide CallsMatch, Consistent, Advances, Promotable, Earned, Closed;
      s := s0;
      EarnedOn(start, s, calls);
      var version, origin, token, boot;
      version, origin, token, boot, ok := System();
      if !ok { return; }
      if version != s.op.target || origin != Some(s.op.target) || token != s.op.id { return s, false; }
      ok := Ask(Health);
      if !ok { return; }
      EarnedAhead(start, s, Committing, calls, pool.layout);
      BeginCommit(s.op, s.state, s.bootId, pool.layout, bootNext, run);
      s, ok := Save(s, Committing);
      if !ok { return; }
      s, ok := PromoteAndFinish(s);
    }

    /** The part Commit and Recover share: promote, record it, then let the checkpoint go. */
    method PromoteAndFinish(s0: Record) returns (s: Record, ok: bool)
      requires Inv() && s0 == record && s0.state == Committing
      modifies `record, `written, `bootNext, `calls, `up, `faults, pool
      ensures Inv() && Holds(s) && Worsening() && s.op == record.op == old(record.op)
      ensures Calm() && old(pool.responsive) ==> s == record
      ensures ok ==> record.state == Committed && record.finalized && Promotable(old(pool.layout), s.op)
      ensures ok ==> Begun(old(calls), Finishing(), calls)
      ensures Calm() && old(pool.responsive) ==>
                (ok <==> Promotable(old(pool.layout), s.op)) && Made(old(calls), if ok then Finishing() else [], calls)
    {
      hide CallsMatch, Consistent, Advances, Promotable, Tokenless;
      s := s0;
      CommittingFacts(s.op, s.bootId, pool.layout, bootNext, run);
      ghost var before := pool.layout;
      ok := pool.Promote(s.op);
      PromotionKeeps(s.op, s.bootId, before, pool.layout, run);
      if !ok { return; }
      s, ok := Save(s, Committed);
      if !ok { return; }
      s, ok := FinishCommit(s);
    }

    method DoRollback(s0: Record) returns (s: Record, ok: bool)
      requires Inv() && s0 == record
      modifies `record, `written, `bootNext, `calls, `up, `faults, pool
      ensures Inv() && Holds(s) && Worsening() && s.op == record.op == old(record.op)
      ensures Calm() && old(pool.responsive) ==> s == record
      ensures Calm() && old(pool.responsive) ==>
                Follows(ActionOutcome(Rollback, old(record), old(pool.layout), old(run)), ok, record.state)
      ensures Calm() && old(pool.responsive) ==>
                Made(old(calls), ActionCalls(Rollback, old(record), old(pool.layout), run), calls)
      ensures ok ==> record.state == Recovered || record.state == Recovering
      ensures Calm() && old(pool.responsive) && record.state == Recovering ==>
                record.requested == None && ReadyForSource(pool.layout, record.op, bootNext)
    {
      hide CallsMatch, Consistent, Restores, Restorable, Tokenless, ReadyForSource;
      s := s0;
      if s.state == Recovered { return s, true; }
      if s.state == Staged || s.state == Failed {
        ok := Clear();
        UnarmedRecovered(s.op, s.state, s.bootId, pool.layout, old(bootNext), run);
        DropOneShot(s.op, s.state, s.bootId, pool.layout, old(bootNext), run);
        if !ok { return; }
        s, ok := Save(s, Recovered);
        return;
      }
      s, ok := RollBackAttempt(s);
    }

    /** Record the rollback before anything else, then put the source back and start it. */
    method RollBackAttempt(s0: Record) returns (s: Record, ok: bool)
      requires Inv() && s0 == record && s0.state != Recovered
      modifies `record, `written, `bootNext, `calls, `up, `faults, pool
      ensures Inv() && Holds(s) && Worsening() && s.op == record.op == old(record.op)
      ensures Calm() && old(pool.responsive) ==>
                && ok && s == record && s.state == Recovering && s.requested == None
                && ReadyForSource(pool.layout, s.op, bootNext)
                && calls == old(calls) + [Done(StopTrial), Done(Reboot)]
      ensures ok ==> record.state == Recovering
    {
      hide CallsMatch, Consistent, Restores, Restorable, Tokenless, ReadyForSource, Earned, Closed;
      s := s0;
      RecoveryEarned(start, s, calls);
      BeginRecovery(s.op, s.state, s.bootId, pool.layout, bootNext, run);
      s, ok := Save(s, Recovering);
      if !ok { return; }
      DropOneShot(s.op, s.state, s.bootId, pool.layout, bootNext, run);
      ok := Clear();
      if !ok { return; }
      EarnedOn(start, s, calls);
      ok := Ask(StopTrial);
      if !ok { return; }
      ok := RestoreAndReboot(s);
    }

    /** Put the source boot back for the next start, then ask for it. */
    method RestoreAndReboot(s: Record) returns (ok: bool)
      requires Inv() && Holds(s) && s.op == record.op && s.state == record.state == Recovering && !bootNext
      modifies `record, `written, `bootNext, `calls, `up, `faults, pool
      ensures Inv() && Holds(s) && Worsening() && record == old(record) && !bootNext
      ensures Calm() && old(pool.responsive) ==>
                ok && ReadyForSource(pool.layout, s.op, bootNext) && calls == old(calls) + [Done(Reboot)]
    {
      hide CallsMatch, Consistent, Restores, Restorable;
      ghost var before := pool.layout;
      ok := pool.RestoreBoot(s.op);
      RestorationKeeps(s.op, s.bootId, before, pool.layout, run);
      RestorationKeeps(record.op, record.bootId, before, pool.layout, run);
      if !ok { return; }
      ok := Ask(Reboot);
    }

    method DoCleanup(s0: Record) returns (s: Record, ok: bool)
      requires Inv() && s0 == record
      modifies `record, `written, `bootNext, `calls, `up, `faults, pool
      ensures Inv() && Holds(s) && Worsening() && s == record == old(record)
      ensures !Terminal(s.state) ==> !ok && pool.layout == old(pool.layout)
      ensures ok && s.state == Committed ==> NoneRetired(pool.layout)
      ensures ok && (s.state == Recovered || s.state == Failed) ==> Next !in pool.layout.ds
      ensures Calm() ==> Made(old(calls), [], calls)
      ensures bootNext == old(bootNext)
      ensures Calm() && old(pool.responsive) && Originals(old(pool.layout)) ==>
                Follows(ActionOutcome(CleanUp, old(record), old(pool.layout), run), ok, record.state)
    {
      hide CallsMatch, Consistent, Cleanable, Originals;
      s := s0;
      if !Terminal(s.state) { return s, false; }
      ok := CleanUpOperation(s);
    }

    /** One accepted action under the update lock. */
    method Act(id: string, action: Action) returns (s: Record, ok: bool)
      requires Inv()
      modifies `record, `written, `bootNext, `calls, `up, `faults, pool
      ensures Inv() && Holds(s) && Worsening() && s.op == record.op == old(record.op)
      ensures Calm() && old(pool.responsive) ==> s == record
      ensures id != old(record.op.id) ==> !ok && s == record == old(record) && pool.layout == old(pool.layout)
      ensures Calm() && old(pool.responsive) && Judged(action, old(pool.layout)) && id == old(record.op.id)
              && !old(bootNext) ==>
                Follows(ActionOutcome(action, old(record), old(pool.layout), old(run)), ok, record.state)
      ensures Calm() && old(pool.responsive) && id == old(record.op.id) && !old(bootNext) ==>
                Made(old(calls), ActionCalls(action, old(record), old(pool.layout), run), calls)
      ensures ok && action != CleanUp && record.state == Committed ==> record.finalized
      ensures Calm() && old(pool.responsive) && ok && record.state == Recovering ==>
                record.requested == None && ReadyForSource(pool.layout, record.op, bootNext)
      ensures action == Commit && old(record.state) != Committed && !IsTrial(run, record.op) ==>
                !ok && s == record == old(record) && pool.layout == old(pool.layout)
      ensures Calm() && old(pool.responsive) && action == Activate && old(record.state) == Staged
              && id == old(record.op.id) ==>
                record.state == Armed && bootNext && record.requested == None && record.bootId == run.bootId
      ensures Inert(action, old(record.state)) ==> record == old(record)
      ensures Inert(action, old(record.state)) && action != CleanUp ==> pool.layout == old(pool.layout)
      ensures Inert(action, old(record.state)) ==> bootNext == old(bootNext)
    {
      hide Cleanable, Originals;
      s := record;
      if !IsOperationId(id) || id != s.op.id { return s, false; }
      match action
      case Activate => s, ok := DoActivate(s);
      case Commit => s, ok := DoCommit(s);
      case Rollback => s, ok := DoRollback(s);
      case CleanUp => s, ok := DoCleanup(s);
    }

    /** Run before every core-stack start. */
    method Recover() returns (ok: bool)
      requires Inv()
      modifies `record, `written, `bootNext, `calls, `up, `faults, pool
      ensures Inv() && Worsening() && record.op == old(record.op)
      ensures (&& Calm() && old(pool.responsive) && !old(bootNext)
               && (old(record.requested).Some? ==> Judged(old(record.requested).value, old(pool.layout)))) ==>
                Follows(RecoverOutcome(old(record), old(pool.layout), run), ok, record.state)
      ensures Calm() && old(pool.responsive) && !old(bootNext) ==>
                Made(old(calls), RecoverCalls(old(record), old(pool.layout), run), calls)
      ensures old(record.requested).Some? && Inert(old(record.requested).value, old(record.state)) ==>
                record == old(record)
      ensures Calm() && old(pool.responsive) && old(record.requested) == Some(Activate)
              && old(record.state) == Staged ==>
                record.state == Armed && bootNext && record.requested == None
      ensures old(record.requested) == None && BeforeActivation(old(record.state)) ==>
                BeforeActivation(record.state) && record.requested == None
      ensures ok && record.state == Committed && old(record.requested) != Some(CleanUp) ==> record.finalized
      ensures Calm() && old(pool.responsive) && ok && record.state == Recovering ==>
                record.requested == None && ReadyForSource(pool.layout, record.op, bootNext)
      // a commit request that comes back on anything but its trial is refused, again and again
      ensures old(record.requested) == Some(Commit) && old(record.state) != Committed && !IsTrial(run, record.op) ==>
                !ok && record == old(record) && pool.layout == old(pool.layout)
    {
      hide CallsMatch, Consistent, Promotable;
      var s := record;
      if s.requested.Some? {
        s, ok := Act(s.op.id, s.requested.value);
        return;
      }
      if Terminal(s.state) {
        if s.state == Committed && !s.finalized { s, ok := FinishCommit(s); } else { ok := true; }
        return;
      }
      if s.state == Staging {
        InterruptedStaging(s.op, s.bootId, pool.layout, bootNext, run);
        s, ok := Save(s, Failed);
        return;
      }
      if s.state == Staged { return true; }
      ok := RecoverAttempt(s);
    }

    /** The machine came up with its trial: finish the commit, or go on trying. */
    method ContinueTrial(s0: Record) returns (ok: bool)
      requires Inv() && s0 == record && s0.requested == None && IsTrial(run, s0.op) && (run.token == "" || !bootNext)
      requires Attempting(s0.state) || s0.state == Committing
      modifies `record, `written, `bootNext, `calls, `up, `faults, pool
      ensures Inv() && Worsening() && record.op == old(record.op) && (ok ==> record.state != Recovering)
      ensures Calm() && old(pool.responsive) ==>
                && Follows(RecoverOutcome(old(record), old(pool.layout), run), ok, record.state)
                && Made(old(calls), RecoverCalls(old(record), old(pool.layout), run), calls)
      ensures record.state == Committed && ok ==> record.finalized
    {
      hide CallsMatch, Consistent, Advances, Promotable;
      var s := s0;
      if s.state == Committing {
        s, ok := PromoteAndFinish(s);
        return;
      }
      ok := Ask(StartTrial(run.version));
      if !ok { return; }
      if s.state == Ready { return; }
      TrialBegun(s.op, s.state, s.bootId, pool.layout, bootNext, run);
      s, ok := Save(s, Trial);
    }

    /** The part of Recover that looks at which release the machine came up with. */
    method RecoverAttempt(s0: Record) returns (ok: bool)
      requires Inv() && s0 == record && s0.requested == None
      requires Attempting(s0.state) || s0.state == Committing || s0.state == Recovering
      modifies `record, `written, `bootNext, `calls, `up, `faults, pool
      ensures Inv() && Worsening() && record.op == old(record.op)
      ensures Calm() && old(pool.responsive) && !old(bootNext) ==>
                && Follows(RecoverOutcome(old(record), old(pool.layout), run), ok, record.state)
                && Made(old(calls), RecoverCalls(old(record), old(pool.layout), run), calls)
      ensures record.state == Committed && ok ==> record.finalized
      ensures Calm() && old(pool.responsive) && record.state == Recovering && ok ==>
                record.requested == None && ReadyForSource(pool.layout, record.op, bootNext)
    {
      hide CallsMatch, Consistent, Advances, Promotable;
      var s := s0;
      var version, origin, token, boot;
      version, origin, token, boot, ok := System();
      if !ok { return; }
      if s.state == Recovering && version == s.op.target && origin == Some(s.op.target) {
        ok := Ask(StopTrial);
        if !ok { return; }
        DropOneShot(s.op, s.state, s.bootId, pool.layout, bootNext, run);
        ok := Clear();
        if !ok { return; }
        ok := RestoreAndReboot(s);
        return;
      }
      if token == s.op.id && version == s.op.target && origin == Some(s.op.target) && s.state != Recovering {
        ok := ContinueTrial(s);
        return;
      }
      if boot == s.bootId && s.state == Armed { return false; }
      if version != s.op.source { return false; }
      s, ok := Restore(s);
    }

    /** Accept an action: record the request, then carry it out before the lock is released. */
    method Submit(id: string, action: Action) returns (ok: bool)
      requires Inv()
      modifies `record, `written, `bootNext, `calls, `up, `faults, pool
      ensures Inv() && Worsening() && record.op == old(record.op)
      // an accepted request is on disk before anything else happens
      ensures ok ==> old(record).(requested := Some(action)) in written
      ensures Calm() && old(pool.responsive) && Accepts(old(record), id, action) && !old(bootNext) ==>
                Made(old(calls), ActionCalls(action, old(record), old(pool.layout), run), calls)
      ensures !Accepts(old(record), id, action) ==> !ok && record == old(record) && pool.layout == old(pool.layout)
      ensures Calm() && Accepts(old(record), id, action) ==> ok && record.requested == None
      ensures Calm() && old(pool.responsive) && Judged(action, old(pool.layout)) && Accepts(old(record), id, action)
              && !old(bootNext) ==>
                match ActionOutcome(action, old(record), old(pool.layout), old(run))
                case Reaches(state) =>
                  record.state == state && (state == Committed && action != CleanUp ==> record.finalized)
                case Fails => true
    {
      hide CallsMatch, Consistent;
      if !IsOperationId(id) || id != record.op.id { return false; }
      if !Accepts(record, id, action) { return false; }
      ok := Write(record.(requested := Some(action)));
      if !ok { return; }
      assert ActionOutcome(action, record, pool.layout, run) == ActionOutcome(action, old(record), pool.layout, run);
      var result, done := Act(id, action);
      if result.requested.Some? { result := result.(requested := None); }
      var ignored := Write(result);
    }

    /** Supervise saw a minute of health: a trial becomes ready. */
    method BecomeReady() returns (ok: bool)
      requires Inv()
      modifies `record, `written, `bootNext, `calls, `up, `faults, pool
      ensures Inv() && Worsening() && record.op == old(record.op)
      ensures old(record.state) != Trial && old(record.state) != Ready ==> record == old(record)
      ensures ok ==> record == old(record).(state := Ready, requested := None) && old(record.state) in {Trial, Ready}
      ensures Calm() ==> (ok <==> old(record.state) in {Trial, Ready})
      ensures calls == old(calls)
    {
      if record.state != Trial && record.state != Ready { return false; }
      var s;
      s, ok := Save(record, Ready);
    }

    /**
     Power on.  The firmware consumes its one-shot selection; ZFSBootMenu otherwise starts bootfs,
     or whatever an operator picks.  The initrd accepts only bootable aliases and rebuilds `live`.
     */
    method Boot(pick: Option<Name>)
      requires Inv()
      requires pick.Some? ==> !BeforeActivation(record.state) && IsBootAlias(pick.value)
      modifies this, pool
      ensures Inv() && record == old(record) && calls == old(calls)
      ensures faults == old(faults) && pool.faults == old(pool.faults) && !bootNext
      ensures pick.None? ==> up && pool.responsive && record.bootId < run.bootId
      ensures pick.None? ==> run == Selected(old(pool.layout), old(bootNext), record.op, run.bootId)
      ensures pick.None? ==> run.version == record.op.source || run.version == record.op.target
      ensures pool.layout == WithLive(old(pool.layout), run.version) || pool.layout == old(pool.layout)
    {
      hide CallsMatch, Consistent;
      var l := pool.layout;
      var name := if pick.Some? then pick
                  else if bootNext && Next in l.ds && Starts(l, Next) then Some(Next)
                  else l.bootfs;
      bootNext := false;
      up, pool.responsive := false, false;
      DropOneShot(record.op, record.state, record.bootId, l, old(bootNext), run);
      if pick.None? { SelectedStarts(record.op, record.state, record.bootId, l, old(bootNext), run); }
      if name.None? || name.value !in l.ds || !Starts(l, name.value) { return; }
      var d := l.ds[name.value];
      BootKeeps(record.op, record.state, record.bootId, l, name.value, run);
      run := Running(d.origin.value, d.cmdline.value.trial, run.bootId + 1);
      pool.layout := WithLive(l, d.origin.value);
      up, pool.responsive := true, true;
    }

    /** hostd starts again without a reboot, or a new call gets a fresh deadline. */
    method Restart()
      requires Inv()
      modifies this, pool
      ensures Inv() && up && pool.responsive && record == old(record) && pool.layout == old(pool.layout)
      ensures calls == old(calls)
      ensures faults == old(faults) && pool.faults == old(pool.faults) && run == old(run) && bootNext == old(bootNext)
    {
      up, pool.responsive := true, true;
    }

    /** Any schedule of requests, recoveries, reboots and restarts, disturbed anywhere. */
    method Run(schedule: seq<Event>)
      requires Inv()
      modifies this, pool
      ensures Inv() && record.op == old(record.op)
      ensures Sound(record, pool.layout, calls)
      ensures Earned(start, record, calls)
    {
      for i := 0 to |schedule|
        invariant Inv() && record.op == old(record.op)
      {
        var ok;
        match schedule[i]
        case Submission(id, action) => ok := Submit(id, action);
        case Direct(id, action) => var s; s, ok := Act(id, action);
        case Start => ok := Recover();
        case Readiness => ok := BecomeReady();
        case Restarted => Restart();
        case PowerCycle(pick) =>
          if pick.Some? && (BeforeActivation(record.state) || !IsBootAlias(pick.value)) { continue; }
          Boot(pick);
      }
      InvariantIsSound(record, pool.layout, bootNext, run, calls);
    }

    /** One unattended boot and its recovery. */
    method BootAndRecover()
      requires Inv()
      modifies this, pool
      ensures Inv() && record.op == old(record.op)
      ensures old(faults) <= faults && old(pool.faults) <= pool.faults
      ensures faults == old(faults) && pool.faults == old(pool.faults) && Converges(old(record), old(pool.layout)) ==>
                Settled(record, pool.layout) || OnTrial(record, run) || Due(record, pool.layout, bootNext)
      ensures faults == old(faults) && pool.faults == old(pool.faults)
              && Due(old(record), old(pool.layout), old(bootNext)) ==>
                Settled(record, pool.layout) || OnTrial(record, run)
      ensures !Converges(old(record), old(pool.layout)) ==>
                !Converges(record, pool.layout) && !Settled(record, pool.layout) && !OnTrial(record, run)
      ensures !Converges(old(record), old(pool.layout)) && old(record.requested).Some? ==> record == old(record)
    {
      hide CallsMatch, Consistent, Converges, Settled, OnTrial, Due, CameUp;
      ghost var l, next := pool.layout, bootNext;
      SelectedFacts(record.op, record.state, record.bootId, l, next, run, run.bootId + 1);
      ghost var was := run;
      Boot(None);
      ComesUp(record, l, pool.layout, next, was, run);
      RecoverFresh(next);
    }

    /** The recovery right after a boot; `next` says the one-shot selection brought it up. */
    method RecoverFresh(ghost next: bool)
      requires Inv() && up && pool.responsive && !bootNext && record.bootId < run.bootId
               && CameUp(record, pool.layout, run, next)
      modifies this, pool
      ensures Inv() && record.op == old(record.op)
      ensures old(faults) <= faults && old(pool.faults) <= pool.faults
      ensures faults == old(faults) && pool.faults == old(pool.faults) && Converges(old(record), old(pool.layout)) ==>
                Settled(record, pool.layout) || OnTrial(record, run) || Due(record, pool.layout, bootNext)
      ensures faults == old(faults) && pool.faults == old(pool.faults) && Due(old(record), old(pool.layout), next) ==>
                Settled(record, pool.layout) || OnTrial(record, run)
      ensures !Converges(old(record), old(pool.layout)) ==>
                !Converges(record, pool.layout) && !Settled(record, pool.layout) && !OnTrial(record, run)
      ensures !Converges(old(record), old(pool.layout)) && old(record.requested).Some? ==> record == old(record)
    {
      hide CallsMatch, Consistent, Promotable, Cleanable, Originals, SourceCurrent;
      var ok := Recover();
      TerminalFacts(record.op, record.state, record.bootId, pool.layout, bootNext, run);
    }

    /**
     Wherever a run was interrupted, two undisturbed boots with their recoveries settle it, or leave
     the machine on its uncommitted trial, exactly when the record and the layout say so.
     */
    method Converge()
      requires Inv()
      modifies this, pool
      ensures Inv() && record.op == old(record.op)
      ensures faults == old(faults) && pool.faults == old(pool.faults) ==>
                (Settled(record, pool.layout) || OnTrial(record, run) <==> Converges(old(record), old(pool.layout)))
    {
      hide CallsMatch, Consistent, ReadyForSource, Converges;
      BootAndRecover();
      var due := record.requested == None && (record.state == Recovering || record.state == Armed);
      if due { BootAndRecover(); }
    }

    /** Otherwise no number of starts settles it, disturbed or not, and an outstanding request stays as it is. */
    method StaysStuck(starts: nat)
      requires Inv() && !Converges(record, pool.layout)
      modifies this, pool
      ensures Inv() && !Converges(record, pool.layout)
      ensures starts > 0 ==> !Settled(record, pool.layout) && !OnTrial(record, run)
      ensures old(record.requested).Some? ==> record == old(record)
    {
      hide CallsMatch, Consistent, Converges, Settled, OnTrial;
      for i := 0 to starts
        invariant Inv() && !Converges(record, pool.layout)
        invariant i > 0 ==> !Settled(record, pool.layout) && !OnTrial(record, run)
        invariant old(record.requested).Some? ==> record == old(record)
      {
        BootAndRecover();
      }
    }

    /** A commit request that lost its trial is refused at every start; only a rollback ends that. */
    method RetryLostCommit(starts: nat)
      requires Inv() && record.requested == Some(Commit)
      requires record.state == Ready || record.state == Committing
      requires !(pool.layout.From(Current, record.op.target) && pool.layout.Boots(Current)) && !bootNext
      modifies this, pool
      ensures Inv() && record == old(record)
      ensures !(pool.layout.From(Current, record.op.target) && pool.layout.Boots(Current))
    {
      for i := 0 to starts
        invariant Inv() && record == old(record) && !bootNext
        invariant !(pool.layout.From(Current, record.op.target) && pool.layout.Boots(Current))
      {
        Boot(None);
        var ok := Recover();
        assert !ok;
      }
    }
  }

  /** A record that says recovering claims nothing, and recovered only what was just asked for. */
  lemma RecoveryEarned(start: Record, r: Record, calls: seq<Call>)
    ensures forall l :: Closed(r.(state := Recovering, requested := None), l)
    ensures Earned(start, r.(state := Recovering, requested := None), calls)
    ensures Done(RestoreCheckpoint(r.op.source)) in calls ==>
              Earned(start, r.(state := Recovered, requested := None), calls)
    ensures forall l :: Closed(r.(state := Recovered, requested := None), l)
  {
  }

  lemma EarnedFinalized(start: Record, r: Record, calls: seq<Call>)
    requires Earned(start, r, calls) && r.state == Committed && Done(ReleaseCheckpoint(Committed)) in calls
    ensures Earned(start, r.(finalized := true, state := Committed, requested := None), calls)
  {
  }

  /** On the way from staged to committing nothing is claimed yet. */
  lemma EarnedAhead(start: Record, r: Record, state: State, calls: seq<Call>, l: Layout)
    requires Earned(start, r, calls) && Closed(r, l)
             && (r.state == Staged || Attempting(r.state) || r.state == Committing)
    requires Attempting(state) || state == Committing
    ensures Earned(start, r.(state := state, requested := None), calls)
            && Closed(r.(state := state, requested := None), l)
    ensures forall any :: Closed(r, any) && Closed(r.(state := state, requested := None), any)
  {
  }

  /** Nothing else a coordinator may be asked for takes back what was earned. */
  lemma EarnedOn(start: Record, r: Record, calls: seq<Call>)
    requires Earned(start, r, calls)
    ensures forall c: Call | !c.request.TakeCheckpoint? || (!BeforeActivation(r.state) && r.state != Recovered) ::
              Earned(start, r, calls + [c])
  {
  }

  lemma SameOrigins(a: Layout, b: Layout)
    requires a.snapshots == b.snapshots && a.ds.Keys == b.ds.Keys
    requires forall n | n in a.ds :: a.ds[n].origin == b.ds[n].origin
    ensures forall version ::
        (InUse(a, version) <==> InUse(b, version)) && (Freeable(a, version) <==> Freeable(b, version))
    ensures Originals(a) <==> Originals(b)
  {
    assert forall n, version :: a.From(n, version) <==> b.From(n, version);
  }

  lemma FinalizedFacts(l: Layout, o: Operation)
    requires l.Bootable(Current, o.target)
    ensures Tokenless(Finalized(l))
    ensures Originals(l) ==> Originals(Finalized(l))
    ensures Originals(l) && Cleanable(l, o, Committed) ==> Cleanable(Finalized(l), o, Committed)
  {
    SameOrigins(l, Finalized(l));
    SameOrigins(Reclaimed(l, Committed), Reclaimed(Finalized(l), Committed));
    hide InUse, Freeable, Originals, IsOperationId;
  }

  lemma CleanupKeeps(o: Operation, state: State, bootId: nat, a: Layout, b: Layout, bootNext: bool, run: Running)
    requires Consistent(o, state, bootId, a, bootNext, run) && Terminal(state) && Shrinks(a, b)
    ensures Consistent(o, state, bootId, b, bootNext, run) && (state == Committed && Tokenless(a) ==> Tokenless(b))
  {
    assert state == Committed ==> Next !in b.ds;
  }

  lemma CommittedFacts(o: Operation, bootId: nat, l: Layout, bootNext: bool, run: Running)
    requires Consistent(o, Committed, bootId, l, bootNext, run)
    ensures !bootNext && l.Bootable(Current, o.target)
    ensures Finalized(l) == l.WithProperties(Current, l.ds[Current].owner, Some(Cmdline(o.target, "")))
  {
  }

  /** A call did what the outcome says. */
  predicate Follows(expected: Outcome, ok: bool, state: State) {
    match expected
    case Fails => !ok
    case Reaches(reached) => ok && state == reached
  }

  lemma BeginCommit(o: Operation, state: State, bootId: nat, l: Layout, bootNext: bool, run: Running)
    requires Consistent(o, state, bootId, l, bootNext, run) && (state == Ready || state == Committing)
    ensures !bootNext && Consistent(o, Committing, bootId, l, bootNext, run)
  {
  }

  lemma CommittingFacts(o: Operation, bootId: nat, l: Layout, bootNext: bool, run: Running)
    requires Consistent(o, Committing, bootId, l, bootNext, run)
    ensures !bootNext && o.source != o.target
  {
  }

  lemma UnarmedRecovered(o: Operation, state: State, bootId: nat, l: Layout, bootNext: bool, run: Running)
    requires Consistent(o, state, bootId, l, bootNext, run) && (state == Staged || state == Failed)
    ensures Consistent(o, Recovered, bootId, l, false, run)
  {
  }

  lemma StagedFacts(o: Operation, bootId: nat, l: Layout, bootNext: bool, run: Running)
    requires Consistent(o, Staged, bootId, l, bootNext, run)
    ensures !bootNext && run.version == o.source && run.token == ""
  {
  }

  lemma BeginActivation(o: Operation, bootId: nat, boot: nat, l: Layout, bootNext: bool, run: Running)
    requires Consistent(o, Staged, bootId, l, bootNext, run) && boot == run.bootId
    ensures forall n :: Consistent(o, Arming, boot, l, n, run) && Consistent(o, Armed, boot, l, n, run)
  {
  }

  /** What a cleanup does is foreseen where no release is itself a clone. */
  predicate Judged(action: Action, l: Layout) {
    action == CleanUp ==> Originals(l)
  }

  /** An action that leaves the record as it is, whatever else happens. */
  predicate Inert(action: Action, state: State) {
    match action
    case Activate => state != Staged
    case Commit => !(state in {Ready, Committing, Committed})
    case Rollback => false
    case CleanUp => true
  }

  /** Submit's admission test. */
  predicate Accepts(r: Record, id: string, action: Action) {
    && IsOperationId(id) && id == r.op.id
    && match action
       case Activate => r.state == Staged
       case Commit => r.state == Ready || r.state == Committing
       case CleanUp => Terminal(r.state)
       case Rollback => true
  }

  predicate IsBootAlias(name: Name) {
    name == Current || name == Previous || name == Next || name == Recovery
  }

  /** What the initrd insists on before it starts an alias. */
  predicate Starts(l: Layout, name: Name)
    requires name in l.ds
  {
    IsBootAlias(name) && l.ds[name].origin.Some? && l.Bootable(name, l.ds[name].origin.value)
  }

  function WithLive(l: Layout, version: string): Layout {
    l.(ds := l.ds[Live := Dataset(Some(version), "-", None)])
  }

  /** What an unattended boot comes up with. */
  function Selected(l: Layout, bootNext: bool, o: Operation, bootId: nat): Running {
    if bootNext && Next in l.ds && l.ds[Next].cmdline.Some? then
      Running(o.target, l.ds[Next].cmdline.value.trial, bootId)
    else if l.Boots(Current) && l.Bootable(Current, o.target) then
      Running(o.target, l.ds[Current].cmdline.value.trial, bootId)
    else Running(o.source, "", bootId)
  }

  /** Some bootable alias is always selected, and which one is known from the record. */
  lemma SelectedStarts(o: Operation, state: State, bootId: nat, l: Layout, bootNext: bool, run: Running)
    requires Consistent(o, state, bootId, l, bootNext, run)
    ensures bootNext ==> Next in l.ds && Starts(l, Next) && l.From(Next, o.target)
    ensures !bootNext ==> l.bootfs.Some? && l.bootfs.value in l.ds && Starts(l, l.bootfs.value)
    ensures BeforeActivation(state) ==> !bootNext
    ensures bootId <= run.bootId
    ensures var name := if bootNext then Next else l.bootfs.value;
            Running(l.ds[name].origin.value, l.ds[name].cmdline.value.trial, run.bootId + 1)
              == Selected(l, bootNext, o, run.bootId + 1)
  {
  }

  predicate OnTrial(r: Record, run: Running) {
    (r.state == Trial || r.state == Ready) && IsTrial(run, r.op)
  }

  /** The next unattended boot comes up on the source. */
  predicate ReadyForSource(l: Layout, o: Operation, bootNext: bool) {
    SourceCurrent(l, o) && l.Boots(Current) && !bootNext && o.source != o.target
  }

  predicate AtRest(r: Record) {
    r.state == Recovered || (r.state == Committed && r.finalized)
  }

  /**
   Which records settle.  A commit request outlives a power cut only if the target was already
   current and selected; a cleanup request replayed over a commit that is not finalized keeps it
   from ever being finalized.
   */
  predicate Converges(r: Record, l: Layout) {
    match r.requested
    case None => !BeforeActivation(r.state)
    case Some(Rollback) => true
    case Some(Activate) => r.state == Staged || AtRest(r)
    case Some(CleanUp) => AtRest(r)
    case Some(Commit) =>
      r.state == Committed || r.state == Recovered
      || (r.state == Committing && l.From(Current, r.op.target) && l.Boots(Current))
  }

  /** One more boot is due: back to the source, or into the trial. */
  predicate Due(r: Record, l: Layout, bootNext: bool) {
    r.requested == None
    && ((r.state == Recovering && ReadyForSource(l, r.op, bootNext)) || (r.state == Armed && bootNext))
  }

  /** After an unattended boot the running system is the source, the trial, or a target to leave. */
  lemma SelectedFacts(o: Operation, state: State, bootId: nat, l: Layout, bootNext: bool, run: Running, boot: nat)
    requires Consistent(o, state, bootId, l, bootNext, run)
    ensures o.source != o.target
    ensures Attempting(state) || state == Committing ==>
              Selected(l, bootNext, o, boot).version == o.source || IsTrial(Selected(l, bootNext, o, boot), o)
    ensures state == Committing && IsTrial(Selected(l, bootNext, o, boot), o) ==>
              Promotable(l, o) && forall version :: Promotable(WithLive(l, version), o)
    ensures ReadyForSource(l, o, bootNext) ==> Selected(l, bootNext, o, boot).version == o.source
    ensures Attempting(state) && bootNext ==> IsTrial(Selected(l, bootNext, o, boot), o)
    ensures state == Trial || state == Ready ==> Selected(l, bootNext, o, boot).version == o.source
    ensures state == Committing ==>
              (IsTrial(Selected(l, bootNext, o, boot), o) <==> l.From(Current, o.target) && l.Boots(Current))
  {
  }

  /** What a boot leaves for the recovery after it. */
  ghost predicate CameUp(r: Record, l: Layout, run: Running, next: bool) {
    && r.op.source != r.op.target
    && (Attempting(r.state) || r.state == Committing ==> run.version == r.op.source || IsTrial(run, r.op))
    && (r.state == Committing && IsTrial(run, r.op) ==> Promotable(l, r.op))
    && (r.state == Committing ==> (IsTrial(run, r.op) <==> l.From(Current, r.op.target) && l.Boots(Current)))
    && (ReadyForSource(l, r.op, next) ==> run.version == r.op.source)
    && (Attempting(r.state) && next ==> IsTrial(run, r.op))
    && (r.state == Trial || r.state == Ready ==> run.version == r.op.source)
    && (run.version == r.op.source || run.version == r.op.target)
  }

  /** The root file system of a boot changes nothing of what decides it. */
  lemma ComesUp(r: Record, a: Layout, b: Layout, next: bool, was: Running, run: Running)
    requires Consistent(r.op, r.state, r.bootId, a, next, was)
    requires run == Selected(a, next, r.op, run.bootId) && (run.version == r.op.source || run.version == r.op.target)
    requires b == a || b == WithLive(a, run.version)
    ensures CameUp(r, b, run, next)
    ensures (Converges(r, b) <==> Converges(r, a)) && (Due(r, b, next) <==> Due(r, a, next))
  {
    SelectedFacts(r.op, r.state, r.bootId, a, next, was, run.bootId);
    hide Consistent, Promotable, Selected;
  }

  lemma TerminalFacts(o: Operation, state: State, bootId: nat, l: Layout, bootNext: bool, run: Running)
    requires Consistent(o, state, bootId, l, bootNext, run)
    ensures state == Committed ==> l.From(Current, o.target) && l.Boots(Current)
    ensures state == Recovered ==> l.From(Current, o.source) && l.Boots(Current)
  {
  }

  lemma BootKeeps(o: Operation, state: State, bootId: nat, l: Layout, name: Name, run: Running)
    requires Consistent(o, state, bootId, l, false, run)
    requires name in l.ds && Starts(l, name) && (BeforeActivation(state) ==> l.Boots(name))
    ensures var d := l.ds[name];
            Consistent(o, state, bootId, WithLive(l, d.origin.value), false,
                       Running(d.origin.value, d.cmdline.value.trial, run.bootId + 1))
  {
  }

  lemma InterruptedStaging(o: Operation, bootId: nat, l: Layout, bootNext: bool, run: Running)
    requires Consistent(o, Staging, bootId, l, bootNext, run)
    ensures Consistent(o, Failed, bootId, l, bootNext, run)
  {
  }

  lemma TrialBegun(o: Operation, state: State, bootId: nat, l: Layout, bootNext: bool, run: Running)
    requires Consistent(o, state, bootId, l, bootNext, run) && Attempting(state)
    requires run.token == o.id && (run.token == "" || !bootNext)
    ensures Consistent(o, Trial, bootId, l, bootNext, run)
  {
  }

  datatype Event =
    | Submission(id: string, action: Action)
    | Direct(id: string, action: Action)
    | Start
    | Readiness
    | Restarted
    | PowerCycle(pick: Option<Name>)
}
