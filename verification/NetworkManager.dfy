/**
 The host network change manager: submit, apply under a rollback timer, confirm or roll back,
 service addresses beside it, and the startup that recovers all of it.

 Every read and write may fail before or after taking effect, and the process may die there.
 */
module NetworkManager {
  import opened Options
  import opened Ipv4
  import opened NetworkConfig
  import opened NetworkKernel
  import opened NetworkJournal

  class Manager {
    const kernel: Kernel
    var journal: Journal
    var file: File
    var boot: nat
    var spawned: set<nat>
    /** Rollback timers, by change: systemd keeps them until they are cancelled or the machine reboots. */
    var timers: map<nat, int>
    /** A startup or a rollback has begun to undo the awaiting candidate, and has not finished. */
    ghost var disturbed: bool
    /** A candidate was confirmed in that state. */
    ghost var strayed: bool

    ghost function Uplinked(): map<Mac, string>
      reads kernel
    {
      Uplinks(kernel.adapters)
    }

    ghost predicate Holds(j: Journal)
      reads this, kernel
    {
      kernel.Valid() && Consistent(j, file, boot, kernel.links, Uplinked(), kernel.addresses, disturbed, strayed)
    }

    /** The invariant of every run, between any two effects. */
    ghost predicate Inv()
      reads this, kernel
    {
      && Holds(journal) && (!strayed ==> Untouched(journal, spawned, kernel.addresses)) && Deferred(journal, spawned)
      && (Serving() && Awaits(journal) && !disturbed ==> Carries(journal.changes[journal.pending.value].candidate))
      && Guarded()
    }

    /** A change awaiting confirmation has a timer that rolls it back at its deadline, once startup is over. */
    ghost predicate Guarded()
      reads `journal, `boot, `timers, `disturbed
    {
      Serving() && Awaits(journal) && (journal.startup.None? || !disturbed) ==>
        journal.pending.value in timers
        && timers[journal.pending.value] == journal.changes[journal.pending.value].deadline
    }

    /** The bridge has the hardware address it was given first, and routes as the configuration says. */
    ghost predicate Carries(c: Config)
      reads `journal, kernel`hardware, kernel`gateway
    {
      kernel.hardware == journal.mac && (c.ipv4.Static? ==> kernel.gateway == c.ipv4.gateway)
    }

    /** The change awaiting confirmation may already have been undone in the kernel. */
    ghost predicate Doubtful()
      reads this
    {
      disturbed && Awaits(journal)
    }

    ghost function LiveNow(): set<Prefix>
      reads kernel
    {
      if BRIDGE in kernel.links then kernel.addresses + kernel.leased else {}
    }

    /** Requests come from the core stack, which starts after a startup has succeeded in this boot. */
    predicate Serving()
      reads `journal, `boot
    {
      journal.hasConfirmed && journal.bootId == Some(boot)
    }

    constructor (kernel: Kernel, file: File, boot: nat)
      requires kernel.Valid() && kernel.addresses == {}
      ensures Inv() && this.kernel == kernel && journal == NEW && this.file == file && this.boot == boot
      ensures !disturbed && !strayed
    {
      this.kernel, journal, this.file, this.boot := kernel, NEW, file, boot;
      spawned, timers, disturbed, strayed := {}, map[], false, false;
    }

    method Arm(id: nat, deadline: int) returns (ok: bool)
      modifies `timers, kernel`up, kernel`faults
      ensures kernel.Worsening()
      ensures timers == old(timers) || timers == old(timers)[id := deadline]
      ensures ok ==> timers == old(timers)[id := deadline]
      ensures kernel.Calm() ==> ok
    {
      var effect;
      effect, ok := kernel.Attempt();
      if effect { timers := timers[id := deadline]; }
    }

    method Cancel(id: nat)
      modifies `timers, kernel`up, kernel`faults
      ensures kernel.Worsening()
      ensures timers == old(timers) || timers == old(timers) - {id}
      ensures kernel.Calm() ==> timers == old(timers) - {id}
    {
      var effect, ok := kernel.Attempt();
      if effect { timers := timers - {id}; }
    }

    /** Replace the journal atomically. */
    method Save(j: Journal) returns (ok: bool)
      modifies `journal, kernel`up, kernel`faults
      ensures kernel.Worsening()
      ensures journal == old(journal) || journal == j
      ensures ok ==> journal == j
      ensures kernel.Calm() ==> ok
    {
      var effect;
      effect, ok := kernel.Attempt();
      if effect { journal := j; }
    }

    /** Replace the canonical file atomically. */
    method WriteConfig(c: Config) returns (ok: bool)
      modifies `file, kernel`up, kernel`faults
      ensures kernel.Worsening()
      ensures file == old(file) || file == Toml(c)
      ensures ok ==> file == Toml(c)
      ensures kernel.Calm() ==> ok
    {
      var effect;
      effect, ok := kernel.Attempt();
      if effect { file := Toml(c); }
    }

    method ValidateServices(c: Config, services: map<string, Service>) returns (ok: bool)
      requires c.ipv4.Static? ==> PrefixOf(c.ipv4).Some?
      ensures ok <==> Fits(c, services)
    {
      hide ValidService, SameNet;
      if c.ipv4.Dhcp? { return true; }
      var todo := services.Keys;
      while todo != {}
        invariant todo <= services.Keys
        invariant forall k | k in services && k !in todo :: FitsOne(c, services[k])
      {
        var k :| k in todo;
        todo := todo - {k};
        if !FitsOne(c, services[k]) { return false; }
      }
      ok := true;
    }

    /** Poll until the lease suits every service address, or time runs out. */
    method VerifyServices(services: map<string, Service>) returns (ok: bool)
      modifies kernel`leased, kernel`up, kernel`faults
      ensures kernel.Worsening()
      ensures services == map[] && kernel.Calm() ==> ok
      ensures kernel.Calm() && AllCompatible(services, old(LiveNow()) - Addresses(services)) ==> ok
      ensures services == map[] ==> kernel.leased == old(kernel.leased)
      ensures ok ==> AllCompatible(services, kernel.addresses + kernel.leased - Addresses(services))
    {
      if services == map[] { return true; }
      var ticks: nat := *;
      ghost var polled := false;
      while true
        invariant kernel.Worsening()
        invariant if polled then !(kernel.Calm() && AllCompatible(services, old(LiveNow()) - Addresses(services)))
                  else kernel.leased == old(kernel.leased)
        decreases ticks
      {
        var live;
        live, ok := kernel.Live();
        if !ok { return; }
        if AllCompatible(services, live - Addresses(services)) { return; }
        if ticks == 0 { return false; }
        ticks, polled := ticks - 1, true;
        kernel.leased := *;
      }
    }

    /** The kernel's part of a rollback, with the lease that has to suit the services. */
    method Undo(id: nat) returns (ok: bool)
      requires Inv() && journal.pending == Some(id) && Serving()
      modifies `disturbed, kernel
      ensures Inv() && kernel.Worsening() && disturbed
      ensures Consistent(journal, Toml(journal.confirmed), boot, kernel.links, Uplinked(), kernel.addresses, true,
                         strayed)
      ensures ok && !strayed ==>
                InForce(journal.confirmed, journal.services, kernel.links, Uplinked(), kernel.addresses)
      ensures ok ==> Carries(journal.confirmed)
      ensures forall c | Workable(c) && Applicable(old(kernel.links), Uplinked(), c) ::
          Applicable(kernel.links, Uplinked(), c)
      ensures kernel.Calm() && Undoable(old(journal), old(kernel.links), Uplinked()) ==> ok
    {
      hide Consistent, Sound, Proceeds, Applicable, Converged, Step, Addresses, Statics, Kept, Addressable, Accounted,
           Workable, Applied, AllCompatible, Fits, Closed, UplinkMap, Untouched;
      ghost var j, before, links := journal, kernel.addresses, kernel.links;
      PendingIs(j, file, boot, links, Uplinked(), before, disturbed, strayed, id);
      var c := journal.changes[id];
      ok := kernel.Apply(c.candidate, c.previous, journal.mac, journal.services);
      StepKeepsAllApplicable(links, kernel.links, Uplinked(), c.previous);
      UndoKeeps(j, file, boot, links, Uplinked(), before, kernel.addresses, kernel.links, disturbed, strayed);
      if !strayed { UntouchedKeeps(j, spawned, before, kernel.addresses); }
      disturbed := true;
      if ok && !strayed { UndoneAddresses(j, before, kernel.addresses, id); }
      if ok && c.previous.ipv4.Dhcp? {
        ok := VerifyServices(journal.services);
      }
    }

    method RecordUndone(id: nat) returns (ok: bool)
      requires Inv() && journal.pending == Some(id) && Serving() && disturbed && id in journal.changes
      requires Consistent(journal, Toml(journal.confirmed), boot, kernel.links, Uplinked(), kernel.addresses, true,
                          strayed)
      requires journal.changes[id].previous == journal.confirmed
      requires !strayed ==> InForce(journal.confirmed, journal.services, kernel.links, Uplinked(), kernel.addresses)
      modifies `journal, `file, `disturbed, kernel`up, kernel`faults
      ensures Inv() && kernel.Worsening()
      ensures journal == old(journal) || journal == Marked(old(journal), id, RolledBack).(pending := None)
      ensures ok ==>
                && journal == Marked(old(journal), id, RolledBack).(pending := None)
                && file == Toml(journal.confirmed) && !disturbed
      ensures forall c :: old(Carries(c)) ==> Carries(c)
      ensures kernel.Calm() ==> ok
    {
      hide Consistent, Sound, InForce, Workable, Closed, UplinkMap, Outstanding, Uplinks, Untouched;
      if !strayed {
        UntouchedSame(journal, Marked(journal, id, RolledBack).(pending := None), spawned, kernel.addresses);
      }
      ConsistentSound(journal, Toml(journal.confirmed), boot, kernel.links, Uplinked(), kernel.addresses, true,
                      strayed);
      UndoneKeeps(journal, boot, kernel.links, Uplinked(), kernel.addresses, disturbed, strayed, id);
      UndoneKeeps(journal, boot, kernel.links, Uplinked(), kernel.addresses, false, strayed, id);
      ok := WriteConfig(journal.changes[id].previous);
      if !ok { return; }
      ok := Save(Marked(journal, id, RolledBack).(pending := None));
      if !ok { return; }
      disturbed := false;
    }

    /** The rollback failed: the change stays pending, for the next one to try. */
    method RecordFailure(id: nat)
      requires Inv() && journal.pending == Some(id) && Serving() && disturbed && id in journal.changes
      modifies `journal, kernel`up, kernel`faults
      ensures Inv() && kernel.Worsening()
      ensures journal == old(journal) || journal == Marked(old(journal), id, Failed)
      ensures kernel.Calm() ==> journal == Marked(old(journal), id, Failed)
    {
      hide Consistent, Sound, Closed, UplinkMap, Uplinks, Untouched;
      FailedKeeps(journal, file, boot, kernel.links, Uplinked(), kernel.addresses, strayed, id);
      if !strayed { UntouchedSame(journal, Marked(journal, id, Failed), spawned, kernel.addresses); }
      var ignored := Save(Marked(journal, id, Failed));
    }

    /** Put the previous configuration back, then record it; the file first, the journal last. */
    method Restore(id: nat) returns (ok: bool)
      requires Inv() && journal.pending == Some(id) && Serving()
      modifies `journal, `file, `timers, `disturbed, kernel
      ensures Inv() && kernel.Worsening()
      ensures Proceeds(old(journal), journal) && journal.confirmed == old(journal.confirmed)
      ensures journal.services == old(journal.services) && Serving() && journal.startup == old(journal.startup)
      ensures id in journal.changes
              && (journal.pending == Some(id) || (journal.pending.None? && journal.changes[id].stage == RolledBack))
      ensures id in old(journal).changes
              && journal in {old(journal), Marked(old(journal), id, Failed),
                             Marked(old(journal), id, RolledBack).(pending := None)}
      ensures ok ==> journal == Marked(old(journal), id, RolledBack).(pending := None)
      ensures journal.pending == Some(id) ==> timers == old(timers)
      ensures kernel.Calm() ==> timers == if ok then old(timers) - {id} else old(timers)
      ensures kernel.Calm() && !ok ==> journal == Marked(old(journal), id, Failed)
      ensures ok ==> file == Toml(journal.confirmed) && !disturbed
      ensures ok && !strayed ==>
                InForce(journal.confirmed, journal.services, kernel.links, Uplinked(), kernel.addresses)
      ensures ok ==> Carries(journal.confirmed)
      ensures forall c | Workable(c) && Applicable(old(kernel.links), Uplinked(), c) ::
          Applicable(kernel.links, Uplinked(), c)
      ensures kernel.Calm() && Undoable(old(journal), old(kernel.links), Uplinked()) ==> ok
    {
      hide Fits, Recoverable, Accounted, Statics, Addresses, Carries, Consistent, Sound, Proceeds, InForce, Applicable,
           Workable, Undoable, Closed, UplinkMap, Uplinks, Untouched;
      ghost var j := journal;
      PendingIs(j, file, boot, kernel.links, Uplinked(), kernel.addresses, disturbed, strayed, id);
      MarkProceeds(j, id, Failed, 0);
      MarkProceeds(j, id, RolledBack, 0);
      var c := journal.changes[id];
      ok := Undo(id);
      if !ok {
        RecordFailure(id);
        return;
      }
      ok := RecordUndone(id);
      if !ok { return; }
      Cancel(id);
    }

    /** The change one actor's key already created, if any. */
    method Find(p: Request) returns (found: Option<nat>)
      ensures found.None? <==> Unheard(journal, p)
      ensures found.Some? ==> found.value in journal.changes && SameRequest(journal.changes[found.value], p)
    {
      var todo := journal.changes.Keys;
      while todo != {}
        invariant todo <= journal.changes.Keys
        invariant forall id | id in journal.changes && id !in todo :: !SameRequest(journal.changes[id], p)
      {
        var id :| id in todo;
        todo := todo - {id};
        if SameRequest(journal.changes[id], p) { return Some(id); }
      }
      found := None;
    }

    /** Every bond member is an eligible adapter, and an uplink remains. */
    method CheckConnected(c: Config) returns (ok: bool)
      ensures ok <==> Connected(c, Uplinked().Keys)
    {
      var eligible := kernel.ByMac();
      for i := 0 to |c.bonds|
        invariant forall j, mac | 0 <= j < i && mac in c.bonds[j].members :: mac in eligible
      {
        for k := 0 to |c.bonds[i].members|
          invariant forall m | 0 <= m < k :: c.bonds[i].members[m] in eligible
        {
          if c.bonds[i].members[k] !in eligible { return false; }
        }
      }
      var count: nat, todo := 0, eligible.Keys;
      while todo != {}
        invariant todo <= eligible.Keys
        invariant count > 0 <==> exists mac :: mac in eligible && mac !in todo && mac !in c.excluded
      {
        var mac :| mac in todo;
        todo := todo - {mac};
        if mac !in c.excluded { count := count + 1; }
      }
      ok := count > 0;
    }

    /** What a new request has to meet beyond being well formed. */
    method Admit(p: Request) returns (ok: bool)
      requires ValidConfig(p.config)
      modifies kernel`up, kernel`faults
      ensures kernel.Worsening()
      ensures ok ==> Admissible(journal, p, Uplinked().Keys)
      ensures kernel.Calm() ==> (ok <==> Admissible(journal, p, Uplinked().Keys))
    {
      hide Connected, Fits, Uplinks, Workable;
      if journal.pending.Some? || p.revision != Of(journal.confirmed) { return false; }
      StaticPrefix(p.config);
      ok := ValidateServices(p.config, journal.services);
      if !ok { return; }
      ok := kernel.Call();
      if !ok { return; }
      ok := CheckConnected(p.config);
    }

    method Record(p: Request, id: nat) returns (ok: bool)
      requires Inv() && Serving() && id !in journal.changes && id !in spawned && Acceptable(journal, p, Uplinked().Keys)
      modifies `journal, `spawned, kernel`up, kernel`faults
      ensures Inv() && kernel.Worsening() && Proceeds(old(journal), journal)
      ensures journal == old(journal) || journal == Submitted(old(journal), p, id)
      ensures ok ==> journal == Submitted(old(journal), p, id) && spawned == old(spawned) + {id}
      ensures !ok ==> spawned == old(spawned)
      ensures kernel.Calm() ==> ok
    {
      hide Consistent, Acceptable, Untouched, Closed, UplinkMap, Uplinks, Proceeds, Submitted;
      AcceptablePending(journal, p, Uplinked().Keys);
      NoProgress(journal);
      SubmitKeeps(journal, file, boot, kernel.links, Uplinked(), kernel.addresses, disturbed, strayed, p, id,
                  Uplinked().Keys);
      SubmittedUntouched(journal, file, boot, kernel.links, Uplinked(), kernel.addresses, disturbed, strayed, p, id,
                         spawned);
      ok := Save(Submitted(journal, p, id));
      if ok { spawned := spawned + {id}; }
    }

    /** Record a change, or find the one this key already made.  `id` is a fresh identifier. */
    method Submit(p: Request, id: nat) returns (result: Option<nat>)
      requires Inv() && Serving() && id !in journal.changes && id !in spawned
      modifies `journal, `spawned, kernel`up, kernel`faults
      ensures Inv() && kernel.Worsening() && Proceeds(old(journal), journal)
      ensures journal == old(journal)
              || (journal == Submitted(old(journal), p, id) && id in journal.changes
                  && Acceptable(old(journal), p, Uplinked().Keys))
      ensures result.Some? ==> result.value in journal.changes && SameRequest(journal.changes[result.value], p)
      ensures result.Some? ==>
                journal.changes[result.value].revision == p.revision
                && journal.changes[result.value].candidate == p.config
      ensures result.Some? && journal == old(journal) ==> spawned == old(spawned) && !Unheard(journal, p)
      ensures result.None? ==> spawned == old(spawned)
      ensures result == Some(id) ==> journal == Submitted(old(journal), p, id) && spawned == old(spawned) + {id}
      ensures kernel.Calm() ==> (result == Some(id) <==> Acceptable(old(journal), p, Uplinked().Keys))
    {
      hide Consistent, Admissible, Workable, Untouched, Closed, UplinkMap, Uplinks, Proceeds, Submitted, Unheard,
           Attributed;
      var j := journal;
      NoProgress(j);
      var ok := kernel.Call();
      if !ok || !Attributed(p) { return None; }
      ok := Validate(p.config);
      if !ok { return None; }
      var found := Find(p);
      if found.Some? {
        var c := j.changes[found.value];
        return if c.revision == p.revision && c.candidate == p.config then found else None;
      }
      ok := Admit(p);
      if !ok { return None; }
      ok := Record(p, id);
      if !ok { return None; }
      result := Some(id);
    }

    /** The kernel's part of an apply, with the lease that has to suit the services. */
    method Move(id: nat) returns (ok: bool)
      requires Inv() && Serving() && id !in spawned && journal.pending == Some(id)
      requires !strayed ==> kernel.addresses <= Statics(journal.confirmed.ipv4) + Addresses(journal.services)
      modifies `disturbed, kernel
      ensures Inv() && kernel.Worsening() && disturbed
      ensures ok && !strayed ==>
                InForce(journal.changes[id].candidate, journal.services, kernel.links, Uplinked(), kernel.addresses)
      ensures ok ==> Carries(journal.changes[id].candidate)
      ensures forall c | Workable(c) && Applicable(old(kernel.links), Uplinked(), c) ::
          Applicable(kernel.links, Uplinked(), c)
      ensures kernel.Calm() && ok ==> Launchable(journal, id, old(kernel.links), Uplinked())
      ensures (&& kernel.Calm() && Launchable(journal, id, old(kernel.links), Uplinked())
               && Leaseless(journal, journal.changes[id].candidate)) ==> ok
    {
      hide Consistent, Sound, Proceeds, Applicable, Converged, Step, Addresses, Statics, Kept, Addressable, Accounted,
           Workable, Applied, AllCompatible, Fits, Closed, UplinkMap, Untouched;
      ghost var j, before, links := journal, kernel.addresses, kernel.links;
      PendingIs(j, file, boot, links, Uplinked(), before, disturbed, strayed, id);
      var c := journal.changes[id];
      ok := kernel.Apply(c.previous, c.candidate, journal.mac, journal.services);
      StepKeepsAllApplicable(links, kernel.links, Uplinked(), c.candidate);
      MoveKeeps(j, file, boot, links, Uplinked(), before, kernel.addresses, kernel.links, disturbed, strayed, id);
      UntouchedOther(j, spawned, kernel.addresses);
      disturbed := true;
      if ok && !strayed { MovedAddresses(j, before, kernel.addresses, id); }
      if ok && c.candidate.ipv4.Dhcp? {
        ok := VerifyServices(journal.services);
      }
    }

    /** The timer could not be armed: the change is over before it began. */
    method Abandon(id: nat)
      requires Inv() && Serving() && journal.pending == Some(id)
      requires !strayed ==> kernel.addresses <= Statics(journal.confirmed.ipv4) + Addresses(journal.services)
      modifies `journal, kernel`up, kernel`faults
      ensures Inv() && kernel.Worsening()
      ensures kernel.Calm() ==> journal == Marked(old(journal), id, Failed).(pending := None)
      ensures journal == old(journal) || journal == Marked(old(journal), id, Failed).(pending := None)
    {
      hide Consistent, Sound, Untouched, Statics, Addresses, Closed, UplinkMap, Uplinks;
      PendingIs(journal, file, boot, kernel.links, Uplinked(), kernel.addresses, disturbed, strayed, id);
      UnarmedKeeps(journal, file, boot, kernel.links, Uplinked(), kernel.addresses, disturbed, strayed, id);
      if !strayed { UntouchedSame(journal, Marked(journal, id, Failed).(pending := None), spawned, kernel.addresses); }
      var ignored := Save(Marked(journal, id, Failed).(pending := None));
    }

    method Await(id: nat) returns (ok: bool)
      requires Inv() && Serving() && id !in spawned && journal.pending == Some(id) && disturbed
      requires Carries(journal.changes[id].candidate)
      requires id in timers && timers[id] == journal.changes[id].deadline
      requires !strayed ==>
                InForce(journal.changes[id].candidate, journal.services, kernel.links, Uplinked(), kernel.addresses)
      modifies `journal, `disturbed, kernel`up, kernel`faults
      ensures Inv() && kernel.Worsening()
      ensures journal == old(journal) || journal == Marked(old(journal), id, Awaiting)
      ensures ok ==> journal == Marked(old(journal), id, Awaiting)
      ensures journal == Marked(old(journal), id, Awaiting) ==> !disturbed
      ensures kernel.Calm() ==> ok
    {
      hide Proceeds, Consistent, Sound, InForce, Untouched, Closed, UplinkMap, Uplinks;
      ghost var j := journal;
      PendingIs(j, file, boot, kernel.links, Uplinked(), kernel.addresses, disturbed, strayed, id);
      MovedKeeps(j, file, boot, kernel.links, Uplinked(), kernel.addresses, strayed, id);
      UntouchedOther(Marked(j, id, Awaiting), spawned, kernel.addresses);
      ok := Save(Marked(journal, id, Awaiting));
      if journal == Marked(j, id, Awaiting) { disturbed := false; }
    }

    /** Arm the rollback timer, move the kernel to the candidate, and await confirmation. */
    method Launch(id: nat, now: int) returns (ok: bool)
      requires Inv() && Serving() && id !in spawned && journal.pending == Some(id)
      requires id in journal.changes && journal.changes[id].stage != Awaiting
      requires !strayed ==> kernel.addresses <= Statics(journal.confirmed.ipv4) + Addresses(journal.services)
      modifies `journal, `file, `timers, `disturbed, kernel
      ensures Inv() && kernel.Worsening() && Proceeds(old(journal), journal) && !Doubtful()
      ensures journal.confirmed == old(journal.confirmed) && journal.services == old(journal.services) && Serving()
      ensures ok ==> journal == Marked(old(journal), id, Awaiting) && now < journal.changes[id].deadline && !disturbed
      ensures ok && !strayed ==>
                InForce(journal.changes[id].candidate, journal.services, kernel.links, Uplinked(), kernel.addresses)
      ensures ok ==> Carries(journal.changes[id].candidate) && timers == old(timers)[id := journal.changes[id].deadline]
      ensures kernel.Calm() && !ok && journal.pending.None? ==> id !in timers
      // one fault leaves no change pending without its timer, unless the process died of it
      ensures kernel.faults <= old(kernel.faults) + 1 && kernel.up && journal.pending == Some(id) ==>
                id in timers && timers[id] == old(journal).changes[id].deadline
      ensures kernel.Calm() && ok ==> Launchable(old(journal), id, old(kernel.links), Uplinked())
      ensures (&& kernel.Calm() && Launchable(old(journal), id, old(kernel.links), Uplinked())
               && Leaseless(old(journal), old(journal).changes[id].candidate)
               && now < old(journal).changes[id].deadline) ==> ok
      ensures kernel.Calm() && !ok ==>
                && id in journal.changes && journal.changes[id].deadline == old(journal).changes[id].deadline
                && ((journal.pending.None? && journal.changes[id].stage == RolledBack)
                    || (journal.pending == Some(id) && journal.changes[id].stage == Failed))
      ensures kernel.Calm() && !ok && Undoable(old(journal), old(kernel.links), Uplinked()) ==>
                && journal.pending.None? && id in journal.changes && journal.changes[id].stage == RolledBack
                && file == Toml(journal.confirmed) && !disturbed && Carries(journal.confirmed)
      ensures (&& kernel.Calm() && !ok && Undoable(old(journal), old(kernel.links), Uplinked()) && !strayed) ==>
                InForce(journal.confirmed, journal.services, kernel.links, Uplinked(), kernel.addresses)
    {
      hide Deferred, Carries, Consistent, Sound, Proceeds, InForce, Applicable, Workable, Closed, UplinkMap, Uplinks,
           Untouched, Statics, Addresses, Launchable, Leaseless;
      PendingIs(journal, file, boot, kernel.links, Uplinked(), kernel.addresses, disturbed, strayed, id);
      MarkProceeds(journal, id, Failed, 0);
      MarkProceeds(journal, id, Awaiting, 0);
      ok := Arm(id, journal.changes[id].deadline);
      if !ok {
        Abandon(id);
        return;
      }
      ok := Attempted(id, now);
    }

    /** With the timer armed: the kernel first, and back if that fails or takes too long. */
    method Attempted(id: nat, now: int) returns (ok: bool)
      requires Inv() && Serving() && id !in spawned && journal.pending == Some(id)
      requires id in journal.changes && journal.changes[id].stage != Awaiting
      requires !strayed ==> kernel.addresses <= Statics(journal.confirmed.ipv4) + Addresses(journal.services)
      requires id in timers && timers[id] == journal.changes[id].deadline
      modifies `journal, `file, `timers, `disturbed, kernel
      ensures Inv() && kernel.Worsening() && Proceeds(old(journal), journal) && !Doubtful()
      ensures journal.confirmed == old(journal.confirmed) && journal.services == old(journal.services) && Serving()
      ensures ok ==> journal == Marked(old(journal), id, Awaiting) && now < journal.changes[id].deadline && !disturbed
      ensures ok && !strayed ==>
                InForce(journal.changes[id].candidate, journal.services, kernel.links, Uplinked(), kernel.addresses)
      ensures ok ==> Carries(journal.changes[id].candidate) && timers == old(timers)
      ensures kernel.Calm() && !ok && journal.pending.None? ==> id !in timers
      ensures journal.pending == Some(id) ==> timers == old(timers)
      ensures kernel.Calm() && ok ==> Launchable(old(journal), id, old(kernel.links), Uplinked())
      ensures (&& kernel.Calm() && Launchable(old(journal), id, old(kernel.links), Uplinked())
               && Leaseless(old(journal), old(journal).changes[id].candidate)
               && now < old(journal).changes[id].deadline) ==> ok
      ensures kernel.Calm() && !ok ==>
                && id in journal.changes && journal.changes[id].deadline == old(journal).changes[id].deadline
                && ((journal.pending.None? && journal.changes[id].stage == RolledBack)
                    || (journal.pending == Some(id) && journal.changes[id].stage == Failed))
      ensures kernel.Calm() && !ok && Undoable(old(journal), old(kernel.links), Uplinked()) ==>
                && journal.pending.None? && id in journal.changes && journal.changes[id].stage == RolledBack
                && file == Toml(journal.confirmed) && !disturbed && Carries(journal.confirmed)
      ensures (&& kernel.Calm() && !ok && Undoable(old(journal), old(kernel.links), Uplinked()) && !strayed) ==>
                InForce(journal.confirmed, journal.services, kernel.links, Uplinked(), kernel.addresses)
    {
      hide Deferred, Carries, Consistent, Sound, Proceeds, InForce, Applicable, Workable, Closed, UplinkMap, Uplinks,
           Untouched, Statics, Addresses, Launchable, Leaseless;
      PendingIs(journal, file, boot, kernel.links, Uplinked(), kernel.addresses, disturbed, strayed, id);
      MarkProceeds(journal, id, Failed, 0);
      MarkProceeds(journal, id, Awaiting, 0);
      ok := Move(id);
      if !ok || now >= journal.changes[id].deadline {
        ok := Restore(id);
        return false;
      }
      ok := Await(id);
    }

    /** Date the change, then launch it. */
    method Carry(id: nat, start: int, now: int) returns (ok: bool)
      requires Inv() && Serving() && id !in spawned && journal.pending == Some(id)
      requires id in journal.changes && journal.changes[id].stage != Awaiting
      requires !strayed ==> kernel.addresses <= Statics(journal.confirmed.ipv4) + Addresses(journal.services)
      modifies `journal, `file, `timers, `disturbed, kernel
      ensures Inv() && kernel.Worsening() && Proceeds(old(journal), journal) && !Doubtful()
      ensures journal.confirmed == old(journal.confirmed) && journal.services == old(journal.services) && Serving()
      ensures ok ==>
                journal == Marked(Dated(old(journal), id, start + 60), id, Awaiting) && now < start + 60 && !disturbed
      ensures ok && !strayed ==>
                InForce(journal.changes[id].candidate, journal.services, kernel.links, Uplinked(), kernel.addresses)
      ensures ok ==> Carries(journal.changes[id].candidate) && timers == old(timers)[id := journal.changes[id].deadline]
      ensures kernel.Calm() && !ok && journal.pending.None? ==> id !in timers
      ensures kernel.Calm() && ok ==> Launchable(old(journal), id, old(kernel.links), Uplinked())
      ensures (&& kernel.Calm() && Launchable(old(journal), id, old(kernel.links), Uplinked())
               && Leaseless(old(journal), old(journal).changes[id].candidate) && now < start + 60) ==> ok
      ensures kernel.Calm() && !ok ==>
                && id in journal.changes && journal.changes[id].deadline == start + 60
                && ((journal.pending.None? && journal.changes[id].stage == RolledBack)
                    || (journal.pending == Some(id) && journal.changes[id].stage == Failed))
      ensures kernel.Calm() && !ok && Undoable(old(journal), old(kernel.links), Uplinked()) ==>
                && journal.pending.None? && id in journal.changes && journal.changes[id].stage == RolledBack
                && file == Toml(journal.confirmed) && !disturbed && Carries(journal.confirmed)
      ensures (&& kernel.Calm() && !ok && Undoable(old(journal), old(kernel.links), Uplinked()) && !strayed) ==>
                InForce(journal.confirmed, journal.services, kernel.links, Uplinked(), kernel.addresses)
    {
      hide Consistent, Sound, Proceeds, InForce, Workable, Closed, UplinkMap, Uplinks, Untouched, Statics,
           Addresses, Marked, Dated, Launchable, Leaseless, Undoable;
      ghost var j := journal;
      NoProgress(j);
      DatedAgrees(j, id, start + 60, kernel.links, Uplinked());
      DatedKeeps(j, file, boot, kernel.links, Uplinked(), kernel.addresses, disturbed, strayed, id, start + 60);
      if !strayed { UntouchedSame(j, Dated(j, id, start + 60), spawned, kernel.addresses); }
      ok := Save(Dated(journal, id, start + 60));
      if !ok { return; }
      ok := Launch(id, now);
      ProceedsTransitive(j, Dated(j, id, start + 60), journal);
    }

    /** The deferred apply. */
    method ApplyChange(id: nat, start: int, now: int) returns (ok: bool)
      requires Inv() && Serving() && id in spawned
      modifies `journal, `file, `timers, `spawned, `disturbed, kernel
      ensures Inv() && kernel.Worsening() && Proceeds(old(journal), journal)
      ensures journal.confirmed == old(journal.confirmed) && journal.services == old(journal.services) && Serving()
      ensures spawned == old(spawned) - {id}
      ensures ok && old(journal.pending) == Some(id) ==> journal.pending == Some(id) && Awaits(journal) && !disturbed
      ensures ok && old(journal.pending) == Some(id) ==>
                now < journal.changes[id].deadline == start + 60 && Carries(journal.changes[id].candidate)
      ensures ok && old(journal.pending) == Some(id) ==> timers == old(timers)[id := start + 60]
      ensures ok && old(journal.pending) == Some(id) ==>
                id in old(journal).changes && journal.changes[id].candidate == old(journal).changes[id].candidate
      ensures ok && old(journal.pending) == Some(id) && !strayed ==>
                InForce(journal.changes[id].candidate, journal.services, kernel.links, Uplinked(), kernel.addresses)
      ensures kernel.Calm() && ok && old(journal.pending) == Some(id) ==>
                Launchable(old(journal), id, old(kernel.links), Uplinked())
      ensures (&& kernel.Calm() && old(journal.pending) == Some(id)
               && Launchable(old(journal), id, old(kernel.links), Uplinked())
               && Leaseless(old(journal), old(journal).changes[id].candidate) && now < start + 60) ==> ok
      ensures kernel.Calm() && !ok && old(journal.pending) == Some(id) ==>
                && id in journal.changes && journal.changes[id].deadline == start + 60
                && ((journal.pending.None? && journal.changes[id].stage == RolledBack)
                    || (journal.pending == Some(id) && journal.changes[id].stage == Failed))
      // an apply that fails leaves the previous configuration, and nothing pending
      ensures (&& kernel.Calm() && !ok && old(journal.pending) == Some(id)
               && Undoable(old(journal), old(kernel.links), Uplinked())) ==>
                && journal.pending.None? && id in journal.changes && journal.changes[id].stage == RolledBack
                && file == Toml(journal.confirmed) && !disturbed && Carries(journal.confirmed)
      ensures (&& kernel.Calm() && !ok && old(journal.pending) == Some(id)
               && Undoable(old(journal), old(kernel.links), Uplinked()) && !strayed) ==>
                InForce(journal.confirmed, journal.services, kernel.links, Uplinked(), kernel.addresses)
      ensures if old(journal.pending) == Some(id) then !Doubtful() else disturbed == old(disturbed)
      ensures old(journal.pending) != Some(id) ==> journal == old(journal)
    {
      hide Consistent, Sound, Proceeds, InForce, Workable, Closed, UplinkMap, Uplinks, Untouched, Statics,
           Addresses, Outstanding, Marked, Dated, Addressable, Accounted, Launchable, Leaseless, Undoable;
      NoProgress(journal);
      ok := kernel.Call();
      if !strayed { StartedUntouched(journal, spawned, id, kernel.addresses); }
      spawned := spawned - {id};
      if !ok || journal.pending != Some(id) { return; }
      PendingIs(journal, file, boot, kernel.links, Uplinked(), kernel.addresses, disturbed, strayed, id);
      ok := Carry(id, start, now);
    }

    /** Write the canonical file from the journal, then drop the note to do so. */
    method Settle() returns (ok: bool)
      requires Inv() && journal.hasConfirmed
      modifies `journal, `file, kernel`up, kernel`faults
      ensures Inv() && kernel.Worsening()
      ensures Proceeds(old(journal), journal)
      ensures journal == old(journal) || journal == old(journal).(needsConfig := false)
      ensures ok ==> journal == old(journal).(needsConfig := false) && file == Toml(journal.confirmed)
      ensures kernel.Calm() ==> ok
    {
      hide Consistent, Untouched, Closed, UplinkMap, Uplinks, Proceeds;
      NoProgress(journal);
      SettleKeeps(journal, file, boot, kernel.links, Uplinked(), kernel.addresses, disturbed, strayed);
      if !strayed { UntouchedSame(journal, journal.(needsConfig := false), spawned, kernel.addresses); }
      ok := WriteConfig(journal.confirmed);
      if !ok { return; }
      ok := Save(journal.(needsConfig := false));
    }

    /** The journal is the commit record: it alone makes the candidate the confirmed configuration. */
    method Confirm(id: nat, now: int) returns (ok: bool)
      requires Inv() && Serving()
      modifies `journal, `file, `timers, `disturbed, `strayed, kernel
      ensures Inv() && kernel.Worsening() && Proceeds(old(journal), journal) && Serving()
      ensures journal.services == old(journal.services)
      ensures if Confirmable(old(journal), id, now)
              then || journal.confirmed == old(journal.confirmed)
                   || journal.confirmed == old(journal).changes[id].candidate
              else journal.confirmed == old(journal.confirmed)
      ensures ok ==> id in journal.changes && journal.changes[id].stage == Committed
      ensures ok && old(journal.pending) == Some(id) ==>
                journal.pending.None? && journal.confirmed == journal.changes[id].candidate
                && file == Toml(journal.confirmed)
      ensures ok && old(journal.pending) == Some(id) ==> journal.confirmed == old(journal).changes[id].candidate
      ensures ok && old(journal.pending) == Some(id) && !old(strayed) && !old(disturbed) ==>
                InForce(journal.confirmed, journal.services, kernel.links, Uplinked(), kernel.addresses)
      ensures kernel.Calm() && ok && old(journal.pending) == Some(id) ==> timers == old(timers) - {id}
      ensures ok && old(journal.pending) == Some(id) && !old(disturbed) ==> Carries(journal.confirmed)
      // too late: the previous configuration comes back
      ensures (&& kernel.Calm() && Awaits(old(journal)) && old(journal.pending) == Some(id)
               && now >= old(journal).changes[id].deadline && Undoable(old(journal), old(kernel.links), Uplinked())) ==>
                && journal == Marked(old(journal), id, RolledBack).(pending := None) && file == Toml(journal.confirmed)
                && Carries(journal.confirmed) && timers == old(timers) - {id}
                && (!strayed ==>
                      InForce(journal.confirmed, journal.services, kernel.links, Uplinked(), kernel.addresses))
      ensures strayed && !old(strayed) ==> old(Doubtful()) && Confirmable(old(journal), id, now)
      ensures disturbed != old(disturbed) ==>
                !ok && old(journal.pending) == Some(id) && now >= old(journal).changes[id].deadline
      ensures Doubtful() && !old(Doubtful()) ==> journal.pending == Some(id)
      ensures journal.pending == old(journal.pending) || journal.pending.None?
      ensures kernel.Calm() ==>
                (ok <==> Confirmable(old(journal), id, now)
                         || (id in old(journal).changes && old(journal).changes[id].stage == Committed))
    {
      hide Consistent, Sound, Untouched, Closed, UplinkMap, Uplinks, Proceeds, InForce, Applicable, Workable, Undoable;
      ghost var j := journal;
      NoProgress(j);
      ok := kernel.Call();
      if !ok || id !in journal.changes { return false; }
      if journal.pending == Some(id) {
        PendingIs(j, file, boot, kernel.links, Uplinked(), kernel.addresses, disturbed, strayed, id);
      }
      if journal.changes[id].stage == Committed { return; }
      if journal.pending != Some(id) || journal.changes[id].stage != Awaiting { return false; }
      if now >= journal.changes[id].deadline {
        var ignored := Restore(id);
        return false;
      }
      ok := Enact(id, now);
    }

    /** Commit, then the canonical file, then the rollback timer, which nothing depends on any more. */
    method Enact(id: nat, ghost now: int) returns (ok: bool)
      requires Inv() && Serving() && Confirmable(journal, id, now)
      modifies `journal, `file, `timers, `strayed, kernel`up, kernel`faults
      ensures Inv() && kernel.Worsening() && Proceeds(old(journal), journal) && Serving()
              && journal.services == old(journal.services)
      ensures journal == old(journal)
              || (journal.pending.None? && journal.confirmed == old(journal).changes[id].candidate)
      ensures ok ==>
                && id in journal.changes && journal.changes[id].stage == Committed
                && journal.changes[id].candidate == journal.confirmed
      ensures ok ==> journal.pending.None? && file == Toml(journal.confirmed)
      ensures ok && !old(strayed) && !disturbed ==>
                InForce(journal.confirmed, journal.services, kernel.links, Uplinked(), kernel.addresses)
      ensures ok && !disturbed ==> Carries(journal.confirmed)
      ensures strayed ==> old(strayed) || disturbed
      ensures kernel.Calm() ==> ok && timers == old(timers) - {id}
    {
      hide Consistent, Sound, Untouched, Closed, UplinkMap, Uplinks, Proceeds, InForce;
      ghost var j := journal;
      ok := Commit(id, now);
      if !ok { return; }
      ok := Settle();
      ProceedsTransitive(j, Committing(j, id), journal);
      if ok { Cancel(id); }
    }

    method Commit(id: nat, ghost now: int) returns (ok: bool)
      requires Inv() && Serving() && Confirmable(journal, id, now)
      modifies `journal, `strayed, kernel`up, kernel`faults
      ensures Inv() && kernel.Worsening() && Proceeds(old(journal), journal)
      ensures journal == old(journal) || journal == Committing(old(journal), id)
      ensures ok ==> journal == Committing(old(journal), id)
      ensures ok && !old(strayed) && !disturbed ==>
                InForce(journal.confirmed, journal.services, kernel.links, Uplinked(), kernel.addresses)
      ensures ok && !disturbed ==> Carries(journal.confirmed)
      ensures strayed ==> old(strayed) || disturbed
      ensures kernel.Calm() ==> ok
    {
      hide Consistent, Sound, Untouched, Closed, UplinkMap, Uplinks, Proceeds, InForce;
      ghost var j := journal;
      NoProgress(j);
      CommitKeeps(j, file, boot, kernel.links, Uplinked(), kernel.addresses, disturbed, strayed, id, now);
      UntouchedNone(Committing(j, id), spawned, kernel.addresses);
      ok := Save(Committing(journal, id));
      if journal == Committing(j, id) { strayed := strayed || disturbed; }
    }

    /** Roll a pending change back, on request or when its timer fires. */
    method Rollback(id: nat, expiredOnly: bool, now: int) returns (ok: bool)
      requires Inv() && Serving()
      modifies `journal, `file, `timers, `disturbed, kernel
      ensures Inv() && kernel.Worsening() && Proceeds(old(journal), journal) && Serving()
      ensures journal.confirmed == old(journal.confirmed) && journal.services == old(journal.services)
      ensures ok ==> id in journal.changes && Final(journal.changes[id])
      ensures ok && old(journal.pending) == Some(id) ==> journal.pending.None? && file == Toml(journal.confirmed)
      ensures ok && old(journal.pending) == Some(id) && !strayed ==>
                InForce(journal.confirmed, journal.services, kernel.links, Uplinked(), kernel.addresses)
      ensures old(journal.pending) == Some(id) && kernel.Calm()
              && Undoable(old(journal), old(kernel.links), Uplinked()) ==>
                (ok <==> !(expiredOnly && now < old(journal).changes[id].deadline))
      ensures old(journal.pending) != Some(id) || (expiredOnly && now < old(journal).changes[id].deadline) ==>
                journal == old(journal) && disturbed == old(disturbed)
      ensures ok && old(journal.pending) == Some(id) ==> !disturbed && Carries(journal.confirmed)
      ensures kernel.Calm() && ok && old(journal.pending) == Some(id) ==> timers == old(timers) - {id}
      ensures (&& kernel.Calm() && !ok && old(journal.pending) == Some(id)
               && !(expiredOnly && now < old(journal).changes[id].deadline)) ==>
                journal == Marked(old(journal), id, Failed)
      ensures kernel.Calm() && old(journal.pending) != Some(id) ==>
                (ok <==> id in journal.changes && Final(journal.changes[id]))
      ensures Doubtful() && !old(Doubtful()) ==> journal.pending == Some(id)
      ensures journal.pending == old(journal.pending) || journal.pending.None?
    {
      hide Deferred, Carries, Consistent, Sound, Untouched, Closed, UplinkMap, Uplinks, Proceeds, InForce, Applicable,
           Workable, Undoable;
      NoProgress(journal);
      if journal.pending == Some(id) {
        PendingIs(journal, file, boot, kernel.links, Uplinked(), kernel.addresses, disturbed, strayed, id);
      }
      ok := kernel.Call();
      if !ok || id !in journal.changes { return false; }
      if journal.pending != Some(id) { return Final(journal.changes[id]); }
      if expiredOnly && now < journal.changes[id].deadline { return false; }
      ok := Restore(id);
    }

    /** Fill an unset default pool during the migration of legacy pools. */
    method MigrateDefault(pool: string) returns (ok: bool)
      requires Inv() && Serving()
      modifies `journal, `file, kernel`up, kernel`faults
      ensures Inv() && kernel.Worsening() && Proceeds(old(journal), journal) && Serving()
      ensures journal.services == old(journal.services) && journal.changes == old(journal.changes)
              && journal.pending == old(journal.pending)
      ensures ok && old(journal.confirmed.pool) == "" ==> !journal.needsConfig && file == Toml(journal.confirmed)
      ensures journal.confirmed == old(journal.confirmed)
              || (&& old(journal.confirmed.pool) == "" && old(journal.pending).None?
                  && journal.confirmed == old(journal.confirmed).(pool := pool))
      ensures ok ==>
                journal.confirmed.pool == (if old(journal.confirmed.pool) == "" then pool
                                           else old(journal.confirmed.pool))
      ensures kernel.Calm() ==> (ok <==> old(journal.pending).None?)
    {
      hide Consistent, Untouched, Closed, UplinkMap, Uplinks, Proceeds;
      ghost var j := journal;
      NoProgress(j);
      ok := kernel.Call();
      if !ok || journal.pending.Some? { return false; }
      if journal.confirmed.pool != "" { return; }
      MigrateKeeps(j, file, boot, kernel.links, Uplinked(), kernel.addresses, disturbed, strayed, pool);
      UntouchedNone(Migrated(j, pool), spawned, kernel.addresses);
      ok := Save(Migrated(journal, pool));
      if !ok { return; }
      ok := Settle();
      ProceedsTransitive(j, Migrated(j, pool), journal);
    }

    /** Whether the address suits the bridge, the configuration and the other stacks. */
    method Claim(s: Service) returns (ok: bool)
      requires Inv() && journal.pending.None? && ValidService(s)
      modifies kernel`up, kernel`faults
      ensures kernel.Worsening()
      ensures ok ==> Settable(journal, s, true, LiveNow())
      ensures kernel.Calm() ==> (ok <==> Settable(journal, s, true, LiveNow()))
    {
      hide Closed, UplinkMap, Uplinks, Sound, HostPrefix, FitsOne, Compatible, SoundServices, Recoverable, Accounted,
           Applied, Untouched;
      ConfirmedStatic(journal);
      var live;
      live, ok := kernel.Live();
      if !ok { return; }
      if !Compatible(s.address.value, live - Addresses(journal.services)) { return false; }
      ok := ValidateServices(journal.confirmed, map[s.stack := s]);
      if !ok {
        assert journal.confirmed.ipv4.Static? && !FitsOne(journal.confirmed, s);
        return;
      }
      assert journal.confirmed.ipv4.Static? ==> FitsOne(journal.confirmed, map[s.stack := s][s.stack]);
      ok := !(exists id | id in journal.services :: id != s.stack && journal.services[id].address == s.address)
            && !(s.stack in journal.services && journal.services[s.stack] != s);
    }

    method AddService(s: Service) returns (ok: bool)
      requires Inv() && Serving() && journal.pending.None? && ValidService(s)
      modifies `journal, kernel`addresses, kernel`up, kernel`faults
      ensures Inv() && kernel.Worsening()
      ensures journal == old(journal) || journal == old(journal).(services := old(journal.services)[s.stack := s])
      ensures Proceeds(old(journal), journal)
      ensures ok ==>
                && journal.services == old(journal.services)[s.stack := s]
                && kernel.addresses == old(kernel.addresses) + {s.address.value}
      ensures kernel.Calm() ==> (ok <==> Settable(old(journal), s, true, old(LiveNow())) && BRIDGE in kernel.links)
    {
      hide Consistent, Closed, UplinkMap, Uplinks, Proceeds, Sound, HostPrefix, FitsOne, Compatible, SoundServices,
           Settable, Unclaimed;
      var j := journal;
      NoProgress(j);
      ok := Claim(s);
      if !ok { return; }
      SettableUnclaimed(j, s, LiveNow());
      AddingKeeps(j, file, boot, kernel.links, Uplinked(), kernel.addresses, disturbed, strayed, s);
      ok := Save(j.(services := j.services[s.stack := s]));
      if !ok { return; }
      ok := kernel.Service(s, true);
    }

    method RemoveService(s: Service) returns (ok: bool)
      requires Inv() && Serving() && journal.pending.None? && ValidService(s) && s.stack in journal.services
      modifies `journal, kernel`addresses, kernel`up, kernel`faults
      ensures Inv() && kernel.Worsening()
      ensures journal == old(journal) || journal == old(journal).(services := old(journal.services) - {s.stack})
      ensures Proceeds(old(journal), journal)
      ensures ok ==>
                && journal.services == old(journal.services) - {s.stack}
                && kernel.addresses == old(kernel.addresses) - {s.address.value}
      ensures kernel.Calm() ==> (ok <==> old(journal.services)[s.stack] == s && BRIDGE in kernel.links)
    {
      hide Consistent, Closed, UplinkMap, Uplinks, Proceeds, Sound, HostPrefix, SoundServices;
      NoProgress(journal);
      if journal.services[s.stack] != s { return false; }
      RemovingKeeps(journal, file, boot, kernel.links, Uplinked(), kernel.addresses, disturbed, strayed, s);
      ok := kernel.Service(s, false);
      if !ok { return; }
      ok := Save(journal.(services := journal.services - {s.stack}));
    }

    /** Claim an address for a stack and put it on the bridge, or take it off and give it up. */
    method SetService(s: Service, add: bool) returns (ok: bool)
      requires Inv() && Serving()
      modifies `journal, kernel`addresses, kernel`up, kernel`faults
      ensures Inv() && kernel.Worsening() && Serving()
      ensures journal.services == old(journal.services)
              || journal.services == if add then old(journal.services)[s.stack := s]
                  else old(journal.services) - {s.stack}
      ensures journal == old(journal).(services := journal.services) && Proceeds(old(journal), journal)
      ensures ok && add ==>
                journal.services == old(journal.services)[s.stack := s] && s.address.Some?
                && kernel.addresses == old(kernel.addresses) + {s.address.value}
      ensures ok && !add ==> journal.services == old(journal.services) - {s.stack}
      ensures ok && !add && s.stack in old(journal.services) ==> 
                s.address.Some? && kernel.addresses == old(kernel.addresses) - {s.address.value}
      ensures journal.services != old(journal.services) ==> old(journal.pending).None?
      ensures kernel.Calm() ==>
                (ok <==> && Settable(old(journal), s, add, old(LiveNow()))
                         && (BRIDGE in kernel.links || (!add && s.stack !in old(journal.services))))
    {
      hide Consistent, Untouched, Closed, UplinkMap, Uplinks, Proceeds, Sound, HostPrefix, FitsOne, Compatible;
      ghost var j := journal;
      NoProgress(j);
      ok := kernel.Call();
      if !ok { return; }
      if !add && s.stack !in journal.services {
        assert j.services - {s.stack} == j.services;
        return;
      }
      if journal.pending.Some? || !ValidService(s) { return false; }
      UntouchedNone(j, spawned, kernel.addresses);
      if add { ok := AddService(s); } else { ok := RemoveService(s); }
    }

    /** The wanted table, refused if two entries collide or one is off the host's subnets. */
    method Collect(list: seq<Service>, live: set<Prefix>) returns (wanted: map<string, Service>, ok: bool)
      ensures ok ==> wanted == Table(list)
      ensures ok <==> Listable(list, live - Addresses(journal.services))
    {
      hide OnHost, Listable, Table, Stacks, Listed;
      var hosts := live - Addresses(journal.services);
      var addresses: set<Option<Prefix>> := {};
      wanted := map[];
      CollectNone(hosts);
      for i := 0 to |list|
        invariant Listable(list[..i], hosts)
        invariant wanted == Table(list[..i]) && wanted.Keys == Stacks(list[..i]) && addresses == Listed(list[..i])
      {
        CollectNext(list, hosts, i);
        if !OnHost(list[i], hosts) || list[i].stack in wanted || list[i].address in addresses {
          if Listable(list, hosts) { ListablePrefix(list, hosts, i + 1); }
          return wanted, false;
        }
        wanted := wanted[list[i].stack := list[i]];
        addresses := addresses + {list[i].address};
      }
      assert list[..|list|] == list;
      ok := true;
    }

    /** Entries nobody wants any more leave the bridge, then the journal, one by one. */
    method DropStale(wanted: map<string, Service>) returns (ok: bool)
      requires Inv() && Serving() && journal.pending.None?
      modifies `journal, kernel`addresses, kernel`up, kernel`faults
      ensures Inv() && kernel.Worsening() && Proceeds(old(journal), journal)
      ensures journal == old(journal).(services := journal.services) && Within(journal.services, old(journal).services)
      ensures ok ==>
                Within(journal.services, wanted)
                && Addresses(journal.services) * old(kernel.addresses) <= kernel.addresses
      ensures kernel.Calm() && BRIDGE in kernel.links ==> ok
    {
      hide Consistent, Closed, UplinkMap, Uplinks, Proceeds, Sound, HostPrefix, Addresses;
      NoProgress(journal);
      var todo := journal.services.Keys;
      while todo != {}
        invariant Inv() && kernel.Worsening() && Proceeds(old(journal), journal) && todo <= journal.services.Keys
        invariant journal == old(journal).(services := journal.services)
                  && Within(journal.services, old(journal).services)
        invariant Addresses(journal.services) * old(kernel.addresses) <= kernel.addresses
        invariant forall k | k in journal.services && k !in todo :: k in wanted && wanted[k] == journal.services[k]
      {
        var k :| k in todo;
        todo := todo - {k};
        ghost var was := journal;
        FewerAddresses(journal.services, k);
        if !(k in wanted && wanted[k] == journal.services[k]) {
          ok := Drop(k);
          ProceedsTransitive(old(journal), was, journal);
          if !ok { return; }
        }
      }
      ok := true;
    }

    method Drop(k: string) returns (ok: bool)
      requires Inv() && Serving() && journal.pending.None? && k in journal.services
      modifies `journal, kernel`addresses, kernel`up, kernel`faults
      ensures Inv() && kernel.Worsening() && Proceeds(old(journal), journal)
      ensures journal == old(journal) || journal == old(journal).(services := old(journal.services) - {k})
      ensures ok ==> journal.services == old(journal.services) - {k}
      ensures ok ==> Addresses(journal.services) * old(kernel.addresses) <= kernel.addresses
      ensures kernel.Calm() && BRIDGE in kernel.links ==> ok
    {
      hide Consistent, Closed, UplinkMap, Uplinks, Proceeds, Sound, HostPrefix;
      ConsistentSound(journal, file, boot, kernel.links, Uplinked(), kernel.addresses, disturbed, strayed);
      ConfirmedStatic(journal);
      OtherAddresses(journal.services, k);
      ok := RemoveService(journal.services[k]);
    }

    /** Wanted entries enter the journal, then the bridge, one by one. */
    method FillWanted(wanted: map<string, Service>, live: set<Prefix>) returns (ok: bool)
      requires Inv() && Serving() && journal.pending.None?
      requires Within(journal.services, wanted) && SoundServices(wanted) && Fits(journal.confirmed, wanted)
      requires Addresses(journal.services) * live <= kernel.addresses + kernel.leased
      modifies `journal, kernel`addresses, kernel`up, kernel`faults
      ensures Inv() && kernel.Worsening() && Proceeds(old(journal), journal)
      ensures journal == old(journal).(services := journal.services) && Within(journal.services, wanted)
      ensures ok ==> journal.services == wanted && Addresses(wanted) <= kernel.addresses + kernel.leased
      ensures kernel.Calm() && BRIDGE in kernel.links ==> ok
    {
      hide Consistent, Closed, UplinkMap, Uplinks, Proceeds, Sound, HostPrefix, SoundServices, Fits, Within, Addresses;
      NoProgress(journal);
      ghost var j0, at := journal, kernel.addresses;
      WithinLive(j0.services, wanted, live, at + kernel.leased);
      var todo := wanted.Keys;
      while todo != {}
        invariant Inv() && kernel.Worsening() && Proceeds(j0, journal) && todo <= wanted.Keys
        invariant journal == j0.(services := journal.services) && Within(journal.services, wanted)
                  && at <= kernel.addresses
        invariant forall k | k in wanted && k !in todo ::
            k in journal.services && wanted[k].address.Some?
            && wanted[k].address.value in kernel.addresses + kernel.leased
        invariant forall k | k in todo && k in journal.services && wanted[k].address.Some?
                  && wanted[k].address.value in live ::
            wanted[k].address.value in kernel.addresses + kernel.leased
      {
        var k :| k in todo;
        todo := todo - {k};
        WithinUnclaimed(journal.services, wanted, k, journal.confirmed);
        ghost var was := journal;
        if !(k in journal.services && journal.services[k] == wanted[k] && wanted[k].address.value in live) {
          ok := Fill(wanted[k]);
          ProceedsTransitive(j0, was, journal);
          if !ok { return; }
        }
      }
      WithinAll(journal.services, wanted);
      AllAddresses(wanted, kernel.addresses + kernel.leased);
      ok := true;
    }

    method Fill(s: Service) returns (ok: bool)
      requires Inv() && Serving() && journal.pending.None? && ValidService(s)
      requires Unclaimed(journal.services, s) && (journal.confirmed.ipv4.Static? ==> FitsOne(journal.confirmed, s))
      modifies `journal, kernel`addresses, kernel`up, kernel`faults
      ensures Inv() && kernel.Worsening() && Proceeds(old(journal), journal)
      ensures journal == old(journal) || journal == old(journal).(services := old(journal.services)[s.stack := s])
      ensures kernel.addresses == old(kernel.addresses) || kernel.addresses == old(kernel.addresses) + {s.address.value}
      ensures ok ==> journal.services == old(journal.services)[s.stack := s] && s.address.value in kernel.addresses
      ensures kernel.Calm() && BRIDGE in kernel.links ==> ok
    {
      hide Consistent, Closed, UplinkMap, Uplinks, Proceeds, Sound, HostPrefix, FitsOne, Unclaimed;
      NoProgress(journal);
      AddingKeeps(journal, file, boot, kernel.links, Uplinked(), kernel.addresses, disturbed, strayed, s);
      ok := Save(journal.(services := journal.services[s.stack := s]));
      if !ok { return; }
      ok := kernel.Service(s, true);
    }

    /** Make the table the wanted one, on disk and on the bridge. */
    method SyncServices(list: seq<Service>) returns (ok: bool)
      requires Inv() && Serving()
      modifies `journal, kernel`addresses, kernel`up, kernel`faults
      ensures Inv() && kernel.Worsening() && Proceeds(old(journal), journal) && Serving()
      ensures journal == old(journal).(services := journal.services)
      ensures old(journal.pending).Some? ==> !ok && journal == old(journal)
      ensures ok ==> journal.services == Table(list)
      ensures ok ==> forall s | s in list ::
          s.stack in journal.services && journal.services[s.stack] == s && s.address.Some?
                                             && s.address.value in kernel.addresses + kernel.leased
      ensures ok && !strayed ==> kernel.addresses <= Statics(journal.confirmed.ipv4) + Addresses(Table(list))
      ensures kernel.Calm() && BRIDGE in kernel.links ==>
                (ok <==> old(journal.pending).None? && Listable(list, old(LiveNow()) - Addresses(old(journal.services)))
                         && Fits(journal.confirmed, Table(list)))
    {
      hide Deferred, Consistent, Closed, UplinkMap, Uplinks, Proceeds, Sound, HostPrefix, SoundServices, Fits, Within,
           Addresses, Listable, Table;
      ghost var j := journal;
      NoProgress(j);
      ok := kernel.Call();
      if !ok || journal.pending.Some? { return false; }
      var live;
      live, ok := kernel.Live();
      if !ok { return; }
      var wanted;
      wanted, ok := Collect(list, live);
      if !ok { return; }
      TableEntries(list, live - Addresses(j.services));
      SoundConfirmed(j, file, boot, kernel.links, Uplinked(), kernel.addresses, disturbed, strayed);
      ok := ValidateServices(journal.confirmed, wanted);
      if !ok { return; }
      ok := Replace(wanted, live);
      if ok {
        Synced(list, journal, file, boot, kernel.links, Uplinked(), kernel.addresses, kernel.leased, disturbed,
               strayed);
      }
    }

    /** From the table there is to the wanted one. */
    method Replace(wanted: map<string, Service>, live: set<Prefix>) returns (ok: bool)
      requires Inv() && Serving() && journal.pending.None? && live <= kernel.addresses + kernel.leased
      requires SoundServices(wanted) && Fits(journal.confirmed, wanted)
      modifies `journal, kernel`addresses, kernel`up, kernel`faults
      ensures Inv() && kernel.Worsening() && Proceeds(old(journal), journal)
      ensures journal == old(journal).(services := journal.services)
      ensures ok ==> journal.services == wanted && Addresses(wanted) <= kernel.addresses + kernel.leased
      ensures kernel.Calm() && BRIDGE in kernel.links ==> ok
    {
      hide Consistent, Closed, UplinkMap, Uplinks, Proceeds, Sound, HostPrefix, SoundServices, Fits, Within, Addresses;
      ghost var j := journal;
      ok := DropStale(wanted);
      if !ok { return; }
      ghost var between := journal;
      FewerThan(between.services, j.services);
      ok := FillWanted(wanted, live);
      ProceedsTransitive(j, between, journal);
    }

    /** The first eligible adapter the configuration does not exclude lends the bridge its address. */
    method PickMac(c: Config) returns (mac: Option<Mac>)
      ensures mac.Some? <==> Lendable(kernel.adapters, c)
      ensures mac.Some? ==> LendsFirst(kernel.adapters, c, mac.value)
    {
      for i := 0 to |kernel.adapters|
        invariant forall j | 0 <= j < i :: !(kernel.adapters[j].eligible && kernel.adapters[j].mac !in c.excluded)
      {
        if kernel.adapters[i].eligible && kernel.adapters[i].mac !in c.excluded { return Some(kernel.adapters[i].mac); }
      }
      mac := None;
    }

    /** The bridge keeps the address it was given first. */
    method SourceMac(c: Config) returns (mac: Option<Mac>)
      ensures mac.Some? <==> journal.mac.Some? || Lendable(kernel.adapters, c)
      ensures mac.Some? ==> Lent(journal, kernel.adapters, c, mac.value)
    {
      mac := journal.mac;
      if mac.None? { mac := PickMac(c); }
    }

    /** The configuration startup goes for, and the one it takes the kernel to have. */
    method Choose() returns (previous: Config, c: Config, unread: bool, ok: bool)
      requires Inv()
      modifies kernel`up, kernel`faults
      ensures kernel.Worsening()
      ensures ok ==> Chosen(journal, file, unread) == Some(c) && previous == Assumed(journal)
      ensures unread ==> kernel.faults > old(kernel.faults) || !old(kernel.up)
      ensures kernel.Calm() ==> (ok <==> Chosen(journal, file, false).Some?)
    {
      hide Consistent, Untouched, Closed, UplinkMap, Uplinks, Workable, Fits;
      ConsistentParts(journal, file, boot, kernel.links, Uplinked(), kernel.addresses, disturbed, strayed);
      c := DEFAULT;
      previous := journal.confirmed;
      var read := kernel.Call();
      unread := !read;
      if read && file != Missing {
        ok := file.Toml?;
        if file.Toml? {
          c := file.config;
          ok := Validate(c);
        }
        if !ok {
          if !journal.hasConfirmed { return; }
          c := journal.confirmed;
        }
      }
      if unread && !journal.hasConfirmed { return previous, c, unread, false; }
      if read && file == Missing {
        ok := kernel.Call();
        if !ok { return; }
      }
      if journal.needsConfig { c := journal.confirmed; }
      if journal.startup.Some? {
        previous := journal.startup.value;
        if journal.hasConfirmed { c := journal.confirmed; }
      }
      if journal.pending.Some? {
        previous := journal.changes[journal.pending.value].candidate;
        c := journal.confirmed;
      }
      ok := true;
    }

    /** Everything startup reads and checks. */
    method Survey() returns (previous: Config, c: Config, mac: Option<Mac>, unread: bool, ok: bool)
      requires Inv()
      modifies kernel`up, kernel`faults
      ensures kernel.Worsening()
      ensures ok ==>
                && Chosen(journal, file, unread) == Some(c) && previous == Assumed(journal) && ValidConfig(c)
                && mac.Some? && Lent(journal, kernel.adapters, c, mac.value)
      ensures unread ==> kernel.faults > old(kernel.faults) || !old(kernel.up)
      ensures kernel.Calm() ==> (ok <==> Startable(journal, file, kernel.adapters))
    {
      hide Awaits, Deferred, Consistent, Untouched, Closed, UplinkMap, Uplinks, Workable, ValidConfig, Fits, Sound,
           Recoverable, Accounted, Chosen, Assumed, Startable, Lendable, Lent;
      ConsistentParts(journal, file, boot, kernel.links, Uplinked(), kernel.addresses, disturbed, strayed);
      ok := kernel.Call();
      mac := None;
      if !ok { return DEFAULT, DEFAULT, None, false, false; }
      StartableChosen(journal, file, kernel.adapters);
      previous, c, unread, ok := Choose();
      if !ok { return; }
      ChosenIs(journal, file, unread);
      StartableIs(journal, file, kernel.adapters, c, boot, unread);
      ok := kernel.Call();
      if !ok { return; }
      mac, ok := Vet(c, if journal.bootId == Some(boot) then journal.services else map[]);
    }

    /** The choice has to be valid, suit the services, and find the bridge an address. */
    method Vet(c: Config, services: map<string, Service>) returns (mac: Option<Mac>, ok: bool)
      requires Workable(c)
      modifies kernel`up, kernel`faults
      ensures kernel.Worsening()
      ensures ok ==> ValidConfig(c) && Fits(c, services) && mac.Some? && Lent(journal, kernel.adapters, c, mac.value)
      ensures kernel.Calm() ==>
                (ok <==> ValidConfig(c) && Fits(c, services) && (journal.mac.Some? || Lendable(kernel.adapters, c)))
    {
      hide Workable, ValidConfig, Fits, Lendable, Lent;
      mac := None;
      ok := Validate(c);
      if !ok { return; }
      ok := kernel.Call();
      if !ok { return; }
      mac := SourceMac(c);
      if mac.None? { return mac, false; }
      StaticPrefix(c);
      ok := ValidateServices(c, services);
    }

    /** Save the startup intent, before the kernel is touched. */
    method Begin(c: Config, mac: Mac, ghost unread: bool) returns (ok: bool)
      requires Inv() && Chosen(journal, file, unread) == Some(c) && (journal.mac.Some? ==> journal.mac == Some(mac))
      modifies `journal, `disturbed, kernel`up, kernel`faults
      ensures Inv() && kernel.Worsening() && Proceeds(old(journal), journal)
      ensures journal == old(journal) || journal == Begun(old(journal), boot, c, mac)
      ensures ok ==> disturbed && journal == Begun(old(journal), boot, c, mac)
      ensures disturbed && !old(disturbed) ==> journal == Begun(old(journal), boot, c, mac)
      ensures kernel.Calm() ==> ok
    {
      hide Consistent, Untouched, Closed, UplinkMap, Uplinks, Proceeds, Chosen, Begun;
      ghost var j := journal;
      NoProgress(j);
      BegunIs(j, boot, c, mac);
      ConsistentBoot(j, file, boot, kernel.links, Uplinked(), kernel.addresses, disturbed, strayed);
      BegunKeeps(j, file, boot, kernel.links, Uplinked(), kernel.addresses, disturbed, strayed, c, mac, unread);
      if !strayed { BegunUntouched(j, boot, c, mac, spawned, kernel.addresses); }
      ok := Save(Begun(journal, boot, c, mac));
      if journal == Begun(j, boot, c, mac) { disturbed := true; }
    }

    /** The kernel's part of a startup, with the lease that has to suit the services. */
    method Bring(previous: Config, c: Config, ghost j0: Journal, ghost unread: bool) returns (ok: bool)
      requires Inv() && disturbed && journal.startup == Some(c) && journal.bootId == Some(boot) && journal.mac.Some?
      requires Sound(j0) && Recoverable(j0, file) && Chosen(j0, file, unread) == Some(c) && previous == Assumed(j0)
               && Workable(previous)
      requires (j0.bootId != Some(boot) ==> kernel.addresses == {}) && (!strayed ==> Accounted(j0, kernel.addresses))
      requires exists mac :: journal == Begun(j0, boot, c, mac)
      modifies kernel
      ensures Inv() && kernel.Worsening()
      ensures ok && !strayed ==> InForce(c, journal.services, kernel.links, Uplinked(), kernel.addresses)
      ensures ok ==> Converged(kernel.links, Uplinked(), c) && Carries(c)
      ensures kernel.Calm() && Applicable(old(kernel.links), Uplinked(), c) ==>
                (c.ipv4.Static? || journal.services == map[] ==> ok)
    {
      hide Consistent, Untouched, Closed, UplinkMap, Uplinks, Workable, Sound, Recoverable, Accounted, Chosen,
           Assumed, Step, Kept, Addresses, Statics,
        Converged, Applicable, AllCompatible, ValidService;
      ghost var before, links := kernel.addresses, kernel.links;
      ConsistentParts(journal, file, boot, links, Uplinked(), before, disturbed, strayed);
      ChosenIs(j0, file, unread);
      ValidAddress(previous);
      ok := kernel.Apply(previous, c, journal.mac, journal.services);
      StartupMoveKeeps(journal, file, boot, links, Uplinked(), before, kernel.addresses, kernel.links, disturbed,
                       strayed, c);
      if !strayed { StartupUntouched(journal, spawned, before, kernel.addresses, c); }
      if ok && !strayed { StartedAddresses(j0, boot, before, kernel.addresses, file, c, unread, journal.services); }
      if ok && c.ipv4.Dhcp? {
        ok := VerifyServices(journal.services);
      }
    }

    /** From the saved intent to the finished startup. */
    method Start(previous: Config, c: Config, mac: Mac, ghost unread: bool) returns (ok: bool)
      requires Inv() && Chosen(journal, file, unread) == Some(c) && previous == Assumed(journal)
      requires journal.mac.Some? ==> journal.mac == Some(mac)
      modifies `journal, `file, `disturbed, kernel
      ensures Inv() && kernel.Worsening() && Proceeds(old(journal), journal)
      ensures journal.confirmed == old(journal.confirmed) || (journal.hasConfirmed && journal.confirmed == c)
      ensures journal.hasConfirmed && !old(journal.hasConfirmed) ==> journal.confirmed == c
      ensures journal.services == old(journal.services)
              || (old(journal.bootId) != Some(boot) && journal.bootId == Some(boot) && journal.services == map[])
      ensures ok ==>
                && Ready(journal, boot, file) && journal.confirmed == c && Converged(kernel.links, Uplinked(), c)
                && !disturbed && Carries(c)
      ensures journal.mac == Some(mac) || (!ok && journal.mac == old(journal.mac))
      ensures Doubtful() && !old(Doubtful()) ==> journal.startup.Some? && journal.pending == old(journal.pending)
      ensures journal.pending == old(journal.pending) || journal.pending.None?
      ensures ok && !strayed ==> InForce(c, journal.services, kernel.links, Uplinked(), kernel.addresses)
      ensures (&& kernel.Calm() && Applicable(old(kernel.links), Uplinked(), c)
               && (c.ipv4.Static? || old(journal.services) == map[] || old(journal.bootId) != Some(boot))) ==> ok
    {
      hide Deferred, Carries, Consistent, Untouched, Closed, UplinkMap, Uplinks, Workable, Fits, Sound, Recoverable,
           Proceeds, Accounted, Chosen, Assumed, Begun, Converged, InForce, Startable, Applicable, Started;
      ghost var j0, file0 := journal, file;
      NoProgress(j0);
      ConsistentParts(j0, file, boot, kernel.links, Uplinked(), kernel.addresses, disturbed, strayed);
      ChosenIs(j0, file, unread);
      BegunIs(j0, boot, c, mac);
      ok := Begin(c, mac, unread);
      if !ok { return; }
      ghost var begun := journal;
      StartableIs(j0, file, kernel.adapters, c, boot, unread);
      ok := BringUp(previous, c, j0, unread);
      ProceedsTransitive(j0, begun, journal);
    }

    /** The kernel first, then startup's own commit. */
    method BringUp(previous: Config, c: Config, ghost j0: Journal, ghost unread: bool) returns (ok: bool)
      requires Inv() && disturbed && journal.startup == Some(c) && journal.bootId == Some(boot) && journal.mac.Some?
      requires Sound(j0) && Recoverable(j0, file) && Chosen(j0, file, unread) == Some(c) && previous == Assumed(j0)
               && Workable(previous) && Workable(c) && Fits(c, journal.services)
      requires (j0.bootId != Some(boot) ==> kernel.addresses == {}) && (!strayed ==> Accounted(j0, kernel.addresses))
      requires exists mac :: journal == Begun(j0, boot, c, mac)
      modifies `journal, `file, `disturbed, kernel
      ensures Inv() && kernel.Worsening() && Proceeds(old(journal), journal)
      ensures journal == old(journal)
              || (journal.hasConfirmed && journal.confirmed == c && journal.pending.None? && !disturbed)
      ensures journal.services == old(journal.services) && journal.bootId == Some(boot)
              && journal.mac == old(journal.mac)
      ensures ok ==>
                && Ready(journal, boot, file) && journal.confirmed == c && Converged(kernel.links, Uplinked(), c)
                && !disturbed && Carries(c)
      ensures ok && !strayed ==> InForce(c, journal.services, kernel.links, Uplinked(), kernel.addresses)
      ensures kernel.Calm() && Applicable(old(kernel.links), Uplinked(), c) ==>
                (c.ipv4.Static? || journal.services == map[] ==> ok)
    {
      hide Deferred, Carries, Consistent, Untouched, Closed, UplinkMap, Uplinks, Workable, Fits, Sound, Recoverable,
           Proceeds, Accounted, Chosen, Assumed, Begun, Converged, InForce, Applicable, Started;
      NoProgress(journal);
      ok := Bring(previous, c, j0, unread);
      if !ok { return; }
      ok := Finish(c);
    }

    /** Recover whatever the last run left, and bring the confirmed configuration up. */
    method Initialize() returns (ok: bool, unread: bool)
      requires Inv()
      modifies `journal, `file, `disturbed, kernel
      ensures Inv() && kernel.Worsening() && Proceeds(old(journal), journal)
      ensures old(journal.hasConfirmed) ==>
                journal.confirmed == old(journal.confirmed)
                || (journal.confirmed == DEFAULT && unread
                    && old(journal.pending.None? && journal.startup.None? && !journal.needsConfig))
      ensures !old(journal.hasConfirmed) && journal.hasConfirmed ==> FileConfig(old(file)) == Some(journal.confirmed)
      ensures !journal.hasConfirmed ==> journal.confirmed == old(journal.confirmed)
      ensures journal.services == old(journal.services)
              || (old(journal.bootId) != Some(boot) && journal.bootId == Some(boot) && journal.services == map[])
      ensures ok ==> Ready(journal, boot, file) && Converged(kernel.links, Uplinked(), journal.confirmed) && !disturbed
      // the bridge gets the address it had before, or that of the first adapter it may borrow from
      ensures ok ==> journal.mac.Some? && Carries(journal.confirmed)
                     && Lent(old(journal), kernel.adapters, journal.confirmed, journal.mac.value)
      ensures journal.mac == old(journal.mac) || old(journal.mac).None?
      ensures Doubtful() && !old(Doubtful()) ==> journal.startup.Some? && journal.pending == old(journal.pending)
      ensures journal.pending == old(journal.pending) || journal.pending.None?
      ensures ok && !strayed ==>
                InForce(journal.confirmed, journal.services, kernel.links, Uplinked(), kernel.addresses)
      ensures unread ==> kernel.faults > old(kernel.faults) || !old(kernel.up)
      ensures ok ==> ValidConfig(journal.confirmed)
      ensures kernel.Calm() && !Startable(old(journal), old(file), kernel.adapters) ==>
                !ok && journal == old(journal) && file == old(file)
      ensures (&& kernel.Calm() && Startable(old(journal), old(file), kernel.adapters)
               && Unhindered(old(journal), old(file), boot, old(kernel.links), Uplinked())) ==> ok
    {
      hide Consistent, Untouched, Closed, UplinkMap, Uplinks, Workable, Fits, Sound, Recoverable, Proceeds,
           Accounted, Chosen, Assumed, Converged, InForce, LendsFirst, Startable, Applicable, Ready, Awaits, Deferred,
           Carries, Guarded, ValidConfig, FileConfig;
      NoProgress(journal);
      ConsistentParts(journal, file, boot, kernel.links, Uplinked(), kernel.addresses, disturbed, strayed);
      var previous, c, mac;
      previous, c, mac, unread, ok := Survey();
      if !ok { return; }
      ChosenIs(journal, file, unread);
      ok := Start(previous, c, mac.value, unread);
    }

    /** Startup's own commit, and the canonical file after it. */
    method Finish(c: Config) returns (ok: bool)
      requires Inv() && journal.bootId == Some(boot) && journal.startup.Some? && Workable(c)
               && Fits(c, journal.services)
      requires !strayed ==> InForce(c, journal.services, kernel.links, Uplinked(), kernel.addresses)
      modifies `journal, `file, `disturbed, kernel`up, kernel`faults
      ensures Inv() && kernel.Worsening() && Proceeds(old(journal), journal)
      ensures journal.services == old(journal.services) && journal.bootId == Some(boot)
      ensures journal.mac == old(journal.mac) && (old(Carries(c)) ==> Carries(c))
      ensures journal == old(journal)
              || (journal.hasConfirmed && journal.confirmed == c && journal.pending.None? && !disturbed)
      ensures ok ==> Ready(journal, boot, file) && journal.confirmed == c && !disturbed
      ensures disturbed ==> old(disturbed)
      ensures kernel.Calm() ==> ok
    {
      hide Consistent, Untouched, Closed, UplinkMap, Uplinks, Proceeds, Workable, Fits, InForce, Started;
      ghost var j := journal;
      NoProgress(j);
      StartedKeeps(j, file, boot, kernel.links, Uplinked(), kernel.addresses, disturbed, strayed, c);
      StartedIs(j, c);
      UntouchedNone(Started(j, c), spawned, kernel.addresses);
      ok := Save(Started(journal, c));
      if journal == Started(j, c) { disturbed := false; }
      if !ok { return; }
      ok := Settle();
      ProceedsTransitive(j, Started(j, c), journal);
    }

    /** The process starts again, in the same boot: deferred applies are gone. */
    method Restart()
      requires Inv()
      modifies `spawned, kernel`up
      ensures Inv() && kernel.up && spawned == {}
    {
      hide Consistent;
      spawned := {};
      kernel.up := true;
    }

    /** A new boot: a fresh boot identifier, and nothing left of the bridge's addresses. */
    method Reboot(id: nat, links: Links)
      requires Inv() && journal.bootId != Some(id) && Closed(links) && Inventory(links, kernel.adapters)
      modifies `boot, `spawned, `timers, `disturbed, `strayed, kernel
      ensures Inv() && kernel.up && boot == id && spawned == {} && !strayed && !disturbed && kernel.links == links
              && kernel.addresses == {}
    {
      hide Consistent;
      RebootKeeps(journal, file, boot, id, kernel.links, links, Uplinked(), kernel.addresses, disturbed, strayed);
      kernel.Boot(links);
      boot, spawned, timers, disturbed, strayed := id, {}, map[], false, false;
    }

    /** One thing that may happen; a request is served only once a startup has succeeded in this boot. */
    method Handle(e: Event) returns (ok: bool)
      requires Inv()
      modifies this, kernel
      ensures Inv() && Proceeds(old(journal), journal)
      ensures journal.confirmed != old(journal.confirmed) ==> MayChange(e, old(journal), journal.confirmed, old(file))
      ensures old(journal.pending).Some? && journal.bootId == old(journal.bootId) ==>
                journal.services == old(journal.services)
      ensures strayed && !old(strayed) ==> e.Confirm? && old(Doubtful()) && old(journal.pending) == Some(e.id)
      ensures Doubtful() && !old(Doubtful()) ==> !ok && Undoes(e, journal.pending.value)
      ensures Doubtful() && old(Doubtful()) ==>
                journal.pending == old(journal.pending) && !(ok && Redoes(e, journal.pending.value))
    {
      hide Consistent, Proceeds, Untouched, Closed, UplinkMap, Uplinks, InForce, Converged, Applicable, Undoable,
           Inventory, Workable, Sound, Fits, Listable, Acceptable, Settable, Startable, Unhindered, Ready, Table,
           Statics,
           Addresses, SameRequest, Unheard, FileConfig;
      NoProgress(journal);
      ok := true;
      match e
      case Restart => Restart();
      case Reboot(id, links) =>
        ok := journal.bootId != Some(id) && Closed(links) && Inventory(links, kernel.adapters);
        if ok { Reboot(id, links); }
      case Lease(leased) => kernel.leased := leased;
      case Initialize => var unread; ok, unread := Initialize();
      case _ => if Serving() { ok := Serve(e); } else { ok := false; }
    }

    method Serve(e: Event) returns (ok: bool)
      requires Inv() && Serving() && !e.Restart? && !e.Reboot? && !e.Lease? && !e.Initialize?
      modifies this, kernel
      ensures Inv() && Proceeds(old(journal), journal)
      ensures journal.confirmed != old(journal.confirmed) ==> MayChange(e, old(journal), journal.confirmed, old(file))
      ensures old(journal.pending).Some? && journal.bootId == old(journal.bootId) ==>
                journal.services == old(journal.services)
      ensures strayed && !old(strayed) ==> e.Confirm? && old(Doubtful()) && old(journal.pending) == Some(e.id)
      ensures Doubtful() && !old(Doubtful()) ==> !ok && Undoes(e, journal.pending.value)
      ensures Doubtful() && old(Doubtful()) ==>
                journal.pending == old(journal.pending) && !(ok && Redoes(e, journal.pending.value))
    {
      hide Consistent, Proceeds, Untouched, Closed, UplinkMap, Uplinks, InForce, Converged, Applicable, Undoable,
           Inventory, Workable, Sound, Fits, Listable, Acceptable, Settable, Startable, Unhindered, Ready, Table,
           Statics,
           Addresses, SameRequest, Unheard, FileConfig;
      NoProgress(journal);
      ok := false;
      match e
      case Submit(p, id) =>
        if id !in journal.changes && id !in spawned {
          AcceptablePending(journal, p, Uplinked().Keys);
          var result := Submit(p, id);
          ok := result.Some?;
        }
      case Apply(id, start, now) => if id in spawned { ok := ApplyChange(id, start, now); }
      case Confirm(id, now) => ok := Confirm(id, now);
      case Rollback(id, expiredOnly, now) => ok := Rollback(id, expiredOnly, now);
      case SetService(s, add) => ok := SetService(s, add);
      case SyncServices(list) => ok := SyncServices(list);
      case Migrate(pool) => ok := MigrateDefault(pool);
      case _ =>
    }

    /**
     Every run: requests, timers, failures, crashes, startups and reboots in any order; `outcomes`
     says which events reported success.  A confirmation strays only if the change it confirms was
     before, in the same boot, the subject of an undo that reported failure and was not redone.
     */
    method Run(schedule: seq<Event>) returns (outcomes: seq<bool>)
      requires Inv()
      modifies this, kernel
      ensures Inv() && Proceeds(old(journal), journal) && |outcomes| == |schedule|
      ensures strayed && !old(strayed) && !old(Doubtful()) ==> Strays(schedule, outcomes)
      ensures forall i, k | i in journal.changes && k in journal.changes
              && SameKey(journal.changes[i], journal.changes[k]) :: i == k
      ensures forall id | id in journal.changes && journal.changes[id].stage in {Applying, Awaiting} ::
          journal.pending == Some(id) && journal.changes[id].previous == journal.confirmed
      ensures forall k, l | k in journal.services && l in journal.services && k != l ::
          journal.services[k].address != journal.services[l].address
      ensures journal.hasConfirmed ==> journal.needsConfig || journal.startup.Some? || file == Toml(journal.confirmed)
      ensures !strayed ==> kernel.addresses <= Expected(journal) + Addresses(journal.services)
      // in this boot a change awaiting confirmation will be rolled back at its deadline
      ensures Serving() && journal.startup.None? ==>
                forall id | id in journal.changes && journal.changes[id].stage == Awaiting ::
                  id in timers && timers[id] == journal.changes[id].deadline
    {
      hide Consistent, Proceeds, Untouched, Closed, UplinkMap, Uplinks, MayChange, Expected, Addresses, Deferred,
           Awaits, Unfinished, Strays, Undoes, Redoes;
      NoProgress(journal);
      outcomes := [];
      for i := 0 to |schedule|
        invariant Inv() && Proceeds(old(journal), journal) && |outcomes| == i
        invariant !old(Doubtful()) && Doubtful() ==>
                  journal.pending.Some? && Unfinished(schedule, outcomes, i, journal.pending.value)
        invariant !old(Doubtful()) && !old(strayed) && strayed ==> Strays(schedule, outcomes)
      {
        ghost var was, doubtful, astray := journal, Doubtful(), strayed;
        var ok := Handle(schedule[i]);
        ProceedsTransitive(old(journal), was, journal);
        if !old(Doubtful()) && strayed && !astray { StrayedNow(schedule, outcomes, ok, i); }
        if !old(Doubtful()) && !old(strayed) && astray { StraysStill(schedule, outcomes, ok); }
        if !old(Doubtful()) && Doubtful() {
          AwaitsPending(journal);
          if doubtful { StillUnfinished(schedule, outcomes, ok, i, journal.pending.value); }
          else { NowUnfinished(schedule, outcomes, ok, i, journal.pending.value); }
        }
        outcomes := outcomes + [ok];
      }
      ConsistentMeans(journal, file, boot, kernel.links, Uplinked(), kernel.addresses, disturbed, strayed);
      OneAwaits(journal);
    }

    /** A change carried through: what is confirmed is what was submitted, and what the kernel has. */
    method Change(p: Request, id: nat, start: int, now: int, later: int) returns (ok: bool)
      requires Inv() && Serving() && id !in journal.changes && id !in spawned && Unheard(journal, p)
      modifies this, kernel
      ensures Inv()
      ensures ok ==> journal.confirmed == p.config && file == Toml(p.config) && journal.pending.None?
      ensures ok && !old(strayed) ==>
                !strayed && InForce(p.config, journal.services, kernel.links, Uplinked(), kernel.addresses)
      ensures ok ==> Carries(p.config)
      ensures (&& kernel.Calm() && Acceptable(old(journal), p, Uplinked().Keys) && now < start + 60
               && later < start + 60
               && old(journal).mac.Some? && Applicable(old(kernel.links), Uplinked(), p.config)
               && Leaseless(old(journal), p.config)) ==> ok
    {
      hide Consistent, Proceeds, Untouched, Closed, UplinkMap, Uplinks, InForce, Acceptable, Workable, Sound,
           Applicable;
      var submitted := Submit(p, id);
      if submitted != Some(id) { return false; }
      ok := ApplyChange(id, start, now);
      if !ok { return; }
      ok := Confirm(id, later);
    }

    /** A default pool no startup accepts, migrated all the same: every undisturbed startup after it is refused. */
    method MigrateUnclean(pool: string, starts: nat) returns (started: bool)
      requires Inv() && Serving() && journal.pending.None? && journal.confirmed.pool == "" && !CleanPool(pool)
      modifies this, kernel
      ensures Inv()
      ensures kernel.Calm() ==> journal.confirmed == old(journal.confirmed).(pool := pool) && !started
    {
      hide Consistent, Proceeds, Untouched, Closed, UplinkMap, Uplinks, InForce, Converged, Applicable, Ready,
           CleanPool, Workable;
      started := MigrateDefault(pool);
      if !started { return; }
      started := false;
      for i := 0 to starts
        invariant Inv() && kernel.Worsening() && !started
        invariant kernel.Calm() ==>
                  Unstartable(journal, file, pool) && journal.confirmed == old(journal.confirmed).(pool := pool)
      {
        UnstartableRefused(journal, file, kernel.adapters, pool);
        var unread;
        started, unread := Initialize();
        if started { return; }
      }
    }
  }

  /** An event that starts to undo the change, and one that finishes doing or undoing it, or forgets it. */
  predicate Undoes(e: Event, id: nat) {
    e.Initialize? || (e.Rollback? && e.id == id) || (e.Confirm? && e.id == id)
  }

  predicate Redoes(e: Event, id: nat) {
    e.Initialize? || e.Reboot? || (e.Rollback? && e.id == id) || (e.Apply? && e.id == id)
  }

  /**
   Among the first `n` events one undid the change, or began to, reported failure, and nothing has
   redone it since.
   */
  ghost predicate Unfinished(schedule: seq<Event>, outcomes: seq<bool>, n: nat, id: nat) {
    exists i :: UnfinishedSince(schedule, outcomes, i, n, id)
  }

  ghost predicate UnfinishedSince(schedule: seq<Event>, outcomes: seq<bool>, i: int, n: nat, id: nat) {
    && 0 <= i < n <= |outcomes| && n <= |schedule|
    && !outcomes[i] && Undoes(schedule[i], id)
    && forall m | i < m < n :: !(outcomes[m] && Redoes(schedule[m], id))
  }

  /** Some confirmation came after an unfinished undo of its own change. */
  ghost predicate Strays(schedule: seq<Event>, outcomes: seq<bool>) {
    exists k :: 0 <= k < |outcomes| <= |schedule| && schedule[k].Confirm?
                && Unfinished(schedule, outcomes, k, schedule[k].id)
  }

  lemma AwaitsPending(j: Journal)
    requires Awaits(j)
    ensures j.pending.Some?
  {
  }

  lemma NowUnfinished(schedule: seq<Event>, outcomes: seq<bool>, ok: bool, i: nat, id: nat)
    requires |outcomes| == i < |schedule| && !ok && Undoes(schedule[i], id)
    ensures Unfinished(schedule, outcomes + [ok], i + 1, id)
  {
    assert UnfinishedSince(schedule, outcomes + [ok], i, i + 1, id);
  }

  lemma StillUnfinished(schedule: seq<Event>, outcomes: seq<bool>, ok: bool, i: nat, id: nat)
    requires |outcomes| == i < |schedule| && Unfinished(schedule, outcomes, i, id) && !(ok && Redoes(schedule[i], id))
    ensures Unfinished(schedule, outcomes + [ok], i + 1, id)
  {
    var k :| UnfinishedSince(schedule, outcomes, k, i, id);
    assert UnfinishedSince(schedule, outcomes + [ok], k, i + 1, id);
  }

  lemma StrayedNow(schedule: seq<Event>, outcomes: seq<bool>, ok: bool, i: nat)
    requires |outcomes| == i < |schedule| && schedule[i].Confirm? && Unfinished(schedule, outcomes, i, schedule[i].id)
    ensures Strays(schedule, outcomes + [ok])
  {
    var k :| UnfinishedSince(schedule, outcomes, k, i, schedule[i].id);
    assert UnfinishedSince(schedule, outcomes + [ok], k, i, schedule[i].id);
  }

  lemma StraysStill(schedule: seq<Event>, outcomes: seq<bool>, ok: bool)
    requires |outcomes| < |schedule| && Strays(schedule, outcomes)
    ensures Strays(schedule, outcomes + [ok])
  {
    var k :| 0 <= k < |outcomes| && schedule[k].Confirm? && Unfinished(schedule, outcomes, k, schedule[k].id);
    var i :| UnfinishedSince(schedule, outcomes, i, k, schedule[k].id);
    assert UnfinishedSince(schedule, outcomes + [ok], i, k, schedule[k].id);
  }

  /** The confirmed configuration carries the pool, and startup goes for it. */
  predicate Unstartable(j: Journal, file: File, pool: string) {
    && j.hasConfirmed && !CleanPool(pool) && j.confirmed.pool == pool
    && (j.needsConfig || j.pending.Some? || j.startup.Some? || file == Toml(j.confirmed))
  }

  lemma UnstartableRefused(j: Journal, file: File, adapters: seq<Adapter>, pool: string)
    ensures Unstartable(j, file, pool) ==> !Startable(j, file, adapters)
  {
    if Workable(j.confirmed) && j.confirmed.pool == pool {
      assert j.confirmed.(pool := pool) == j.confirmed;
      MigratedValid(j.confirmed, pool);
    }
  }

  datatype Event =
    | Submit(p: Request, id: nat)
    | Apply(id: nat, start: int, now: int)
    | Confirm(id: nat, now: int)
    | Rollback(id: nat, expiredOnly: bool, now: int)
    | SetService(s: Service, add: bool)
    | SyncServices(list: seq<Service>)
    | Migrate(pool: string)
    | Initialize
    | Restart
    | Reboot(id: nat, links: Links)
    | Lease(leased: set<Prefix>)

  /** The only ways to a new confirmed configuration. */
  predicate MayChange(e: Event, j: Journal, confirmed: Config, file: File) {
    match e
    case Confirm(id, now) => Confirmable(j, id, now) && confirmed == j.changes[id].candidate
    case Migrate(pool) => j.pending.None? && confirmed == j.confirmed.(pool := pool)
    case Initialize =>
      if j.hasConfirmed then confirmed == DEFAULT && j.pending.None? && j.startup.None? && !j.needsConfig
      else FileConfig(file) == Some(confirmed)
    case _ => false
  }
}
