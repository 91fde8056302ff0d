/**
 The command sequences that rearrange the boot aliases.

 Every zfs or zpool command may fail before or after taking effect, and the pool may stop
 answering for the rest of a call: a power cut, or an expired deadline.  `faults` counts
 those events, so a clause guarded by Undisturbed() speaks of calls without trouble and
 every other clause speaks of every interruption point.
 */
module BootPool {
  import opened Identifiers
  import opened Options
  import opened BootLayout

  class Pool {
    var layout: Layout
    var responsive: bool
    var faults: nat
    var destroys: seq<Victim>  // every destroy command issued, vetoed or not

    constructor (layout: Layout)
      ensures this.layout == layout
      ensures responsive && faults == 0 && destroys == []
    {
      this.layout, responsive, faults, destroys := layout, true, 0, [];
    }

    /** Trouble only accumulates, and only trouble stops the pool from answering. */
    twostate predicate Degrading()
      reads this
    {
      && (responsive ==> old(responsive))
      && old(faults) <= faults
      && (old(responsive) && faults == old(faults) ==> responsive)
    }

    twostate predicate Undisturbed()
      reads this
    {
      old(responsive) && faults == old(faults)
    }

    /** One command: does it take effect, and does the caller see success? */
    method Attempt() returns (effect: bool, ok: bool)
      modifies `responsive, `faults
      ensures Degrading()
      ensures ok ==> effect && responsive
      ensures effect ==> old(responsive)
      ensures ok <==> Undisturbed()
    {
      effect, ok := responsive, responsive;
      if responsive {
        if * {
          faults, ok := faults + 1, false;
          if * { effect := false; }
          if * { responsive := false; }
        }
      }
    }

    /** `zfs list` answers truthfully while the pool answers at all; otherwise "not there". */
    method Exists(name: Name) returns (found: bool)
      modifies `responsive, `faults
      ensures Degrading()
      ensures found ==> responsive && name in layout.ds
      ensures responsive ==> (found <==> name in layout.ds)
    {
      found := responsive && name in layout.ds;
      if responsive {
        if * { faults, responsive, found := faults + 1, false, false; }
      }
    }

    method Property(name: Name) returns (d: Option<Dataset>)
      modifies `responsive, `faults
      ensures Degrading()
      ensures d.Some? ==> Undisturbed() && name in layout.ds && d.value == layout.ds[name]
      ensures Undisturbed() && name in layout.ds ==> d.Some?
    {
      var effect, ok := Attempt();
      d := if ok && name in layout.ds then Some(layout.ds[name]) else None;
    }

    method SetBootfs(name: Name) returns (ok: bool)
      modifies `responsive, `faults, `layout
      ensures Degrading()
      ensures layout == old(layout) ||
              (name in old(layout).ds && layout == old(layout).Selecting(name))
      ensures ok ==> responsive && layout.Boots(name)
      ensures Undisturbed() && name in old(layout).ds ==> ok
    {
      var effect;
      effect, ok := Attempt();
      if name !in layout.ds { return false; }
      if effect { layout := layout.Selecting(name); }
    }

    method Rename(source: Name, target: Name) returns (ok: bool)
      requires source != target
      modifies `responsive, `faults, `layout
      ensures Degrading()
      ensures layout == old(layout) ||
              (&& source in old(layout).ds && target !in old(layout).ds
               && layout == old(layout).Renamed(source, target))
      ensures ok ==> && responsive && source in old(layout).ds && target !in old(layout).ds
                     && layout == old(layout).Renamed(source, target)
      ensures Undisturbed() && source in old(layout).ds && target !in old(layout).ds ==> ok
    {
      var effect;
      effect, ok := Attempt();
      if source !in layout.ds || target in layout.ds { return false; }
      if effect { layout := layout.Renamed(source, target); }
    }

    /** `zfs clone` of a release's @base; the new alias has no command line yet. */
    method Clone(version: string, target: Name, owner: string) returns (ok: bool)
      modifies `responsive, `faults, `layout
      ensures Degrading()
      ensures layout == old(layout) ||
              (&& target !in old(layout).ds && version in old(layout).snapshots
               && layout == old(layout).Cloned(version, target, owner))
      ensures ok ==> && responsive && target !in old(layout).ds && version in old(layout).snapshots
                     && layout == old(layout).Cloned(version, target, owner)
      ensures Undisturbed() && target !in old(layout).ds && version in old(layout).snapshots ==> ok
    {
      var effect;
      effect, ok := Attempt();
      if target in layout.ds || version !in layout.snapshots { return false; }
      if effect {
        layout := layout.Cloned(version, target, owner);
      }
    }

    /** `zfs set` replaces the properties of one dataset; its identity and origin stay. */
    method Set(name: Name, owner: Option<string>, cmdline: Option<Cmdline>) returns (ok: bool)
      modifies `responsive, `faults, `layout
      ensures Degrading()
      ensures layout == old(layout) ||
              (old(responsive) && name in old(layout).ds && layout == WithSet(old(layout), name, owner, cmdline))
      ensures ok ==> responsive && name in old(layout).ds && layout == WithSet(old(layout), name, owner, cmdline)
      ensures Undisturbed() && name in old(layout).ds ==> ok
    {
      var effect;
      effect, ok := Attempt();
      if name !in layout.ds { return false; }
      if effect { layout := WithSet(layout, name, owner, cmdline); }
    }

    /** `zfs destroy` without -r: a snapshot vetoes it. */
    method Destroy(name: Name) returns (ok: bool)
      modifies `responsive, `faults, `layout, `destroys
      ensures Degrading()
      ensures destroys == old(destroys) + [Whole(name)]
      ensures layout == old(layout) ||
              (name in old(layout).ds && !Vetoed(old(layout), Whole(name)) && layout == old(layout).Without(name))
      ensures ok ==> responsive && name in old(layout).ds && layout == old(layout).Without(name)
      ensures Undisturbed() && name in old(layout).ds && !Vetoed(old(layout), Whole(name)) ==> ok
    {
      destroys := destroys + [Whole(name)];
      var effect;
      effect, ok := Attempt();
      if name !in layout.ds || Vetoed(layout, Whole(name)) { return false; }
      if effect { layout := layout.Without(name); }
    }

    /** Destroying a release's @base: a dependent clone vetoes it. */
    method DestroyBase(version: string) returns (ok: bool)
      modifies `responsive, `faults, `layout, `destroys
      ensures Degrading()
      ensures destroys == old(destroys) + [Base(version)]
      ensures layout == old(layout) ||
              (&& !Vetoed(old(layout), Base(version))
               && layout == old(layout).(snapshots := old(layout).snapshots - {version}))
      ensures ok ==> responsive && layout == old(layout).(snapshots := old(layout).snapshots - {version})
      ensures Undisturbed() ==> (ok <==> !Vetoed(old(layout), Base(version)))
    {
      destroys := destroys + [Base(version)];
      var effect;
      effect, ok := Attempt();
      if Vetoed(layout, Base(version)) { return false; }
      if effect { layout := layout.(snapshots := layout.snapshots - {version}); }
    }

    /** Destroy a fallback alias left by an earlier release, if this updater owns it. */
    method ClearStaleRecovery(o: Operation) returns (ok: bool)
      modifies this
      ensures Degrading() && Advances(old(layout), layout, o)
      ensures destroys == old(destroys) || destroys == old(destroys) + [Whole(Recovery)]
      ensures ok && responsive ==>
                layout == if old(layout).From(Recovery, o.source) || Recovery !in old(layout).ds then old(layout)
                          else old(layout).Without(Recovery)
      ensures layout == old(layout) || (Recovery in old(layout).ds && layout == old(layout).Without(Recovery))
      ensures Undisturbed() && Recovery !in old(layout).ds ==> ok
      ensures Undisturbed() && Recovery in old(layout).ds ==>
                (ok <==> old(layout).From(Recovery, o.source) || IsOperationId(old(layout).ds[Recovery].owner))
      ensures old(layout).From(Recovery, o.source) ==> layout == old(layout)
      ensures Undisturbed() && PromotionPending(old(layout), o) ==> ok && PromotionPending(layout, o)
    {
      hide Advances;
      AdvancesReflexive(layout, o);
      var found := Exists(Recovery);
      if !found { return true; }
      var d := Property(Recovery);
      if d.None? { return false; }
      if d.value.origin == Some(o.source) { return true; }
      d := Property(Recovery);
      if d.None? || !IsOperationId(d.value.owner) { return false; }
      DropStaleRecovery(layout, o);
      ok := Destroy(Recovery);
      AdvancesStep(old(layout), old(layout), layout, o);
    }

    /** A fallback alias of the source exists, cloned now if need be. */
    method EnsureRecovery(o: Operation) returns (ok: bool)
      modifies this
      ensures Degrading() && Advances(old(layout), layout, o)
      ensures destroys == old(destroys) || destroys == old(destroys) + [Whole(Recovery)]
      ensures ok && responsive ==> layout.From(Recovery, o.source)
      ensures ok && responsive ==> layout == WithFallback(old(layout), o)
      ensures Undisturbed() ==> (ok <==> RecoveryReady(old(layout), o))
      ensures Undisturbed() && PromotionPending(old(layout), o) ==> ok && PromotionPending(layout, o)
    {
      hide Advances;
      ok := ClearStaleRecovery(o);
      if !ok { return; }
      ghost var cleared := layout;
      var found := Exists(Recovery);
      if !found {
        if Recovery !in layout.ds && o.source in layout.snapshots { CloneRecovery(layout, o); }
        ok := Clone(o.source, Recovery, o.id);
        AdvancesStep(old(layout), cleared, layout, o);
      }
    }

    /** First half of Promote: a fallback alias of the source is ready and selected. */
    method SelectRecovery(o: Operation) returns (ok: bool)
      modifies this
      ensures Degrading() && Advances(old(layout), layout, o)
      ensures destroys == old(destroys) || destroys == old(destroys) + [Whole(Recovery)]
      ensures ok ==> layout.Bootable(Recovery, o.source) && layout.Boots(Recovery) && IsHostId(o.hostId)
      ensures ok ==> layout == FallbackSelected(old(layout), o)
      ensures Undisturbed() ==> (ok <==> RecoveryReady(old(layout), o) && IsHostId(o.hostId))
      ensures Undisturbed() && PromotionPending(old(layout), o) ==> ok && PromotionPending(layout, o)
    {
      hide Advances;
      ok := EnsureRecovery(o);
      if !ok { return; }
      if !IsHostId(o.hostId) { return false; }
      ghost var cloned := layout;
      if layout.From(Recovery, o.source) { PrepareRecovery(cloned, o); }
      ok := Set(Recovery, None, Some(Cmdline(o.source, "")));
      AdvancesStep(old(layout), cloned, layout, o);
      if !ok { return; }
      ghost var prepared := layout;
      SelectPreparedRecovery(layout, o);
      ok := SetBootfs(Recovery);
      AdvancesStep(old(layout), prepared, layout, o);
    }

    /** Rename an older previous alias aside: it is kept until the promotion has committed. */
    method RetireOlder(o: Operation) returns (ok: bool)
      requires layout.From(Current, o.source) && layout.Bootable(Recovery, o.source) && layout.Boots(Recovery)
      modifies this
      ensures Degrading() && Advances(old(layout), layout, o)
      ensures destroys == old(destroys)
      ensures layout.From(Current, o.source) && layout.Bootable(Recovery, o.source) && layout.Boots(Recovery)
      ensures layout.ds[Recovery] == old(layout).ds[Recovery]
      ensures ok && responsive ==> Previous !in layout.ds && layout.ds[Current] == old(layout).ds[Current]
      ensures ok && responsive && Previous in old(layout).ds ==>
                Retired(o.id) in layout.ds && layout.ds[Retired(o.id)] == old(layout).ds[Previous]
      ensures ok && responsive ==> layout == PreviousAside(old(layout), o)
      ensures Undisturbed() && PromotionPending(old(layout), o) ==> ok && PromotionPending(layout, o)
    {
      hide Advances;
      AdvancesReflexive(layout, o);
      var found := Exists(Previous);
      if !found { return true; }
      var d := Property(Previous);
      if d.None? || d.value.owner == "-" || d.value.owner == "" { return false; }
      if Retired(o.id) !in layout.ds { RetirePrevious(layout, o); }
      ok := Rename(Previous, Retired(o.id));
    }

    /** Move the source from current to previous. */
    method DemoteSource(o: Operation) returns (ok: bool)
      requires IsHostId(o.hostId) && layout.Bootable(Recovery, o.source) && layout.Boots(Recovery)
      modifies this
      ensures Degrading() && Advances(old(layout), layout, o)
      ensures destroys == old(destroys)
      ensures layout.Bootable(Recovery, o.source) && layout.Boots(Recovery)
      ensures layout.ds[Recovery] == old(layout).ds[Recovery]
      ensures ok && responsive ==> Current !in layout.ds && layout == Demoted(old(layout), o)
      ensures ok && responsive && Current in old(layout).ds ==>
                && old(layout).From(Current, o.source)
                && Previous in layout.ds && layout.ds[Previous] == old(layout).ds[Current].(owner := o.id)
                && (Previous in old(layout).ds ==>
                      Retired(o.id) in layout.ds && layout.ds[Retired(o.id)] == old(layout).ds[Previous])
      ensures Undisturbed() && PromotionPending(old(layout), o) ==> ok && PromotionPending(layout, o)
    {
      hide Advances;
      AdvancesReflexive(layout, o);
      var found := Exists(Current);
      if !found { return true; }
      var d := Property(Current);
      if d.None? || d.value.origin != Some(o.source) { return false; }
      ok := RetireOlder(o);
      if !ok { return; }
      ghost var cleared := layout;
      ClaimCurrent(cleared, o);
      ok := Set(Current, Some(o.id), None);
      AdvancesStep(old(layout), cleared, layout, o);
      if !ok { return; }
      ghost var claimed := layout;
      if Previous !in layout.ds { DemoteCurrent(layout, o); }
      ok := Rename(Current, Previous);
      AdvancesStep(old(layout), claimed, layout, o);
    }

    /** Rename the staged target to current and select it. */
    method InstallTarget(o: Operation) returns (ok: bool)
      requires IsHostId(o.hostId) && layout.Bootable(Recovery, o.source) && layout.Boots(Recovery)
      requires responsive ==> Current !in layout.ds
      modifies this
      ensures Degrading() && Advances(old(layout), layout, o)
      ensures destroys == old(destroys)
      ensures ok ==> layout.From(Current, o.target) && layout.Boots(Current)
      ensures ok ==> old(responsive) && layout == Installed(old(layout))
      ensures Recovery in layout.ds && layout.ds[Recovery] == old(layout).ds[Recovery]
      ensures Undisturbed() && old(layout).From(Next, o.target) ==> ok
    {
      hide Advances;
      AdvancesReflexive(layout, o);
      var d := Property(Next);
      if d.None? || d.value.origin != Some(o.target) { return false; }
      if Current !in layout.ds { InstallNext(layout, o); }
      ok := Rename(Next, Current);
      if !ok { return; }
      ghost var installed := layout;
      SelectTarget(layout, o);
      ok := SetBootfs(Current);
      AdvancesStep(old(layout), installed, layout, o);
    }

    /**
     Make the target current.  Interrupted anywhere and run again any number of times, it keeps
     a bootable source or target selected; it finishes exactly when nothing foreign is in the way.
     */
    method Promote(o: Operation) returns (ok: bool)
      modifies this
      ensures Degrading() && Advances(old(layout), layout, o)
      ensures destroys == old(destroys) || destroys == old(destroys) + [Whole(Recovery)]
      ensures ok ==> layout.From(Current, o.target) && layout.Boots(Current)
      ensures ok && o.source != o.target ==> layout == Promoted(old(layout), o)
      ensures ok && !old(layout).From(Current, o.target) ==>
                Recovery in layout.ds && layout.ds[Recovery].owner == FallbackOwner(old(layout), o)
      ensures o.source != o.target && ok && Safe(old(layout), o) ==> TargetCurrent(layout, o)
      ensures o.source != o.target && IsOperationId(o.id) && UpdaterOwned(old(layout), o) ==> UpdaterOwned(layout, o)
      ensures o.source != o.target && ok ==> Promotable(old(layout), o)
      ensures Undisturbed() && o.source != o.target && Promotable(old(layout), o) ==> ok
    {
      hide Advances, Promotable, PromotionPending, Safe, TargetCurrent, UpdaterOwned, IsOperationId, Demoted, Installed,
           WithFallback, FallbackSelected, FallbackOwner;
      AdvancesReflexive(layout, o);
      var d := Property(Current);
      if d.Some? && d.value.origin == Some(o.target) {
        SelectTarget(layout, o);
        ok := SetBootfs(Current);
        AdvancesStep(old(layout), old(layout), layout, o);
        PromotedWasPromotable(old(layout), layout, o);
        return;
      }
      PendingPromotion(layout, o);
      ok := Displace(o);
      PromotedWasPromotable(old(layout), layout, o);
    }

    /** The target takes the source's place, over a fallback alias of the source. */
    method Displace(o: Operation) returns (ok: bool)
      modifies this
      ensures Degrading() && Advances(old(layout), layout, o)
      ensures destroys == old(destroys) || destroys == old(destroys) + [Whole(Recovery)]
      ensures ok ==> layout.From(Current, o.target) && layout.Boots(Current)
      ensures ok ==> layout == Installed(Demoted(FallbackSelected(old(layout), o), o))
      ensures ok ==> Recovery in layout.ds && layout.ds[Recovery].owner == FallbackOwner(old(layout), o)
      ensures ok && Current in old(layout).ds ==> old(layout).From(Current, o.source)
      ensures Undisturbed() && PromotionPending(old(layout), o) ==> ok
    {
      hide Advances, PromotionPending, Demoted, Installed, WithFallback, FallbackSelected, FallbackOwner;
      FallbackSelectedIs(layout, o);
      ok := SelectRecovery(o);
      if !ok { return; }
      ghost var selected := layout;
      ok := DemoteSource(o);
      AdvancesStep(old(layout), selected, layout, o);
      if !ok { return; }
      ghost var demoted := layout;
      PendingPromotion(layout, o);
      ok := InstallTarget(o);
      AdvancesStep(old(layout), demoted, layout, o);
    }

    /** Make the source current again, from wherever a promotion or an earlier attempt stopped. */
    method RestoreBoot(o: Operation) returns (ok: bool)
      modifies this
      ensures Degrading() && Restores(old(layout), layout, o)
      ensures destroys == old(destroys)
      ensures ok ==> layout.From(Current, o.source) && layout.Boots(Current)
      ensures ok ==> layout == Restored(old(layout), o)
      ensures Undisturbed() && o.source != o.target ==> (ok <==> Restorable(old(layout), o))
    {
      hide Restores;
      RestoresReflexive(layout, o);
      var found := Exists(Current);
      if found {
        var d := Property(Current);
        if d.None? { return false; }
        if d.value.origin == Some(o.source) {
          SelectSource(layout, o);
          ok := SetBootfs(Current);
          RestoresStep(old(layout), old(layout), layout, o);
          return;
        }
        if d.value.origin != Some(o.target) { return false; }
        d := Property(Recovery);
        if d.None? || d.value.origin != Some(o.source) { return false; }
        FallBack(layout, o);
        ok := SetBootfs(Recovery);
        RestoresStep(old(layout), old(layout), layout, o);
        if !ok { return; }
        found := Exists(Next);
        if found { return false; }
        ghost var selected := layout;
        if Next !in layout.ds { SetTargetAside(layout, o); }
        ok := Rename(Current, Next);
        RestoresStep(old(layout), selected, layout, o);
        if !ok { return; }
      }
      ok := PutBack(old(layout), o);
    }

    /** Rename the first of previous and recovery that holds the source to current, and select it. */
    method PutBack(ghost start: Layout, o: Operation) returns (ok: bool)
      requires Restores(start, layout, o)
      requires responsive ==> Current !in layout.ds
      modifies this
      ensures Degrading() && Restores(start, layout, o)
      ensures destroys == old(destroys)
      ensures ok ==> layout.From(Current, o.source) && layout.Boots(Current)
      ensures ok ==> old(responsive) && Current !in old(layout).ds && layout == PutInPlace(old(layout), o)
      ensures Undisturbed() ==> (ok <==> Restorable(old(layout), o))
    {
      hide Restores;
      var aliases := [Previous, Recovery];
      for i := 0 to 2
        invariant layout == old(layout) && Degrading() && Restores(start, layout, o)
        invariant destroys == old(destroys)
        invariant responsive && 0 < i ==> !layout.From(Previous, o.source)
        invariant responsive && 1 < i ==> !layout.From(Recovery, o.source)
      {
        var found := Exists(aliases[i]);
        if found {
          var d := Property(aliases[i]);
          if d.None? { return false; }
          if d.value.origin == Some(o.source) {
            PutSourceBack(layout, o, aliases[i]);
            ok := Rename(aliases[i], Current);
            RestoresStep(start, old(layout), layout, o);
            if !ok { return; }
            ghost var renamed := layout;
            SelectSource(layout, o);
            ok := SetBootfs(Current);
            RestoresStep(start, renamed, layout, o);
            return;
          }
        }
      }
      ok := false;
    }

    /**
     Promotions and restorations interrupted in any order, the pool coming back after each: the
     selected alias always boots the source or the target, and an undisturbed restoration then
     makes the source current.
     */
    method RestoreAfter(schedule: seq<bool>, o: Operation) returns (ok: bool, before: nat)
      requires o.source != o.target && Safe(layout, o)
      modifies this
      ensures Safe(layout, o) && SelectsRelease(layout, o)
      ensures ok ==> SourceCurrent(layout, o) && layout.Boots(Current)
      ensures IsOperationId(o.id) && UpdaterOwned(old(layout), o) ==> UpdaterOwned(layout, o)
      ensures faults == before ==> ok
    {
      hide Advances, Restores, Promotable, Restorable, Safe, SourceCurrent, TargetCurrent, UpdaterOwned, IsOperationId;
      for i := 0 to |schedule|
        invariant Safe(layout, o)
        invariant IsOperationId(o.id) && UpdaterOwned(old(layout), o) ==> UpdaterOwned(layout, o)
      {
        responsive := true;
        ghost var was := layout;
        if schedule[i] {
          var _ := Promote(o);
          AdvancesSafe(was, layout, o);
        } else {
          var _ := RestoreBoot(o);
          RestoresSafe(was, layout, o);
        }
      }
      responsive, before := true, faults;
      ghost var was := layout;
      SafeRestorable(layout, o);
      ok := RestoreBoot(o);
      RestoresSafe(was, layout, o);
      SafeSelects(layout, o);
    }

    /** Strip the trial token from the committed alias's command line. */
    method FinalizeCommit(o: Operation) returns (ok: bool)
      modifies `responsive, `faults, `layout
      ensures Degrading()
      ensures layout == old(layout) || (old(layout).From(Current, o.target) && layout == Finalized(old(layout)))
      ensures ok ==> old(layout).From(Current, o.target) && layout == Finalized(old(layout))
      ensures Undisturbed() && old(layout).Bootable(Current, o.target) ==> ok
    {
      var d := Property(Current);
      if d.None? || d.value.origin != Some(o.target) { return false; }
      d := Property(Current);
      if d.None? || d.value.cmdline.None? { return false; }
      ok := Set(Current, None, Some(d.value.cmdline.value.(trial := "")));
    }

    method List() returns (names: set<Name>, ok: bool)
      modifies `responsive, `faults
      ensures Degrading()
      ensures ok ==> responsive && names == layout.ds.Keys
      ensures Undisturbed() ==> ok
    {
      var effect;
      effect, ok := Attempt();
      names := if ok then layout.ds.Keys else {};
    }

    method ExistsBase(version: string) returns (found: bool)
      modifies `responsive, `faults
      ensures Degrading()
      ensures found ==> responsive && version in layout.snapshots
      ensures responsive ==> (found <==> version in layout.snapshots)
    {
      found := responsive && version in layout.snapshots;
      if responsive {
        if * { faults, responsive, found := faults + 1, false, false; }
      }
    }

    /** First loop of Cleanup: aliases that a finished operation no longer needs. */
    method ReclaimAliases(o: Operation, state: State) returns (ok: bool)
      modifies this
      ensures Degrading() && Shrinks(old(layout), layout)
      ensures old(destroys) <= destroys
      ensures forall i | |old(destroys)| <= i < |destroys| ::
                destroys[i].Whole? && OwnAlias(old(layout), o, state, destroys[i].name)
      ensures forall n | n in old(layout).ds && n !in layout.ds :: Reclaimable(n, state)
      ensures layout.snapshots == old(layout).snapshots
      ensures ok ==> layout.ds == Reclaimed(old(layout), state).ds
      ensures Undisturbed() ==>
                (ok <==> forall n | n in old(layout).ds && Reclaimable(n, state) :: OwnAlias(old(layout), o, state, n))
    {
      hide Shrinks, OwnAlias, IsOperationId, Reclaimed, Reclaimable;
      ShrinksReflexive(layout);
      var names;
      names, ok := List();
      if !ok { return; }
      while names != {}
        invariant Degrading() && Shrinks(old(layout), layout)
        invariant old(destroys) <= destroys
        invariant forall i | |old(destroys)| <= i < |destroys| ::
                    destroys[i].Whole? && OwnAlias(old(layout), o, state, destroys[i].name)
        invariant forall n | n in old(layout).ds && n !in layout.ds :: Reclaimable(n, state)
        invariant layout.snapshots == old(layout).snapshots
        invariant names <= layout.ds.Keys
        invariant forall n | n in layout.ds :: n in old(layout).ds && layout.ds[n] == old(layout).ds[n]
        invariant forall n | n in layout.ds && Reclaimable(n, state) :: n in names
        invariant forall n | n in old(layout).ds && Reclaimable(n, state) && n !in names ::
            OwnAlias(old(layout), o, state, n)
        decreases names
      {
        var name :| name in names;
        names := names - {name};
        if Reclaimable(name, state) {
          ok := Reclaim(old(layout), o, state, name);
          if !ok { return; }
        }
      }
      ReclaimedIs(old(layout), layout, state);
      ok := true;
    }

    /** Destroy one reclaimable alias, refusing one that no updater, or another operation, owns. */
    method Reclaim(ghost start: Layout, o: Operation, state: State, name: Name) returns (ok: bool)
      requires Shrinks(start, layout) && Reclaimable(name, state) && name in layout.ds
      modifies this
      ensures Degrading() && Shrinks(start, layout)
      ensures destroys == old(destroys) ||
              (destroys == old(destroys) + [Whole(name)] && OwnAlias(start, o, state, name))
      ensures layout == old(layout) || layout == old(layout).Without(name)
      ensures ok ==> layout == old(layout).Without(name) && OwnAlias(start, o, state, name)
      ensures Undisturbed() ==> (ok <==> OwnAlias(start, o, state, name))
    {
      var d := Property(name);
      if d.None? || !IsOperationId(d.value.owner) { return false; }
      if name == Next && d.value.owner != o.id { return false; }
      ok := Destroy(name);
    }

    /** The releases that current, previous, next, live and recovery still originate from. */
    method ProtectedOrigins() returns (protected: set<string>, ok: bool)
      modifies `responsive, `faults
      ensures Degrading()
      ensures ok && responsive ==> forall version :: InUse(layout, version) <==> version in protected
      ensures Undisturbed() ==> ok
    {
      protected := {};
      var aliases := [Current, Previous, Next, Live, Recovery];
      for i := 0 to 5
        invariant Degrading()
        invariant responsive ==>
                  forall j, version | 0 <= j < i && layout.From(aliases[j], version) :: version in protected
        invariant forall version | version in protected :: InUse(layout, version)
      {
        var found := Exists(aliases[i]);
        if found {
          var d := Property(aliases[i]);
          if d.None? { return protected, false; }
          if d.value.origin.Some? { protected := protected + {d.value.origin.value}; }
        }
      }
      assert forall version | InUse(layout, version) ::
          exists j | 0 <= j < 5 :: layout.From(aliases[j], version) by {
        assert aliases[0] == Current && aliases[1] == Previous && aliases[2] == Next
               && aliases[3] == Live && aliases[4] == Recovery;
      }
      ok := true;
    }

    /** Destroy one unused release: its @base first, then the dataset. */
    method DestroyRelease(ghost start: Layout, version: string) returns (ok: bool)
      requires Shrinks(start, layout)
      modifies this
      ensures Degrading() && Shrinks(start, layout)
      ensures old(destroys) <= destroys
      ensures forall i | |old(destroys)| <= i < |destroys| ::
                destroys[i] == Base(version) || destroys[i] == Whole(Release(version))
      ensures layout.ds == old(layout).ds || layout.ds == old(layout).ds - {Release(version)}
      ensures ok ==> layout.ds == old(layout).ds - {Release(version)}
      ensures ok && Release(version) in old(layout).ds ==> version !in layout.snapshots
      ensures layout.snapshots == old(layout).snapshots || layout.snapshots == old(layout).snapshots - {version}
      ensures ok && Release(version) in old(layout).ds ==> Freeable(old(layout), version)
      ensures Undisturbed() && Release(version) in old(layout).ds ==> (ok <==> Freeable(old(layout), version))
    {
      ok := true;
      var found := ExistsBase(version);
      if found {
        ok := DestroyBase(version);
        if !ok { return; }
      }
      ok := Destroy(Release(version));
    }

    /** Second loop of Cleanup: releases this updater owns and no alias originates from. */
    method DestroyUnusedReleases(protected: set<string>) returns (ok: bool)
      modifies this
      ensures Degrading() && Shrinks(old(layout), layout)
      ensures old(destroys) <= destroys
      ensures forall i | |old(destroys)| <= i < |destroys| ::
                ReleaseVictim(old(layout), protected, destroys[i])
      ensures forall n | n in old(layout).ds && !n.Release? :: n in layout.ds
      ensures !old(responsive) ==> layout == old(layout) && destroys == old(destroys) && !ok
      ensures ok ==> forall version | OwnRelease(layout, version) :: version in protected
      ensures ok ==> forall version | OwnRelease(old(layout), version) && version !in protected ::
                version !in layout.snapshots
      ensures Undisturbed() && Originals(old(layout)) ==>
                (ok <==> forall version | OwnRelease(old(layout), version) && version !in protected ::
                    Freeable(old(layout), version))
    {
      hide Shrinks, IsOperationId, ReleaseVictim, Freeable, Originals, Sweeping, OwnRelease;
      ShrinksReflexive(layout);
      var names;
      names, ok := List();
      if !ok { return; }
      SweepStarts(layout, protected);
      while names != {}
        invariant Degrading() && Shrinks(old(layout), layout)
        invariant old(destroys) <= destroys && names <= layout.ds.Keys
        invariant forall i | |old(destroys)| <= i < |destroys| ::
                    ReleaseVictim(old(layout), protected, destroys[i])
        invariant forall n | n in old(layout).ds && !n.Release? :: n in layout.ds
        invariant Sweeping(old(layout), layout, protected, names)
        decreases names
      {
        var name :| name in names;
        SweepNext(old(layout), layout, protected, names, name);
        ghost var all := names;
        names := names - {name};
        if name.Release? && name.version in protected { continue; }
        var d := Property(name);
        if d.None? { return false; }
        if !IsOperationId(d.value.owner) { continue; }
        if !name.Release? { continue; }
        VictimOf(old(layout), protected, name.version);
        ghost var before := layout;
        ok := DestroyRelease(old(layout), name.version);
        if !ok { return; }
        SweptRelease(old(layout), before, layout, protected, all, name.version);
      }
      SweepEnds(old(layout), layout, protected);
      ok := true;
    }

    /**
     Reclaim what a finished operation no longer needs.  From any layout, interrupted anywhere and
     re-run, every destroy command it issues is Disposable: owned by an updater, and never a
     release that a boot alias left in place still originates from.
     */
    method Cleanup(o: Operation, state: State) returns (ok: bool)
      modifies this
      ensures Degrading() && Shrinks(old(layout), layout)
      ensures old(destroys) <= destroys
      ensures forall i | |old(destroys)| <= i < |destroys| ::
                Disposable(old(layout), layout, o, state, destroys[i])
      ensures forall n | n in old(layout).ds && n !in layout.ds :: n.Release? || Reclaimable(n, state)
      // `next` goes only once it has been given up, a retired alias only once the target is committed
      ensures forall i | |old(destroys)| <= i < |destroys| && destroys[i] == Whole(Next) ::
                state == Recovered || state == Failed
      ensures forall i | |old(destroys)| <= i < |destroys| && destroys[i].Whole? && destroys[i].name.Retired? ::
                state == Committed
      ensures ok && (state == Recovered || state == Failed) ==> Next !in layout.ds
      ensures ok && state == Committed ==> NoneRetired(layout)
      // a completed run leaves nothing of its own behind
      ensures ok ==> forall n | n in layout.ds :: !Reclaimable(n, state)
      ensures ok ==> forall version | OwnRelease(layout, version) :: InUse(layout, version)
      // and it completes only if no other clone still needs a release it had to destroy
      ensures ok ==> forall version, n | OwnRelease(old(layout), version) && !InUse(layout, version)
                       && version in old(layout).snapshots && n in layout.ds :: !layout.From(n, version)
      ensures Undisturbed() && Originals(old(layout)) ==> (ok <==> Cleanable(old(layout), o, state))
    {
      hide Shrinks, Disposable, InUse, OwnAlias, OwnRelease, Freeable, Originals;
      DisposableAliases(old(layout), o, state);
      ok := ReclaimAliases(o, state);
      OwnAliasesDisposable(old(layout), layout, o, state);
      if !ok { return; }
      ghost var reclaimed := layout;
      ReclaimedAgrees(old(layout), reclaimed, o, state);
      ghost var issued := destroys;
      var protected;
      protected, ok := ProtectedOrigins();
      if !ok { return; }
      ghost var answering := responsive;
      ok := DestroyUnusedReleases(protected);
      OwnAliasesDisposable(old(layout), layout, o, state);
      if answering {
        CleanupOutcome(old(layout), reclaimed, layout, o, state, protected, destroys[|issued|..], ok);
      }
    }
  }

  /** Only removals: what is left is unchanged, and no clone lost the snapshot it came from. */
  ghost predicate Shrinks(a: Layout, b: Layout) {
    && (forall n | n in b.ds :: n in a.ds && b.ds[n] == a.ds[n])
    && (forall n | n in {Current, Previous, Recovery, Live} && n in a.ds :: n in b.ds)
    && (b.bootfs == a.bootfs || b.bootfs == None)
    && (a.bootfs.Some? && a.bootfs.value in b.ds ==> b.bootfs == a.bootfs)
    && b.snapshots <= a.snapshots
    && (forall n | n in b.ds && b.ds[n].origin.Some? && b.ds[n].origin.value in a.snapshots ::
          b.ds[n].origin.value in b.snapshots)
    && (forall v | v in b.snapshots && Release(v) in a.ds :: Release(v) in b.ds)
  }

  predicate ReleaseVictim(start: Layout, protected: set<string>, victim: Victim) {
    match victim
    case Whole(Release(version)) => OwnRelease(start, version) && version !in protected
    case Whole(name) => false
    case Base(version) => OwnRelease(start, version) && version !in protected
  }

  lemma VictimOf(start: Layout, protected: set<string>, version: string)
    requires OwnRelease(start, version) && version !in protected
    ensures ReleaseVictim(start, protected, Base(version)) && ReleaseVictim(start, protected, Whole(Release(version)))
  {
  }

  /** The second loop with `names` still to look at. */
  ghost predicate Sweeping(a: Layout, b: Layout, protected: set<string>, names: set<Name>) {
    && (forall n | n in b.ds :: n in a.ds && b.ds[n] == a.ds[n])
    && (forall n | n in a.ds && !n.Release? :: n in b.ds)
    && (forall v | OwnRelease(b, v) && v !in protected :: Release(v) in names)
    && (forall v | OwnRelease(a, v) && v !in protected :: Release(v) in names || v !in b.snapshots)
    && (forall v | Release(v) in names :: v in b.snapshots <==> v in a.snapshots)
    && (Originals(a) ==> forall v | OwnRelease(a, v) && v !in protected :: Release(v) in names || Freeable(a, v))
  }

  lemma SweepStarts(a: Layout, protected: set<string>)
    ensures Sweeping(a, a, protected, a.ds.Keys)
  {
    hide IsOperationId, Freeable;
  }

  /** A release that is protected or not an updater's own is passed over; the others can be judged from the start. */
  lemma SweepNext(a: Layout, b: Layout, protected: set<string>, names: set<Name>, name: Name)
    requires Sweeping(a, b, protected, names) && name in names && name in b.ds
    ensures name in a.ds && b.ds[name] == a.ds[name]
    ensures !name.Release? || name.version in protected || !IsOperationId(b.ds[name].owner) ==>
              Sweeping(a, b, protected, names - {name})
    ensures name.Release? && IsOperationId(b.ds[name].owner) ==> OwnRelease(a, name.version)
    ensures name.Release? && Originals(a) ==> (Freeable(b, name.version) <==> Freeable(a, name.version))
  {
    hide IsOperationId, Freeable;
    if name.Release? && Originals(a) { FreeableSame(a, b, name.version); }
  }

  lemma SweptRelease(a: Layout, b: Layout, c: Layout, protected: set<string>, names: set<Name>, version: string)
    requires Sweeping(a, b, protected, names) && Release(version) in names && Release(version) in b.ds
    requires c.ds == b.ds - {Release(version)} && version !in c.snapshots
    requires c.snapshots == b.snapshots || c.snapshots == b.snapshots - {version}
    requires Originals(a) ==> Freeable(a, version)
    ensures Sweeping(a, c, protected, names - {Release(version)})
  {
    hide IsOperationId, Freeable;
  }

  lemma SweepEnds(a: Layout, b: Layout, protected: set<string>)
    requires Sweeping(a, b, protected, {})
    ensures forall v | OwnRelease(b, v) :: v in protected
    ensures forall v | OwnRelease(a, v) && v !in protected :: v !in b.snapshots
    ensures Originals(a) ==> forall v | OwnRelease(a, v) && v !in protected :: Freeable(a, v)
  {
    hide IsOperationId, Freeable;
  }

  /** Destroying releases frees no other release: none of them is a clone. */
  lemma FreeableSame(a: Layout, b: Layout, version: string)
    requires Originals(a) && (version in b.snapshots <==> version in a.snapshots)
    requires forall n | n in b.ds :: n in a.ds && b.ds[n] == a.ds[n]
    requires forall n | n in a.ds && !n.Release? :: n in b.ds
    ensures Freeable(b, version) <==> Freeable(a, version)
  {
    if Freeable(b, version) && version in a.snapshots {
      forall n | n in a.ds ensures !a.From(n, version) {
        if !n.Release? { assert !b.From(n, version); }
      }
    }
  }

  lemma ReclaimedIs(start: Layout, mid: Layout, state: State)
    requires forall n | n in mid.ds :: n in start.ds && mid.ds[n] == start.ds[n]
    requires forall n | n in start.ds && n !in mid.ds :: Reclaimable(n, state)
    requires forall n | n in mid.ds :: !Reclaimable(n, state)
    ensures mid.ds == Reclaimed(start, state).ds
  {
    hide Reclaimable;
  }

  /** The second loop decides on the layout the first one leaves. */
  lemma ReclaimedAgrees(start: Layout, mid: Layout, o: Operation, state: State)
    requires mid.ds == Reclaimed(start, state).ds && mid.snapshots == start.snapshots
    ensures Originals(start) ==> Originals(mid)
    ensures forall version :: InUse(mid, version) <==> InUse(Reclaimed(start, state), version)
    ensures forall version :: Freeable(mid, version) <==> Freeable(Reclaimed(start, state), version)
    ensures forall version :: OwnRelease(mid, version) <==> OwnRelease(start, version)
  {
  }

  lemma ShrinksFacts(a: Layout, b: Layout)
    requires Shrinks(a, b)
    ensures b.snapshots <= a.snapshots
    ensures forall n | n in b.ds :: n in a.ds && b.ds[n] == a.ds[n]
    ensures forall n, v | b.From(n, v) && v in a.snapshots :: v in b.snapshots
  {
  }

  lemma OwnAliasesDisposable(start: Layout, end: Layout, o: Operation, state: State)
    ensures forall victim: Victim | victim.Whole? && OwnAlias(start, o, state, victim.name) ::
              Disposable(start, end, o, state, victim)
  {
  }

  lemma DisposableAliases(start: Layout, o: Operation, state: State)
    ensures forall end, victim: Victim | Disposable(start, end, o, state, victim) && victim.Whole? ::
              && (victim.name == Next ==> state == Recovered || state == Failed)
              && (victim.name.Retired? ==> state == Committed)
  {
  }

  /** Both loops together: what was issued, what is left, and what completion implies. */
  lemma CleanupOutcome(start: Layout, mid: Layout, end: Layout, o: Operation, state: State,
                       protected: set<string>, issued: seq<Victim>, ok: bool)
    requires Shrinks(start, mid) && Shrinks(mid, end) && mid.snapshots == start.snapshots
    requires forall n | n in start.ds && n !in mid.ds :: Reclaimable(n, state)
    requires forall n | n in mid.ds && !n.Release? :: n in end.ds
    requires forall version | InUse(mid, version) :: version in protected
    requires forall i | 0 <= i < |issued| :: ReleaseVictim(mid, protected, issued[i])
    requires ok ==> forall version | OwnRelease(end, version) :: version in protected
    requires ok ==> forall version | OwnRelease(mid, version) && version !in protected :: version !in end.snapshots
    requires forall version | version in protected :: InUse(mid, version)
    requires forall n | n in mid.ds :: !Reclaimable(n, state)
    ensures Shrinks(start, end)
    ensures forall n | n in end.ds :: !Reclaimable(n, state)
    ensures forall n | n in start.ds && n !in end.ds :: n.Release? || Reclaimable(n, state)
    ensures forall i | 0 <= i < |issued| :: Disposable(start, end, o, state, issued[i])
    ensures ok ==> forall version | OwnRelease(end, version) :: InUse(end, version)
    ensures ok ==> forall version, n | OwnRelease(start, version) && !InUse(end, version)
                     && version in start.snapshots && n in end.ds :: !end.From(n, version)
  {
    hide Shrinks;
    ShrinksTransitive(start, mid, end);
    ShrinksFacts(start, mid);
    ShrinksFacts(mid, end);
    ShrinksFacts(start, end);
    assert forall version :: InUse(mid, version) <==> InUse(end, version);
    forall i | 0 <= i < |issued| ensures Disposable(start, end, o, state, issued[i]) {
      assert ReleaseVictim(mid, protected, issued[i]);
    }
  }

  lemma ShrinksTransitive(a: Layout, b: Layout, c: Layout)
    requires Shrinks(a, b) && Shrinks(b, c)
    ensures Shrinks(a, c)
  {
  }

  lemma ShrinksReflexive(a: Layout)
    ensures Shrinks(a, a)
  {
  }

  function Finalized(l: Layout): Layout {
    if Current in l.ds && l.ds[Current].cmdline.Some? then
      WithSet(l, Current, None, Some(l.ds[Current].cmdline.value.(trial := "")))
    else l
  }

  predicate Vetoed(l: Layout, victim: Victim) {
    match victim
    case Whole(name) => name.Release? && name.version in l.snapshots
    case Base(version) => exists n | n in l.ds :: l.ds[n].origin == Some(version)
  }

  /** Promotion still has work to do and nothing refuses it. */
  ghost predicate PromotionPending(l: Layout, o: Operation) {
    Promotable(l, o) && !l.From(Current, o.target)
  }

  lemma PromotedWasPromotable(a: Layout, b: Layout, o: Operation)
    requires Advances(a, b, o)
    ensures o.source != o.target && b.From(Current, o.target) ==> Promotable(a, o)
    ensures o.source != o.target && b.From(Current, o.target) && Safe(a, o) ==> TargetCurrent(b, o)
    ensures o.source != o.target && IsOperationId(o.id) && UpdaterOwned(a, o) ==> UpdaterOwned(b, o)
  {
  }

  lemma SafeSelects(l: Layout, o: Operation)
    requires Safe(l, o)
    ensures SelectsRelease(l, o)
    ensures l.From(Current, o.source) && o.source != o.target ==> SourceCurrent(l, o)
  {
  }

  lemma SafeRestorable(l: Layout, o: Operation)
    requires Safe(l, o)
    ensures Restorable(l, o)
  {
  }

  lemma AdvancesSafe(a: Layout, b: Layout, o: Operation)
    requires Advances(a, b, o) && o.source != o.target && Safe(a, o)
    ensures Safe(b, o)
  {
  }

  lemma RestoresSafe(a: Layout, b: Layout, o: Operation)
    requires Restores(a, b, o) && o.source != o.target && Safe(a, o)
    ensures Safe(b, o) && (UpdaterOwned(a, o) ==> UpdaterOwned(b, o))
  {
  }

  lemma PendingPromotion(l: Layout, o: Operation)
    ensures Promotable(l, o) && !l.From(Current, o.target) <==> PromotionPending(l, o)
    ensures PromotionPending(l, o) ==> l.From(Next, o.target)
  {
  }

  function WithSet(l: Layout, name: Name, owner: Option<string>, cmdline: Option<Cmdline>): Layout
    requires name in l.ds
  {
    var d := l.ds[name];
    l.WithProperties(name, if owner.Some? then owner.value else d.owner,
                     if cmdline.Some? then cmdline else d.cmdline)
  }
}
