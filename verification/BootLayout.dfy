/**
 The boot-alias namespace under floatlab/os as a value: which datasets exist, what each was
 cloned from, and which one the pool's bootfs property selects.
 */
module BootLayout {
  import opened Identifiers
  import opened Options

  /** The ZFSBootMenu command line of an alias: the release it starts and its trial token. */
  datatype Cmdline = Cmdline(version: string, trial: string)

  /** A dataset.  `origin` names the release whose @base snapshot it was cloned from. */
  datatype Dataset = Dataset(origin: Option<string>, owner: string, cmdline: Option<Cmdline>)

  /** Children of floatlab/os.  Release names never collide with alias names. */
  datatype Name =
    | Current | Previous | Next | Recovery | Live
    | Retired(operation: string)
    | Release(version: string)
    | Foreign(path: string)

  type Datasets = map<Name, Dataset>

  /** `bootfs` selects a dataset and follows it through renames.  `snapshots` are the @base ones. */
  datatype Layout = Layout(ds: Datasets, snapshots: set<string>, bootfs: Option<Name>) {
    predicate From(name: Name, version: string) {
      name in ds && ds[name].origin == Some(version)
    }

    /** The initrd accepts an alias only when its version and init match its origin. */
    predicate Bootable(name: Name, version: string) {
      From(name, version) && ds[name].cmdline.Some? && ds[name].cmdline.value.version == version
    }

    predicate Boots(name: Name) {
      name in ds && bootfs == Some(name)
    }

    function Renamed(source: Name, target: Name): Layout
      requires source in ds
    {
      this.(ds := ds[target := ds[source]] - {source},
            bootfs := if bootfs == Some(source) then Some(target) else bootfs)
    }

    function WithProperties(name: Name, owner: string, cmdline: Option<Cmdline>): Layout
      requires name in ds
    {
      this.(ds := ds[name := ds[name].(owner := owner, cmdline := cmdline)])
    }

    function Cloned(version: string, target: Name, owner: string): Layout {
      this.(ds := ds[target := Dataset(Some(version), owner, None)])
    }

    function Without(name: Name): Layout {
      this.(ds := ds - {name}, bootfs := if bootfs == Some(name) then None else bootfs)
    }

    function Selecting(name: Name): Layout {
      this.(bootfs := Some(name))
    }
  }

  /** Host update states; `save` writes the same name to State and Phase. */
  datatype State =
    | Idle | Staging | Staged | Arming | Armed | Trial | Ready
    | Committing | Committed | Recovering | Recovered | Failed

  predicate Terminal(state: State) {
    state == Idle || state == Committed || state == Recovered || state == Failed
  }

  /** What a destroy command can name. */
  datatype Victim = Whole(name: Name) | Base(version: string)

  /** What Promote, RestoreBoot and Cleanup read from the durable update record. */
  datatype Operation = Operation(id: string, source: string, target: string, hostId: string)

  /** Current is the source; the fallback alias may be the selected one. */
  predicate SourceCurrent(l: Layout, o: Operation) {
    && l.Bootable(Current, o.source)
    && (l.Boots(Current) || (l.Boots(Recovery) && l.Bootable(Recovery, o.source)))
  }

  /** Between the two renames nothing is called current; the fallback alias is selected. */
  predicate Parked(l: Layout, o: Operation) {
    && Current !in l.ds
    && l.Bootable(Previous, o.source)
    && l.Bootable(Recovery, o.source)
    && l.Boots(Recovery)
    && l.Bootable(Next, o.target)
  }

  predicate TargetCurrent(l: Layout, o: Operation) {
    && l.Bootable(Current, o.target)
    && l.Bootable(Previous, o.source)
    && l.Bootable(Recovery, o.source)
    && Next !in l.ds
    && (l.Boots(Current) || l.Boots(Recovery))
  }

  /** Every layout an interrupted promotion or restoration can leave behind. */
  predicate Safe(l: Layout, o: Operation) {
    || (SourceCurrent(l, o) && l.Bootable(Next, o.target))
    || Parked(l, o)
    || TargetCurrent(l, o)
  }

  /** The selected alias exists, and the initrd accepts it as the source or the target. */
  predicate SelectsRelease(l: Layout, o: Operation) {
    && l.bootfs.Some? && l.bootfs.value in l.ds
    && (l.Bootable(l.bootfs.value, o.source) || l.Bootable(l.bootfs.value, o.target))
  }

  /** `trial` is the token of whichever alias, Current or Next, carries the target. */
  predicate TrialToken(l: Layout, o: Operation, trial: string) {
    && (l.Bootable(Current, o.target) ==> l.ds[Current].cmdline.value.trial == trial)
    && (l.Bootable(Next, o.target) ==> l.ds[Next].cmdline.value.trial == trial)
  }

  /** Some alias a boot could still use was cloned from this release. */
  predicate InUse(l: Layout, version: string) {
    || l.From(Current, version) || l.From(Previous, version) || l.From(Next, version)
    || l.From(Live, version) || l.From(Recovery, version)
  }

  /** The boot aliases cleanup reclaims, by the state the operation ended in. */
  predicate Reclaimable(name: Name, state: State) {
    || (name.Retired? && IsOperationId(name.operation) && state == Committed)
    || (name == Next && (state == Recovered || state == Failed))
  }

  /** No older alias is left over from a promotion. */
  ghost predicate NoneRetired(l: Layout) {
    forall id | IsOperationId(id) :: Retired(id) !in l.ds
  }

  /** A boot alias this operation may reclaim: an updater's own, and `next` only its own. */
  predicate OwnAlias(start: Layout, o: Operation, state: State, name: Name) {
    && name in start.ds && IsOperationId(start.ds[name].owner) && Reclaimable(name, state)
    && (name == Next ==> start.ds[name].owner == o.id)
  }

  predicate OwnRelease(start: Layout, version: string) {
    Release(version) in start.ds && IsOperationId(start.ds[Release(version)].owner)
  }

  /** What cleanup may destroy: its own reclaimable aliases, and unused updater-owned releases. */
  predicate Disposable(start: Layout, end: Layout, o: Operation, state: State, victim: Victim) {
    match victim
    case Whole(Release(version)) => OwnRelease(start, version) && !InUse(end, version)
    case Whole(name) => OwnAlias(start, o, state, name)
    case Base(version) => OwnRelease(start, version) && !InUse(end, version)
  }

  /** What is left of a layout once the reclaimable aliases are gone. */
  function Reclaimed(l: Layout, state: State): Layout {
    l.(ds := map n | n in l.ds && !Reclaimable(n, state) :: l.ds[n])
  }

  /** Releases are datasets of their own, never clones. */
  predicate Originals(l: Layout) {
    forall n | n in l.ds && n.Release? :: l.ds[n].origin.None?
  }

  /** No dataset was cloned from the release, if it has a snapshot to clone from. */
  predicate Freeable(l: Layout, version: string) {
    version in l.snapshots ==> forall n | n in l.ds :: !l.From(n, version)
  }

  /** Where cleanup completes: every reclaimable alias is its own, and no other clone holds on to an unused release. */
  ghost predicate Cleanable(l: Layout, o: Operation, state: State) {
    && (forall n | n in l.ds && Reclaimable(n, state) :: OwnAlias(l, o, state, n))
    && (forall version | OwnRelease(l, version) && !InUse(Reclaimed(l, state), version) ::
        Freeable(Reclaimed(l, state), version))
  }

  /** No alias of the source carries a trial token. */
  predicate SourceTokenless(l: Layout, o: Operation) {
    forall n | n in {Current, Previous, Next, Recovery} && l.Bootable(n, o.source) :: l.ds[n].cmdline.value.trial == ""
  }

  predicate RecoveryReady(l: Layout, o: Operation) {
    || l.From(Recovery, o.source)
    || (o.source in l.snapshots && (Recovery !in l.ds || IsOperationId(l.ds[Recovery].owner)))
  }

  predicate PreviousReady(l: Layout, o: Operation) {
    Previous in l.ds ==>
      l.ds[Previous].owner != "-" && l.ds[Previous].owner != "" && Retired(o.id) !in l.ds
  }

  /** What promotion refuses: foreign aliases, a reused retired name, a bad host identity. */
  predicate Promotable(l: Layout, o: Operation) {
    || l.From(Current, o.target)
    || (&& RecoveryReady(l, o)
        && IsHostId(o.hostId)
        && (Current in l.ds ==> l.From(Current, o.source) && PreviousReady(l, o))
        && l.From(Next, o.target))
  }

  /** The fallback alias, and the one a promotion demoted, carry an updater's mark. */
  predicate UpdaterOwned(l: Layout, o: Operation) {
    && (Recovery in l.ds ==> IsOperationId(l.ds[Recovery].owner))
    && (Previous in l.ds && (Current !in l.ds || l.From(Current, o.target)) ==> IsOperationId(l.ds[Previous].owner))
  }

  /** With a fallback alias of the source: the one there is, or a new one that replaces a stale one. */
  function WithFallback(l: Layout, o: Operation): Layout {
    if l.From(Recovery, o.source) then l
    else (if Recovery in l.ds then l.Without(Recovery) else l).Cloned(o.source, Recovery, o.id)
  }

  function FallbackSelected(l: Layout, o: Operation): Layout {
    var f := WithFallback(l, o);
    f.WithProperties(Recovery, f.ds[Recovery].owner, Some(Cmdline(o.source, ""))).Selecting(Recovery)
  }

  function PreviousAside(l: Layout, o: Operation): Layout {
    if Previous in l.ds then l.Renamed(Previous, Retired(o.id)) else l
  }

  function Demoted(l: Layout, o: Operation): Layout {
    if Current !in l.ds then l
    else
      var m := PreviousAside(l, o);
      m.WithProperties(Current, o.id, m.ds[Current].cmdline).Renamed(Current, Previous)
  }

  function Installed(l: Layout): Layout {
    if Next in l.ds then l.Renamed(Next, Current).Selecting(Current) else l
  }

  /** Where a promotion ends. */
  function Promoted(l: Layout, o: Operation): Layout {
    if l.From(Current, o.target) then l.Selecting(Current) else Installed(Demoted(FallbackSelected(l, o), o))
  }

  function PutInPlace(l: Layout, o: Operation): Layout {
    if l.From(Previous, o.source) then l.Renamed(Previous, Current).Selecting(Current)
    else if l.From(Recovery, o.source) then l.Renamed(Recovery, Current).Selecting(Current)
    else l
  }

  /** Where a restoration ends. */
  function Restored(l: Layout, o: Operation): Layout {
    if l.From(Current, o.source) then l.Selecting(Current)
    else PutInPlace(if Current in l.ds then l.Selecting(Recovery).Renamed(Current, Next) else l, o)
  }

  /** The older previous alias under its retired name, if there is one. */
  function SetAside(l: Layout, o: Operation): Datasets {
    if Previous in l.ds then map[Retired(o.id) := l.ds[Previous]] else map[]
  }

  function Fallback(l: Layout, o: Operation): Dataset {
    Dataset(Some(o.source), FallbackOwner(l, o), Some(Cmdline(o.source, "")))
  }

  lemma FallbackSelectedIs(l: Layout, o: Operation)
    ensures FallbackSelected(l, o).ds == l.ds[Recovery := Fallback(l, o)]
    ensures FallbackSelected(l, o).snapshots == l.snapshots && FallbackSelected(l, o).Boots(Recovery)
  {
  }

  lemma DemotedIs(l: Layout, o: Operation)
    requires Current in l.ds && l.Boots(Recovery)
    ensures Demoted(l, o).ds == (l.ds - {Current, Previous} + SetAside(l, o))[Previous := l.ds[Current].(owner := o.id)]
    ensures Demoted(l, o).snapshots == l.snapshots
  {
    var m := PreviousAside(l, o);
    assert m.ds == l.ds - {Previous} + SetAside(l, o);
  }

  /**
   A restoration undoes a promotion: source and target are back where they were, apart from the
   mark on the source, the prepared fallback, and the older alias, which stays set aside.
   */
  lemma RestorationUndoesPromotion(l: Layout, o: Operation)
    requires o.source != o.target && SourceCurrent(l, o) && l.From(Next, o.target)
    ensures var r := Restored(Promoted(l, o), o);
            && r.snapshots == l.snapshots && r.Boots(Current)
            && r.ds == (l.ds - {Previous} + SetAside(l, o))
                         [Current := l.ds[Current].(owner := o.id)][Recovery := Fallback(l, o)]
  {
    var f := FallbackSelected(l, o);
    var d := Demoted(f, o);
    var p := Promoted(l, o);
    FallbackSelectedIs(l, o);
    DemotedIs(f, o);
    hide FallbackSelected, Demoted, Fallback, SourceCurrent;
    assert p.ds == (d.ds - {Next})[Current := l.ds[Next]] && p.snapshots == l.snapshots;
    assert l.ds[Next] == p.ds[Current] && p.ds[Previous] == l.ds[Current].(owner := o.id);
    hide SetAside, Promoted, Installed;
    RestoredIs(p, o);
  }

  lemma RestoredIs(p: Layout, o: Operation)
    requires o.source != o.target && p.From(Current, o.target) && Next !in p.ds && p.From(Previous, o.source)
    ensures Restored(p, o).ds == (p.ds - {Previous})[Next := p.ds[Current]][Current := p.ds[Previous]]
    ensures Restored(p, o).snapshots == p.snapshots && Restored(p, o).Boots(Current)
  {
  }

  /** A fallback alias of the source keeps its owner; one made for this promotion is marked as its own. */
  function FallbackOwner(l: Layout, o: Operation): string {
    if l.From(Recovery, o.source) then l.ds[Recovery].owner else o.id
  }

  /** What every step of a promotion keeps, whether or not the next step happens. */
  ghost predicate Advances(a: Layout, b: Layout, o: Operation) {
    && b.snapshots == a.snapshots
    && (Live in a.ds ==> Live in b.ds && b.ds[Live] == a.ds[Live])
    && (o.source != o.target ==>
          && (Safe(a, o) ==> Safe(b, o))
          && (SourceTokenless(a, o) ==> SourceTokenless(b, o))
          && (Promotable(a, o) <==> Promotable(b, o))
          && (IsOperationId(o.id) && UpdaterOwned(a, o) ==> UpdaterOwned(b, o))
          && (forall trial :: TrialToken(a, o, trial) ==> TrialToken(b, o, trial)))
  }

  /** A stale fallback alias may go: it is neither selected nor the one promotion relies on. */
  lemma DropStaleRecovery(a: Layout, o: Operation)
    requires Recovery in a.ds && !a.From(Recovery, o.source) && IsOperationId(a.ds[Recovery].owner)
    ensures Advances(a, a.Without(Recovery), o)
  {
  }

  lemma CloneRecovery(a: Layout, o: Operation)
    requires Recovery !in a.ds && o.source in a.snapshots
    ensures Advances(a, a.Cloned(o.source, Recovery, o.id), o)
  {
  }

  lemma PrepareRecovery(a: Layout, o: Operation)
    requires a.From(Recovery, o.source)
    ensures Advances(a, a.WithProperties(Recovery, a.ds[Recovery].owner, Some(Cmdline(o.source, ""))), o)
  {
  }

  lemma SelectPreparedRecovery(a: Layout, o: Operation)
    requires a.Bootable(Recovery, o.source)
    ensures Advances(a, a.Selecting(Recovery), o)
  {
  }

  lemma RetirePrevious(a: Layout, o: Operation)
    requires a.From(Current, o.source) && a.Boots(Recovery)
    requires Previous in a.ds && Retired(o.id) !in a.ds
    requires a.ds[Previous].owner != "-" && a.ds[Previous].owner != ""
    ensures Advances(a, a.Renamed(Previous, Retired(o.id)), o)
  {
  }

  lemma ClaimCurrent(a: Layout, o: Operation)
    requires a.From(Current, o.source)
    ensures Advances(a, a.WithProperties(Current, o.id, a.ds[Current].cmdline), o)
  {
  }

  /** Demoting the source is safe only once a prepared fallback alias is selected. */
  lemma DemoteCurrent(a: Layout, o: Operation)
    requires a.From(Current, o.source) && a.ds[Current].owner == o.id && Previous !in a.ds
    requires a.Bootable(Recovery, o.source) && a.Boots(Recovery)
    ensures Advances(a, a.Renamed(Current, Previous), o)
  {
  }

  lemma InstallNext(a: Layout, o: Operation)
    requires Current !in a.ds && a.From(Next, o.target) && IsHostId(o.hostId)
    requires a.Bootable(Recovery, o.source) && a.Boots(Recovery)
    ensures Advances(a, a.Renamed(Next, Current), o)
  {
  }

  lemma SelectTarget(a: Layout, o: Operation)
    requires a.From(Current, o.target)
    ensures Advances(a, a.Selecting(Current), o)
  {
  }

  /** One more command, which took effect or did not. */
  lemma AdvancesStep(a: Layout, b: Layout, c: Layout, o: Operation)
    requires Advances(a, b, o) && (c == b || Advances(b, c, o))
    ensures Advances(a, c, o)
  {
  }

  /** With everything updater-owned, the release a promotion installed can be promoted away again. */
  lemma NextUpdatePromotable(l: Layout, o: Operation, next: Operation, d: Dataset)
    requires TargetCurrent(l, o) && UpdaterOwned(l, o) && o.target in l.snapshots
    requires next.source == o.target && IsHostId(next.hostId) && Retired(next.id) !in l.ds
    requires d.origin == Some(next.target)
    ensures RecoveryReady(l, next)
    ensures Promotable(l.(ds := l.ds[Next := d]), next)
  {
  }

  lemma AdvancesReflexive(a: Layout, o: Operation)
    ensures Advances(a, a, o)
  {
  }

  predicate SelectsSource(l: Layout, o: Operation) {
    || (l.Boots(Current) && l.Bootable(Current, o.source))
    || (l.Boots(Previous) && l.Bootable(Previous, o.source))
    || (l.Boots(Recovery) && l.Bootable(Recovery, o.source))
  }

  /** Where restoration succeeds: the source is current, or another alias of it can become so. */
  predicate Restorable(l: Layout, o: Operation) {
    if l.From(Current, o.source) then true
    else if Current in l.ds then
      l.From(Current, o.target) && l.From(Recovery, o.source) && Next !in l.ds
    else
      l.From(Previous, o.source) || l.From(Recovery, o.source)
  }

  /** What every step of a restoration keeps. */
  ghost predicate Restores(a: Layout, b: Layout, o: Operation) {
    && b.snapshots == a.snapshots
    && (Live in a.ds ==> Live in b.ds && b.ds[Live] == a.ds[Live])
    && (Restorable(a, o) <==> Restorable(b, o))
    && (SourceTokenless(a, o) ==> SourceTokenless(b, o))
    && (o.source != o.target && SourceCurrent(a, o) ==> SourceCurrent(b, o))
    && (o.source != o.target && UpdaterOwned(a, o) ==> UpdaterOwned(b, o))
    && (o.source != o.target && Safe(a, o) ==>
          Safe(b, o) && (b.ds == a.ds || SelectsSource(b, o)) && (SelectsSource(a, o) ==> SelectsSource(b, o)))
  }

  lemma RestoresStep(a: Layout, b: Layout, c: Layout, o: Operation)
    requires Restores(a, b, o) && (c == b || Restores(b, c, o))
    ensures Restores(a, c, o)
  {
  }

  lemma RestoresReflexive(a: Layout, o: Operation)
    ensures Restores(a, a, o)
  {
  }

  lemma SelectSource(a: Layout, o: Operation)
    requires a.From(Current, o.source)
    ensures Restores(a, a.Selecting(Current), o)
  {
  }

  lemma FallBack(a: Layout, o: Operation)
    requires a.From(Current, o.target) && a.From(Recovery, o.source)
    ensures Restores(a, a.Selecting(Recovery), o)
  {
  }

  lemma SetTargetAside(a: Layout, o: Operation)
    requires a.From(Current, o.target) && !a.From(Current, o.source)
    requires a.From(Recovery, o.source) && a.Boots(Recovery) && Next !in a.ds
    ensures Restores(a, a.Renamed(Current, Next), o)
  {
  }

  lemma PutSourceBack(a: Layout, o: Operation, alias: Name)
    requires Current !in a.ds && a.From(alias, o.source)
    requires alias == Previous || (alias == Recovery && !a.From(Previous, o.source))
    ensures Restores(a, a.Renamed(alias, Current), o)
  {
  }
}
