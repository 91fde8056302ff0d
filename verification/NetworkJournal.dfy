/**
 The durable side of a network change: the journal of changes, service addresses and startup
 intent, the canonical configuration file, and what holds of them between any two writes.
 */
module NetworkJournal {
  import opened Options
  import opened Ipv4
  import opened NetworkConfig
  import opened NetworkKernel

  /** The digest of a configuration, taken as injective; other texts match no configuration. */
  datatype Revision = Of(config: Config) | Text(text: string)

  datatype Stage = Applying | Awaiting | Failed | Committed | RolledBack
  datatype Change = Change(key: string, actor: string, revision: Revision, stage: Stage, deadline: int,
                           candidate: Config, previous: Config)

  datatype Journal = Journal(hasConfirmed: bool, startup: Option<Config>, bootId: Option<nat>, confirmed: Config,
                             mac: Option<Mac>,
                             services: map<string, Service>, pending: Option<nat>, needsConfig: bool,
                             changes: map<nat, Change>)

  const NEW := Journal(false, None, None, DEFAULT, None, map[], None, false, map[])

  datatype File = Missing | Garbage | Toml(config: Config)
  datatype Request = Request(revision: Revision, config: Config, key: string, actor: string)

  predicate SameNet(p: Prefix, q: Prefix) {
    p.bits == q.bits <= WIDTH && Masked(p.address, p.bits) == Masked(q.address, q.bits)
  }

  /** The service lives in the static subnet and is neither the host nor its gateway. */
  predicate FitsOne(c: Config, s: Service) {
    && ValidService(s) && PrefixOf(c.ipv4).Some?
    && SameNet(PrefixOf(c.ipv4).value, s.address.value)
    && PrefixOf(c.ipv4).value.address != s.address.value.address
    && (c.ipv4.Static? ==> c.ipv4.gateway != Some(s.address.value.address))
  }

  /** validateServices: a static configuration keeps every service address usable. */
  predicate Fits(c: Config, services: map<string, Service>) {
    c.ipv4.Static? ==> forall k | k in services :: FitsOne(c, services[k])
  }

  predicate Compatible(p: Prefix, hosts: set<Prefix>) {
    exists h | h in hosts :: SameNet(h, p)
  }

  predicate SoundServices(services: map<string, Service>) {
    && (forall k | k in services :: ValidService(services[k]) && services[k].stack == k)
    && (forall k, l | k in services && l in services && services[k].address == services[l].address :: k == l)
  }

  predicate Final(c: Change) {
    c.stage == Committed || c.stage == RolledBack
  }

  /** Invariant of the journal alone. */
  ghost predicate Sound(j: Journal) {
    && Workable(j.confirmed) && SoundServices(j.services) && Fits(j.confirmed, j.services)
    && (j.startup.Some? ==> Workable(j.startup.value))
    && (j.pending.Some? ==> j.pending.value in j.changes && Outstanding(j, j.changes[j.pending.value]))
    && (forall id | id in j.changes && j.changes[id].stage in {Applying, Awaiting} :: j.pending == Some(id))
    && (forall i, k | i in j.changes && k in j.changes && SameKey(j.changes[i], j.changes[k]) :: i == k)
    && (!j.hasConfirmed ==> j.confirmed == DEFAULT && j.services == map[] && j.changes == map[] && !j.needsConfig)
  }

  predicate Outstanding(j: Journal, c: Change) {
    !Final(c) && c.previous == j.confirmed && Workable(c.candidate) && Fits(c.candidate, j.services)
  }

  /** The canonical file can be restored from the journal, or already agrees with it. */
  predicate Recoverable(j: Journal, file: File) {
    if j.hasConfirmed then j.needsConfig || j.startup.Some? || file == Toml(j.confirmed)
    else j.startup.Some? ==> FileConfig(file) == Some(j.startup.value)
  }

  function FileConfig(file: File): Option<Config> {
    match file
    case Missing => Some(DEFAULT)
    case Garbage => None
    case Toml(c) => if ValidConfig(c) then Some(c) else None
  }

  /** The static addresses the journal accounts for. */
  function Expected(j: Journal): set<Prefix> {
    (if j.hasConfirmed then Statics(j.confirmed.ipv4)
     else if j.startup.Some? then Statics(j.startup.value.ipv4) else {})
    + (if j.pending.Some? && j.pending.value in j.changes
       then Statics(j.changes[j.pending.value].candidate.ipv4) else {})
  }

  /** No address on the bridge that the journal does not account for. */
  predicate Accounted(j: Journal, addresses: set<Prefix>) {
    addresses <= Expected(j) + Addresses(j.services)
  }

  /** In this boot, a candidate awaiting confirmation is what the kernel runs. */
  ghost predicate Applied(j: Journal, boot: nat, links: Links, uplinks: map<Mac, string>, addresses: set<Prefix>) {
    j.pending.Some? && j.pending.value in j.changes && j.changes[j.pending.value].stage == Awaiting
    && j.bootId == Some(boot) ==>
      InForce(j.changes[j.pending.value].candidate, j.services, links, uplinks, addresses)
  }

  ghost predicate InForce(c: Config, services: map<string, Service>, links: Links, uplinks: map<Mac, string>,
                          addresses: set<Prefix>) {
    Converged(links, uplinks, c) && addresses == Statics(c.ipv4) + Addresses(services)
  }

  /** What happens to a journal: only the pending change moves, and a confirmation needs it awaiting. */
  ghost predicate Proceeds(a: Journal, b: Journal) {
    && (a.hasConfirmed ==> b.hasConfirmed) && (a.mac.Some? ==> b.mac == a.mac)
    && (forall id | id in a.changes :: id in b.changes && SameChange(a.changes[id], b.changes[id]))
    && (forall id | id in a.changes && Final(a.changes[id]) :: b.changes[id] == a.changes[id])
  }

  predicate SameChange(a: Change, b: Change) {
    a.key == b.key && a.actor == b.actor && a.revision == b.revision && a.candidate == b.candidate
    && a.previous == b.previous
  }

  /** The configuration startup goes for; `unread` is an I/O error on the canonical file. */
  function Chosen(j: Journal, file: File, unread: bool): Option<Config> {
    if !j.hasConfirmed && (unread || FileConfig(file).None?) then None
    else if j.needsConfig || j.pending.Some? || (j.startup.Some? && j.hasConfirmed) then Some(j.confirmed)
    else if unread then Some(DEFAULT)
    else if FileConfig(file).Some? then FileConfig(file) else Some(j.confirmed)
  }

  /** Startup goes for the last confirmed configuration, except when the file exists but cannot be read. */
  lemma StartupKeepsConfirmed(j: Journal, file: File, unread: bool)
    requires Sound(j) && Recoverable(j, file) && j.hasConfirmed
    ensures Chosen(j, file, unread) == Some(j.confirmed) <==>
              (unread && !j.needsConfig && j.pending.None? && j.startup.None? ==> j.confirmed == DEFAULT)
  {
  }

  /** What startup assumes the bridge still carries. */
  function Assumed(j: Journal): Config {
    if j.pending.Some? && j.pending.value in j.changes then j.changes[j.pending.value].candidate
    else if j.startup.Some? then j.startup.value else j.confirmed
  }

  /** Nothing on this host stands in the way of the confirmed configuration. */
  ghost predicate Undoable(j: Journal, links: Links, uplinks: map<Mac, string>) {
    && j.mac.Some? && Applicable(links, uplinks, j.confirmed)
    && (j.confirmed.ipv4.Static? || j.services == map[])
  }

  /** Nothing on this host stands in the way of the change's candidate. */
  ghost predicate Launchable(j: Journal, id: nat, links: Links, uplinks: map<Mac, string>) {
    j.mac.Some? && id in j.changes && Applicable(links, uplinks, j.changes[id].candidate)
  }

  /** No lease has to suit a service address. */
  predicate Leaseless(j: Journal, c: Config) {
    c.ipv4.Static? || j.services == map[]
  }

  predicate AllCompatible(services: map<string, Service>, hosts: set<Prefix>) {
    forall k | k in services && ValidService(services[k]) :: Compatible(services[k].address.value, hosts)
  }

  /** A change whose apply has not started has put no address of its own on the bridge. */
  predicate Untouched(j: Journal, spawned: set<nat>, addresses: set<Prefix>) {
    j.pending.Some? && j.pending.value in spawned ==> addresses <= Statics(j.confirmed.ipv4) + Addresses(j.services)
  }

  /** A change whose apply has not started is not awaiting confirmation. */
  predicate Deferred(j: Journal, spawned: set<nat>) {
    Awaits(j) ==> j.pending.value !in spawned
  }

  predicate Awaits(j: Journal) {
    j.pending.Some? && j.pending.value in j.changes && j.changes[j.pending.value].stage == Awaiting
  }

  lemma OneAwaits(j: Journal)
    ensures forall id | id in j.changes && j.changes[id].stage == Awaiting && j.pending == Some(id) :: Awaits(j)
  {
  }

  lemma UntouchedKeeps(j: Journal, spawned: set<nat>, before: set<Prefix>, after: set<Prefix>)
    requires Untouched(j, spawned, before) && after <= before + Statics(j.confirmed.ipv4) + Addresses(j.services)
    ensures Untouched(j, spawned, after)
  {
  }

  lemma UntouchedSame(j: Journal, j': Journal, spawned: set<nat>, addresses: set<Prefix>)
    requires Untouched(j, spawned, addresses)
    requires j'.pending.None? || (j'.pending == j.pending && j'.confirmed == j.confirmed && j'.services == j.services)
    ensures Untouched(j', spawned, addresses)
  {
  }

  /** The whole invariant; `disturbed` and `strayed` say what an unfinished undo has spoilt. */
  ghost predicate Consistent(j: Journal, file: File, boot: nat, links: Links, uplinks: map<Mac, string>,
                             addresses: set<Prefix>,
                             disturbed: bool, strayed: bool) {
    && Sound(j) && Recoverable(j, file)
    && (j.bootId != Some(boot) ==> addresses == {})
    && (!strayed ==> Accounted(j, addresses))
    && (!strayed && !disturbed ==> Applied(j, boot, links, uplinks, addresses))
  }

  function Marked(j: Journal, id: nat, stage: Stage): (r: Journal)
    requires id in j.changes
    ensures r.pending == j.pending && r.confirmed == j.confirmed && r.services == j.services
            && r.bootId == j.bootId && r.hasConfirmed == j.hasConfirmed && r.mac == j.mac
    ensures id in r.changes && r.changes[id] == j.changes[id].(stage := stage)
  {
    j.(changes := j.changes[id := j.changes[id].(stage := stage)])
  }

  lemma MarkProceeds(j: Journal, id: nat, stage: Stage, deadline: int)
    requires Sound(j) && j.pending == Some(id)
    ensures Proceeds(j, Marked(j, id, stage)) && Proceeds(j, Marked(j, id, stage).(pending := None))
    ensures Proceeds(j, Dated(j, id, deadline))
  {
    PendingOpen(j, id);
    hide Sound;
    ReplacedProceeds(j, Marked(j, id, stage), id);
    ReplacedProceeds(j, Marked(j, id, stage).(pending := None), id);
    ReplacedProceeds(j, Dated(j, id, deadline), id);
  }

  lemma PendingOpen(j: Journal, id: nat)
    requires Sound(j) && j.pending == Some(id)
    ensures id in j.changes && !Final(j.changes[id])
  {
    hide Workable, Fits, SoundServices;
  }

  /** Only an open change was touched, and not in what it asks for. */
  lemma ReplacedProceeds(j: Journal, k: Journal, id: nat)
    requires id in j.changes && !Final(j.changes[id]) && (j.hasConfirmed ==> k.hasConfirmed) && k.mac == j.mac
    requires k.changes.Keys == j.changes.Keys && (forall i | i in j.changes && i != id :: k.changes[i] == j.changes[i])
    requires SameChange(j.changes[id], k.changes[id])
    ensures Proceeds(j, k)
  {
  }

  lemma ConsistentSound(j: Journal, file: File, boot: nat, links: Links, uplinks: map<Mac, string>,
                        addresses: set<Prefix>, disturbed: bool, strayed: bool)
    requires Consistent(j, file, boot, links, uplinks, addresses, disturbed, strayed)
    ensures Sound(j)
  {
  }

  lemma PendingIs(j: Journal, file: File, boot: nat, links: Links, uplinks: map<Mac, string>, addresses: set<Prefix>,
                  disturbed: bool, strayed: bool, id: nat)
    requires Consistent(j, file, boot, links, uplinks, addresses, disturbed, strayed) && j.pending == Some(id)
    ensures Sound(j) && id in j.changes && Outstanding(j, j.changes[id])
    ensures Workable(j.confirmed) && Workable(j.changes[id].candidate)
    ensures !strayed ==> Accounted(j, addresses)
    ensures forall e: Config ::
        Addressable(j.changes[id].candidate, e, j.services) && Addressable(j.confirmed, e, j.services)
    ensures Proceeds(j, j)
  {
    ValidAddress(j.changes[id].candidate);
    ValidAddress(j.confirmed);
  }

  lemma DatedAgrees(j: Journal, id: nat, deadline: int, links: Links, uplinks: map<Mac, string>)
    requires id in j.changes
    ensures Launchable(Dated(j, id, deadline), id, links, uplinks) <==> Launchable(j, id, links, uplinks)
    ensures Leaseless(Dated(j, id, deadline), Dated(j, id, deadline).changes[id].candidate) <==>
              Leaseless(j, j.changes[id].candidate)
    ensures Undoable(Dated(j, id, deadline), links, uplinks) <==> Undoable(j, links, uplinks)
    ensures Dated(j, id, deadline).changes[id].deadline == deadline
  {
  }

  /** Undoing the pending candidate, however far it gets. */
  lemma UndoKeeps(j: Journal, file: File, boot: nat, links: Links, uplinks: map<Mac, string>, before: set<Prefix>,
                  after: set<Prefix>, after': Links,
                  disturbed: bool, strayed: bool)
    requires Consistent(j, file, boot, links, uplinks, before, disturbed, strayed)
    requires j.bootId == Some(boot) && j.hasConfirmed
             && after <= before + Statics(j.confirmed.ipv4) + Addresses(j.services)
    ensures Consistent(j, file, boot, after', uplinks, after, true, strayed)
    ensures Consistent(j, Toml(j.confirmed), boot, after', uplinks, after, true, strayed)
  {
    hide Workable, Fits, SoundServices;
  }

  lemma FailedKeeps(j: Journal, file: File, boot: nat, links: Links, uplinks: map<Mac, string>, addresses: set<Prefix>,
                    strayed: bool, id: nat)
    requires Consistent(j, file, boot, links, uplinks, addresses, true, strayed) && j.pending == Some(id)
    ensures Consistent(Marked(j, id, Failed), file, boot, links, uplinks, addresses, true, strayed)
  {
    hide Workable, Fits, SoundServices;
  }

  /** The candidate is undone: its address has gone, the previous one and every alias are there. */
  lemma UndoneAddresses(j: Journal, before: set<Prefix>, after: set<Prefix>, id: nat)
    requires Sound(j) && j.pending == Some(id) && j.hasConfirmed && Accounted(j, before)
    requires after == Kept(before, j.changes[id].candidate, j.confirmed) + Statics(j.confirmed.ipv4)
        + Addresses(j.services)
    ensures after == Statics(j.confirmed.ipv4) + Addresses(j.services)
  {
  }

  lemma UndoneKeeps(j: Journal, boot: nat, links: Links, uplinks: map<Mac, string>, addresses: set<Prefix>,
                    disturbed: bool, strayed: bool, id: nat)
    requires Sound(j) && j.pending == Some(id) && j.hasConfirmed && j.bootId == Some(boot)
    requires !strayed ==> InForce(j.confirmed, j.services, links, uplinks, addresses)
    ensures Consistent(Marked(j, id, RolledBack).(pending := None), Toml(j.confirmed), boot, links, uplinks, addresses,
                       disturbed, strayed)
  {
    hide Workable, Fits, SoundServices;
  }

  /** A bond's members are all present, and some uplink is left. */
  predicate Connected(c: Config, eligible: set<Mac>) {
    && (forall i, mac | 0 <= i < |c.bonds| && mac in c.bonds[i].members :: mac in eligible)
    && (exists mac :: mac in eligible && mac !in c.excluded)
  }

  predicate Attributed(p: Request) {
    p.key != "" && |p.key| <= 255 && p.actor != ""
  }

  predicate SameRequest(c: Change, p: Request) {
    c.key == p.key && c.actor == p.actor
  }

  predicate Unheard(j: Journal, p: Request) {
    forall id | id in j.changes :: !SameRequest(j.changes[id], p)
  }

  /** Exactly the requests that become a change. */
  predicate Acceptable(j: Journal, p: Request, eligible: set<Mac>) {
    Attributed(p) && ValidConfig(p.config) && Unheard(j, p) && Admissible(j, p, eligible)
  }

  predicate Admissible(j: Journal, p: Request, eligible: set<Mac>) {
    && j.pending.None? && p.revision == Of(j.confirmed)
    && Fits(p.config, j.services) && Connected(p.config, eligible)
  }

  lemma AcceptablePending(j: Journal, p: Request, eligible: set<Mac>)
    ensures Acceptable(j, p, eligible) ==> j.pending.None?
  {
  }

  function Submitted(j: Journal, p: Request, id: nat): (r: Journal)
    ensures r.pending == Some(id) && id in r.changes && SameRequest(r.changes[id], p)
    ensures r.changes[id].revision == p.revision && r.changes[id].candidate == p.config
            && r.changes[id].stage == Applying
    ensures r.hasConfirmed == j.hasConfirmed && r.bootId == j.bootId && r.services == j.services
            && r.confirmed == j.confirmed && r.mac == j.mac
  {
    j.(pending := Some(id),
       changes := j.changes[id := Change(p.key, p.actor, p.revision, Applying, 0, p.config, j.confirmed)])
  }

  lemma SubmitKeeps(j: Journal, file: File, boot: nat, links: Links, uplinks: map<Mac, string>, addresses: set<Prefix>,
                    disturbed: bool, strayed: bool,
                    p: Request, id: nat, eligible: set<Mac>)
    requires Consistent(j, file, boot, links, uplinks, addresses, disturbed, strayed) && j.hasConfirmed
    requires Acceptable(j, p, eligible) && id !in j.changes
    ensures Consistent(Submitted(j, p, id), file, boot, links, uplinks, addresses, disturbed, strayed)
    ensures Proceeds(j, Submitted(j, p, id))
  {
    SubmittedSound(j, p, id, eligible);
    SubmittedProceeds(j, p, id);
    hide Sound, Workable, Fits, SoundServices, Proceeds, Connected;
  }

  lemma SubmittedSound(j: Journal, p: Request, id: nat, eligible: set<Mac>)
    requires Sound(j) && j.hasConfirmed && Acceptable(j, p, eligible) && id !in j.changes
    ensures Sound(Submitted(j, p, id))
  {
    hide Workable, Fits, SoundServices, Connected;
  }

  lemma SubmittedProceeds(j: Journal, p: Request, id: nat)
    requires id !in j.changes
    ensures Proceeds(j, Submitted(j, p, id))
  {
  }

  function Dated(j: Journal, id: nat, deadline: int): (r: Journal)
    requires id in j.changes
    ensures r.pending == j.pending && r.confirmed == j.confirmed && r.services == j.services
            && r.bootId == j.bootId && r.hasConfirmed == j.hasConfirmed && r.mac == j.mac
    ensures id in r.changes && r.changes[id] == j.changes[id].(deadline := deadline)
  {
    j.(changes := j.changes[id := j.changes[id].(deadline := deadline)])
  }

  lemma DatedKeeps(j: Journal, file: File, boot: nat, links: Links, uplinks: map<Mac, string>, addresses: set<Prefix>,
                   disturbed: bool, strayed: bool,
                   id: nat, deadline: int)
    requires Consistent(j, file, boot, links, uplinks, addresses, disturbed, strayed) && j.pending == Some(id)
    ensures Consistent(Dated(j, id, deadline), file, boot, links, uplinks, addresses, disturbed, strayed)
    ensures Proceeds(j, Dated(j, id, deadline))
  {
    MarkProceeds(j, id, Failed, deadline);
    DatedSound(j, id, deadline);
    hide Sound, Workable, Fits, SoundServices, Proceeds;
  }

  lemma DatedSound(j: Journal, id: nat, deadline: int)
    requires Sound(j) && j.pending == Some(id)
    ensures id in j.changes && Sound(Dated(j, id, deadline))
  {
    hide Workable, Fits, SoundServices;
  }

  /** A change whose timer could not be armed fails before the kernel is touched. */
  lemma UnarmedKeeps(j: Journal, file: File, boot: nat, links: Links, uplinks: map<Mac, string>,
                     addresses: set<Prefix>, disturbed: bool, strayed: bool, id: nat)
    requires Consistent(j, file, boot, links, uplinks, addresses, disturbed, strayed) && j.pending == Some(id)
    requires !strayed ==> addresses <= Statics(j.confirmed.ipv4) + Addresses(j.services)
    requires j.hasConfirmed
    ensures Consistent(Marked(j, id, Failed).(pending := None), file, boot, links, uplinks, addresses, disturbed,
                       strayed)
  {
    hide Workable, Fits, SoundServices;
  }

  lemma NoProgress(j: Journal)
    ensures Proceeds(j, j)
  {
  }

  lemma StaticPrefix(c: Config)
    requires Workable(c)
    ensures c.ipv4.Static? ==> PrefixOf(c.ipv4).Some?
  {
  }

  lemma SubmittedUntouched(j: Journal, file: File, boot: nat, links: Links, uplinks: map<Mac, string>,
                           addresses: set<Prefix>, disturbed: bool, strayed: bool,
                           p: Request, id: nat, spawned: set<nat>)
    requires Consistent(j, file, boot, links, uplinks, addresses, disturbed, strayed) && j.hasConfirmed
             && j.pending.None?
    ensures !strayed ==>
              Untouched(Submitted(j, p, id), spawned, addresses)
              && Untouched(Submitted(j, p, id), spawned + {id}, addresses)
  {
  }

  lemma StartedUntouched(j: Journal, spawned: set<nat>, id: nat, addresses: set<Prefix>)
    requires Untouched(j, spawned, addresses) && id in spawned
    ensures Untouched(j, spawned - {id}, addresses)
    ensures j.pending == Some(id) ==> addresses <= Statics(j.confirmed.ipv4) + Addresses(j.services)
  {
  }

  /** The kernel on its way from the confirmed configuration to the candidate. */
  lemma MoveKeeps(j: Journal, file: File, boot: nat, links: Links, uplinks: map<Mac, string>, before: set<Prefix>,
                  after: set<Prefix>, after': Links,
                  disturbed: bool, strayed: bool, id: nat)
    requires Consistent(j, file, boot, links, uplinks, before, disturbed, strayed) && j.pending == Some(id)
    requires j.bootId == Some(boot) && after <= before + Statics(j.changes[id].candidate.ipv4) + Addresses(j.services)
    ensures Consistent(j, file, boot, after', uplinks, after, true, strayed)
  {
    hide Workable, Fits, SoundServices;
  }

  lemma MovedAddresses(j: Journal, before: set<Prefix>, after: set<Prefix>, id: nat)
    requires Sound(j) && j.pending == Some(id) && before <= Statics(j.confirmed.ipv4) + Addresses(j.services)
    requires after == Kept(before, j.confirmed, j.changes[id].candidate) + Statics(j.changes[id].candidate.ipv4)
        + Addresses(j.services)
    ensures after == Statics(j.changes[id].candidate.ipv4) + Addresses(j.services)
  {
  }

  lemma MovedKeeps(j: Journal, file: File, boot: nat, links: Links, uplinks: map<Mac, string>, addresses: set<Prefix>,
                   strayed: bool, id: nat)
    requires Consistent(j, file, boot, links, uplinks, addresses, true, strayed) && j.pending == Some(id)
    requires !strayed ==> InForce(j.changes[id].candidate, j.services, links, uplinks, addresses)
    ensures Consistent(Marked(j, id, Awaiting), file, boot, links, uplinks, addresses, false, strayed)
  {
    hide Workable, Fits, SoundServices;
  }

  lemma ProceedsTransitive(a: Journal, b: Journal, c: Journal)
    requires Proceeds(a, b) && Proceeds(b, c)
    ensures Proceeds(a, c)
  {
  }

  lemma UntouchedOther(j: Journal, spawned: set<nat>, addresses: set<Prefix>)
    requires j.pending.Some? && j.pending.value !in spawned
    ensures Untouched(j, spawned, addresses)
  {
  }

  /** Exactly the changes that may become the confirmed configuration. */
  predicate Confirmable(j: Journal, id: nat, now: int) {
    j.pending == Some(id) && id in j.changes && j.changes[id].stage == Awaiting && now < j.changes[id].deadline
  }

  function Committing(j: Journal, id: nat): Journal
    requires id in j.changes
  {
    Marked(j, id, Committed).(confirmed := j.changes[id].candidate, needsConfig := true, pending := None)
  }

  lemma CommitKeeps(j: Journal, file: File, boot: nat, links: Links, uplinks: map<Mac, string>, addresses: set<Prefix>,
                    disturbed: bool, strayed: bool,
                    id: nat, now: int)
    requires Consistent(j, file, boot, links, uplinks, addresses, disturbed, strayed) && j.hasConfirmed
             && j.bootId == Some(boot)
    requires Confirmable(j, id, now)
    ensures Consistent(Committing(j, id), file, boot, links, uplinks, addresses, disturbed, strayed || disturbed)
    ensures Proceeds(j, Committing(j, id))
    ensures !strayed && !disturbed ==> InForce(j.changes[id].candidate, j.services, links, uplinks, addresses)
  {
    CommittedSound(j, id);
    hide Sound, Workable, Fits, SoundServices, Proceeds;
  }

  lemma CommittedSound(j: Journal, id: nat)
    requires Sound(j) && j.pending == Some(id) && j.hasConfirmed
    ensures id in j.changes && Sound(Committing(j, id)) && Proceeds(j, Committing(j, id))
  {
    hide Workable, Fits, SoundServices, Proceeds;
    PendingOpen(j, id);
    ReplacedProceeds(j, Committing(j, id), id);
  }

  /** The canonical file written from the journal, and then the note to do so dropped. */
  lemma SettleKeeps(j: Journal, file: File, boot: nat, links: Links, uplinks: map<Mac, string>, addresses: set<Prefix>,
                    disturbed: bool, strayed: bool)
    requires Consistent(j, file, boot, links, uplinks, addresses, disturbed, strayed) && j.hasConfirmed
    ensures Consistent(j, Toml(j.confirmed), boot, links, uplinks, addresses, disturbed, strayed)
    ensures Consistent(j.(needsConfig := false), Toml(j.confirmed), boot, links, uplinks, addresses, disturbed, strayed)
    ensures Proceeds(j, j.(needsConfig := false))
  {
    hide Workable, Fits, SoundServices;
  }

  function Migrated(j: Journal, pool: string): Journal {
    j.(confirmed := j.confirmed.(pool := pool), needsConfig := true)
  }

  /** A default pool with a line break or NUL leaves a configuration that startup refuses. */
  lemma MigratedValid(c: Config, pool: string)
    requires Workable(c)
    ensures ValidConfig(c.(pool := pool)) <==> CleanPool(pool)
  {
  }

  lemma MigrateKeeps(j: Journal, file: File, boot: nat, links: Links, uplinks: map<Mac, string>,
                     addresses: set<Prefix>, disturbed: bool, strayed: bool, pool: string)
    requires Consistent(j, file, boot, links, uplinks, addresses, disturbed, strayed) && j.hasConfirmed
             && j.pending.None?
    ensures Consistent(Migrated(j, pool), file, boot, links, uplinks, addresses, disturbed, strayed)
    ensures Proceeds(j, Migrated(j, pool))
  {
  }

  lemma UntouchedNone(j: Journal, spawned: set<nat>, addresses: set<Prefix>)
    requires j.pending.None?
    ensures Untouched(j, spawned, addresses)
  {
  }

  /** Exactly the claims and releases that are granted while nothing fails. */
  predicate Settable(j: Journal, s: Service, add: bool, live: set<Prefix>) {
    if add then
      && j.pending.None? && ValidService(s)
      && Compatible(s.address.value, live - Addresses(j.services))
      && (j.confirmed.ipv4.Static? ==> FitsOne(j.confirmed, s))
      && Unclaimed(j.services, s)
    else
      s.stack in j.services ==> j.pending.None? && ValidService(s) && j.services[s.stack] == s
  }

  predicate Unclaimed(services: map<string, Service>, s: Service) {
    && (forall id | id in services && id != s.stack :: services[id].address != s.address)
    && (s.stack in services ==> services[s.stack] == s)
  }

  lemma SettableUnclaimed(j: Journal, s: Service, live: set<Prefix>)
    requires Settable(j, s, true, live)
    ensures Unclaimed(j.services, s) && (j.confirmed.ipv4.Static? ==> FitsOne(j.confirmed, s))
  {
  }

  lemma ConfirmedStatic(j: Journal)
    requires Sound(j)
    ensures j.confirmed.ipv4.Static? ==> PrefixOf(j.confirmed.ipv4).Some?
    ensures SoundServices(j.services) && Fits(j.confirmed, j.services)
  {
  }

  lemma AddingSound(j: Journal, s: Service)
    requires Sound(j) && j.pending.None? && j.hasConfirmed
    requires ValidService(s) && Unclaimed(j.services, s) && (j.confirmed.ipv4.Static? ==> FitsOne(j.confirmed, s))
    ensures Sound(j.(services := j.services[s.stack := s]))
  {
    hide HostPrefix, SameNet, Workable, PrefixOf;
  }

  /** With no change pending the table may grow by a compatible, unclaimed address. */
  lemma AddingKeeps(j: Journal, file: File, boot: nat, links: Links, uplinks: map<Mac, string>, addresses: set<Prefix>,
                    disturbed: bool, strayed: bool, s: Service)
    requires Consistent(j, file, boot, links, uplinks, addresses, disturbed, strayed) && j.pending.None?
             && j.hasConfirmed && j.bootId == Some(boot)
    requires ValidService(s) && Unclaimed(j.services, s) && (j.confirmed.ipv4.Static? ==> FitsOne(j.confirmed, s))
    ensures var j' := j.(services := j.services[s.stack := s]);
            && Consistent(j', file, boot, links, uplinks, addresses, disturbed, strayed)
            && Consistent(j', file, boot, links, uplinks, addresses + {s.address.value}, disturbed, strayed)
            && Proceeds(j, j')
  {
    hide HostPrefix, SameNet, Recoverable, Workable, PrefixOf, Proceeds;
    var j' := j.(services := j.services[s.stack := s]);
    assert Proceeds(j, j') by { SameChanges(j, j'); }
    assert Addresses(j.services) <= Addresses(j'.services) by {
      forall p | p in Addresses(j.services) ensures p in Addresses(j'.services) {
        var k :| k in j.services && j.services[k].address == Some(p);
        assert k in j'.services && j'.services[k].address == Some(p);
      }
    }
    assert s.stack in j'.services && s.address.value in Addresses(j'.services);
    assert Recoverable(j', file) by { RecoverableSame(j, j', file); }
    assert Sound(j') by { AddingSound(j, s); }
    hide Sound, Fits, FitsOne, SoundServices;
  }

  /** An address leaves the bridge before it leaves the table. */
  lemma RemovingKeeps(j: Journal, file: File, boot: nat, links: Links, uplinks: map<Mac, string>,
                      addresses: set<Prefix>, disturbed: bool, strayed: bool, s: Service)
    requires Consistent(j, file, boot, links, uplinks, addresses, disturbed, strayed) && j.pending.None?
             && j.hasConfirmed && j.bootId == Some(boot)
    requires ValidService(s) && s.stack in j.services && j.services[s.stack] == s
    ensures var j' := j.(services := j.services - {s.stack});
            && Consistent(j, file, boot, links, uplinks, addresses - {s.address.value}, disturbed, strayed)
            && Consistent(j', file, boot, links, uplinks, addresses - {s.address.value}, disturbed, strayed)
            && Proceeds(j, j')
  {
    hide HostPrefix, SameNet, Recoverable, Workable, PrefixOf, Proceeds;
    var j' := j.(services := j.services - {s.stack});
    assert Proceeds(j, j') by { SameChanges(j, j'); }
    assert Addresses(j.services) - {s.address.value} <= Addresses(j'.services) by {
      forall p | p in Addresses(j.services) - {s.address.value} ensures p in Addresses(j'.services) {
        var k :| k in j.services && j.services[k].address == Some(p);
        assert k in j'.services && j'.services[k].address == Some(p);
      }
    }
    assert Recoverable(j', file) by { RecoverableSame(j, j', file); }
  }

  lemma SameChanges(j: Journal, j': Journal)
    requires j'.changes == j.changes && (j.hasConfirmed ==> j'.hasConfirmed) && j'.mac == j.mac
    ensures Proceeds(j, j')
  {
  }

  lemma RecoverableSame(j: Journal, j': Journal, file: File)
    requires Recoverable(j, file) && j' == j.(services := j'.services)
    ensures Recoverable(j', file)
  {
  }

  function Table(list: seq<Service>): map<string, Service> {
    if list == [] then map[] else Table(list[..|list| - 1])[list[|list| - 1].stack := list[|list| - 1]]
  }

  predicate OnHost(s: Service, hosts: set<Prefix>) {
    ValidService(s) && Compatible(s.address.value, hosts)
  }

  /** A table no two entries of which share a stack or an address, all of them on the host's subnets. */
  predicate Listable(list: seq<Service>, hosts: set<Prefix>) {
    && (forall i | 0 <= i < |list| :: OnHost(list[i], hosts))
    && (forall i, k | 0 <= i < k < |list| :: list[i].stack != list[k].stack && list[i].address != list[k].address)
  }

  /** Listing one more: fine unless it collides with an entry before it. */
  lemma ListableNext(list: seq<Service>, hosts: set<Prefix>, i: nat)
    requires i < |list| && Listable(list[..i], hosts)
    ensures Listable(list[..i + 1], hosts) <==>
              OnHost(list[i], hosts)
              && forall s | s in list[..i] :: s.stack != list[i].stack && s.address != list[i].address
  {
    hide OnHost;
    var a, b := list[..i], list[..i + 1];
    assert forall k | 0 <= k < i :: b[k] == a[k];
    assert b[i] == list[i];
    if Listable(b, hosts) {
      forall s | s in a ensures s.stack != list[i].stack && s.address != list[i].address {
        var k :| 0 <= k < i && a[k] == s;
        assert b[k].stack != b[i].stack && b[k].address != b[i].address;
      }
    }
  }

  lemma ListablePrefix(list: seq<Service>, hosts: set<Prefix>, i: nat)
    requires i <= |list| && Listable(list, hosts)
    ensures Listable(list[..i], hosts)
  {
    hide OnHost;
    assert forall k | 0 <= k < i :: list[..i][k] == list[k];
  }

  lemma SoundExtend(services: map<string, Service>, s: Service)
    requires SoundServices(services) && ValidService(s) && s.stack !in services
    requires forall k | k in services :: services[k].address != s.address
    ensures SoundServices(services[s.stack := s])
  {
    hide ValidService;
  }

  lemma {:induction false} TableEntries(list: seq<Service>, hosts: set<Prefix>)
    requires Listable(list, hosts)
    ensures forall s | s in list :: s.stack in Table(list) && Table(list)[s.stack] == s
    ensures forall k | k in Table(list) :: Table(list)[k].stack == k && Table(list)[k] in list
    ensures SoundServices(Table(list))
  {
    hide OnHost, ValidService, SoundServices, Listable;
    if list == [] {
      EmptySound();
    } else {
      var n := |list| - 1;
      var rest, last := list[..n], list[n];
      assert list[..n + 1] == list == rest + [last];
      ListablePrefix(list, hosts, n);
      ListableNext(list, hosts, n);
      TableEntries(rest, hosts);
      OnHostValid(last, hosts);
      SoundExtend(Table(rest), last);
    }
  }

  function Stacks(list: seq<Service>): set<string> {
    set s | s in list :: s.stack
  }

  function Listed(list: seq<Service>): set<Option<Prefix>> {
    set s | s in list :: s.address
  }

  lemma CollectNext(list: seq<Service>, hosts: set<Prefix>, i: nat)
    requires i < |list| && Listable(list[..i], hosts)
    ensures var s := list[i];
            && Stacks(list[..i + 1]) == Stacks(list[..i]) + {s.stack}
               && Listed(list[..i + 1]) == Listed(list[..i]) + {s.address}
            && Table(list[..i + 1]) == Table(list[..i])[s.stack := s]
            && (Listable(list[..i + 1], hosts) <==>
                OnHost(s, hosts) && s.stack !in Stacks(list[..i]) && s.address !in Listed(list[..i]))
  {
    hide OnHost, Listable;
    ListableNext(list, hosts, i);
    assert list[..i + 1] == list[..i] + [list[i]] && list[..i + 1][..i] == list[..i];
  }

  lemma CollectNone(hosts: set<Prefix>)
    ensures Listable([], hosts) && Table([]) == map[] && Stacks([]) == {} && Listed([]) == {}
  {
  }

  lemma EmptySound()
    ensures SoundServices(map[])
  {
  }

  lemma OnHostValid(s: Service, hosts: set<Prefix>)
    requires OnHost(s, hosts)
    ensures ValidService(s)
  {
  }

  /** Each entry is one the sync asked for. */
  predicate Within(services: map<string, Service>, wanted: map<string, Service>) {
    forall k | k in services :: k in wanted && wanted[k] == services[k]
  }

  lemma WithinUnclaimed(services: map<string, Service>, wanted: map<string, Service>, k: string, c: Config)
    requires Within(services, wanted) && SoundServices(wanted) && k in wanted && Fits(c, wanted)
    ensures Unclaimed(services, wanted[k]) && ValidService(wanted[k]) && (c.ipv4.Static? ==> FitsOne(c, wanted[k]))
    ensures wanted[k].stack == k && Within(services[k := wanted[k]], wanted)
  {
  }

  lemma OtherAddresses(services: map<string, Service>, k: string)
    requires SoundServices(services) && k in services
    ensures ValidService(services[k]) && services[k].stack == k
    ensures services[k].address.value !in Addresses(services - {k})
  {
  }

  lemma FewerAddresses(services: map<string, Service>, k: string)
    ensures Addresses(services - {k}) <= Addresses(services)
  {
  }

  lemma WithinAll(services: map<string, Service>, wanted: map<string, Service>)
    requires Within(services, wanted) && forall k | k in wanted :: k in services
    ensures services == wanted
  {
  }

  lemma AllAddresses(wanted: map<string, Service>, live: set<Prefix>)
    requires forall k | k in wanted :: wanted[k].address.Some? && wanted[k].address.value in live
    ensures Addresses(wanted) <= live
  {
  }

  lemma FewerThan(few: map<string, Service>, many: map<string, Service>)
    requires Within(few, many)
    ensures Addresses(few) <= Addresses(many)
  {
  }

  lemma SoundConfirmed(j: Journal, file: File, boot: nat, links: Links, uplinks: map<Mac, string>,
                       addresses: set<Prefix>, disturbed: bool, strayed: bool)
    requires Consistent(j, file, boot, links, uplinks, addresses, disturbed, strayed)
    ensures Workable(j.confirmed) && SoundServices(j.services)
    ensures j.confirmed.ipv4.Static? ==> PrefixOf(j.confirmed.ipv4).Some?
  {
  }

  lemma Synced(list: seq<Service>, j: Journal, file: File, boot: nat, links: Links, uplinks: map<Mac, string>,
               addresses: set<Prefix>, leased: set<Prefix>,
               disturbed: bool, strayed: bool)
    requires Consistent(j, file, boot, links, uplinks, addresses, disturbed, strayed) && j.hasConfirmed
             && j.pending.None?
    requires j.services == Table(list) && Addresses(j.services) <= addresses + leased
    requires forall s | s in list :: s.stack in Table(list) && Table(list)[s.stack] == s
    ensures forall s | s in list :: s.address.Some? && s.address.value in addresses + leased
    ensures !strayed ==> addresses <= Statics(j.confirmed.ipv4) + Addresses(Table(list))
  {
    forall s | s in list ensures s.address.Some? && s.address.value in addresses + leased {
      assert ValidService(j.services[s.stack]);
      assert s.address.value in Addresses(j.services);
    }
  }

  lemma WithinLive(services: map<string, Service>, wanted: map<string, Service>, live: set<Prefix>, at: set<Prefix>)
    requires Within(services, wanted) && Addresses(services) * live <= at
    ensures forall k | k in services && wanted[k].address.Some? && wanted[k].address.value in live ::
        wanted[k].address.value in at
  {
    forall k | k in services && wanted[k].address.Some? && wanted[k].address.value in live
      ensures wanted[k].address.value in at {
      assert wanted[k].address.value in Addresses(services);
    }
  }

  /** The startup intent, saved before the kernel is touched: a new boot has no aliases yet. */
  function Begun(j: Journal, boot: nat, c: Config, mac: Mac): Journal {
    j.(startup := Some(c), needsConfig := false, mac := Some(mac), bootId := Some(boot),
       services := if j.bootId == Some(boot) then j.services else map[])
  }

  /** Startup's own commit: what it applied is confirmed, and a pending change is over. */
  function Started(j: Journal, c: Config): Journal {
    (if j.pending.Some? && j.pending.value in j.changes then Marked(j, j.pending.value, RolledBack) else j)
      .(pending := None, confirmed := c, hasConfirmed := true, startup := None, needsConfig := true)
  }

  lemma ChosenIs(j: Journal, file: File, unread: bool)
    requires Sound(j) && Recoverable(j, file) && Chosen(j, file, unread).Some?
    ensures var c := Chosen(j, file, unread).value;
            && Workable(c)
            && (if j.hasConfirmed then
                  || c == j.confirmed
                  || (c == DEFAULT && j.pending.None? && j.startup.None? && !j.needsConfig && unread)
                else FileConfig(file) == Some(c))
  {
    DefaultValid();
  }

  predicate Lendable(adapters: seq<Adapter>, c: Config) {
    exists i :: 0 <= i < |adapters| && adapters[i].eligible && adapters[i].mac !in c.excluded
  }

  /** The address of the first adapter that may lend it. */
  predicate LendsFirst(adapters: seq<Adapter>, c: Config, mac: Mac) {
    exists i :: 0 <= i < |adapters| && adapters[i].eligible && adapters[i].mac == mac && mac !in c.excluded
                && forall k | 0 <= k < i :: !adapters[k].eligible || adapters[k].mac in c.excluded
  }

  /** The bridge keeps the address it was given first. */
  predicate Lent(j: Journal, adapters: seq<Adapter>, c: Config, mac: Mac) {
    if j.mac.Some? then mac == j.mac.value else LendsFirst(adapters, c, mac)
  }

  lemma DefaultValid()
    ensures Workable(DEFAULT)
  {
    assert DEFAULT.excluded + Members(DEFAULT.bonds) == [];
  }

  lemma BegunKeeps(j: Journal, file: File, boot: nat, links: Links, uplinks: map<Mac, string>, addresses: set<Prefix>,
                   disturbed: bool, strayed: bool,
                   c: Config, mac: Mac, unread: bool)
    requires Consistent(j, file, boot, links, uplinks, addresses, disturbed, strayed)
             && Chosen(j, file, unread) == Some(c) && (j.mac.Some? ==> j.mac == Some(mac))
    ensures Consistent(Begun(j, boot, c, mac), file, boot, links, uplinks, addresses, true, strayed)
    ensures Proceeds(j, Begun(j, boot, c, mac))
  {
    ChosenIs(j, file, unread);
    BegunSound(j, boot, c, mac);
    hide Workable, Fits, PrefixOf;
  }

  lemma BegunSound(j: Journal, boot: nat, c: Config, mac: Mac)
    requires Sound(j) && Workable(c)
    ensures Sound(Begun(j, boot, c, mac))
  {
    hide Workable, FitsOne, ValidService;
  }

  /** What startup adds on its way is accounted for already. */
  lemma StartupMoveKeeps(j: Journal, file: File, boot: nat, links: Links, uplinks: map<Mac, string>,
                         before: set<Prefix>, after: set<Prefix>, after': Links,
                         disturbed: bool, strayed: bool, c: Config)
    requires Consistent(j, file, boot, links, uplinks, before, disturbed, strayed) && j.bootId == Some(boot)
             && j.startup == Some(c)
    requires j.hasConfirmed ==> c == j.confirmed || c == DEFAULT
    requires after <= before + Statics(c.ipv4) + Addresses(j.services)
    ensures Consistent(j, file, boot, after', uplinks, after, true, strayed)
  {
    hide Workable;
  }

  /** A finished startup leaves the chosen static address and the aliases, nothing else. */
  lemma StartedAddresses(j: Journal, boot: nat, before: set<Prefix>, after: set<Prefix>, file: File, c: Config,
                         unread: bool, services: map<string, Service>)
    requires Sound(j) && Recoverable(j, file) && Chosen(j, file, unread) == Some(c) && Accounted(j, before)
    requires services == if j.bootId == Some(boot) then j.services else map[]
    requires j.bootId != Some(boot) ==> before == {}
    requires after == Kept(before, Assumed(j), c) + Statics(c.ipv4) + Addresses(services)
    ensures after == Statics(c.ipv4) + Addresses(services)
  {
    ChosenIs(j, file, unread);
  }

  lemma StartedKeeps(j: Journal, file: File, boot: nat, links: Links, uplinks: map<Mac, string>,
                     addresses: set<Prefix>, disturbed: bool, strayed: bool, c: Config)
    requires Consistent(j, file, boot, links, uplinks, addresses, disturbed, strayed) && j.bootId == Some(boot)
    requires Workable(c) && Fits(c, j.services)
    requires !strayed ==> InForce(c, j.services, links, uplinks, addresses)
    ensures Consistent(Started(j, c), file, boot, links, uplinks, addresses, false, strayed)
    ensures Proceeds(j, Started(j, c))
  {
    StartedSound(j, c);
    StartedProceeds(j, c);
    hide Sound, Workable, Fits, Converged, Proceeds, Marked;
  }

  lemma StartedSound(j: Journal, c: Config)
    requires Sound(j) && Workable(c) && Fits(c, j.services)
    ensures Sound(Started(j, c))
  {
    hide Workable, Fits, SoundServices;
  }

  lemma StartedProceeds(j: Journal, c: Config)
    requires Sound(j)
    ensures Proceeds(j, Started(j, c))
  {
    if j.pending.Some? {
      PendingOpen(j, j.pending.value);
      hide Sound;
      ReplacedProceeds(j, Started(j, c), j.pending.value);
    } else {
      hide Sound;
      SameChanges(j, Started(j, c));
    }
  }

  lemma BegunUntouched(j: Journal, boot: nat, c: Config, mac: Mac, spawned: set<nat>, addresses: set<Prefix>)
    requires Untouched(j, spawned, addresses) && (j.bootId != Some(boot) ==> addresses == {})
    ensures Untouched(Begun(j, boot, c, mac), spawned, addresses)
  {
  }

  lemma StartupUntouched(j: Journal, spawned: set<nat>, before: set<Prefix>, after: set<Prefix>, c: Config)
    requires Untouched(j, spawned, before) && (j.pending.Some? ==> c == j.confirmed)
    requires after <= before + Statics(c.ipv4) + Addresses(j.services)
    ensures Untouched(j, spawned, after)
  {
  }

  lemma ConsistentParts(j: Journal, file: File, boot: nat, links: Links, uplinks: map<Mac, string>,
                        addresses: set<Prefix>, disturbed: bool, strayed: bool)
    requires Consistent(j, file, boot, links, uplinks, addresses, disturbed, strayed)
    ensures Sound(j) && Recoverable(j, file) && (j.bootId != Some(boot) ==> addresses == {})
            && (!strayed ==> Accounted(j, addresses))
    ensures Workable(j.confirmed) && (j.startup.Some? ==> Workable(j.startup.value))
    ensures j.pending.Some? ==> j.pending.value in j.changes && Workable(j.changes[j.pending.value].candidate)
    ensures Fits(j.confirmed, j.services)
            && (!j.hasConfirmed ==> j.services == map[] && j.pending.None? && !j.needsConfig)
    ensures Workable(Assumed(j)) && forall k | k in j.services :: ValidService(j.services[k])
  {
  }

  /** Exactly when startup gets as far as the kernel, while nothing fails. */
  predicate Startable(j: Journal, file: File, adapters: seq<Adapter>) {
    && Chosen(j, file, false).Some? && ValidConfig(Chosen(j, file, false).value)
    && (j.mac.Some? || Lendable(adapters, Chosen(j, file, false).value))
  }

  lemma StartableChosen(j: Journal, file: File, adapters: seq<Adapter>)
    ensures Startable(j, file, adapters) ==> Chosen(j, file, false).Some?
  {
  }

  /** A chosen configuration is workable and suits the services that survive into this boot. */
  lemma StartableIs(j: Journal, file: File, adapters: seq<Adapter>, c: Config, boot: nat, unread: bool)
    requires Sound(j) && Recoverable(j, file) && Chosen(j, file, unread) == Some(c)
    ensures Fits(c, if j.bootId == Some(boot) then j.services else map[])
    ensures !unread ==> (Startable(j, file, adapters) <==> ValidConfig(c) && (j.mac.Some? || Lendable(adapters, c)))
  {
    ChosenIs(j, file, unread);
  }

  lemma BegunIs(j: Journal, boot: nat, c: Config, mac: Mac)
    ensures var b := Begun(j, boot, c, mac);
            && b.startup == Some(c) && b.bootId == Some(boot) && b.mac == Some(mac)
            && b.confirmed == j.confirmed && b.hasConfirmed == j.hasConfirmed && b.pending == j.pending
               && b.changes == j.changes
            && b.services == if j.bootId == Some(boot) then j.services else map[]
  {
  }

  predicate SameKey(a: Change, b: Change) {
    a.key == b.key && a.actor == b.actor
  }

  /** What the invariant says to an operator. */
  lemma ConsistentMeans(j: Journal, file: File, boot: nat, links: Links, uplinks: map<Mac, string>,
                        addresses: set<Prefix>, disturbed: bool, strayed: bool)
    requires Consistent(j, file, boot, links, uplinks, addresses, disturbed, strayed)
    ensures forall i, k | i in j.changes && k in j.changes && SameKey(j.changes[i], j.changes[k]) :: i == k
    ensures forall id | id in j.changes && j.changes[id].stage in {Applying, Awaiting} ::
        j.pending == Some(id) && j.changes[id].previous == j.confirmed
    ensures forall k, l | k in j.services && l in j.services && k != l :: j.services[k].address != j.services[l].address
    ensures j.hasConfirmed ==> j.needsConfig || j.startup.Some? || file == Toml(j.confirmed)
    ensures !strayed ==> addresses <= Expected(j) + Addresses(j.services)
  {
  }

  lemma ConsistentBoot(j: Journal, file: File, boot: nat, links: Links, uplinks: map<Mac, string>,
                       addresses: set<Prefix>, disturbed: bool, strayed: bool)
    requires Consistent(j, file, boot, links, uplinks, addresses, disturbed, strayed)
    ensures j.bootId != Some(boot) ==> addresses == {}
  {
  }

  /** Nothing foreign is in the way of the chosen configuration, and no lease has to be waited for. */
  ghost predicate Unhindered(j: Journal, file: File, boot: nat, links: Links, uplinks: map<Mac, string>) {
    Chosen(j, file, false).Some? ==>
      var c := Chosen(j, file, false).value;
      Applicable(links, uplinks, c) && (c.ipv4.Static? || j.services == map[] || j.bootId != Some(boot))
  }

  lemma StartedIs(j: Journal, c: Config)
    ensures var s := Started(j, c);
            && s.confirmed == c && s.pending.None? && s.hasConfirmed && s.startup.None?
            && s.bootId == j.bootId && s.services == j.services && s.mac == j.mac
  {
  }

  /** What a finished startup leaves on disk. */
  predicate Ready(j: Journal, boot: nat, file: File) {
    && j.hasConfirmed && j.bootId == Some(boot) && j.pending.None? && j.startup.None? && !j.needsConfig
    && file == Toml(j.confirmed)
  }

  lemma RebootKeeps(j: Journal, file: File, boot: nat, id: nat, before: Links, links: Links, uplinks: map<Mac, string>,
                    addresses: set<Prefix>,
                    disturbed: bool, strayed: bool)
    requires Consistent(j, file, boot, before, uplinks, addresses, disturbed, strayed) && j.bootId != Some(id)
    ensures Consistent(j, file, id, links, uplinks, {}, false, false)
    ensures Untouched(j, {}, {})
  {
  }

  // A confirmation that comes between an undo and its record.

  const HOME := Config(1, [], [], Static(Some(0xC0A8_0102), Some(30), Some(0xC0A8_0101)), [], "")
  const ROAMING := HOME.(ipv4 := Dhcp)
  const UNDONE := Journal(true, None, Some(1), HOME, Some(2), map[], Some(0), false,
                          map[0 := Change("key", "actor", Of(HOME), Awaiting, 60, ROAMING, HOME)])

  lemma HomeNetwork()
    ensures Masked(0xC0A8_0102, 30) == Masked(0xC0A8_0101, 30) == 0xC0A8_0100
    ensures LastAddress(0xC0A8_0102, 30) == LastAddress(0xC0A8_0101, 30) == 0xC0A8_0103
  {
    assert High(0xC0A8_0102, 2) == 2 * High(0x6054_0081, 1) == 4 * High(0x302A_0040, 0);
    assert High(0xC0A8_0101, 2) == 2 * High(0x6054_0080, 1) == 4 * High(0x302A_0040, 0);
    assert Pow2(2) == 4;
    LastAddressIsAllOnes(0xC0A8_0102, 30);
    LastAddressIsAllOnes(0xC0A8_0101, 30);
  }

  lemma HomeAddressing()
    ensures ValidAddressing(HOME.ipv4) && PrefixOf(HOME.ipv4) == Some(Prefix(0xC0A8_0102, 30))
  {
    hide Masked, LastAddress, IsBroadcast, Contains, WideMask, BitOr;
    HomeNetwork();
    PrefixRejectsNetworkAndBroadcast(HOME.ipv4);
    BroadcastTestsAgree(0xC0A8_0102, 30);
    BroadcastTestsAgree(0xC0A8_0101, 30);
    SameNetwork(0xC0A8_0102, 0xC0A8_0101, 30);
  }

  lemma SameNetwork(a: Address, b: Address, bits: nat)
    requires bits <= WIDTH && Masked(a, bits) == Masked(b, bits)
    ensures Contains(a, bits, b)
  {
  }

  lemma HomeValid()
    ensures ValidConfig(HOME) && ValidConfig(ROAMING) && PrefixOf(HOME.ipv4) == Some(Prefix(0xC0A8_0102, 30))
  {
    HomeAddressing();
    hide ValidAddressing, PrefixOf;
    assert ValidAddressing(Dhcp) by { DhcpValid(); }
    assert HOME.excluded + Members(HOME.bonds) == [];
  }

  lemma DhcpValid()
    ensures ValidAddressing(Dhcp)
  {
  }

  const DESK := [Adapter("eth0", 2, true)]
  const WISH := Request(Of(HOME), ROAMING, "key", "actor")

  /**
   Undisturbed startup, request and apply lead from an empty journal to UNDONE: each record here is
   the one the operation writes over the one before.
   */
  lemma UndoneIsReached()
    ensures Chosen(NEW, Toml(HOME), false) == Some(HOME) && Startable(NEW, Toml(HOME), DESK)
    ensures Uplinks(DESK).Keys == {2}
    ensures var started := Started(Begun(NEW, 1, HOME, 2), HOME).(needsConfig := false);
            && Acceptable(started, WISH, {2})
            && Marked(Dated(Submitted(started, WISH, 0), 0, 60), 0, Awaiting) == UNDONE
    ensures var home := Kept({}, Assumed(NEW), HOME) + Statics(HOME.ipv4) + Addresses(map[]);
            var roaming := Kept(home, HOME, ROAMING) + Statics(ROAMING.ipv4) + Addresses(map[]);
            && home == Statics(HOME.ipv4) && roaming == {}
            && Kept(roaming, ROAMING, HOME) + Statics(HOME.ipv4) + Addresses(map[]) == home
  {
    hide Workable;
    HomeValid();
    assert Uplinks(DESK[..0]) == map[];
    assert DESK[..|DESK| - 1] == DESK[..0];
    assert Uplinks(DESK) == map[2 := "eth0"];
    assert 2 in {2} && 2 !in ROAMING.excluded;
    assert Connected(ROAMING, {2});
    var started := Started(Begun(NEW, 1, HOME, 2), HOME).(needsConfig := false);
    assert started == Journal(true, None, Some(1), HOME, Some(2), map[], None, false, map[]);
    assert Addresses(map[]) == {};
  }

  /**
   An undo that reached the kernel but not the journal leaves the candidate confirmable; once it is
   confirmed, no later startup removes the address the undo put back.
   */
  lemma ConfirmedWhileUndone(links: Links, uplinks: map<Mac, string>)
    ensures var address := Statics(HOME.ipv4);
            && address != {}
            && Consistent(UNDONE, Toml(HOME), 1, links, uplinks, address, true, false)
            && Confirmable(UNDONE, 0, 59)
            && var after := Committing(UNDONE, 0).(needsConfig := false);
               && after.confirmed == ROAMING && Chosen(after, Toml(ROAMING), false) == Some(ROAMING)
               && Kept(address, Assumed(after), ROAMING) + Statics(ROAMING.ipv4) == address
  {
    hide Workable;
    HomeValid();
  }
}
