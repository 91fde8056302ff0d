/**
 Network pools and their address allocations: what ValidatePool admits, and what saving,
 deleting, allocating and releasing keep true of the database.

 Texts that do not parse as an IPv4 prefix or address are None.
 */
module Ipam {
  import opened Ipv4
  import opened Options

  datatype Cidr = Cidr(address: Address, bits: nat)

  datatype Pool = Pool(id: string, name: string, cidr: Option<Cidr>, start: Option<Address>, end: Option<Address>,
                       nodes: seq<string>, resolved: bool)

  datatype Allocation = Allocation(pool: string, address: Address)
  datatype Range = Range(start: Address, end: Address, owner: string)
  datatype Placement = Placement(pool: string, node: string)

  predicate ValidPool(pool: Pool) {
    && pool.cidr.Some? && pool.cidr.value.bits <= WIDTH
    && pool.cidr.value.address == Masked(pool.cidr.value.address, pool.cidr.value.bits)
    && pool.name != ""
    && pool.start.Some? && pool.end.Some?
    && Contains(pool.cidr.value.address, pool.cidr.value.bits, pool.start.value)
    && Contains(pool.cidr.value.address, pool.cidr.value.bits, pool.end.value)
    && pool.start.value <= pool.end.value
    && pool.start.value != pool.cidr.value.address
    && pool.end.value != LastAddress(pool.cidr.value.address, pool.cidr.value.bits)
  }

  predicate InRange(pool: Pool, address: Address) {
    pool.start.Some? && pool.end.Some? && pool.start.value <= address <= pool.end.value
  }

  /** A valid range lies strictly inside its subnet: only host addresses, and room to step past it. */
  lemma ValidPoolIsInterior(pool: Pool, address: Address)
    requires ValidPool(pool) && InRange(pool, address)
    ensures var c := pool.cidr.value;
            && Contains(c.address, c.bits, address)
            && c.address < address < LastAddress(c.address, c.bits)
            && !IsBroadcast(address, c.bits)
            && address + 1 < LIMIT && c.bits <= 30
  {
    var c := pool.cidr.value;
    var k := WIDTH - c.bits;
    LastAddressIsAllOnes(c.address, c.bits);
    HighIsInterval(c.address, pool.start.value, k);
    HighIsInterval(c.address, pool.end.value, k);
    HighIsInterval(c.address, address, k);
    BroadcastTestsAgree(address, c.bits);
    MasksAgree(c.bits);
    OrOnes(address, k);
    OrOnes(c.address, k);
  }

  predicate ValidMembers(nodes: seq<string>) {
    && nodes != []
    && (forall i | 0 <= i < |nodes| :: nodes[i] != "")
    && (forall i, j | 0 <= i < j < |nodes| :: nodes[i] != nodes[j])
  }

  predicate ShareNode(a: Pool, b: Pool) {
    exists node :: node in a.nodes && node in b.nodes
  }

  predicate Overlap(a: Pool, b: Pool) {
    && a.start.Some? && a.end.Some? && b.start.Some? && b.end.Some?
    && a.start.value <= b.end.value && b.start.value <= a.end.value
  }

  predicate RangesOverlap(a: Range, b: Range) {
    a.start <= b.end && b.start <= a.end
  }

  /** The smallest range covering every range in the list. */
  function Hull(ranges: seq<Range>): Range
    requires ranges != []
  {
    if |ranges| == 1 then ranges[0]
    else Merge(Hull(ranges[..|ranges| - 1]), ranges[|ranges| - 1])
  }

  /** The upsert of node_pool_ranges. */
  function Merge(held: Range, added: Range): Range {
    Range(if added.start < held.start then added.start else held.start,
          if added.end > held.end then added.end else held.end, added.owner)
  }

  type Pools = map<string, Pool>
  type Allocations = map<string, Allocation>
  type Ranges = map<string, Range>

  ghost predicate PoolsSound(pools: Pools) {
    && "" !in pools
    && (forall id | id in pools ::
        pools[id].id == id && pools[id].resolved && ValidPool(pools[id]) && ValidMembers(pools[id].nodes))
    && (forall a, b | a in pools && b in pools && a != b && ShareNode(pools[a], pools[b]) ::
          !Overlap(pools[a], pools[b]))
  }

  ghost predicate AllocationsSound(pools: Pools, allocations: Allocations) {
    && (forall s | s in allocations ::
        allocations[s].pool in pools && InRange(pools[allocations[s].pool], allocations[s].address))
    && (forall s, t | s in allocations && t in allocations && s != t :: allocations[s] != allocations[t])
  }

  /** Reservations are disjoint, and each is the hull of every node range ever committed for it. */
  ghost predicate RangesSound(ranges: Ranges, history: map<string, seq<Range>>) {
    && history.Keys == ranges.Keys
    && (forall id | id in ranges :: history[id] != [] && ranges[id] == Hull(history[id]))
    && (forall a, b | a in ranges && b in ranges && a != b :: !RangesOverlap(ranges[a], ranges[b]))
  }

  /** Two stacks whose pools share a member node never hold the same address. */
  lemma SharedNodeAddressesDistinct(pools: Pools, allocations: Allocations, s: string, t: string)
    requires PoolsSound(pools) && AllocationsSound(pools, allocations)
    requires s in allocations && t in allocations && s != t
    requires ShareNode(pools[allocations[s].pool], pools[allocations[t].pool])
    ensures allocations[s].address != allocations[t].address
  {
    var a, b := allocations[s], allocations[t];
    if a.pool != b.pool && a.address == b.address {
      assert InRange(pools[a.pool], a.address) && InRange(pools[b.pool], b.address);
      assert Overlap(pools[a.pool], pools[b.pool]);
    }
  }

  /** A reservation never lets go: it covers every range it ever covered, shrunk or deleted since. */
  lemma {:induction false} HullCovers(ranges: seq<Range>, i: nat)
    requires i < |ranges|
    ensures Hull(ranges).start <= ranges[i].start && ranges[i].end <= Hull(ranges).end
  {
    if |ranges| > 1 && i < |ranges| - 1 { HullCovers(ranges[..|ranges| - 1], i); }
  }

  lemma HullExtends(ranges: seq<Range>, added: Range)
    ensures Hull(ranges + [added]) == if ranges == [] then added else Merge(Hull(ranges), added)
  {
    assert (ranges + [added])[..|ranges|] == ranges;
  }

  /** Two node pools that committed overlapping ranges at any time are the same pool. */
  lemma NodeRangesNeverOverlap(ranges: Ranges, history: map<string, seq<Range>>, a: string, b: string, i: nat, j: nat)
    requires RangesSound(ranges, history)
    requires a in history && b in history && i < |history[a]| && j < |history[b]|
    requires RangesOverlap(history[a][i], history[b][j])
    ensures a == b
  {
    HullCovers(history[a], i);
    HullCovers(history[b], j);
  }

  /** netip.Addr.Next: the address after the last one is the invalid address. */
  function Next(address: Address): Option<Address> {
    if address + 1 < LIMIT then Some(address + 1) else None
  }

  /** Compare(a, end) <= 0; the invalid address sorts before every valid one. */
  predicate AtMost(a: Option<Address>, end: Address) {
    a.None? || a.value <= end
  }

  /** Why savePool turns a definition away, other than a failing database. */
  predicate Savable(pools: Pools, allocations: Allocations, ranges: Ranges, runtime: map<string, Placement>,
                    pool: Pool, node: string, id: string)
  {
    && ValidMembers(pool.nodes) && ValidPool(pool)
    && (forall other | other in pools && other != pool.id && MustNotOverlap(pools[other], pool) ::
          !Overlap(pools[other], pool))
    && (pool.id != "" ==>
          && (forall s | s in runtime && runtime[s].pool == pool.id :: runtime[s].node in pool.nodes)
          && (forall s | s in allocations && allocations[s].pool == pool.id :: Keeps(pool, allocations[s].address)))
    && Storable(pools, ranges, pool, node, id)
  }

  predicate MustNotOverlap(other: Pool, pool: Pool) {
    !other.resolved || ShareNode(other, pool)
  }

  /** Beside stored pools a new one may overlap any that shares no member node, and only those. */
  lemma OverlapOnlyElsewhere(pools: Pools, allocations: Allocations, ranges: Ranges, runtime: map<string, Placement>,
                             pool: Pool, node: string, id: string)
    requires PoolsSound(pools) && pool.id == ""
    ensures Savable(pools, allocations, ranges, runtime, pool, node, id) <==>
              && ValidMembers(pool.nodes) && ValidPool(pool) && Storable(pools, ranges, pool, node, id)
              && forall other | other in pools && Overlap(pools[other], pool) ::
                   forall n | n in pool.nodes :: n !in pools[other].nodes
  {
  }

  predicate Keeps(pool: Pool, address: Address)
    requires ValidPool(pool)
  {
    Contains(pool.cidr.value.address, pool.cidr.value.bits, address) && InRange(pool, address)
  }

  /** The database's own constraints: unique pool names, disjoint reservations, fixed owners. */
  predicate Storable(pools: Pools, ranges: Ranges, pool: Pool, node: string, id: string)
    requires ValidPool(pool)
  {
    && (forall other | other in pools && other != id :: pools[other].name != pool.name)
    && (node != "" ==>
          && (id in ranges ==> ranges[id].owner == node)
          && (forall other | other in ranges && other != id ::
                !RangesOverlap(ranges[other], Reservation(ranges, pool, node, id))))
  }

  function Reservation(ranges: Ranges, pool: Pool, node: string, id: string): Range
    requires ValidPool(pool)
  {
    var added := Range(pool.start.value, pool.end.value, node);
    if id in ranges then Merge(ranges[id], added) else added
  }

  /** The addresses of a pool nobody holds. */
  predicate Free(pool: Pool, allocations: Allocations, address: Address) {
    InRange(pool, address) && Allocation(pool.id, address) !in allocations.Values
  }

  lemma OverlapSymmetric(a: Pool, b: Pool)
    ensures Overlap(a, b) == Overlap(b, a) && ShareNode(a, b) == ShareNode(b, a)
  {
  }

  lemma SavedPoolsSound(pools: Pools, allocations: Allocations, ranges: Ranges, runtime: map<string, Placement>,
                        pool: Pool, node: string, id: string)
    requires PoolsSound(pools) && AllocationsSound(pools, allocations)
    requires Savable(pools, allocations, ranges, runtime, pool, node, id)
    requires id != "" && (id == pool.id || (pool.id == "" && id !in pools))
    ensures PoolsSound(pools[id := pool.(id := id, resolved := true)])
    ensures AllocationsSound(pools[id := pool.(id := id, resolved := true)], allocations)
  {
    var saved := pool.(id := id, resolved := true);
    var after := pools[id := saved];
    forall a, b | a in after && b in after && a != b && ShareNode(after[a], after[b])
      ensures !Overlap(after[a], after[b])
    {
      OverlapSymmetric(after[a], after[b]);
      if a == id {
        OverlapSymmetric(pool, pools[b]);
        assert MustNotOverlap(pools[b], pool);
      } else if b == id {
        assert MustNotOverlap(pools[a], pool);
      }
    }
  }

  lemma ReservationSound(pools: Pools, ranges: Ranges, history: map<string, seq<Range>>, pool: Pool, node: string,
                         id: string)
    requires RangesSound(ranges, history) && ValidPool(pool) && Storable(pools, ranges, pool, node, id) && node != ""
    ensures RangesSound(ranges[id := Reservation(ranges, pool, node, id)],
                        history[id := Committed(history, id) + [Range(pool.start.value, pool.end.value, node)]])
  {
    HullExtends(Committed(history, id), Range(pool.start.value, pool.end.value, node));
  }

  function Committed(history: map<string, seq<Range>>, id: string): seq<Range> {
    if id in history then history[id] else []
  }

  class Database {
    var pools: Pools
    var allocations: Allocations              // by stack
    var ranges: Ranges                        // node_pool_ranges, by pool id
    var runtime: map<string, Placement>       // stack_runtime rows with an address, by stack
    ghost var history: map<string, seq<Range>>  // every node range committed, by pool id
    var faults: nat

    ghost predicate Valid()
      reads this
    {
      PoolsSound(pools) && AllocationsSound(pools, allocations) && RangesSound(ranges, history)
    }

    constructor ()
      ensures Valid() && pools == map[] && allocations == map[] && ranges == map[] && runtime == map[] && faults == 0
    {
      pools, allocations, ranges, runtime, history, faults := map[], map[], map[], map[], map[], 0;
    }

    /** A statement batch commits entirely or not at all; a reported failure may hide a commit. */
    method Attempt() returns (effect: bool, ok: bool)
      modifies `faults
      ensures ok ==> effect
      ensures old(faults) <= faults
      ensures faults == old(faults) ==> ok
    {
      effect, ok := true, true;
      if * {
        faults, ok := faults + 1, false;
        if * { effect := false; }
      }
    }

    /** The first stored pool, if any, that shares a node and an address with the wanted one. */
    method FindOverlap(pool: Pool) returns (found: bool)
      requires PoolsSound(pools) && ValidPool(pool)
      ensures found <==> exists other :: other in pools && other != pool.id
                           && MustNotOverlap(pools[other], pool) && Overlap(pools[other], pool)
    {
      var ids := pools.Keys;
      while ids != {}
        invariant ids <= pools.Keys
        invariant forall other | other in pools && other !in ids && other != pool.id ::
                    MustNotOverlap(pools[other], pool) ==> !Overlap(pools[other], pool)
        decreases ids
      {
        var id :| id in ids;
        ids := ids - {id};
        if id == pool.id { continue; }
        var existing := pools[id];
        var shared := !existing.resolved;
        for i := 0 to |pool.nodes|
          invariant shared <==> !existing.resolved || exists j :: 0 <= j < i && pool.nodes[j] in existing.nodes
        {
          if pool.nodes[i] in existing.nodes { shared := true; }
        }
        assert shared <==> MustNotOverlap(existing, pool);
        if shared && Overlap(existing, pool) { return true; }
      }
      return false;
    }

    /** Some row of the pool would be left without its host or outside the new range. */
    method FindExcluded(pool: Pool) returns (found: bool)
      requires ValidPool(pool)
      ensures found <==>
                || (exists s :: s in runtime && runtime[s].pool == pool.id && runtime[s].node !in pool.nodes)
                || (exists s ::
                    s in allocations && allocations[s].pool == pool.id && !Keeps(pool, allocations[s].address))
    {
      var rows := runtime.Keys;
      while rows != {}
        invariant rows <= runtime.Keys
        invariant forall s | s in runtime && s !in rows && runtime[s].pool == pool.id :: runtime[s].node in pool.nodes
        decreases rows
      {
        var s :| s in rows;
        rows := rows - {s};
        if runtime[s].pool == pool.id && runtime[s].node !in pool.nodes { return true; }
      }
      rows := allocations.Keys;
      while rows != {}
        invariant rows <= allocations.Keys
        invariant forall s | s in allocations && s !in rows && allocations[s].pool == pool.id ::
                    Keeps(pool, allocations[s].address)
        decreases rows
      {
        var s :| s in rows;
        rows := rows - {s};
        if allocations[s].pool == pool.id && !Keeps(pool, allocations[s].address) { return true; }
      }
      return false;
    }

    /** The statement batch of a save: reservation, definition, scope and members together. */
    method Store(pool: Pool, node: string, id: string) returns (ok: bool)
      requires Valid() && Savable(pools, allocations, ranges, runtime, pool, node, id)
      requires id != "" && (id == pool.id || (pool.id == "" && id !in pools))
      modifies `faults, `pools, `ranges, `history
      ensures Valid() && old(faults) <= faults
      ensures ok || (pools == old(pools) && ranges == old(ranges) && history == old(history))
              || StoredAs(old(pools), old(ranges), pools, ranges, pool, node, id)
      ensures ok ==> StoredAs(old(pools), old(ranges), pools, ranges, pool, node, id)
      ensures faults == old(faults) ==> ok
    {
      hide PoolsSound, AllocationsSound, RangesSound, Savable;
      var effect;
      effect, ok := Attempt();
      if effect {
        SavedPoolsSound(pools, allocations, ranges, runtime, pool, node, id);
        SavableFacts(pools, allocations, ranges, runtime, pool, node, id);
        if node != "" {
          ReservationSound(pools, ranges, history, pool, node, id);
          history := history[id := Committed(history, id) + [Range(pool.start.value, pool.end.value, node)]];
          ranges := ranges[id := Reservation(ranges, pool, node, id)];
        }
        pools := pools[id := pool.(id := id, resolved := true)];
      }
    }

    /** The shared part of SavePool and SaveNodePool; `uuid` is the generated id. */
    method Save(pool: Pool, node: string, uuid: string) returns (ok: bool)
      requires Valid()
      requires uuid != "" && uuid !in pools && uuid !in ranges
      modifies `faults, `pools, `ranges, `history
      ensures Valid() && old(faults) <= faults
      ensures var id := if pool.id == "" then uuid else pool.id;
              var admitted := Savable(old(pools), allocations, old(ranges), runtime, pool, node, id);
              && (ok ==> admitted && StoredAs(old(pools), old(ranges), pools, ranges, pool, node, id))
              && (faults == old(faults) && admitted ==> ok)
              && (!ok ==> (pools == old(pools) && ranges == old(ranges) && history == old(history))
                          || (admitted && StoredAs(old(pools), old(ranges), pools, ranges, pool, node, id)))
    {
      hide AllocationsSound, RangesSound;
      if !ValidMembers(pool.nodes) { return false; }
      if !ValidPool(pool) { return false; }
      var refused := FindOverlap(pool);
      if refused { return false; }
      if pool.id != "" {
        refused := FindExcluded(pool);
        if refused { return false; }
      }
      var id := if pool.id == "" then uuid else pool.id;
      if !Storable(pools, ranges, pool, node, id) { return false; }  // the batch's constraints abort it
      ok := Store(pool, node, id);
    }

    method SavePool(pool: Pool, uuid: string) returns (ok: bool)
      requires Valid()
      requires uuid != "" && uuid !in pools && uuid !in ranges
      modifies `faults, `pools, `ranges, `history
      ensures Valid()
      ensures ok ==> StoredAs(old(pools), old(ranges), pools, ranges, pool, "", if pool.id == "" then uuid else pool.id)
      ensures faults == old(faults) ==>
                (ok <==> Savable(old(pools), allocations, old(ranges), runtime, pool, "",
                                 if pool.id == "" then uuid else pool.id))
    {
      ok := Save(pool, "", uuid);
    }

    /** A definition committed together with the reservation of its one owning node. */
    method SaveNodePool(pool: Pool, node: string, uuid: string) returns (ok: bool)
      requires Valid()
      requires uuid != "" && uuid !in pools && uuid !in ranges
      modifies `faults, `pools, `ranges, `history
      ensures Valid()
      ensures ok ==> StoredAs(old(pools), old(ranges), pools, ranges, pool, node,
                              if pool.id == "" then uuid else pool.id)
      ensures faults == old(faults) ==>
                (ok <==> && node != "" && pool.nodes == [node]
                         && Savable(old(pools), allocations, old(ranges), runtime, pool, node,
                                    if pool.id == "" then uuid else pool.id))
    {
      if node == "" || |pool.nodes| != 1 || pool.nodes[0] != node { return false; }
      ok := Save(pool, node, uuid);
    }

    /** A pool goes only when nothing is allocated from it; its reservation stays. */
    method DeletePool(id: string) returns (ok: bool)
      requires Valid()
      modifies `faults, `pools
      ensures Valid() && old(faults) <= faults
      ensures pools == old(pools) || (pools == old(pools) - {id} && !InUse(allocations, id))
      ensures ok ==> pools == old(pools) - {id}
      ensures faults == old(faults) ==> (ok <==> !InUse(allocations, id))
    {
      hide PoolsSound, AllocationsSound, RangesSound;
      var effect;
      effect, ok := Attempt();
      if !ok || InUse(allocations, id) { return false; }
      UnusedPoolGoes(pools, allocations, id);
      effect, ok := Attempt();
      if effect { pools := pools - {id}; }
    }

    /** One INSERT: it aborts if the stack already holds an address, or the address is held. */
    method Insert(stack: string, row: Allocation) returns (ok: bool)
      modifies `faults, `allocations
      ensures old(faults) <= faults
      ensures allocations == old(allocations) ||
              (&& stack !in old(allocations) && row !in old(allocations).Values
               && allocations == old(allocations)[stack := row])
      ensures ok ==> && stack !in old(allocations) && row !in old(allocations).Values
                     && allocations == old(allocations)[stack := row]
      ensures faults == old(faults) ==> (ok <==> stack !in old(allocations) && row !in old(allocations).Values)
      ensures !ok && faults == old(faults) ==> allocations == old(allocations)
    {
      var effect;
      effect, ok := Attempt();
      if stack in allocations || row in allocations.Values { return false; }
      if effect { allocations := allocations[stack := row]; }
    }

    /** The least free address of the pool, or none when the pool is exhausted. */
    method AllocateIPv4(pool: Pool, stack: string) returns (address: Option<Address>)
      requires Valid()
      modifies `faults, `allocations
      ensures old(faults) <= faults
      ensures pool.id in pools && pools[pool.id] == pool ==> Valid()
      ensures address.Some? ==>
                && ValidPool(pool) && Free(pool, old(allocations), address.value)
                && stack !in old(allocations)
                && allocations == old(allocations)[stack := Allocation(pool.id, address.value)]
      ensures forall s | s in old(allocations) :: s in allocations && allocations[s] == old(allocations)[s]
      ensures faults == old(faults) ==>
                && (address.None? ==> allocations == old(allocations))
                && (address.Some? ==> forall a: Address | a < address.value :: !Free(pool, old(allocations), a))
                && (address.Some? <==>
                    && pool.resolved && pool.nodes != [] && ValidPool(pool) && stack !in old(allocations)
                    && exists a: Address :: Free(pool, old(allocations), a))
    {
      hide PoolsSound, AllocationsSound, RangesSound, Free;
      if !pool.resolved || |pool.nodes| == 0 { return None; }
      if !ValidPool(pool) { return None; }
      var effect, ok := Attempt();
      if !ok { return None; }
      ghost var before := allocations;
      var taken := set s | s in allocations && allocations[s].pool == pool.id :: allocations[s].address;
      TakenIsHeld(pool, allocations, taken);
      ValidPoolIsInterior(pool, pool.end.value);
      address := Fill(pool, stack, taken);
      PlacedKeeps(pools, before, allocations, pool, stack);
    }

    /** The loop of AllocateIPv4, over the addresses not seen as taken. */
    method Fill(pool: Pool, stack: string, taken: set<Address>) returns (address: Option<Address>)
      requires ValidPool(pool) && pool.end.value + 1 < LIMIT
      requires forall a: Address | InRange(pool, a) :: a !in taken <==> Free(pool, allocations, a)
      modifies `faults, `allocations
      ensures old(faults) <= faults
      ensures allocations == old(allocations) || Placed(old(allocations), allocations, pool, stack)
      ensures address.Some? ==> && Placed(old(allocations), allocations, pool, stack)
                                && allocations[stack].address == address.value
      ensures faults == old(faults) && address.None? ==>
                (&& allocations == old(allocations)
                 && (stack in allocations || forall a: Address :: !Free(pool, old(allocations), a)))
      ensures faults == old(faults) && address.Some? ==>
                forall a: Address | a < address.value :: !Free(pool, old(allocations), a)
    {
      var next := pool.start;
      while AtMost(next, pool.end.value)
        invariant next.Some? && pool.start.value <= next.value <= pool.end.value + 1
        invariant old(faults) <= faults
        invariant allocations == old(allocations) || Placed(old(allocations), allocations, pool, stack)
        invariant faults == old(faults) ==>
                    (&& allocations == old(allocations)
                     && (stack in allocations
                         || forall a: Address | a < next.value :: !Free(pool, old(allocations), a)))
        decreases pool.end.value + 1 - next.value
      {
        var candidate := next.value;
        next := Next(candidate);
        if candidate in taken { continue; }
        var ok := Insert(stack, Allocation(pool.id, candidate));
        if ok { return Some(candidate); }
      }
      return None;
    }

    method ReleaseIPv4(stack: string) returns (ok: bool)
      requires Valid()
      modifies `faults, `allocations, `runtime
      ensures Valid() && old(faults) <= faults
      ensures (allocations == old(allocations) && runtime == old(runtime)) ||
              (allocations == old(allocations) - {stack} && runtime == old(runtime) - {stack})
      ensures ok ==> stack !in allocations && stack !in runtime
      ensures faults == old(faults) ==> ok
    {
      var effect;
      effect, ok := Attempt();
      if effect { allocations, runtime := allocations - {stack}, runtime - {stack}; }
    }

    /** Any sequence of operations, each on the stored definition, with statements failing at will. */
    method Run(schedule: seq<Event>)
      requires Valid()
      modifies this
      ensures Valid()
      ensures forall s, t | s in allocations && t in allocations && s != t
                && ShareNode(pools[allocations[s].pool], pools[allocations[t].pool]) ::
                allocations[s].address != allocations[t].address
    {
      for i := 0 to |schedule|
        invariant Valid()
      {
        match schedule[i]
        case Define(pool, uuid) =>
          if uuid != "" && uuid !in pools && uuid !in ranges { var ok := SavePool(pool, uuid); }
        case DefineForNode(pool, node, uuid) =>
          if uuid != "" && uuid !in pools && uuid !in ranges { var ok := SaveNodePool(pool, node, uuid); }
        case Delete(id) => var ok := DeletePool(id);
        case Allocate(id, stack) =>
          if id in pools { var address := AllocateIPv4(pools[id], stack); }
        case Release(stack) => var ok := ReleaseIPv4(stack);
        case Place(stack, placement) => runtime := runtime[stack := placement];
      }
      forall s, t | s in allocations && t in allocations && s != t
                && ShareNode(pools[allocations[s].pool], pools[allocations[t].pool])
        ensures allocations[s].address != allocations[t].address
      {
        SharedNodeAddressesDistinct(pools, allocations, s, t);
      }
    }
  }

  predicate InUse(allocations: Allocations, pool: string) {
    exists s :: s in allocations && allocations[s].pool == pool
  }

  /** One row was added, for this stack, at an address that was free. */
  predicate Placed(before: Allocations, after: Allocations, pool: Pool, stack: string) {
    && stack !in before && stack in after
    && after == before[stack := after[stack]]
    && after[stack].pool == pool.id && Free(pool, before, after[stack].address)
  }

  lemma PlacedKeeps(pools: Pools, before: Allocations, after: Allocations, pool: Pool, stack: string)
    requires AllocationsSound(pools, before)
    ensures pool.id in pools && pools[pool.id] == pool && Placed(before, after, pool, stack) ==>
              AllocationsSound(pools, after)
  {
  }

  lemma UnusedPoolGoes(pools: Pools, allocations: Allocations, id: string)
    requires PoolsSound(pools) && AllocationsSound(pools, allocations) && !InUse(allocations, id)
    ensures PoolsSound(pools - {id}) && AllocationsSound(pools - {id}, allocations)
  {
  }

  lemma TakenIsHeld(pool: Pool, allocations: Allocations, taken: set<Address>)
    requires taken == set s | s in allocations && allocations[s].pool == pool.id :: allocations[s].address
    ensures forall a: Address | InRange(pool, a) :: a !in taken <==> Free(pool, allocations, a)
  {
    forall a: Address | InRange(pool, a)
      ensures a !in taken <==> Free(pool, allocations, a)
    {
      if Allocation(pool.id, a) in allocations.Values {
        var s :| s in allocations && allocations[s] == Allocation(pool.id, a);
        assert a in taken;
      }
    }
  }

  predicate StoredAs(pools: Pools, ranges: Ranges, pools': Pools, ranges': Ranges, pool: Pool, node: string,
                     id: string) {
    && ValidPool(pool)
    && pools' == pools[id := pool.(id := id, resolved := true)]
    && ranges' == (if node == "" then ranges else ranges[id := Reservation(ranges, pool, node, id)])
  }

  lemma SavableFacts(pools: Pools, allocations: Allocations, ranges: Ranges, runtime: map<string, Placement>,
                     pool: Pool, node: string, id: string)
    requires Savable(pools, allocations, ranges, runtime, pool, node, id)
    ensures ValidPool(pool) && Storable(pools, ranges, pool, node, id)
  {
  }

  datatype Event =
    | Define(pool: Pool, uuid: string)
    | DefineForNode(pool: Pool, node: string, uuid: string)
    | Delete(id: string)
    | Allocate(id: string, stack: string)
    | Release(stack: string)
    | Place(stack: string, placement: Placement)

  predicate Covered(pools: Pools, ranges: Ranges, id: string) {
    && id in pools && id in ranges && pools[id].start.Some? && pools[id].end.Some?
    && ranges[id].start <= pools[id].start.value && pools[id].end.value <= ranges[id].end
  }

  /** A save leaves its range reserved exactly if it names the owning node, or fits what is reserved. */
  lemma SaveCovers(pools: Pools, ranges: Ranges, pools': Pools, ranges': Ranges, pool: Pool, node: string, id: string)
    requires StoredAs(pools, ranges, pools', ranges', pool, node, id)
    ensures Covered(pools', ranges', id) <==>
              node != "" ||
              (id in ranges && ranges[id].start <= pool.start.value && pool.end.value <= ranges[id].end)
  {
  }

  const NARROW := Pool("p", "lan", Some(Cidr(0, 0)), Some(10), Some(20), ["n"], true)
  const WIDE := NARROW.(end := Some(30))
  const HELD := Range(10, 20, "n")

  lemma BothValid()
    ensures ValidPool(NARROW) && ValidPool(WIDE)
  {
    LastAddressIsAllOnes(0, 0);
    Pow2Width();
    HighOfZero(32);
    forall a: Address ensures Contains(0, 0, a) {
      HighIsInterval(0, a, 32);
    }
  }

  lemma WideSavable()
    ensures Savable(map["p" := NARROW], map[], map["p" := HELD], map[], WIDE, "", "p")
  {
    BothValid();
    hide ValidPool;
  }

  /** Widening a node pool through SavePool is accepted and outgrows its reservation. */
  lemma SavePoolCanOutgrowReservation()
    ensures exists pools, ranges, history, pool, id ::
              && PoolsSound(pools) && RangesSound(ranges, history) && Covered(pools, ranges, id)
              && Savable(pools, map[], ranges, map[], pool, "", id) && pool.id == id
              && !Covered(pools[id := pool], ranges, id)
  {
    var pools, ranges, history := map["p" := NARROW], map["p" := HELD], map["p" := [HELD]];
    BothValid();
    WideSavable();
    hide ValidPool, Savable;
    assert PoolsSound(pools) && RangesSound(ranges, history) && Covered(pools, ranges, "p");
    assert !Covered(pools["p" := WIDE], ranges, "p") && WIDE.id == "p";
  }
}
