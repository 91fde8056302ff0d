/**
 The kernel side of a network change: the LAN bridge, the bonds this host owns, the adapters
 enslaved to them, and the addresses on the bridge.  Apply converges all of it on a candidate.

 Every netlink call may fail before or after taking effect, and the process may die there.
 */
module NetworkKernel {
  import opened Options
  import opened Ipv4
  import opened NetworkConfig

  datatype Kind = Physical | BridgeLink | BondLink | OtherLink

  /** `owned` is the alias this host sets; `lacp` is mode 802.3ad. */
  datatype Link = Link(kind: Kind, owned: bool, lacp: bool, master: Option<string>, up: bool)
  type Links = map<string, Link>

  /** One discovered adapter, in name order. */
  datatype Adapter = Adapter(name: string, mac: Mac, eligible: bool)

  const LAN := Link(BridgeLink, true, false, None, false)
  const BOND := Link(BondLink, true, true, None, false)

  /** byMAC: of eligible adapters with the same permanent address the last one counts. */
  function Uplinks(adapters: seq<Adapter>): map<Mac, string> {
    if adapters == [] then map[]
    else
      var rest := Uplinks(adapters[..|adapters| - 1]);
      var a := adapters[|adapters| - 1];
      if a.eligible then rest[a.mac := a.name] else rest
  }

  /** The inventory names existing links, each once; eligible ones are physical. */
  predicate Inventory(links: Links, adapters: seq<Adapter>) {
    && (forall i, j | 0 <= i < j < |adapters| :: adapters[i].name != adapters[j].name)
    && (forall i | 0 <= i < |adapters| && adapters[i].eligible ::
          adapters[i].name in links && links[adapters[i].name].kind == Physical)
  }

  /** The bond naming an adapter, if any: the last one does, as in the loop over c.Bonds. */
  function BondOf(bonds: seq<Bond>, mac: Mac): Option<string> {
    if bonds == [] then None
    else if mac in bonds[|bonds| - 1].members then Some(bonds[|bonds| - 1].name)
    else BondOf(bonds[..|bonds| - 1], mac)
  }

  /** The master a candidate wants for an adapter. */
  function Target(c: Config, mac: Mac): Option<string> {
    if BondOf(c.bonds, mac).Some? then BondOf(c.bonds, mac)
    else if mac in c.excluded then None
    else Some(BRIDGE)
  }

  predicate Wanted(c: Config, name: string) {
    exists i :: 0 <= i < |c.bonds| && c.bonds[i].name == name
  }

  predicate OwnedBond(l: Link) {
    l.kind == BondLink && l.owned
  }

  /** What a candidate determines: every adapter's master, and which bonds there are. */
  ghost predicate Converged(links: Links, uplinks: map<Mac, string>, c: Config) {
    && OurBridge(links)
    && (forall mac | mac in uplinks :: Placed(links, uplinks[mac], Target(c, mac)))
    && (forall i | 0 <= i < |c.bonds| :: BondReady(links, c.bonds[i].name))
    && (forall n | n in links && OwnedBond(links[n]) :: Wanted(c, n))
  }

  predicate OurBridge(links: Links) {
    BRIDGE in links && links[BRIDGE].kind == BridgeLink && links[BRIDGE].owned
  }

  predicate Placed(links: Links, name: string, target: Option<string>) {
    name in links && links[name].master == target && (target.Some? ==> links[name].up)
  }

  predicate BondReady(links: Links, name: string) {
    name in links && BondFree(links, name) && links[name].master == Some(BRIDGE) && links[name].up
  }

  /** Nothing foreign is in the way: not the bridge name, not an adapter's master, not a bond name. */
  ghost predicate Applicable(links: Links, uplinks: map<Mac, string>, c: Config) {
    && BridgeFree(links)
    && (forall mac | mac in uplinks :: Releasable(links, uplinks[mac], Target(c, mac)))
    && (forall i | 0 <= i < |c.bonds| :: BondFree(links, c.bonds[i].name))
  }

  predicate BridgeFree(links: Links) {
    BRIDGE in links ==> OurBridge(links)
  }

  predicate BondFree(links: Links, name: string) {
    name in links ==> OwnedBond(links[name]) && links[name].lacp
  }

  predicate Releasable(links: Links, name: string, target: Option<string>) {
    name in links ==>
      var m := links[name].master;
      m == None || m == target || m == Some(BRIDGE) || (m.value in links && links[m.value].owned)
  }

  predicate Closed(links: Links) {
    forall n | n in links && links[n].master.Some? :: links[n].master.value in links
  }

  predicate UplinkMap(links: Links, uplinks: map<Mac, string>) {
    && (forall mac | mac in uplinks :: uplinks[mac] in links && links[uplinks[mac]].kind == Physical)
    && (forall m, n | m in uplinks && n in uplinks && uplinks[m] == uplinks[n] :: m == n)
  }

  /** Links Apply has no business with. */
  predicate Unmanaged(links: Links, uplinks: map<Mac, string>, name: string) {
    name in links && name != BRIDGE && name !in uplinks.Values && !OwnedBond(links[name])
  }

  /** They stay as they are, except that deleting an unwanted owned bond frees what it enslaved. */
  ghost predicate LeavesAlone(before: Links, after: Links, uplinks: map<Mac, string>, c: Config) {
    forall n | Unmanaged(before, uplinks, n) ::
      n in after && (after[n] == before[n] || (after[n] == before[n].(master := None) && Freed(before, n, c)))
  }

  predicate Freed(links: Links, name: string, c: Config) {
    && name in links && links[name].master.Some? && links[name].master.value in links
    && OwnedBond(links[links[name].master.value]) && !Wanted(c, links[name].master.value)
  }

  /** The link an uplink, a bond or the bridge may turn into: same identity, master ours or gone. */
  predicate Evolves(before: Links, after: Links, c: Config, name: string) {
    && name in after
    && (if name in before
        then after[name].kind == before[name].kind && after[name].owned == before[name].owned
        && after[name].lacp == before[name].lacp
        else if name == BRIDGE then OurBridge(after) else OwnedBond(after[name]) && after[name].lacp && Wanted(c, name))
    && var m := after[name].master;
       m == None || (name in before && m == before[name].master) || (m.value in after && after[m.value].owned)
  }

  /** What any part of an Apply of `c`, finished or not, may have done. */
  ghost predicate Step(before: Links, after: Links, uplinks: map<Mac, string>, c: Config) {
    && Closed(after) && UplinkMap(after, uplinks)
    && LeavesAlone(before, after, uplinks, c)
    && (forall n | n in before && !(OwnedBond(before[n]) && !Wanted(c, n)) :: n in after)
    && (forall n | n in after :: Evolves(before, after, c, n))
  }

  class Kernel {
    const adapters: seq<Adapter>
    var links: Links
    var addresses: set<Prefix>
    var leased: set<Prefix>
    var gateway: Option<Address>
    var hardware: Option<Mac>
    var up: bool
    var faults: nat

    ghost predicate Valid()
      reads this
    {
      Closed(links) && UplinkMap(links, Uplinks(adapters))
    }

    constructor (links: Links, adapters: seq<Adapter>)
      requires Closed(links) && Inventory(links, adapters)
      ensures this.links == links && this.adapters == adapters && addresses == {} && up && faults == 0
      ensures Valid()
    {
      this.links, this.adapters, addresses, leased, gateway, hardware := links, adapters, {}, {}, None, None;
      up, faults := true, 0;
      UplinksDistinct(links, adapters);
    }

    twostate predicate Worsening()
      reads this
    {
      && old(faults) <= faults && (up ==> old(up))
      && (old(up) && faults == old(faults) ==> up)
    }

    twostate predicate Calm()
      reads this
    {
      old(up) && faults == old(faults)
    }

    /** A new boot finds the links the hardware and other software make. */
    method Boot(links: Links)
      requires Closed(links) && Inventory(links, adapters)
      modifies this
      ensures Valid() && this.links == links && addresses == {} && leased == {} && gateway == None && up
              && faults == old(faults)
    {
      this.links, addresses, leased, gateway, hardware, up := links, {}, {}, None, None, true;
      UplinksDistinct(links, adapters);
    }

    method Attempt() returns (effect: bool, ok: bool)
      modifies `up, `faults
      ensures Worsening()
      ensures ok ==> effect && up
      ensures effect ==> old(up)
      ensures Calm() ==> ok
    {
      effect, ok := up, up;
      if up {
        if * {
          faults, ok := faults + 1, false;
          if * { effect := false; }
          if * { up := false; }
        }
      }
    }

    method Put(name: string, l: Link) returns (ok: bool)
      modifies `links, `up, `faults
      ensures Worsening()
      ensures links == old(links) || links == old(links)[name := l]
      ensures ok ==> up && links == old(links)[name := l]
      ensures Calm() ==> ok
    {
      var effect;
      effect, ok := Attempt();
      if effect { links := links[name := l]; }
    }

    /** Deleting a bond frees its slaves. */
    method Delete(name: string) returns (ok: bool)
      modifies `links, `up, `faults
      ensures Worsening()
      ensures links == old(links) || links == Deleted(old(links), name)
      ensures ok ==> up && links == Deleted(old(links), name)
      ensures Calm() ==> ok
    {
      var effect;
      effect, ok := Attempt();
      if effect { links := Deleted(links, name); }
    }

    /** One netlink change to the bridge, an uplink or a bond of this host, as part of a larger Step. */
    method Change(n: string, l: Link, ghost before: Links, ghost uplinks: map<Mac, string>,
                  ghost c: Config) returns (ok: bool)
      requires Closed(before) && OurBridge(before) && Step(before, links, uplinks, c)
      requires n == BRIDGE || n in uplinks.Values || (n in links && OwnedBond(links[n])) || n !in links
      requires n in links ==> l.kind == links[n].kind && l.owned == links[n].owned && l.lacp == links[n].lacp
      requires n !in links ==> n != BRIDGE && OwnedBond(l) && l.lacp && Wanted(c, n)
      requires l.master == None || (n in links && l.master == links[n].master)
               || (l.master.value in links && links[l.master.value].owned)
      modifies `links, `up, `faults
      ensures Worsening()
      ensures Step(before, links, uplinks, c) && Closed(links) && UplinkMap(links, uplinks) && OurBridge(links)
      ensures links == old(links) || links == old(links)[n := l]
      ensures ok ==> up && links == old(links)[n := l]
      ensures Calm() ==> ok
    {
      hide Evolves, LeavesAlone;
      StepValid(before, links, uplinks, c);
      PutStep(links, n, l, uplinks, c);
      StepTransitive(before, links, links[n := l], uplinks, c);
      StepValid(before, links[n := l], uplinks, c);
      ok := Put(n, l);
    }

    /** Create the bridge unless it is there; a foreign interface of that name is an error. */
    method EnsureBridge(mac: Option<Mac>) returns (ok: bool)
      modifies `links, `up, `faults
      ensures Worsening()
      ensures links == old(links) || (BRIDGE !in old(links) && links == old(links)[BRIDGE := LAN])
      ensures ok ==> OurBridge(links) && BridgeFree(old(links))
      ensures Calm() && mac.Some? ==> (ok <==> BridgeFree(old(links)))
    {
      if BRIDGE in links {
        ok := links[BRIDGE].kind == BridgeLink && links[BRIDGE].owned;
      } else if mac.None? {
        ok := false;
      } else {
        ok := Put(BRIDGE, LAN);
      }
    }

    /** Release the uplinks whose master has to change, if it is ours to release them from. */
    method Detach(c: Config, uplinks: map<Mac, string>) returns (ok: bool)
      requires Closed(links) && UplinkMap(links, uplinks) && OurBridge(links)
      modifies `links, `up, `faults
      ensures Worsening()
      ensures Step(old(links), links, uplinks, c)
      ensures links.Keys == old(links.Keys)
      ensures forall n | n in links && n !in uplinks.Values :: links[n] == old(links[n])
      ensures ok ==> Loose(links, uplinks, c) && Movable(old(links), uplinks, c)
      ensures forall mac | mac in uplinks :: KeptOrFreed(old(links), links, uplinks[mac], Target(c, mac))
      ensures Calm() && Movable(old(links), uplinks, c) ==> ok
    {
      hide Step, Closed, UplinkMap, Evolves, Detaching, Loose, Movable, Releasable;
      ghost var before := links;
      var todo := uplinks.Keys;
      StepReflexive(before, uplinks, c);
      UplinksInjective(before, uplinks);
      DetachStarts(before, uplinks, c);
      while todo != {}
        invariant todo <= uplinks.Keys
        invariant OurBridge(links) && Closed(links) && UplinkMap(links, uplinks)
        invariant Worsening() && Step(before, links, uplinks, c) && Detaching(before, links, uplinks, c, todo)
      {
        var mac :| mac in todo;
        DetachNext(before, links, uplinks, c, todo, mac);
        DetachFrame(before, links, uplinks, c, todo);
        todo := todo - {mac};
        var name := uplinks[mac];
        var m := links[name].master;
        if m != Target(c, mac) && m.Some? {
          MasterKept(before, links, uplinks, c, name, m.value);
          if m.value != BRIDGE && !links[m.value].owned { return false; }
          DetachFrame(before, links[name := links[name].(master := None)], uplinks, c, todo);
          ok := Change(name, links[name].(master := None), before, uplinks, c);
          if !ok { return; }
        }
      }
      DetachFrame(before, links, uplinks, c, {});
      DetachEnds(before, links, uplinks, c);
      ok := true;
    }

    /** Delete this host's bonds the candidate does not name. */
    method RemoveBonds(c: Config, uplinks: map<Mac, string>) returns (ok: bool)
      requires Closed(links) && UplinkMap(links, uplinks) && OurBridge(links) && Loose(links, uplinks, c)
      modifies `links, `up, `faults
      ensures Worsening()
      ensures Step(old(links), links, uplinks, c) && Loose(links, uplinks, c)
      ensures SameBonds(c, old(links), links)
      ensures ok ==> OnlyWanted(links, c)
      ensures Calm() ==> ok
    {
      hide Step, Loose, Closed, UplinkMap, SameBonds, Deleted;
      ghost var before := links;
      StepReflexive(before, uplinks, c);
      SameBondsReflexive(c, before);
      var todo := set n | n in links && OwnedBond(links[n]) && !Wanted(c, n);
      while todo != {}
        invariant OurBridge(links) && Closed(links) && UplinkMap(links, uplinks)
        invariant Worsening() && Step(before, links, uplinks, c) && Loose(links, uplinks, c)
        invariant todo == set n | n in links && OwnedBond(links[n]) && !Wanted(c, n)
        invariant SameBonds(c, before, links)
      {
        var name :| name in todo;
        DeleteStep(links, name, uplinks, c);
        StepValid(links, Deleted(links, name), uplinks, c);
        StepTransitive(before, links, Deleted(links, name), uplinks, c);
        RemovalKeeps(links, name, uplinks, c, before, todo);
        todo := todo - {name};
        ok := Delete(name);
        if !ok { return; }
      }
      assert forall n | n in links && OwnedBond(links[n]) && !Wanted(c, n) :: n in todo;
      ok := true;
    }

    /** Each bond in turn: created or recognised, its present members enslaved, itself bridged. */
    method BuildBonds(c: Config, uplinks: map<Mac, string>) returns (ok: bool)
      requires Closed(links) && UplinkMap(links, uplinks) && OurBridge(links) && Loose(links, uplinks, c) && Workable(c)
      requires OnlyWanted(links, c)
      modifies `links, `up, `faults
      ensures Worsening()
      ensures Step(old(links), links, uplinks, c)
      ensures ok ==> Loose(links, uplinks, c) && Bonded(links, uplinks, c, |c.bonds|)
      ensures ok ==> OnlyWanted(links, c)
      ensures ok ==> forall i | 0 <= i < |c.bonds| :: BondFree(old(links), c.bonds[i].name)
      ensures Calm() && (forall i | 0 <= i < |c.bonds| :: BondFree(old(links), c.bonds[i].name)) ==> ok
    {
      hide Step, Loose, Closed, UplinkMap, Workable, BondFree, Bonded, OnlyWanted, Frame, Built;
      ghost var before := links;
      StepReflexive(before, uplinks, c);
      BondsStart(links, uplinks, c);
      for i := 0 to |c.bonds|
        invariant OurBridge(links) && Closed(links) && UplinkMap(links, uplinks)
        invariant Worsening() && Step(before, links, uplinks, c)
        invariant Loose(links, uplinks, c) && Bonded(links, uplinks, c, i) && OnlyWanted(links, c)
        invariant forall j | 0 <= j < i :: BondFree(before, c.bonds[j].name)
        invariant forall j | i <= j < |c.bonds| ::
            BondFree(before, c.bonds[j].name) <==> BondFree(links, c.bonds[j].name)
      {
        ghost var was := links;
        ok := BuildBond(c, uplinks, i);
        StepTransitive(before, was, links, uplinks, c);
        StepValid(was, links, uplinks, c);
        if !ok { return; }
        BuildKeeps(was, links, uplinks, c, i);
      }
      ok := true;
    }

    method BuildBond(c: Config, uplinks: map<Mac, string>, i: nat) returns (ok: bool)
      requires Closed(links) && UplinkMap(links, uplinks) && OurBridge(links) && i < |c.bonds|
               && c.bonds[i].name != BRIDGE
      modifies `links, `up, `faults
      ensures Worsening()
      ensures Step(old(links), links, uplinks, c) && Frame(old(links), links, uplinks, c.bonds[i])
      ensures ok ==> BondFree(old(links), c.bonds[i].name) && Built(links, uplinks, c.bonds[i])
      ensures Calm() && BondFree(old(links), c.bonds[i].name) ==> ok
    {
      hide Step, Closed, UplinkMap, Built, Placed, MemberLinks;
      ghost var before := links;
      StepReflexive(before, uplinks, c);
      var bond := c.bonds[i];
      var name := bond.name;
      if name in links {
        ok := OwnedBond(links[name]) && links[name].lacp;
      } else {
        ok := Change(name, BOND, before, uplinks, c);
      }
      if !ok { return; }
      ok := EnslaveMembers(bond, uplinks, before, c);
      if !ok { return; }
      ok := BridgeBond(bond, uplinks, before, c);
    }

    method BridgeBond(bond: Bond, ghost uplinks: map<Mac, string>, ghost before: Links,
                      ghost c: Config) returns (ok: bool)
      requires Closed(before) && OurBridge(before) && Step(before, links, uplinks, c)
      requires OurBridge(links) && UplinkMap(links, uplinks)
      requires BondFree(links, bond.name) && bond.name in links
      requires forall mac | mac in bond.members && mac in uplinks :: Placed(links, uplinks[mac], Some(bond.name))
      modifies `links, `up, `faults
      ensures Worsening()
      ensures Step(before, links, uplinks, c)
      ensures links.Keys == old(links.Keys) && forall n | n in links && n != bond.name :: links[n] == old(links[n])
      ensures ok ==> Built(links, uplinks, bond)
      ensures Calm() ==> ok
    {
      hide Step, Closed, UplinkMap;
      UplinksInjective(links, uplinks);
      ok := Change(bond.name, links[bond.name].(master := Some(BRIDGE)), before, uplinks, c);
      if !ok { return; }
      ok := Change(bond.name, links[bond.name].(up := true), before, uplinks, c);
    }

    method EnslaveMembers(bond: Bond, uplinks: map<Mac, string>, ghost before: Links,
                          ghost c: Config) returns (ok: bool)
      requires Closed(before) && OurBridge(before) && Step(before, links, uplinks, c)
      requires OurBridge(links) && UplinkMap(links, uplinks)
      requires bond.name in links && OwnedBond(links[bond.name])
      modifies `links, `up, `faults
      ensures Worsening()
      ensures Step(before, links, uplinks, c) && OurBridge(links) && UplinkMap(links, uplinks)
      ensures links.Keys == old(links.Keys) && links[bond.name] == old(links[bond.name])
      ensures forall n | n in links && n !in MemberLinks(uplinks, bond) :: links[n] == old(links[n])
      ensures ok ==> forall mac | mac in bond.members && mac in uplinks :: Placed(links, uplinks[mac], Some(bond.name))
      ensures Calm() ==> ok
    {
      hide Step, Closed;
      for k := 0 to |bond.members|
        invariant OurBridge(links) && UplinkMap(links, uplinks)
        invariant Worsening() && Step(before, links, uplinks, c)
        invariant links.Keys == old(links.Keys) && links[bond.name] == old(links[bond.name])
        invariant forall n | n in links && n !in MemberLinks(uplinks, bond) :: links[n] == old(links[n])
        invariant forall j | 0 <= j < k && bond.members[j] in uplinks ::
            Placed(links, uplinks[bond.members[j]], Some(bond.name))
      {
        if bond.members[k] in uplinks {
          ok := Enslave(uplinks[bond.members[k]], bond.name, true, before, uplinks, c);
          if !ok { return; }
        }
      }
      ok := true;
    }

    /** A bond takes a new member only while it is down; the bridge takes it as it is. */
    method Enslave(l: string, master: string, bounce: bool, ghost before: Links, ghost uplinks: map<Mac, string>,
                   ghost c: Config)
      returns (ok: bool)
      requires Closed(before) && OurBridge(before) && Step(before, links, uplinks, c)
      requires l in links && l in uplinks.Values && l != master && l != BRIDGE && master in links && links[master].owned
      modifies `links, `up, `faults
      ensures Worsening()
      ensures Step(before, links, uplinks, c) && OurBridge(links) && UplinkMap(links, uplinks)
      ensures links.Keys == old(links.Keys) && forall n | n in links && n != l :: links[n] == old(links[n])
      ensures ok ==> Placed(links, l, Some(master))
      ensures Calm() ==> ok
    {
      hide Step, Closed, UplinkMap;
      if !bounce || links[l].master != Some(master) {
        if bounce {
          ok := Change(l, links[l].(up := false), before, uplinks, c);
          if !ok { return; }
        }
        ok := Change(l, links[l].(master := Some(master)), before, uplinks, c);
        if !ok { return; }
      }
      ok := Change(l, links[l].(up := true), before, uplinks, c);
    }

    /** The remaining uplinks go straight onto the bridge. */
    method AttachDirect(c: Config, uplinks: map<Mac, string>) returns (ok: bool)
      requires Closed(links) && UplinkMap(links, uplinks) && OurBridge(links)
      modifies `links, `up, `faults
      ensures Worsening()
      ensures Step(old(links), links, uplinks, c) && links.Keys == old(links.Keys)
      ensures forall n | n in links && n !in DirectLinks(uplinks, c) :: links[n] == old(links[n])
      ensures ok ==> forall mac | mac in DirectMacs(uplinks, c) :: Placed(links, uplinks[mac], Some(BRIDGE))
      ensures Calm() ==> ok
    {
      hide Step, Closed, UplinkMap, Target, DirectMacs, DirectLinks;
      DirectOnes(uplinks, c);
      ghost var before := links;
      StepReflexive(before, uplinks, c);
      var todo := DirectMacs(uplinks, c);
      UplinksInjective(before, uplinks);
      while todo != {}
        invariant todo <= DirectMacs(uplinks, c)
        invariant OurBridge(links) && links.Keys == before.Keys
        invariant Worsening() && Step(before, links, uplinks, c)
        invariant forall mac | mac in DirectMacs(uplinks, c) - todo :: Placed(links, uplinks[mac], Some(BRIDGE))
        invariant forall n | n in links && n !in DirectLinks(uplinks, c) :: links[n] == before[n]
      {
        var mac :| mac in todo;
        todo := todo - {mac};
        StepValid(before, links, uplinks, c);
        UplinksInjective(links, uplinks);
        ok := Enslave(uplinks[mac], BRIDGE, false, before, uplinks, c);
        if !ok { return; }
      }
      ok := true;
    }

    /** Finish the topology, and bring the bridge up under its own hardware address. */
    method AttachUplinks(c: Config, uplinks: map<Mac, string>, mac: Option<Mac>) returns (ok: bool)
      requires Closed(links) && UplinkMap(links, uplinks) && OurBridge(links) && Loose(links, uplinks, c) && Workable(c)
      requires Bonded(links, uplinks, c, |c.bonds|) && OnlyWanted(links, c)
      modifies `links, `hardware, `up, `faults
      ensures Worsening()
      ensures Step(old(links), links, uplinks, c)
      ensures ok ==> Converged(links, uplinks, c) && mac.Some? && hardware == mac
      ensures Calm() && mac.Some? ==> ok
    {
      hide Step, Closed, Loose, Bonded, Workable, OnlyWanted, UplinkMap, Target, BondReady, DirectLinks, Placed,
           Converged;
      ghost var before := links;
      ok := AttachDirect(c, uplinks);
      if !ok { return; }
      StepValid(before, links, uplinks, c);
      AttachedConverged(before, links, uplinks, c);
      BridgeUpConverged(links, uplinks, c);
      if mac.None? { return false; }
      var effect;
      effect, ok := Attempt();
      if effect { hardware := mac; }
      if !ok { return; }
      ok := Change(BRIDGE, links[BRIDGE].(up := true), before, uplinks, c);
    }

    /** The map from hardware addresses to uplinks, rebuilt from what is discovered. */
    method ByMac() returns (uplinks: map<Mac, string>)
      ensures uplinks == Uplinks(adapters)
    {
      uplinks := map[];
      for i := 0 to |adapters|
        invariant uplinks == Uplinks(adapters[..i])
      {
        assert adapters[..i + 1][..i] == adapters[..i];
        if adapters[i].eligible { uplinks := uplinks[adapters[i].mac := adapters[i].name]; }
      }
      assert adapters[..|adapters|] == adapters;
    }

    /** Bridge, masters and bonds: exactly when nothing foreign is in the way, and a function of `c`. */
    method Reconcile(c: Config, mac: Option<Mac>) returns (ok: bool)
      requires Valid() && Workable(c)
      modifies `links, `hardware, `up, `faults
      ensures Valid() && Worsening() && Step(old(links), links, Uplinks(adapters), c)
      ensures ok ==> OurBridge(links) && Converged(links, Uplinks(adapters), c) && hardware == mac
      ensures ok ==> mac.Some? && Applicable(old(links), Uplinks(adapters), c)
      ensures Calm() && mac.Some? ==> (ok <==> Applicable(old(links), Uplinks(adapters), c))
    {
      hide Step, Closed, Loose, Bonded, Workable, OnlyWanted, UplinkMap, Converged, Movable, Applicable, SameBonds,
           BondFree;
      ghost var a := links;
      var uplinks := ByMac();
      StepReflexive(a, uplinks, c);
      ok := EnsureBridge(mac);
      BridgeStep(a, links, uplinks, c);
      ghost var b := links;
      if !ok {
        NotFree(a, uplinks, c);
        return;
      }
      ok := Detach(c, uplinks);
      ghost var d := links;
      StepTransitive(a, b, d, uplinks, c);
      StepValid(a, d, uplinks, c);
      ApplicableChain(a, b, d, uplinks, c);
      if !ok { return; }
      ok := RemoveBonds(c, uplinks);
      ghost var e := links;
      StepTransitive(a, d, e, uplinks, c);
      StepValid(d, e, uplinks, c);
      SameBondsMeans(c, d, e);
      if !ok { return; }
      ok := BuildBonds(c, uplinks);
      ghost var f := links;
      StepTransitive(a, e, f, uplinks, c);
      StepValid(e, f, uplinks, c);
      if !ok { return; }
      ok := AttachUplinks(c, uplinks, mac);
      StepTransitive(a, f, links, uplinks, c);
      StepValid(f, links, uplinks, c);
    }

    /** Work on the bridge that only systemd and networkd see. */
    method Call() returns (ok: bool)
      modifies `up, `faults
      ensures Worsening()
      ensures ok ==> up
      ensures Calm() ==> ok
    {
      var effect;
      effect, ok := Attempt();
    }

    method AddAddress(p: Prefix) returns (ok: bool)
      modifies `addresses, `up, `faults
      ensures Worsening()
      ensures addresses == old(addresses) || addresses == old(addresses) + {p}
      ensures ok ==> up && addresses == old(addresses) + {p}
      ensures Calm() ==> ok
    {
      var effect;
      effect, ok := Attempt();
      if effect { addresses := addresses + {p}; }
    }

    method DropAddress(p: Prefix) returns (ok: bool)
      modifies `addresses, `up, `faults
      ensures Worsening()
      ensures addresses == old(addresses) || addresses == old(addresses) - {p}
      ensures ok ==> up && addresses == old(addresses) - {p}
      ensures Calm() ==> ok
    {
      var effect;
      effect, ok := Attempt();
      if effect { addresses := addresses - {p}; }
    }

    method SetGateway(g: Option<Address>) returns (ok: bool)
      modifies `gateway, `up, `faults
      ensures Worsening()
      ensures gateway == old(gateway) || gateway == g
      ensures ok ==> up && gateway == g
      ensures Calm() ==> ok
    {
      var effect;
      effect, ok := Attempt();
      if effect { gateway := g; }
    }

    /** Every address on the bridge, leases included. */
    method Live() returns (live: set<Prefix>, ok: bool)
      modifies `up, `faults
      ensures Worsening()
      ensures live == if BRIDGE in links then addresses + leased else {}
      ensures ok ==> up
      ensures Calm() ==> ok
    {
      ok := Call();
      live := if BRIDGE in links then addresses + leased else {};
    }

    /** Put a service address on the bridge and announce it, or take it off again. */
    method Service(s: Service, add: bool) returns (ok: bool)
      modifies `addresses, `up, `faults
      ensures Worsening()
      ensures ok ==> ValidService(s) && up
      ensures addresses != old(addresses) ==> ValidService(s)
      ensures ValidService(s) ==> addresses == old(addresses)
                                  || addresses == if add then old(addresses) + {s.address.value}
                                      else old(addresses) - {s.address.value}
      ensures ok ==> addresses == if add then old(addresses) + {s.address.value} else old(addresses) - {s.address.value}
      ensures Calm() ==> (ok <==> ValidService(s) && BRIDGE in links)
    {
      if !ValidService(s) || BRIDGE !in links { return false; }
      if !add {
        ok := DropAddress(s.address.value);
        return;
      }
      ok := AddAddress(s.address.value);
      if ok { ok := Call(); }
    }

    /** Replace the previous static address and route by the candidate's, and restate every alias. */
    method Readdress(previous: Config, c: Config, services: map<string, Service>) returns (ok: bool)
      requires Workable(c) && BRIDGE in links
      modifies `addresses, `gateway, `up, `faults
      ensures Worsening()
      ensures Kept(old(addresses), previous, c) <= addresses <= old(addresses) + Statics(c.ipv4) + Addresses(services)
      ensures ok ==> addresses == Kept(old(addresses), previous, c) + Statics(c.ipv4) + Addresses(services)
      ensures ok && c.ipv4.Static? ==> gateway == c.ipv4.gateway
      ensures ok && c.ipv4.Dhcp? ==>
                gateway == if previous.ipv4.Static? && old(gateway) == previous.ipv4.gateway then None else old(gateway)
      ensures ok ==> Addressable(previous, c, services)
      ensures Calm() ==> (ok <==> Addressable(previous, c, services))
    {
      hide Workable, ValidService;
      ValidAddress(c);
      if previous.ipv4.Static? && previous.ipv4 != c.ipv4 {
        if PrefixOf(previous.ipv4).None? { return false; }
        ok := DropAddress(PrefixOf(previous.ipv4).value);
        if !ok { return; }
        ok := SetGateway(if gateway == previous.ipv4.gateway then None else gateway);
        if !ok { return; }
      }
      if c.ipv4.Static? {
        ok := AddAddress(PrefixOf(c.ipv4).value);
        if !ok { return; }
        ok := SetGateway(c.ipv4.gateway);
        if !ok { return; }
      }
      ok := AddServices(services);
    }

    method AddServices(services: map<string, Service>) returns (ok: bool)
      requires BRIDGE in links
      modifies `addresses, `up, `faults
      ensures Worsening()
      ensures old(addresses) <= addresses <= old(addresses) + Addresses(services)
      ensures ok ==> addresses == old(addresses) + Addresses(services)
      ensures ok ==> forall k | k in services :: ValidService(services[k])
      ensures Calm() ==> (ok <==> forall k | k in services :: ValidService(services[k]))
    {
      hide HostPrefix;
      var todo := services.Keys;
      while todo != {}
        invariant todo <= services.Keys && Worsening()
        invariant old(addresses) <= addresses <= old(addresses) + Addresses(services)
        invariant forall k | k in services && k !in todo ::
            ValidService(services[k]) && services[k].address.value in addresses
      {
        var k :| k in todo;
        todo := todo - {k};
        assert services[k].address.Some? ==> services[k].address.value in Addresses(services);
        ok := Service(services[k], true);
        if !ok { return; }
      }
      ok := true;
    }

    /** Converge the bridge on `c`: links, then addresses, then what networkd is told. */
    method Apply(previous: Config, c: Config, mac: Option<Mac>, services: map<string, Service>) returns (ok: bool)
      requires Valid() && Workable(c)
      modifies `links, `hardware, `addresses, `gateway, `up, `faults
      ensures Valid() && Worsening() && Step(old(links), links, Uplinks(adapters), c)
      ensures Kept(old(addresses), previous, c) <= addresses <= old(addresses) + Statics(c.ipv4) + Addresses(services)
      ensures ok ==> OurBridge(links) && Converged(links, Uplinks(adapters), c) && hardware == mac
      ensures ok ==> addresses == Kept(old(addresses), previous, c) + Statics(c.ipv4) + Addresses(services)
      ensures ok && c.ipv4.Static? ==> gateway == c.ipv4.gateway
      ensures ok && c.ipv4.Dhcp? ==>
                gateway == if previous.ipv4.Static? && old(gateway) == previous.ipv4.gateway then None else old(gateway)
      ensures Calm() ==>
                (ok <==> && mac.Some? && Applicable(old(links), Uplinks(adapters), c)
                         && Addressable(previous, c, services))
    {
      hide Step, Workable, Converged, Applicable, Addressable, Kept, Statics, Addresses, Closed, UplinkMap;
      KeptSome(addresses, previous, c);
      StepReflexive(links, Uplinks(adapters), c);
      ok := Call();
      if !ok { return; }
      ok := Reconcile(c, mac);
      if !ok { return; }
      ok := Readdress(previous, c, services);
      if !ok { return; }
      ok := Call();
    }

    /** From `a` to `b` and back: the topology of `a`, its address, and nothing of `b` left. */
    method ThereAndBack(a: Config, b: Config, mac: Option<Mac>, services: map<string, Service>) returns (there: bool,
                        back: bool)
      requires Valid() && Workable(a) && Workable(b) && Statics(a.ipv4) + Addresses(services) <= addresses
      modifies `links, `hardware, `addresses, `gateway, `up, `faults
      ensures Valid() && Worsening()
      ensures back ==> Converged(links, Uplinks(adapters), a)
      ensures back ==> addresses == old(addresses) - (Statics(b.ipv4) - Statics(a.ipv4) - Addresses(services))
      ensures back && a.ipv4.Static? ==> gateway == a.ipv4.gateway
      ensures (&& Calm() && mac.Some? && Applicable(old(links), Uplinks(adapters), a)
               && (forall k | k in services :: ValidService(services[k]))) ==> back
    {
      hide Step, Workable, Converged, Applicable, Closed, UplinkMap, Addresses, Statics, ValidService;
      ValidAddress(a);
      ValidAddress(b);
      ValidNames(a);
      ghost var before := links;
      ghost var at := addresses;
      there := Apply(a, b, mac, services);
      if Applicable(before, Uplinks(adapters), a) {
        StepKeepsApplicable(before, links, Uplinks(adapters), b, a);
      }
      ghost var between := addresses;
      back := Apply(b, a, mac, services);
      RoundTrip(at, between, addresses, a, b, services, back);
    }
  }

  /** Every uplink is free or already where the candidate wants it. */
  ghost predicate Loose(links: Links, uplinks: map<Mac, string>, c: Config) {
    forall mac | mac in uplinks :: uplinks[mac] in links && links[uplinks[mac]].master in {None, Target(c, mac)}
  }

  ghost predicate Movable(links: Links, uplinks: map<Mac, string>, c: Config) {
    forall mac | mac in uplinks :: Releasable(links, uplinks[mac], Target(c, mac))
  }

  /** Detach with `todo` still to look at: who has been freed had to be, and could be. */
  ghost predicate Detaching(a: Links, b: Links, uplinks: map<Mac, string>, c: Config, todo: set<Mac>) {
    && b.Keys == a.Keys && (forall n | n in b && n !in uplinks.Values :: b[n] == a[n])
    && (forall mac | mac in uplinks :: uplinks[mac] in a && uplinks[mac] in b)
    && (forall mac | mac in todo && mac in uplinks :: b[uplinks[mac]] == a[uplinks[mac]])
    && (forall mac | mac in uplinks :: KeptOrFreed(a, b, uplinks[mac], Target(c, mac)))
    && (forall mac | mac in uplinks && mac !in todo ::
          b[uplinks[mac]].master in {None, Target(c, mac)} && Releasable(a, uplinks[mac], Target(c, mac)))
  }

  predicate KeptOrFreed(a: Links, b: Links, name: string, target: Option<string>) {
    && name in a && name in b
    && (b[name] == a[name] || (a[name].master != target && b[name] == a[name].(master := None)))
  }

  lemma DetachStarts(a: Links, uplinks: map<Mac, string>, c: Config)
    requires UplinkMap(a, uplinks)
    ensures Detaching(a, a, uplinks, c, uplinks.Keys)
  {
  }

  /** One uplink: left alone if it is free or in its place; freed if its master is ours; or in the way of the whole. */
  lemma DetachNext(a: Links, b: Links, uplinks: map<Mac, string>, c: Config, todo: set<Mac>, mac: Mac)
    requires Detaching(a, b, uplinks, c, todo) && mac in todo && mac in uplinks && UplinkMap(a, uplinks)
    ensures var name, target := uplinks[mac], Target(c, mac);
            && name in a && name in b && b[name] == a[name]
            && (a[name].master in {None, target} ==> Detaching(a, b, uplinks, c, todo - {mac}))
            && (a[name].master.Some? && a[name].master != target ==>
                  (Releasable(a, name, target) <==>
                     a[name].master.value == BRIDGE || (a[name].master.value in a && a[a[name].master.value].owned))
                  && (Releasable(a, name, target) ==>
                        Detaching(a, b[name := b[name].(master := None)], uplinks, c, todo - {mac}))
                  && (!Releasable(a, name, target) ==> !Movable(a, uplinks, c)))
  {
    var name, target := uplinks[mac], Target(c, mac);
    if a[name].master in {None, target} {
      DetachSkip(a, b, uplinks, c, todo, mac);
    } else if Releasable(a, name, target) {
      DetachFree(a, b, uplinks, c, todo, mac);
    }
    hide UplinkMap, Target, KeptOrFreed;
  }

  lemma DetachSkip(a: Links, b: Links, uplinks: map<Mac, string>, c: Config, todo: set<Mac>, mac: Mac)
    requires Detaching(a, b, uplinks, c, todo) && mac in todo && mac in uplinks
    requires uplinks[mac] in a && a[uplinks[mac]].master in {None, Target(c, mac)}
    ensures Detaching(a, b, uplinks, c, todo - {mac})
  {
    hide Target;
  }

  lemma DetachFree(a: Links, b: Links, uplinks: map<Mac, string>, c: Config, todo: set<Mac>, mac: Mac)
    requires Detaching(a, b, uplinks, c, todo) && mac in todo && mac in uplinks && UplinkMap(a, uplinks)
    requires uplinks[mac] in b && a[uplinks[mac]].master != Target(c, mac)
             && Releasable(a, uplinks[mac], Target(c, mac))
    ensures Detaching(a, b[uplinks[mac] := b[uplinks[mac]].(master := None)], uplinks, c, todo - {mac})
  {
    hide UplinkMap, Target, Releasable;
    UplinksInjective(a, uplinks);
    var name := uplinks[mac];
    var d := b[name := b[name].(master := None)];
    assert d.Keys == b.Keys;
    forall other | other in uplinks && other != mac
      ensures uplinks[other] != name && d[uplinks[other]] == b[uplinks[other]] {
    }
    assert KeptOrFreed(a, d, name, Target(c, mac));
    forall other | other in uplinks ensures KeptOrFreed(a, d, uplinks[other], Target(c, other)) {
      if other != mac { assert KeptOrFreed(a, b, uplinks[other], Target(c, other)); }
    }
    hide KeptOrFreed;
  }

  lemma DetachEnds(a: Links, b: Links, uplinks: map<Mac, string>, c: Config)
    requires Detaching(a, b, uplinks, c, {})
    ensures Loose(b, uplinks, c) && Movable(a, uplinks, c)
  {
    hide Releasable;
  }

  lemma DetachFrame(a: Links, b: Links, uplinks: map<Mac, string>, c: Config, todo: set<Mac>)
    requires Detaching(a, b, uplinks, c, todo)
    ensures b.Keys == a.Keys && (forall n | n in b && n !in uplinks.Values :: b[n] == a[n])
    ensures forall mac | mac in uplinks :: KeptOrFreed(a, b, uplinks[mac], Target(c, mac))
  {
  }

  /** A bond the candidate names is available before if and only if it is after. */
  ghost predicate SameBonds(c: Config, a: Links, b: Links) {
    forall i | 0 <= i < |c.bonds| :: BondFree(b, c.bonds[i].name) <==> BondFree(a, c.bonds[i].name)
  }

  ghost predicate OnlyWanted(links: Links, c: Config) {
    forall n | n in links && OwnedBond(links[n]) :: Wanted(c, n)
  }

  function DirectMacs(uplinks: map<Mac, string>, c: Config): (s: set<Mac>)
    ensures s <= uplinks.Keys
  {
    set mac | mac in uplinks && Target(c, mac) == Some(BRIDGE)
  }

  function DirectLinks(uplinks: map<Mac, string>, c: Config): set<string> {
    set mac | mac in DirectMacs(uplinks, c) :: uplinks[mac]
  }

  lemma DirectOnes(uplinks: map<Mac, string>, c: Config)
    ensures forall mac | mac in DirectMacs(uplinks, c) :: uplinks[mac] in DirectLinks(uplinks, c)
  {
  }

  function MemberLinks(uplinks: map<Mac, string>, bond: Bond): set<string> {
    set mac | mac in uplinks && mac in bond.members :: uplinks[mac]
  }

  /** Building one bond touches that bond and its members. */
  ghost predicate Frame(a: Links, b: Links, uplinks: map<Mac, string>, bond: Bond) {
    && a.Keys <= b.Keys <= a.Keys + {bond.name}
    && forall n | n in a && n != bond.name && n !in MemberLinks(uplinks, bond) :: b[n] == a[n]
  }

  ghost predicate Built(links: Links, uplinks: map<Mac, string>, bond: Bond) {
    && BondReady(links, bond.name)
    && forall mac | mac in bond.members && mac in uplinks :: Placed(links, uplinks[mac], Some(bond.name))
  }

  ghost predicate Bonded(links: Links, uplinks: map<Mac, string>, c: Config, k: nat) {
    k <= |c.bonds| && forall i | 0 <= i < k :: Built(links, uplinks, c.bonds[i])
  }

  /** A member's target is its bond, whichever bond is looked at first. */
  lemma MemberTarget(c: Config, i: nat, mac: Mac)
    requires Workable(c) && i < |c.bonds| && mac in c.bonds[i].members
    ensures Target(c, mac) == Some(c.bonds[i].name)
  {
    BondOfMember(c.bonds, i, mac);
    BondOfWanted(c.bonds, mac);
    var j :| 0 <= j < |c.bonds| && c.bonds[j].name == BondOf(c.bonds, mac).value && mac in c.bonds[j].members;
    OneBondPerAdapter(c.bonds, c.excluded, if i < j then i else j, if i < j then j else i, mac);
  }

  lemma {:induction false} BondOfMember(bonds: seq<Bond>, i: nat, mac: Mac)
    requires i < |bonds| && mac in bonds[i].members
    ensures BondOf(bonds, mac).Some?
  {
    if i < |bonds| - 1 {
      assert bonds[..|bonds| - 1][i] == bonds[i];
      BondOfMember(bonds[..|bonds| - 1], i, mac);
    }
  }

  lemma BondsStart(links: Links, uplinks: map<Mac, string>, c: Config)
    requires Workable(c)
    ensures Bonded(links, uplinks, c, 0)
    ensures forall i | 0 <= i < |c.bonds| :: c.bonds[i].name != BRIDGE
  {
    ValidConfigBonds(c);
    assert forall i | 0 <= i < |c.bonds| :: ValidBond(c.bonds[i]);
  }

  lemma BuildKeeps(a: Links, b: Links, uplinks: map<Mac, string>, c: Config, i: nat)
    requires Workable(c) && i < |c.bonds| && UplinkMap(a, uplinks) && UplinkMap(b, uplinks) && OurBridge(a)
    requires Frame(a, b, uplinks, c.bonds[i]) && Built(b, uplinks, c.bonds[i]) && BondFree(a, c.bonds[i].name)
    requires Loose(a, uplinks, c) && Bonded(a, uplinks, c, i) && OnlyWanted(a, c)
    ensures Loose(b, uplinks, c) && Bonded(b, uplinks, c, i + 1) && OnlyWanted(b, c)
    ensures forall j | i < j < |c.bonds| :: BondFree(b, c.bonds[j].name) <==> BondFree(a, c.bonds[j].name)
  {
    var bond := c.bonds[i];
    forall mac | mac in uplinks ensures uplinks[mac] in b && b[uplinks[mac]].master in {None, Target(c, mac)} {
      if mac in bond.members { MemberTarget(c, i, mac); }
    }
    forall j | 0 <= j < i ensures Built(b, uplinks, c.bonds[j]) {
      assert Built(a, uplinks, c.bonds[j]);
      forall mac | mac in c.bonds[j].members && mac in uplinks ensures Placed(b, uplinks[mac], Some(c.bonds[j].name)) {
        if mac in bond.members { OneBondPerAdapter(c.bonds, c.excluded, j, i, mac); }
      }
    }
    assert Wanted(c, bond.name);
    forall j | i < j < |c.bonds| ensures BondFree(b, c.bonds[j].name) <==> BondFree(a, c.bonds[j].name) {
      var n := c.bonds[j].name;
      if n in MemberLinks(uplinks, bond) { assert b[n].kind == a[n].kind; }
    }
  }

  /** With the bonds built and every other uplink on the bridge, nothing is left to place. */
  lemma AttachedConverged(a: Links, b: Links, uplinks: map<Mac, string>, c: Config)
    requires Workable(c) && UplinkMap(a, uplinks) && UplinkMap(b, uplinks) && OurBridge(b) && b.Keys == a.Keys
    requires Loose(a, uplinks, c) && Bonded(a, uplinks, c, |c.bonds|) && OnlyWanted(a, c)
    requires forall mac | mac in DirectMacs(uplinks, c) :: Placed(b, uplinks[mac], Some(BRIDGE))
    requires forall n | n in b && n !in DirectLinks(uplinks, c) :: b[n] == a[n]
    ensures Converged(b, uplinks, c)
  {
    forall mac | mac in uplinks ensures Placed(b, uplinks[mac], Target(c, mac)) {
      var t := Target(c, mac);
      if BondOf(c.bonds, mac).Some? {
        BondOfWanted(c.bonds, mac);
        var i :| 0 <= i < |c.bonds| && c.bonds[i].name == t.value && mac in c.bonds[i].members;
        assert Built(a, uplinks, c.bonds[i]) && ValidBond(c.bonds[i]);
        assert Placed(a, uplinks[mac], t);
      }
    }
    forall i | 0 <= i < |c.bonds| ensures BondReady(b, c.bonds[i].name) {
      assert Built(a, uplinks, c.bonds[i]);
    }
  }

  lemma BridgeUpConverged(b: Links, uplinks: map<Mac, string>, c: Config)
    requires UplinkMap(b, uplinks) && Converged(b, uplinks, c)
    ensures Converged(b[BRIDGE := b[BRIDGE].(up := true)], uplinks, c)
  {
    forall i | 0 <= i < |c.bonds| ensures BondReady(b[BRIDGE := b[BRIDGE].(up := true)], c.bonds[i].name) {
      assert BondReady(b, c.bonds[i].name);
    }
    forall mac | mac in uplinks ensures Placed(b[BRIDGE := b[BRIDGE].(up := true)], uplinks[mac], Target(c, mac)) {
      assert Placed(b, uplinks[mac], Target(c, mac));
    }
  }

  lemma BridgeStep(a: Links, b: Links, uplinks: map<Mac, string>, c: Config)
    requires Closed(a) && UplinkMap(a, uplinks)
    requires b == a || (BRIDGE !in a && b == a[BRIDGE := LAN])
    ensures Step(a, b, uplinks, c) && Closed(b) && UplinkMap(b, uplinks)
  {
    if b == a { StepReflexive(a, uplinks, c); } else { PutStep(a, BRIDGE, LAN, uplinks, c); }
  }

  lemma NotFree(a: Links, uplinks: map<Mac, string>, c: Config)
    ensures Applicable(a, uplinks, c) ==> BridgeFree(a)
  {
  }

  lemma SameBondsMeans(c: Config, a: Links, b: Links)
    requires SameBonds(c, a, b)
    ensures forall i | 0 <= i < |c.bonds| :: BondFree(b, c.bonds[i].name) <==> BondFree(a, c.bonds[i].name)
  {
  }

  /** Adding the bridge and releasing uplinks does not change what else stands in the way. */
  lemma ApplicableChain(a: Links, b: Links, d: Links, uplinks: map<Mac, string>, c: Config)
    requires Closed(a) && UplinkMap(a, uplinks) && Workable(c) && BridgeFree(a)
    requires b == a || (BRIDGE !in a && b == a[BRIDGE := LAN])
    requires UplinkMap(d, uplinks) && d.Keys == b.Keys
    requires forall n | n in d && n !in uplinks.Values :: d[n] == b[n]
    ensures Applicable(a, uplinks, c) <==>
              Movable(b, uplinks, c) && forall i | 0 <= i < |c.bonds| :: BondFree(d, c.bonds[i].name)
  {
    BondsStart(a, uplinks, c);
    forall mac | mac in uplinks
      ensures Releasable(a, uplinks[mac], Target(c, mac)) <==> Releasable(b, uplinks[mac], Target(c, mac)) {
    }
    forall i | 0 <= i < |c.bonds| ensures BondFree(d, c.bonds[i].name) <==> BondFree(a, c.bonds[i].name) {
      var n := c.bonds[i].name;
      assert n != BRIDGE;
      if n in uplinks.Values { assert d[n].kind == Physical && a[n].kind == Physical; }
    }
  }

  /** What is left once the previous static address is gone. */
  function Kept(addresses: set<Prefix>, previous: Config, c: Config): set<Prefix> {
    if previous.ipv4 != c.ipv4 then addresses - Statics(previous.ipv4) else addresses
  }

  predicate Addressable(previous: Config, c: Config, services: map<string, Service>) {
    && (previous.ipv4.Static? && previous.ipv4 != c.ipv4 ==> PrefixOf(previous.ipv4).Some?)
    && (forall k | k in services :: ValidService(services[k]))
  }

  lemma KeptSome(addresses: set<Prefix>, previous: Config, c: Config)
    ensures Kept(addresses, previous, c) <= addresses
  {
  }

  lemma RoundTrip(at: set<Prefix>, between: set<Prefix>, after: set<Prefix>, a: Config, b: Config,
                  services: map<string, Service>, back: bool)
    requires Statics(a.ipv4) + Addresses(services) <= at
    requires Kept(at, a, b) <= between <= at + Statics(b.ipv4) + Addresses(services)
    requires back ==> after == Kept(between, b, a) + Statics(a.ipv4) + Addresses(services)
    ensures back ==> after == at - (Statics(b.ipv4) - Statics(a.ipv4) - Addresses(services))
  {
  }

  lemma ValidAddress(c: Config)
    requires Workable(c)
    ensures c.ipv4.Static? ==> PrefixOf(c.ipv4).Some? && c.ipv4.gateway.Some?
  {
  }

  lemma ValidNames(c: Config)
    requires Workable(c)
    ensures forall i | 0 <= i < |c.bonds| :: c.bonds[i].name != BRIDGE
  {
    BondsStart(map[], map[], c);
  }

  /** Two links converged on one candidate agree on every uplink's master and on the owned bonds. */
  lemma ConvergedAgree(a: Links, b: Links, uplinks: map<Mac, string>, c: Config)
    requires Converged(a, uplinks, c) && Converged(b, uplinks, c)
    ensures forall mac | mac in uplinks :: a[uplinks[mac]].master == b[uplinks[mac]].master
    ensures (set n | n in a && OwnedBond(a[n])) == (set n | n in b && OwnedBond(b[n]))
  {
    forall n | Wanted(c, n) ensures n in a && OwnedBond(a[n]) && n in b && OwnedBond(b[n]) {
      var i :| 0 <= i < |c.bonds| && c.bonds[i].name == n;
      assert BondReady(a, n) && BondReady(b, n);
    }
    forall mac | mac in uplinks ensures a[uplinks[mac]].master == b[uplinks[mac]].master {
      assert Placed(a, uplinks[mac], Target(c, mac)) && Placed(b, uplinks[mac], Target(c, mac));
    }
  }

  lemma StepKeepsAllApplicable(a: Links, b: Links, uplinks: map<Mac, string>, c: Config)
    requires Closed(a) && UplinkMap(a, uplinks) && Step(a, b, uplinks, c)
    ensures forall d | Workable(d) && Applicable(a, uplinks, d) :: Applicable(b, uplinks, d)
  {
    forall d | Workable(d) && Applicable(a, uplinks, d) ensures Applicable(b, uplinks, d) {
      ValidNames(d);
      StepKeepsApplicable(a, b, uplinks, c, d);
    }
  }

  lemma SameBondsReflexive(c: Config, a: Links)
    ensures SameBonds(c, a, a)
  {
  }

  lemma RemovalKeeps(a: Links, name: string, uplinks: map<Mac, string>, c: Config, before: Links, todo: set<string>)
    requires UplinkMap(a, uplinks) && Loose(a, uplinks, c) && SameBonds(c, before, a) && OurBridge(a)
    requires name in a && OwnedBond(a[name]) && !Wanted(c, name)
    requires todo == set n | n in a && OwnedBond(a[n]) && !Wanted(c, n)
    ensures Loose(Deleted(a, name), uplinks, c) && SameBonds(c, before, Deleted(a, name))
    ensures todo - {name} == set n | n in Deleted(a, name) && OwnedBond(Deleted(a, name)[n]) && !Wanted(c, n)
  {
    var d := Deleted(a, name);
    forall i | 0 <= i < |c.bonds| ensures BondFree(d, c.bonds[i].name) <==> BondFree(a, c.bonds[i].name) {
      assert Wanted(c, c.bonds[i].name);
    }
  }

  lemma StepValid(a: Links, b: Links, uplinks: map<Mac, string>, c: Config)
    requires Step(a, b, uplinks, c)
    ensures Closed(b) && UplinkMap(b, uplinks)
    ensures OurBridge(a) ==> OurBridge(b)
  {
    if OurBridge(a) { assert Evolves(a, b, c, BRIDGE); }
  }

  lemma MasterKept(a: Links, b: Links, uplinks: map<Mac, string>, c: Config, n: string, m: string)
    requires Step(a, b, uplinks, c) && n in b && b[n].master == Some(m)
    ensures m in b && (m in a ==> a[m].owned == b[m].owned)
  {
    assert m in b;
    assert Evolves(a, b, c, m);
  }

  lemma UplinksInjective(links: Links, uplinks: map<Mac, string>)
    requires UplinkMap(links, uplinks)
    ensures forall m | m in uplinks :: uplinks[m] in links && links[uplinks[m]].kind == Physical
    ensures forall m, n | m in uplinks && n in uplinks && uplinks[m] == uplinks[n] :: m == n
  {
  }

  lemma {:induction false} BondOfWanted(bonds: seq<Bond>, mac: Mac)
    requires BondOf(bonds, mac).Some?
    ensures exists i :: 0 <= i < |bonds| && bonds[i].name == BondOf(bonds, mac).value && mac in bonds[i].members
  {
    var last := |bonds| - 1;
    if mac !in bonds[last].members {
      BondOfWanted(bonds[..last], mac);
      var i :| 0 <= i < last && bonds[..last][i].name == BondOf(bonds[..last], mac).value
               && mac in bonds[..last][i].members;
      assert bonds[i] == bonds[..last][i];
    }
  }

  function Deleted(links: Links, name: string): Links {
    map n | n in links && n != name ::
      if links[n].master == Some(name) then links[n].(master := None) else links[n]
  }

  lemma {:induction false} UplinksNamed(adapters: seq<Adapter>, mac: Mac)
    requires mac in Uplinks(adapters)
    ensures exists i :: 0 <= i < |adapters| && adapters[i].eligible && adapters[i].mac == mac
                        && adapters[i].name == Uplinks(adapters)[mac]
  {
    var last := |adapters| - 1;
    var a := adapters[last];
    if !(a.eligible && a.mac == mac) {
      UplinksNamed(adapters[..last], mac);
      var i :| 0 <= i < last && adapters[..last][i].eligible && adapters[..last][i].mac == mac
               && adapters[..last][i].name == Uplinks(adapters[..last])[mac];
      assert adapters[i] == adapters[..last][i];
    }
  }

  /** Different addresses mean different adapters, and every one of them is a physical link. */
  lemma UplinksDistinct(links: Links, adapters: seq<Adapter>)
    requires Inventory(links, adapters)
    ensures UplinkMap(links, Uplinks(adapters))
  {
    var uplinks := Uplinks(adapters);
    forall mac | mac in uplinks ensures uplinks[mac] in links && links[uplinks[mac]].kind == Physical {
      UplinksNamed(adapters, mac);
    }
    forall m, n | m in uplinks && n in uplinks && uplinks[m] == uplinks[n] ensures m == n {
      UplinksNamed(adapters, m);
      UplinksNamed(adapters, n);
    }
  }

  /** The lemmas that carry a Step through a call. */
  lemma StepTransitive(a: Links, b: Links, d: Links, uplinks: map<Mac, string>, c: Config)
    requires BridgeFree(a) && Closed(a) && Step(a, b, uplinks, c) && Step(b, d, uplinks, c)
    ensures Step(a, d, uplinks, c)
  {
    forall n | n in a && !(OwnedBond(a[n]) && !Wanted(c, n)) ensures n in d {
      assert n in b && Evolves(a, b, c, n);
    }
    forall n | n in d ensures Evolves(a, d, c, n) {
      assert Evolves(b, d, c, n);
      if n in b { assert Evolves(a, b, c, n); } else { assert n !in a; }
      var m := d[n].master;
      if m.Some? && m.value in b {
        assert m.value in d && Evolves(b, d, c, m.value);
        if n in b && m == b[n].master && !(n in a && m == a[n].master) { assert b[m.value].owned; }
      }
    }
    forall n | Unmanaged(a, uplinks, n)
      ensures n in d && (d[n] == a[n] || (d[n] == a[n].(master := None) && Freed(a, n, c)))
    {
      assert n in b && Evolves(a, b, c, n);
      assert Unmanaged(b, uplinks, n);
      if b[n] == a[n] && d[n] != b[n] {
        var m := a[n].master.value;
        assert Freed(b, n, c) && m in a && Evolves(a, b, c, m);
      }
    }
  }

  lemma StepReflexive(a: Links, uplinks: map<Mac, string>, c: Config)
    requires Closed(a) && UplinkMap(a, uplinks)
    ensures Step(a, a, uplinks, c)
  {
  }

  /** A link Apply may touch keeps its identity and gets a master this host owns, or none. */
  lemma PutStep(a: Links, n: string, l: Link, uplinks: map<Mac, string>, c: Config)
    requires Closed(a) && UplinkMap(a, uplinks)
    requires n == BRIDGE || n in uplinks.Values || (n in a && OwnedBond(a[n])) || n !in a
    requires n in a ==> l.kind == a[n].kind && l.owned == a[n].owned && l.lacp == a[n].lacp
    requires n !in a ==> if n == BRIDGE then l == LAN else OwnedBond(l) && l.lacp && Wanted(c, n)
    requires l.master == None || (n in a && l.master == a[n].master) || (l.master.value in a && a[l.master.value].owned)
    ensures Step(a, a[n := l], uplinks, c)
  {
    var d := a[n := l];
    forall k | k in d ensures Evolves(a, d, c, k) {
    }
  }

  lemma DeleteStep(a: Links, n: string, uplinks: map<Mac, string>, c: Config)
    requires Closed(a) && UplinkMap(a, uplinks)
    requires n in a && OwnedBond(a[n]) && !Wanted(c, n)
    ensures Step(a, Deleted(a, n), uplinks, c)
  {
  }

  /** Whatever one Apply left behind, no other candidate is newly blocked by it. */
  lemma StepKeepsApplicable(a: Links, b: Links, uplinks: map<Mac, string>, c: Config, d: Config)
    requires Closed(a) && UplinkMap(a, uplinks) && Step(a, b, uplinks, c)
    requires forall i | 0 <= i < |d.bonds| :: d.bonds[i].name != BRIDGE
    requires Applicable(a, uplinks, d)
    ensures Applicable(b, uplinks, d)
  {
    if BRIDGE in b { assert Evolves(a, b, c, BRIDGE); }
    forall i | 0 <= i < |d.bonds| ensures BondFree(b, d.bonds[i].name) {
      assert BondFree(a, d.bonds[i].name);
      if d.bonds[i].name in b { assert Evolves(a, b, c, d.bonds[i].name); }
    }
    forall mac | mac in uplinks ensures Releasable(b, uplinks[mac], Target(d, mac)) {
      var n := uplinks[mac];
      assert n in b && Evolves(a, b, c, n) && Releasable(a, n, Target(d, mac));
      var m := b[n].master;
      if m.Some? && m == a[n].master { assert Evolves(a, b, c, m.value); }
    }
  }
}
