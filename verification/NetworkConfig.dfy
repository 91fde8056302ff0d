/**
 The host network configuration and its validation.  Texts are modelled after parsing: an
 address or netmask that does not parse is None, a netmask is its count of leading ones.
 */
module NetworkConfig {
  import opened Options
  import opened Ipv4

  type Mac = nat

  const BRIDGE := "floatlab-lan"

  datatype IPv4 = Dhcp | Static(address: Option<Address>, ones: Option<nat>, gateway: Option<Address>)
  datatype Prefix = Prefix(address: Address, bits: nat)
  datatype Bond = Bond(name: string, mode: string, members: seq<Mac>)
  datatype Config = Config(version: int, excluded: seq<Mac>, bonds: seq<Bond>, ipv4: IPv4, dns: seq<Address>,
                           pool: string)

  const DEFAULT := Config(1, [], [], Dhcp, [0x01010101, 0x08080808], "")

  /** A unicast, nonzero Ethernet address. */
  predicate ValidMac(mac: Mac) {
    0 < mac < 0x1_0000_0000_0000 && (mac / 0x100_0000_0000) % 2 == 0
  }

  predicate GlobalUnicast(a: Address) {
    && a != 0 && a != LIMIT - 1
    && a / 0x100_0000 != 127
    && a / 0x1000_0000 != 14
    && a / 0x1_0000 != 0xA9FE
  }

  /** IPv4.Prefix: a host address with a contiguous mask of 1 to 30 ones, or an error. */
  function PrefixOf(v: IPv4): (p: Option<Prefix>)
    ensures p.Some? ==> p.value.bits <= 30 && v.Static? && v.address == Some(p.value.address)
  {
    if v.Dhcp? || v.address.None? || !GlobalUnicast(v.address.value) then None
    else if v.ones.None? || v.ones.value == 0 || v.ones.value > 30 then None
    else
      var base := Masked(v.address.value, v.ones.value);
      if v.address.value == base || v.address.value == BitOr(base, WideMask(v.ones.value)) then None
      else Some(Prefix(v.address.value, v.ones.value))
  }

  /** The rejected addresses are exactly the all-zeros and all-ones hosts of the subnet. */
  lemma PrefixRejectsNetworkAndBroadcast(v: IPv4)
    requires v.Static? && v.address.Some? && GlobalUnicast(v.address.value)
    requires v.ones.Some? && 1 <= v.ones.value <= 30
    ensures PrefixOf(v).None? <==>
              v.address.value == Masked(v.address.value, v.ones.value) || IsBroadcast(v.address.value, v.ones.value)
    ensures PrefixOf(v).Some? ==>
              Masked(v.address.value, v.ones.value) < v.address.value < LastAddress(v.address.value, v.ones.value)
  {
    var a, bits := v.address.value, v.ones.value;
    BroadcastTestsAgree(a, bits);
    LastAddressIsAllOnes(a, bits);
    HighIdempotent(a, WIDTH - bits);
    HighIsInterval(Masked(a, bits), a, WIDTH - bits);
  }

  /** The gateway is another usable host of the same subnet. */
  predicate ValidGateway(p: Prefix, gateway: Option<Address>)
    requires p.bits <= WIDTH
  {
    && gateway.Some? && GlobalUnicast(gateway.value)
    && Contains(p.address, p.bits, gateway.value)
    && gateway.value != p.address
    && gateway.value != Masked(p.address, p.bits)
    && !IsBroadcast(gateway.value, p.bits)
  }

  predicate ValidAddressing(v: IPv4) {
    v.Dhcp? || (PrefixOf(v).Some? && ValidGateway(PrefixOf(v).value, v.gateway))
  }

  /** A service address on the LAN bridge, and the stack and pool it belongs to. */
  datatype Service = Service(stack: string, address: Option<Prefix>, pool: string)

  predicate ValidService(s: Service) {
    && s.address.Some? && HostPrefix(s.address.value)
    && s.stack != "" && s.pool != ""
  }

  predicate HostPrefix(p: Prefix) {
    && GlobalUnicast(p.address) && 1 <= p.bits <= 30
    && p.address != Masked(p.address, p.bits) && !IsBroadcast(p.address, p.bits)
  }

  /** A static address parses exactly when it is a host address with a mask of 1 to 30 ones, as a service's must be. */
  lemma PrefixIsHost(v: IPv4)
    requires v.Static? && v.address.Some? && v.ones.Some?
    ensures PrefixOf(v).Some? <==> HostPrefix(Prefix(v.address.value, v.ones.value))
    ensures PrefixOf(v).Some? ==> PrefixOf(v).value == Prefix(v.address.value, v.ones.value)
  {
    if 1 <= v.ones.value <= 30 { BroadcastTestsAgree(v.address.value, v.ones.value); }
  }

  function Statics(v: IPv4): set<Prefix> {
    if PrefixOf(v).Some? then {PrefixOf(v).value} else {}
  }

  function Addresses(services: map<string, Service>): set<Prefix> {
    set k | k in services && services[k].address.Some? :: services[k].address.value
  }

  predicate Letter(c: char) {
    'a' <= c <= 'z' || 'A' <= c <= 'Z'
  }

  predicate ValidBondName(name: string) {
    && 1 <= |name| <= 15 && Letter(name[0])
    && (forall i | 1 <= i < |name| :: Letter(name[i]) || '0' <= name[i] <= '9' || name[i] == '_' || name[i] == '-')
    && name != BRIDGE
  }

  predicate ValidBond(bond: Bond) {
    ValidBondName(bond.name) && bond.mode == "802.3ad" && |bond.members| >= 2
  }

  predicate Distinct<T(==)>(s: seq<T>) {
    forall i, j | 0 <= i < j < |s| :: s[i] != s[j]
  }

  function Members(bonds: seq<Bond>): seq<Mac> {
    if bonds == [] then [] else Members(bonds[..|bonds| - 1]) + bonds[|bonds| - 1].members
  }

  predicate DistinctNames(bonds: seq<Bond>) {
    forall i, j | 0 <= i < j < |bonds| :: bonds[i].name != bonds[j].name
  }

  /** No adapter is named twice, bonds are well formed, and the addressing is usable. */
  predicate Workable(c: Config) {
    && c.version == 1
    && Distinct(c.excluded + Members(c.bonds))
    && (forall mac | mac in c.excluded + Members(c.bonds) :: ValidMac(mac))
    && DistinctNames(c.bonds)
    && (forall i | 0 <= i < |c.bonds| :: ValidBond(c.bonds[i]))
    && ValidAddressing(c.ipv4)
    && (forall d | d in c.dns :: GlobalUnicast(d))
  }

  predicate CleanPool(pool: string) {
    forall ch | ch in pool :: ch != '\n' && ch != '\r' && ch != '\0'
  }

  /** What Validate accepts. */
  predicate ValidConfig(c: Config) {
    Workable(c) && CleanPool(c.pool)
  }

  lemma {:induction false} MemberOfBond(bonds: seq<Bond>, i: nat, mac: Mac)
    requires i < |bonds| && mac in bonds[i].members
    ensures mac in Members(bonds)
  {
    if i < |bonds| - 1 {
      assert bonds[..|bonds| - 1][i] == bonds[i];
      MemberOfBond(bonds[..|bonds| - 1], i, mac);
    }
  }

  /** In a valid configuration an adapter belongs to at most one bond, and not while excluded. */
  lemma {:induction false} OneBondPerAdapter(bonds: seq<Bond>, prefix: seq<Mac>, i: nat, j: nat, mac: Mac)
    requires Distinct(prefix + Members(bonds))
    requires i <= j < |bonds| && mac in bonds[i].members && mac in bonds[j].members
    ensures i == j && mac !in prefix
  {
    var last := |bonds| - 1;
    var rest := bonds[..last];
    assert prefix + Members(bonds) == (prefix + Members(rest)) + bonds[last].members;
    if j == last {
      if i < last {
        assert rest[i] == bonds[i];
        MemberOfBond(rest, i, mac);
        assert mac in prefix + Members(rest);
        DistinctParts(prefix + Members(rest), bonds[last].members, mac);
      } else {
        if mac in prefix { DistinctParts(prefix + Members(rest), bonds[last].members, mac); }
      }
    } else {
      assert Distinct(prefix + Members(rest)) by {
        assert forall k | 0 <= k < |prefix + Members(rest)| ::
            (prefix + Members(rest))[k] == (prefix + Members(bonds))[k];
      }
      OneBondPerAdapter(rest, prefix, i, j, mac);
    }
  }

  lemma DistinctParts(a: seq<Mac>, b: seq<Mac>, mac: Mac)
    requires Distinct(a + b)
    ensures Distinct(a) && !(mac in a && mac in b)
  {
    forall i, j | 0 <= i < |a| && 0 <= j < |b| ensures a[i] != b[j] {
      assert (a + b)[i] == a[i] && (a + b)[|a| + j] == b[j];
    }
    forall i, j | 0 <= i < j < |a| ensures a[i] != a[j] {
      assert (a + b)[i] == a[i] && (a + b)[j] == a[j];
    }
  }

  lemma {:induction false} MembersPrefix(bonds: seq<Bond>, i: nat) returns (rest: seq<Mac>)
    requires i <= |bonds|
    ensures Members(bonds) == Members(bonds[..i]) + rest
  {
    if i == |bonds| {
      assert bonds[..i] == bonds;
      rest := [];
    } else {
      var tail := MembersPrefix(bonds[..|bonds| - 1], i);
      assert bonds[..|bonds| - 1][..i] == bonds[..i];
      rest := tail + bonds[|bonds| - 1].members;
    }
  }

  /** The first `k` bonds, beside the excluded adapters: well formed, named apart, sharing no adapter. */
  predicate GoodBonds(c: Config, k: nat)
    requires k <= |c.bonds|
  {
    && Distinct(c.excluded + Members(c.bonds[..k]))
    && (forall mac | mac in c.excluded + Members(c.bonds[..k]) :: ValidMac(mac))
    && (forall i, j | 0 <= i < j < k :: c.bonds[i].name != c.bonds[j].name)
    && (forall i | 0 <= i < k :: ValidBond(c.bonds[i]))
  }

  lemma AllBondsGood(c: Config)
    ensures Workable(c) <==>
              && c.version == 1 && GoodBonds(c, |c.bonds|) && ValidAddressing(c.ipv4)
              && forall d | d in c.dns :: GlobalUnicast(d)
  {
    hide ValidAddressing, GlobalUnicast, ValidMac, ValidBond;
    assert c.bonds[..|c.bonds|] == c.bonds;
  }

  /** A refused prefix refuses the whole. */
  lemma GoodPrefix(c: Config, i: nat)
    requires i <= |c.bonds| && GoodBonds(c, |c.bonds|)
    ensures GoodBonds(c, i)
  {
    hide ValidMac, ValidBond;
    var rest := MembersPrefix(c.bonds, i);
    assert c.bonds[..|c.bonds|] == c.bonds;
    assert c.excluded + Members(c.bonds) == (c.excluded + Members(c.bonds[..i])) + rest;
    DistinctParts(c.excluded + Members(c.bonds[..i]), rest, 0);
  }

  /** One bond more: well formed, with a new name and new adapters. */
  lemma GoodNext(c: Config, i: nat)
    requires i < |c.bonds| && GoodBonds(c, i)
    ensures GoodBonds(c, i + 1) <==>
              && ValidBond(c.bonds[i]) && (forall j | 0 <= j < i :: c.bonds[j].name != c.bonds[i].name)
              && Distinct((c.excluded + Members(c.bonds[..i])) + c.bonds[i].members)
              && forall mac | mac in c.bonds[i].members :: ValidMac(mac)
    ensures c.excluded + Members(c.bonds[..i + 1]) == (c.excluded + Members(c.bonds[..i])) + c.bonds[i].members
  {
    hide ValidMac, ValidBond, Distinct;
    assert c.bonds[..i + 1][..i] == c.bonds[..i];
    assert Members(c.bonds[..i + 1]) == Members(c.bonds[..i]) + c.bonds[i].members;
    var before, after := c.excluded + Members(c.bonds[..i]), c.excluded + Members(c.bonds[..i + 1]);
    assert after == before + c.bonds[i].members;
    assert forall mac :: mac in after <==> mac in before || mac in c.bonds[i].members;
  }

  /** Validate, with its loops over adapters and bonds and the sets of what they have used. */
  method Validate(c: Config) returns (ok: bool)
    ensures ok <==> ValidConfig(c)
  {
    hide ValidAddressing, GlobalUnicast, ValidMac, ValidBond, Workable, CleanPool;
    AllBondsGood(c);
    if c.version != 1 { return false; }
    var used: set<Mac>;
    used, ok := Claim(c.excluded, [], {});
    assert [] + c.excluded == c.excluded == c.excluded + Members(c.bonds[..0]);
    if !ok {
      if GoodBonds(c, |c.bonds|) { GoodPrefix(c, 0); }
      return false;
    }
    ok := CheckBonds(c, used);
    if !ok { return; }
    if !ValidAddressing(c.ipv4) { return false; }
    ok := (forall d | d in c.dns :: GlobalUnicast(d)) && CleanPool(c.pool);
  }

  method CheckBonds(c: Config, excluded: set<Mac>) returns (ok: bool)
    requires GoodBonds(c, 0) && forall mac :: mac in excluded <==> mac in c.excluded
    ensures ok <==> GoodBonds(c, |c.bonds|)
  {
    hide ValidMac, ValidBondName, GoodBonds, Distinct;
    var used, names: set<string> := excluded, {};
    assert c.excluded == c.excluded + Members(c.bonds[..0]);
    for i := 0 to |c.bonds|
      invariant GoodBonds(c, i)
      invariant forall mac :: mac in used <==> mac in c.excluded + Members(c.bonds[..i])
      invariant forall j | 0 <= j < i :: c.bonds[j].name in names
      invariant forall n | n in names :: exists j :: 0 <= j < i && c.bonds[j].name == n
    {
      var b := c.bonds[i];
      GoodNext(c, i);
      if GoodBonds(c, |c.bonds|) { GoodPrefix(c, i + 1); }
      if !ValidBondName(b.name) || b.name in names || b.mode != "802.3ad" || |b.members| < 2 { return false; }
      names := names + {b.name};
      AdaptersDistinct(c, i);
      used, ok := Claim(b.members, c.excluded + Members(c.bonds[..i]), used);
      if !ok { return; }
    }
    ok := true;
  }

  lemma AdaptersDistinct(c: Config, i: nat)
    requires i <= |c.bonds| && GoodBonds(c, i)
    ensures Distinct(c.excluded + Members(c.bonds[..i]))
  {
  }

  lemma ValidConfigBonds(c: Config)
    ensures Workable(c) ==> DistinctNames(c.bonds) && forall i | 0 <= i < |c.bonds| :: ValidBond(c.bonds[i])
  {
  }

  /** One adapter list: every entry valid and not used before. */
  method Claim(macs: seq<Mac>, ghost before: seq<Mac>, used0: set<Mac>) returns (used: set<Mac>, ok: bool)
    requires Distinct(before) && forall mac :: mac in used0 <==> mac in before
    ensures ok <==> Distinct(before + macs) && forall mac | mac in macs :: ValidMac(mac)
    ensures ok ==> forall mac :: mac in used <==> mac in before + macs
  {
    used := used0;
    for i := 0 to |macs|
      invariant Distinct(before + macs[..i])
      invariant forall mac :: mac in used <==> mac in before + macs[..i]
      invariant forall mac | mac in macs[..i] :: ValidMac(mac)
    {
      assert before + macs[..i + 1] == (before + macs[..i]) + [macs[i]];
      if !ValidMac(macs[i]) { return used, false; }
      if macs[i] in used {
        ghost var k :| 0 <= k < |before + macs[..i]| && (before + macs[..i])[k] == macs[i];
        assert (before + macs)[k] == (before + macs)[|before| + i];
        return used, false;
      }
      used := used + {macs[i]};
    }
    assert macs[..|macs|] == macs;
    ok := true;
  }
}
