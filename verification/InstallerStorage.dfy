/**
 The installer's loops over words and disks, each computing the function its round trips are
 proved about.
 */
module InstallerStorage {
  import opened Options
  import opened ZpoolWords
  import opened ZpoolCommand

  const GIB := 0x4000_0000
  const MIB := 0x10_0000

  /** The option loop: properties kept in order, and where the options end. */
  method ReadOptions(words: seq<string>, start: nat) returns (r: Option<(seq<string>, nat)>)
    requires start <= |words|
    ensures r.None? <==> Split(words[start..]).None?
    ensures r.Some? ==> start <= r.value.1 <= |words| && Split(words[start..]) == Some((r.value.0, words[r.value.1..]))
  {
    hide Property, FlagOf;
    var i, kept: seq<string> := start, [];
    ghost var all := Split(words[start..]);
    assert all.Some? ==> [] + all.value.0 == all.value.0;
    while i < |words| && FlagOf(words[i]) != Argument
      invariant start <= i <= |words|
      invariant Split(words[start..]) == (match Split(words[i..])
                                          case None => None
                                          case Some(rest) => Some((kept + rest.0, rest.1)))
    {
      var flag := words[i];
      assert words[i..][1..] == words[i + 1..];
      i := i + 1;
      if FlagOf(flag) == Force { continue; }
      if FlagOf(flag) == Unsupported || i == |words| { return None; }
      assert words[i - 1..][2..] == words[i + 1..] && words[i - 1..][..2] == [flag, words[i]];
      var verdict := Property(flag, words[i]);
      if verdict == Refused { return None; }
      if verdict == Kept {
        ghost var after := Split(words[i + 1..]);
        if after.Some? { assert kept + ([flag, words[i]] + after.value.0) == kept + [flag, words[i]] + after.value.0; }
        kept := kept + [flag, words[i]];
      }
      i := i + 1;
    }
    assert kept + [] == kept;
    r := Some((kept, i));
  }

  /** The device loop, with the set of paths already used. */
  method ReadDevices(words: seq<string>, start: nat, disks: seq<Disk>) returns (r: Option<seq<string>>, any: bool)
    requires start <= |words|
    ensures r == Devices(words[start..], disks, {})
    ensures r.Some? ==> (any <==> HasDisk(words[start..], disks))
  {
    hide KindOf, HasDisk, Devices;
    var seen: set<string>, devices: seq<string> := {}, [];
    ghost var ws := words[start..];
    NoDevices(disks, {});
    PlusNothing(Devices(ws, disks, {}));
    for i := start to |words|
      invariant Devices(ws, disks, {}) == Plus(devices, Devices(words[i..], disks, seen))
      invariant HasDisk(ws, disks) <==> seen != {} || HasDisk(words[i..], disks)
    {
      var word := words[i];
      assert words[i..][0] == word && words[i..][1..] == words[i + 1..];
      NextDevice(words[i..], disks, seen);
      var next: string;
      match KindOf(word, disks) {
        case Unknown => return None, false;
        case Vdev(name) => next := name;
        case Names(k) =>
          if k >= |disks| || !disks[k].eligible || disks[k].path in seen { return None, false; }
          seen := seen + {disks[k].path};
          next := DataPartition(disks[k]);
      }
      PlusPrepend(devices, next, Devices(words[i + 1..], disks, seen));
      devices := devices + [next];
    }
    assert words[|words|..] == [];
    NoDevices(disks, seen);
    assert devices + [] == devices;
    r := Some(devices);
    any := seen != {};
  }

  function Plus(front: seq<string>, rest: Option<seq<string>>): Option<seq<string>> {
    if rest.None? then None else Some(front + rest.value)
  }

  lemma PlusNothing(rest: Option<seq<string>>)
    ensures Plus([], rest) == rest
  {
    if rest.Some? { assert [] + rest.value == rest.value; }
  }

  lemma PlusPrepend(front: seq<string>, next: string, rest: Option<seq<string>>)
    ensures Plus(front, Prepend(next, rest)) == Plus(front + [next], rest)
  {
    if rest.Some? { assert front + ([next] + rest.value) == front + [next] + rest.value; }
  }

  lemma NoDevices(disks: seq<Disk>, seen: set<string>)
    ensures Devices([], disks, seen) == Some([]) && !HasDisk([], disks)
  {
  }

  /** One word of the device loop. */
  lemma NextDevice(ws: seq<string>, disks: seq<Disk>, seen: set<string>)
    requires ws != []
    ensures HasDisk(ws, disks) <==> KindOf(ws[0], disks).Names? || HasDisk(ws[1..], disks)
    ensures KindOf(ws[0], disks).Unknown? ==> Devices(ws, disks, seen).None?
    ensures KindOf(ws[0], disks).Vdev? ==>
              Devices(ws, disks, seen) == Prepend(KindOf(ws[0], disks).name, Devices(ws[1..], disks, seen))
    ensures KindOf(ws[0], disks).Names? ==>
              var k := KindOf(ws[0], disks).disk;
              Devices(ws, disks, seen) == if k >= |disks| || !disks[k].eligible || disks[k].path in seen then None
                                          else Prepend(DataPartition(disks[k]),
                                                       Devices(ws[1..], disks, seen + {disks[k].path}))
  {
    hide KindOf;
    if HasDisk(ws, disks) && !KindOf(ws[0], disks).Names? {
      var k :| 0 <= k < |ws| && KindOf(ws[k], disks).Names?;
      assert ws[1..][k - 1] == ws[k];
    }
    if HasDisk(ws[1..], disks) {
      var k :| 0 <= k < |ws| - 1 && KindOf(ws[1..][k], disks).Names?;
      assert ws[k + 1] == ws[1..][k];
    }
  }

  /** ParseZPool. */
  method ParseZPool(words: seq<string>, disks: seq<Disk>) returns (r: Option<seq<string>>)
    ensures r == Parsed(words, disks)
  {
    hide Split, Devices, HasDisk, Clean;
    if exists w | w in words :: !Clean(w) { return None; }
    if |words| < 4 || words[0] != "zpool" || words[1] != "create" { return None; }
    var poolFirst := words[2] == POOL;
    var i := if poolFirst then 3 else 2;
    assert words[2..][1..] == words[3..];
    var options := ReadOptions(words, i);
    if options.None? { return None; }
    var kept := options.value.0;
    i := options.value.1;
    if !poolFirst {
      if i >= |words| || words[i] != POOL { return None; }
      assert words[i..][1..] == words[i + 1..];
      i := i + 1;
    }
    var devices, any := ReadDevices(words, i, disks);
    if devices.None? || !any { return None; }
    r := Some(FIXED + kept + [POOL] + devices.value);
  }

  method MatchDisk(arg: string, inventory: seq<Disk>, before: seq<Disk>) returns (selected: seq<Disk>)
    ensures selected == before + Matching(arg, inventory)
  {
    selected := before;
    for i := 0 to |inventory|
      invariant selected == before + Matching(arg, inventory[..i])
    {
      assert inventory[..i + 1][..i] == inventory[..i];
      if arg == DataPartition(inventory[i]) { selected := selected + [inventory[i]]; }
    }
    assert inventory[..|inventory|] == inventory;
  }

  /** commandDisks. */
  method ListDisks(args: seq<string>, inventory: seq<Disk>) returns (selected: seq<Disk>)
    ensures selected == CommandDisks(args, inventory)
  {
    selected := [];
    for i := 0 to |args|
      invariant CommandDisks(args, inventory) == selected + CommandDisks(args[i..], inventory)
    {
      assert args[i..][1..] == args[i + 1..];
      ghost var before := selected;
      selected := MatchDisk(args[i], inventory, selected);
      ghost var rest := CommandDisks(args[i + 1..], inventory);
      assert before + (Matching(args[i], inventory) + rest) == selected + rest;
    }
  }

  /** wholeDiskArgs, overwriting a copy of the arguments in place. */
  method ReplacePartitions(args: seq<string>, disks: seq<Disk>) returns (result: seq<string>)
    ensures result == WholeDisk(args, disks)
  {
    result := args;
    for i := 0 to |args|
      invariant |result| == |args|
      invariant forall k | 0 <= k < i :: result[k] == Whole(args[k], disks)
      invariant forall k | i <= k < |args| :: result[k] == args[k]
    {
      for j := 0 to |disks|
        invariant |result| == |args|
        invariant forall k | 0 <= k < |args| && k != i :: result[k] == if k < i then Whole(args[k], disks) else args[k]
        invariant result[i] == Whole(args[i], disks[..j])
      {
        assert disks[..j + 1][..j] == disks[..j];
        if args[i] == DataPartition(disks[j]) { result := result[i := disks[j].path]; }
      }
      assert disks[..|disks|] == disks;
    }
  }

  method FormatPoolCommand(command: seq<string>) returns (layout: seq<string>)
    ensures layout == Format(command)
  {
    var cut := 1;
    while cut < |command| - 1 && command[cut] != POOL
      invariant 1 <= cut && PoolAt(command, cut) == PoolAt(command, 1)
      decreases |command| - cut
    {
      cut := cut + 1;
    }
    if cut >= |command| - 1 { return command; }
    var options := if cut >= 2 && command[0] == "zpool" && command[1] == "create" then command[2..cut]
        else command[..cut];
    var words := command[cut + 1..];
    ghost var devices := words;
    for i := 0 to |words|
      invariant |words| == |devices|
      invariant forall k | 0 <= k < |words| :: words[k] == if k < i then Capital(devices[k]) else devices[k]
    {
      if !HasPrefix(words[i], "/") { words := words[i := Upper(words[i])]; }
    }
    assert words == Capitals(devices);
    layout := ["zpool", "create", POOL] + options + words;
  }

  /** shortPoolCommand: every match overwrites the word, so the last disk decides. */
  method ShortPoolCommand(command: seq<string>, disks: seq<Disk>) returns (layout: seq<string>)
    ensures layout == Format(Shorten(command, disks))
  {
    hide Format, Digit;
    var words := command;
    for i := 0 to |words|
      invariant |words| == |command|
      invariant forall k | 0 <= k < |words| :: words[k] == if k < i then Short(command[k], disks) else command[k]
    {
      var word := words[i];
      for j := 0 to |disks|
        invariant |words| == |command|
        invariant forall k | 0 <= k < |words| && k != i ::
            words[k] == if k < i then Short(command[k], disks) else command[k]
        invariant words[i] == Short(word, disks[..j])
      {
        var d := disks[j];
        assert disks[..j + 1][..j] == disks[..j];
        if d.device == "" { continue; }
        if word == d.path {
          words := words[i := d.device];
        } else if word == DataPartition(d) {
          words := words[i := d.device + Suffix(d.device)];
        }
      }
      assert disks[..|disks|] == disks;
    }
    assert words == Shorten(command, disks);
    layout := FormatPoolCommand(words);
  }

  function ImageSize(payload: nat): nat {
    var size := (payload + 2 * GIB + GIB - 1) / GIB * GIB;
    if size < 8 * GIB then 8 * GIB else size
  }

  /** The least whole number of gibibytes that leaves two beside the payload, and eight at least. */
  lemma ImageSizeIsLeast(payload: nat, other: nat)
    ensures ImageSize(payload) % GIB == 0 && ImageSize(payload) >= payload + 2 * GIB && ImageSize(payload) >= 8 * GIB
    ensures other % GIB == 0 && other >= payload + 2 * GIB && other >= 8 * GIB ==> other >= ImageSize(payload)
  {
    var n := payload + 2 * GIB + GIB - 1;
    assert n / GIB * GIB + n % GIB == n;
    if other % GIB == 0 && other >= payload + 2 * GIB && other >= 8 * GIB {
      assert other == other / GIB * GIB;
    }
  }

  predicate SafePath(path: string) {
    && "/dev/disk/by-id/" <= path
    && forall i | 0 <= i < |path| :: path[i] !in {' ', '\t', '\n', '\r', '\'', '"', ';', '$', '`', '\\'}
  }

  predicate Installable(d: Disk, payload: nat) {
    && d.eligible && SafePath(d.path) && d.fingerprint != ""
    && d.size >= ImageSize(payload) + 512 * MIB + 16 * GIB + 2 * MIB
  }

  /** ValidateSelection: at least one disk, every one installable, no device twice. */
  method ValidateSelection(disks: seq<Disk>, payload: nat) returns (ok: bool)
    ensures ok <==> && disks != []
                    && (forall i | 0 <= i < |disks| :: Installable(disks[i], payload))
                    && (forall i, j | 0 <= i < j < |disks| :: disks[i].device != disks[j].device)
  {
    hide SafePath, ImageSize;
    if |disks| == 0 { return false; }
    var seen: set<string> := {};
    for i := 0 to |disks|
      invariant forall j | 0 <= j < i :: Installable(disks[j], payload) && disks[j].device in seen
      invariant forall s | s in seen :: exists j :: 0 <= j < i && disks[j].device == s
      invariant forall j, k | 0 <= j < k < i :: disks[j].device != disks[k].device
    {
      var d := disks[i];
      if !d.eligible || !SafePath(d.path) || d.fingerprint == "" || d.device in seen { return false; }
      seen := seen + {d.device};
      if d.size < ImageSize(payload) + 512 * MIB + 16 * GIB + 2 * MIB { return false; }
    }
    ok := true;
  }
}
