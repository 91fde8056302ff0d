/**
 The installer's `zpool create` command: the parser that turns an edited command into canonical
 arguments, and the printers whose output it has to read back.
 */
module ZpoolCommand {
  import opened Options
  import opened ZpoolWords

  datatype Disk = Disk(path: string, device: string, fingerprint: string, size: nat, eligible: bool)

  const FIXED := ["create", "-f", "-o", "cachefile=none", "-o", "compatibility=openzfs-2.3-linux", "-O",
                  "mountpoint=none"]
  const DEFAULTS := ["-o", "ashift=12", "-o", "autotrim=on", "-O", "compression=zstd", "-O", "atime=off"]
  const POOL := "floatlab"

  function DataPartition(d: Disk): string {
    d.path + "-part2"
  }

  /** A word that stands for the disk. */
  predicate Named(word: string, d: Disk) {
    word == d.path || word == d.device || word == DataPartition(d)
  }

  predicate Operator(c: char) {
    c == '|' || c == ';' || c == '&' || c == '`' || c == '$' || c == '<' || c == '>' || c == '\0'
  }

  predicate Clean(s: string) {
    forall i | 0 <= i < |s| :: !Operator(s[i])
  }

  /** Distinct disks: paths and device names are absolute, and no word stands for two of them. */
  ghost predicate WellFormed(disks: seq<Disk>) {
    && (forall i | 0 <= i < |disks| :: disks[i].path != "" && disks[i].path[0] == '/' && Clean(disks[i].path))
    && (forall i | 0 <= i < |disks| && disks[i].device != "" :: disks[i].device[0] == '/' && Clean(disks[i].device))
    && (forall i, j, w | 0 <= i < |disks| && 0 <= j < |disks| && w != "" && Named(w, disks[i]) && Named(w, disks[j]) ::
        i == j)
  }

  /** How the parser reads one word after the pool's name. */
  datatype Kind = Vdev(name: string) | Names(disk: nat) | Unknown

  function Find(word: string, disks: seq<Disk>, j: nat): (i: Option<nat>)
    requires j <= |disks|
    ensures i.Some? ==> j <= i.value < |disks| && Named(word, disks[i.value])
    ensures i.None? ==> forall k | j <= k < |disks| :: !Named(word, disks[k])
    decreases |disks| - j
  {
    if j == |disks| then None else if Named(word, disks[j]) then Some(j) else Find(word, disks, j + 1)
  }

  function KindOf(word: string, disks: seq<Disk>): Kind {
    if Topology(Lower(word)) then Vdev(Lower(word))
    else match Find(word, disks, 0)
      case None => Unknown
      case Some(i) => Names(i)
  }

  /** The vdev arguments, or None for an unknown, ineligible or repeated disk. */
  function Devices(ws: seq<string>, disks: seq<Disk>, seen: set<string>): Option<seq<string>> {
    if ws == [] then Some([])
    else
      match KindOf(ws[0], disks)
      case Unknown => None
      case Vdev(name) => Prepend(name, Devices(ws[1..], disks, seen))
      case Names(i) =>
        if i >= |disks| || !disks[i].eligible || disks[i].path in seen then None
        else Prepend(DataPartition(disks[i]), Devices(ws[1..], disks, seen + {disks[i].path}))
  }

  function Prepend(w: string, rest: Option<seq<string>>): Option<seq<string>> {
    if rest.None? then None else Some([w] + rest.value)
  }

  predicate HasDisk(ws: seq<string>, disks: seq<Disk>) {
    exists i :: 0 <= i < |ws| && KindOf(ws[i], disks).Names?
  }

  /** Everything after `zpool create`: the options kept, and the words after the pool's name. */
  function Layout(ws: seq<string>): Option<(seq<string>, seq<string>)> {
    if ws == [] then None
    else if ws[0] == POOL then Split(ws[1..])
    else
      match Split(ws)
      case None => None
      case Some(r) => if r.1 == [] || r.1[0] != POOL then None else Some((r.0, r.1[1..]))
  }

  function Parsed(words: seq<string>, disks: seq<Disk>): Option<seq<string>> {
    if (exists w | w in words :: !Clean(w)) || |words| < 4 || words[0] != "zpool" || words[1] != "create" then None
    else
      match Layout(words[2..])
      case None => None
      case Some((kept, rest)) =>
        match Devices(rest, disks, {})
        case None => None
        case Some(devices) => if HasDisk(rest, disks) then Some(FIXED + kept + [POOL] + devices) else None
  }

  // How the words fit together.

  lemma Anatomy(words: seq<string>, disks: seq<Disk>) returns (poolFirst: bool, front: seq<string>, rest: seq<string>)
    requires Parsed(words, disks).Some?
    ensures poolFirst == (words[2] == POOL) && Layout(words[2..]).Some? && rest == Layout(words[2..]).value.1
    ensures words == if poolFirst then ["zpool", "create", POOL] + front + rest
        else ["zpool", "create"] + front + [POOL] + rest
    ensures AllOptions(front).Some? && (!poolFirst ==> front != [])
    ensures Devices(rest, disks, {}).Some? && HasDisk(rest, disks)
    ensures Parsed(words, disks) == Some(FIXED + AllOptions(front).value + [POOL] + Devices(rest, disks, {}).value)
    ensures (forall w | w in words :: Clean(w)) && (forall w | w in front + rest :: w in words) && rest != []
            && |words| > 3
  {
    hide Devices, HasDisk, Clean, Split, AllOptions;
    var ws := words[2..];
    poolFirst := words[2] == POOL;
    if poolFirst {
      front := SplitFront(ws[1..]);
      rest := Split(ws[1..]).value.1;
      assert words == ["zpool", "create", POOL] + ws[1..];
    } else {
      front := SplitFront(ws);
      rest := Split(ws).value.1[1..];
      assert words == ["zpool", "create"] + ws;
      assert Split(ws).value.1 == [POOL] + rest;
    }
    HasDiskNonEmpty(rest, disks);
  }

  /** Options first, then the pool, then the devices. */
  lemma ParseOptionsFirst(front: seq<string>, rest: seq<string>, disks: seq<Disk>)
    requires AllOptions(front).Some? && front != []
    requires Devices(rest, disks, {}).Some? && HasDisk(rest, disks)
    requires forall w | w in front + rest :: Clean(w)
    ensures Parsed(["zpool", "create"] + front + [POOL] + rest, disks)
         == Some(FIXED + AllOptions(front).value + [POOL] + Devices(rest, disks, {}).value)
  {
    hide Devices, HasDisk, Clean, Split, AllOptions;
    var words := ["zpool", "create"] + front + [POOL] + rest;
    HeaderClean();
    assert forall w | w in words :: w in front + rest || w in ["zpool", "create", POOL];
    OptionWords(front, 0);
    assert words[2..] == front + ([POOL] + rest) && words[2] == front[0];
    PoolIsArgument();
    FrontSplit(front, [POOL] + rest);
    HasDiskNonEmpty(rest, disks);
  }

  /** The pool first, then options and devices. */
  lemma ParsePoolFirst(front: seq<string>, rest: seq<string>, disks: seq<Disk>)
    requires AllOptions(front).Some?
    requires Devices(rest, disks, {}).Some? && HasDisk(rest, disks) && FlagOf(rest[0]) == Argument
    requires forall w | w in front + rest :: Clean(w)
    ensures Parsed(["zpool", "create", POOL] + front + rest, disks)
         == Some(FIXED + AllOptions(front).value + [POOL] + Devices(rest, disks, {}).value)
  {
    hide Devices, HasDisk, Clean, Split, AllOptions;
    var words := ["zpool", "create", POOL] + front + rest;
    HeaderClean();
    assert forall w | w in words :: w in front + rest || w in ["zpool", "create", POOL];
    assert words[2..][1..] == front + rest && words[2] == POOL;
    FrontSplit(front, rest);
    HasDiskNonEmpty(rest, disks);
  }

  lemma HeaderClean()
    ensures forall w | w in ["zpool", "create", POOL] :: Clean(w)
  {
  }

  lemma PoolIsArgument()
    ensures FlagOf(POOL) == Argument
  {
    assert POOL[0] == 'f' && "-"[0] == '-';
  }

  lemma HasDiskNonEmpty(rest: seq<string>, disks: seq<Disk>)
    requires HasDisk(rest, disks)
    ensures rest != []
  {
  }

  // Devices are read by their kinds alone.

  predicate SameKinds(ws: seq<string>, vs: seq<string>, disks: seq<Disk>) {
    |ws| == |vs| && forall i | 0 <= i < |ws| :: KindOf(ws[i], disks) == KindOf(vs[i], disks)
  }

  lemma {:induction false} DevicesByKinds(ws: seq<string>, vs: seq<string>, disks: seq<Disk>, seen: set<string>)
    requires SameKinds(ws, vs, disks)
    ensures Devices(ws, disks, seen) == Devices(vs, disks, seen) && (HasDisk(ws, disks) <==> HasDisk(vs, disks))
  {
    hide KindOf;
    if ws != [] {
      var more := match KindOf(ws[0], disks)
        case Names(i) => if i < |disks| then seen + {disks[i].path} else seen
        case _ => seen;
      assert forall i | 0 <= i < |ws| - 1 :: ws[1..][i] == ws[i + 1] && vs[1..][i] == vs[i + 1];
      DevicesByKinds(ws[1..], vs[1..], disks, more);
    }
  }

  /** The canonical device words mean what the words given meant. */
  lemma {:induction false} CanonicalKinds(ws: seq<string>, disks: seq<Disk>, seen: set<string>)
    requires WellFormed(disks) && Devices(ws, disks, seen).Some?
    ensures SameKinds(ws, Devices(ws, disks, seen).value, disks)
    ensures forall w | w in Devices(ws, disks, seen).value :: Absolute(w, disks) || Topology(w)
  {
    hide WellFormed, Topology, Absolute;
    if ws != [] {
      match KindOf(ws[0], disks)
      case Vdev(name) =>
        CaseRoundTrip(ws[0]);
        CanonicalKinds(ws[1..], disks, seen);
      case Names(i) =>
        NamesKind(DataPartition(disks[i]), i, disks);
        CanonicalKinds(ws[1..], disks, seen + {disks[i].path});
    }
  }

  predicate Absolute(w: string, disks: seq<Disk>) {
    w != "" && w[0] == '/' && Clean(w)
  }

  lemma NamesKind(w: string, i: nat, disks: seq<Disk>)
    requires WellFormed(disks) && i < |disks| && Named(w, disks[i]) && w != ""
    ensures KindOf(w, disks) == Names(i) && Absolute(w, disks)
  {
    assert w[0] == '/';
    assert Lower(w)[0] == '/';
    SlashIsNoTopology(Lower(w));
  }

  lemma SlashIsNoTopology(w: string)
    requires w != "" && w[0] == '/'
    ensures !Topology(w)
  {
    if |w| >= 6 { assert w[..5][0] == '/'; }
  }

  // The printers.

  /** wholeDiskArgs on one word: the last disk whose partition it is gives its path. */
  function Whole(arg: string, some: seq<Disk>): string {
    if some == [] then arg
    else if arg == DataPartition(some[|some| - 1]) then some[|some| - 1].path
    else Whole(arg, some[..|some| - 1])
  }

  function WholeDisk(args: seq<string>, some: seq<Disk>): seq<string> {
    seq(|args|, i requires 0 <= i < |args| => Whole(args[i], some))
  }

  lemma {:induction false} WholeIs(arg: string, some: seq<Disk>)
    ensures Whole(arg, some) == arg || exists d :: d in some && arg == DataPartition(d) && Whole(arg, some) == d.path
  {
    if some != [] && arg != DataPartition(some[|some| - 1]) {
      WholeIs(arg, some[..|some| - 1]);
    }
  }

  /** Naming whole disks instead of partitions changes no word's meaning. */
  lemma WholeKinds(ws: seq<string>, some: seq<Disk>, disks: seq<Disk>)
    requires WellFormed(disks) && forall d | d in some :: d in disks
    ensures SameKinds(ws, WholeDisk(ws, some), disks)
    ensures forall i | 0 <= i < |ws| && Clean(ws[i]) :: Clean(WholeDisk(ws, some)[i])
  {
    hide KindOf, Clean, Named;
    forall i | 0 <= i < |ws|
      ensures KindOf(ws[i], disks) == KindOf(Whole(ws[i], some), disks) && (Clean(ws[i]) ==> Clean(Whole(ws[i], some)))
    {
      WholeIs(ws[i], some);
      if Whole(ws[i], some) != ws[i] {
        var d :| d in some && ws[i] == DataPartition(d) && Whole(ws[i], some) == d.path;
        var k :| 0 <= k < |disks| && disks[k] == d;
        NamedBoth(d);
        NamesKind(ws[i], k, disks);
        NamesKind(d.path, k, disks);
      }
    }
  }

  lemma NamedBoth(d: Disk)
    ensures Named(DataPartition(d), d) && Named(d.path, d) && Named(d.device, d) && DataPartition(d) != ""
  {
  }

  /** No option word is a partition. */
  lemma WholeOptions(front: seq<string>, some: seq<Disk>, disks: seq<Disk>)
    requires WellFormed(disks) && (forall d | d in some :: d in disks)
    requires forall w | w in front :: w != "" && w[0] != '/'
    ensures WholeDisk(front, some) == front
  {
    assert forall d | d in some :: DataPartition(d)[0] == '/';
    forall i | 0 <= i < |front| ensures Whole(front[i], some) == front[i] {
      WholeIs(front[i], some);
      assert front[i] in front;
    }
  }

  /** Parsing what the parser produced gives it back. */
  lemma ParseCanonical(words: seq<string>, disks: seq<Disk>)
    requires WellFormed(disks) && Parsed(words, disks).Some?
    ensures Parsed(["zpool"] + Parsed(words, disks).value, disks) == Parsed(words, disks)
  {
    ParseWholeDisk(words, disks, []);
    var args := Parsed(words, disks).value;
    assert WholeDisk(args, []) == args;
  }

  /** And so does parsing it with any of its partitions replaced by their whole disks. */
  lemma ParseWholeDisk(words: seq<string>, disks: seq<Disk>, some: seq<Disk>)
    requires WellFormed(disks) && Parsed(words, disks).Some? && forall d | d in some :: d in disks
    ensures Parsed(["zpool"] + WholeDisk(Parsed(words, disks).value, some), disks) == Parsed(words, disks)
  {
    hide WellFormed, Parsed, Devices, AllOptions, HasDisk, KindOf, SameKinds, Clean, WholeDisk;
    var args := Parsed(words, disks).value;
    var poolFirst, front, rest := Anatomy(words, disks);
    var kept, devices := AllOptions(front).value, Devices(rest, disks, {}).value;
    var options := FIXED[1..] + kept;
    FixedOptions(front);
    var printed := WholeDisk(devices, some);
    CanonicalKinds(rest, disks, {});
    WholeKinds(devices, some, disks);
    KindsTransitive(rest, devices, printed, disks);
    DevicesByKinds(rest, printed, disks, {});
    CleanParts(words, front, rest, disks, printed, some);
    ParseOptionsFirst(options, printed, disks);
    WholeHeader(kept, some, disks, front);
    WholeForm(kept, devices, some);
  }

  lemma WholeForm(kept: seq<string>, devices: seq<string>, some: seq<Disk>)
    requires WholeDisk(FIXED + kept + [POOL], some) == FIXED + kept + [POOL]
    ensures ["zpool"] + WholeDisk(FIXED + kept + [POOL] + devices, some)
         == ["zpool", "create"] + (FIXED[1..] + kept) + [POOL] + WholeDisk(devices, some)
  {
    hide Whole;
    assert FIXED == ["create"] + FIXED[1..];
    WholeConcat(FIXED + kept + [POOL], devices, some);
  }

  lemma WholeConcat(a: seq<string>, b: seq<string>, some: seq<Disk>)
    ensures WholeDisk(a + b, some) == WholeDisk(a, some) + WholeDisk(b, some)
  {
  }

  lemma WholeHeader(kept: seq<string>, some: seq<Disk>, disks: seq<Disk>, front: seq<string>)
    requires WellFormed(disks) && (forall d | d in some :: d in disks)
    requires AllOptions(front) == Some(kept)
    ensures WholeDisk(FIXED + kept + [POOL], some) == FIXED + kept + [POOL]
  {
    hide AllOptions;
    KeptAgain(front);
    forall w | w in FIXED + kept + [POOL] ensures w != "" && w[0] != '/' {
      if w in kept {
        var i :| 0 <= i < |kept| && kept[i] == w;
        OptionWords(kept, i);
      }
    }
    WholeOptions(FIXED + kept + [POOL], some, disks);
  }

  /** The fixed options ask for nothing the parser would keep. */
  lemma FixedOptions(front: seq<string>)
    requires AllOptions(front).Some?
    ensures AllOptions(FIXED[1..] + AllOptions(front).value) == AllOptions(front)
  {
    hide AllOptions, Property;
    var kept := AllOptions(front).value;
    KeptAgain(front);
    FixedProperties();
    FixedOption("-O", "mountpoint=none", kept);
    FixedOption("-o", "compatibility=openzfs-2.3-linux", ["-O", "mountpoint=none"] + kept);
    FixedOption("-o", "cachefile=none", ["-o", "compatibility=openzfs-2.3-linux"] + (["-O", "mountpoint=none"] + kept));
    ForceOption(["-o", "cachefile=none"]
        + (["-o", "compatibility=openzfs-2.3-linux"] + (["-O", "mountpoint=none"] + kept)));
    assert FIXED[1..] + kept ==
           ["-f"] + (["-o", "cachefile=none"]
               + (["-o", "compatibility=openzfs-2.3-linux"] + (["-O", "mountpoint=none"] + kept)));
  }

  lemma FixedOption(flag: string, word: string, rest: seq<string>)
    requires FlagOf(flag) == Set && Property(flag, word) == Fixed
    ensures AllOptions([flag, word] + rest) == AllOptions(rest)
  {
    hide Property, FlagOf;
    assert ([flag, word] + rest)[2..] == rest;
  }

  lemma ForceOption(rest: seq<string>)
    ensures AllOptions(["-f"] + rest) == AllOptions(rest)
  {
    hide Property;
    assert (["-f"] + rest)[1..] == rest && "-"[0] == '-';
  }

  lemma FixedProperties()
    ensures FlagOf("-o") == Set && FlagOf("-O") == Set
    ensures Property("-o", "cachefile=none") == Fixed && Property("-o", "compatibility=openzfs-2.3-linux") == Fixed
    ensures Property("-O", "mountpoint=none") == Fixed
  {
    hide Cut, Atoi, Compression;
    assert "-"[0] == '-';
    CutWord("cachefile", "none");
    CutWord("mountpoint", "none");
    CutWord("compatibility", "openzfs-2.3-linux");
    assert "cachefile" + "=" + "none" == "cachefile=none";
    assert "mountpoint" + "=" + "none" == "mountpoint=none";
    assert "compatibility" + "=" + "openzfs-2.3-linux" == "compatibility=openzfs-2.3-linux";
  }

  lemma CutWord(key: string, value: string)
    requires forall i | 0 <= i < |key| :: key[i] != '='
    ensures var w := key + "=" + value;
            Cut(w) == Some(|key|) && w[..|key|] == key && w[|key| + 1..] == value
  {
    var w := key + "=" + value;
    assert w[|key|] == '=' && w[|key|] in w;
    var j := Cut(w).value;
    assert forall i | 0 <= i < |key| :: w[i] == key[i];
    InPrefix(w, |key|, j);
  }

  lemma InPrefix(w: string, k: nat, j: nat)
    requires k < |w| && j <= |w|
    ensures k < j ==> w[k] in w[..j]
  {
    if k < j { assert w[..j][k] == w[k]; }
  }

  lemma KindsTransitive(a: seq<string>, b: seq<string>, c: seq<string>, disks: seq<Disk>)
    requires SameKinds(a, b, disks) && SameKinds(b, c, disks)
    ensures SameKinds(a, c, disks)
  {
  }

  /** Nothing the shell would read has crept in. */
  lemma CleanParts(words: seq<string>, front: seq<string>, rest: seq<string>, disks: seq<Disk>, printed: seq<string>,
                   some: seq<Disk>)
    requires AllOptions(front).Some? && Devices(rest, disks, {}).Some? && WellFormed(disks)
             && (forall d | d in some :: d in disks)
    requires forall w | w in words :: Clean(w)
    requires forall w | w in front :: w in words
    requires printed == WholeDisk(Devices(rest, disks, {}).value, some)
    ensures forall w | w in FIXED[1..] + AllOptions(front).value + printed :: Clean(w)
  {
    hide Devices, AllOptions, Clean, Topology, WellFormed;
    KeptWords(front);
    var devices := Devices(rest, disks, {}).value;
    CanonicalKinds(rest, disks, {});
    forall w | w in devices ensures Clean(w) {
      if Topology(w) { TopologyClean(w); }
    }
    WholeKinds(devices, some, disks);
    FixedClean();
  }

  lemma FixedClean()
    ensures forall w | w in FIXED :: Clean(w)
  {
    FixedClean1();
    FixedClean2();
    FixedClean3();
    hide Clean;
  }

  lemma FixedClean1()
    ensures Clean("create") && Clean("-f") && Clean("-o") && Clean("-O")
  {
  }

  lemma FixedClean2()
    ensures Clean("cachefile=none") && Clean("mountpoint=none")
  {
  }

  lemma FixedClean3()
    ensures Clean("compatibility=openzfs-2.3-linux")
  {
  }

  lemma TopologyClean(w: string)
    requires Topology(w)
    ensures Clean(w)
  {
    hide DraidGroups;
    if |w| >= 6 && w[..5] == "draid" && '1' <= w[5] <= '3' && DraidGroups(w[6..]) {
      GroupsClean(w[6..]);
      assert forall i | 0 <= i < 5 :: w[i] == w[..5][i];
      assert forall i | 6 <= i < |w| :: w[i] == w[6..][i - 6];
    }
  }

  lemma {:induction false} GroupsClean(s: string)
    requires DraidGroups(s)
    ensures Clean(s)
    decreases |s|
  {
    if s != "" {
      var k := Digits(s[1..]);
      DigitsAre(s[1..]);
      GroupsClean(s[2 + k..]);
      hide DraidGroups, Digits, Operator;
      GroupLetters();
      forall i | 0 <= i < |s| ensures !Operator(s[i]) {
        if i == 0 {
        } else if i <= k {
          assert s[i] == s[1..][..k][i - 1];
        } else if i > k + 1 {
          assert s[i] == s[2 + k..][i - 2 - k];
        }
      }
    }
  }

  lemma GroupLetters()
    ensures !Operator(':') && (forall c | c in "cds" :: !Operator(c)) && forall c | Digit(c) :: !Operator(c)
  {
  }

  lemma {:induction false} DigitsAre(s: string)
    ensures Digits(s) <= |s| && forall c | c in s[..Digits(s)] :: Digit(c)
  {
    if s != "" && Digit(s[0]) {
      DigitsAre(s[1..]);
      assert s[..Digits(s)] == [s[0]] + s[1..][..Digits(s[1..])];
    }
  }

  /** formatPoolCommand's layout: the pool's name first, vdev words in capitals, paths as they are. */
  function Capital(word: string): string {
    if HasPrefix(word, "/") then word else Upper(word)
  }

  function Capitals(ws: seq<string>): seq<string> {
    seq(|ws|, i requires 0 <= i < |ws| => Capital(ws[i]))
  }

  /** Where the pool's name first stands between two words. */
  function PoolAt(words: seq<string>, i: nat): (r: Option<nat>)
    requires 1 <= i
    ensures r.Some? ==>
              i <= r.value < |words| - 1 && words[r.value] == POOL && forall k | i <= k < r.value :: words[k] != POOL
    ensures r.None? ==> forall k | i <= k < |words| - 1 :: words[k] != POOL
    decreases |words| - i
  {
    if i >= |words| - 1 then None else if words[i] == POOL then Some(i) else PoolAt(words, i + 1)
  }

  function Format(words: seq<string>): seq<string> {
    match PoolAt(words, 1)
    case None => words
    case Some(i) =>
      var options := if i >= 2 && words[0] == "zpool" && words[1] == "create" then words[2..i] else words[..i];
      ["zpool", "create", POOL] + options + Capitals(words[i + 1..])
  }

  lemma CapitalKind(w: string, disks: seq<Disk>)
    requires WellFormed(disks) && KindOf(w, disks) != Unknown && w != ""
    ensures KindOf(Capital(w), disks) == KindOf(w, disks)
    ensures FlagOf(Capital(w)) == Argument
    ensures Clean(w) ==> Clean(Capital(w))
  {
    hide Clean;
    match KindOf(w, disks)
    case Vdev(name) =>
      CaseRoundTrip(w);
      TopologyLetter(name);
      UpperClean(w);
    case Names(i) =>
      NamesKind(w, i, disks);
      assert "/" == w[..1];
  }

  lemma UpperClean(w: string)
    ensures Clean(w) ==> Clean(Upper(w))
  {
  }

  lemma TopologyLetter(w: string)
    requires Topology(w)
    ensures w != "" && 'a' <= w[0] <= 'z'
  {
    if |w| >= 6 && w[..5] == "draid" { assert w[0] == w[..5][0]; }
  }

  lemma {:induction false} PoolAtIs(words: seq<string>, i: nat, n: nat)
    requires 1 <= i <= n < |words| - 1 && words[n] == POOL && forall k | i <= k < n :: words[k] != POOL
    ensures PoolAt(words, i) == Some(n)
    decreases n - i
  {
    if i < n { PoolAtIs(words, i + 1, n); }
  }

  lemma {:induction false} KnownKinds(ws: seq<string>, disks: seq<Disk>, seen: set<string>)
    requires Devices(ws, disks, seen).Some?
    ensures forall i | 0 <= i < |ws| :: KindOf(ws[i], disks) != Unknown
  {
    hide KindOf;
    if ws != [] {
      var more := match KindOf(ws[0], disks)
        case Names(i) => seen + {disks[i].path}
        case _ => seen;
      KnownKinds(ws[1..], disks, more);
      assert forall i | 1 <= i < |ws| :: ws[i] == ws[1..][i - 1];
    }
  }

  /** Capitals change no device word's meaning. */
  lemma CapitalKinds(rest: seq<string>, disks: seq<Disk>)
    requires WellFormed(disks) && Devices(rest, disks, {}).Some? && forall w | w in rest :: w != "" && Clean(w)
    ensures SameKinds(rest, Capitals(rest), disks)
    ensures forall w | w in Capitals(rest) :: Clean(w) && FlagOf(w) == Argument
  {
    hide KindOf, Clean, FlagOf, WellFormed;
    KnownKinds(rest, disks, {});
    forall i | 0 <= i < |rest|
      ensures KindOf(Capital(rest[i]), disks) == KindOf(rest[i], disks) && FlagOf(Capital(rest[i])) == Argument
              && Clean(Capital(rest[i]))
    {
      assert rest[i] in rest;
      CapitalKind(rest[i], disks);
    }
  }

  /** A layout of options and devices, pool first. */
  lemma LayoutParses(front: seq<string>, rest: seq<string>, vs: seq<string>, disks: seq<Disk>)
    requires AllOptions(front).Some? && Devices(rest, disks, {}).Some? && HasDisk(rest, disks)
    requires SameKinds(rest, vs, disks)
    requires (forall w | w in front :: Clean(w)) && forall w | w in vs :: Clean(w) && FlagOf(w) == Argument
    ensures Parsed(["zpool", "create", POOL] + front + vs, disks)
         == Some(FIXED + AllOptions(front).value + [POOL] + Devices(rest, disks, {}).value)
  {
    hide KindOf, Clean, FlagOf, AllOptions, Devices, Parsed;
    DevicesByKinds(rest, vs, disks, {});
    HasDiskNonEmpty(vs, disks);
    assert vs[0] in vs;
    ParsePoolFirst(front, vs, disks);
  }

  /** Options put in capitals are options no more. */
  lemma CapitalOptions(front: seq<string>, rest: seq<string>)
    requires AllOptions(front).Some? && front != [] && rest != []
    ensures Split(Capitals(front + rest)).None?
  {
    hide Property;
    var ws := Capitals(front + rest);
    OptionWords(front, 0);
    assert ws[0] == Capital(front[0]) && "/"[0] == '/' && "-"[0] == '-';
    assert Upper("-f") == "-F" && Upper("-o") == "-O" && Upper("-O") == "-O";
    assert "-F" != "-f" && "-F" != "-o" && "-F" != "-O" && "-O" != "-f";
    if FlagOf(front[0]) == Set {
      OptionWords(front, 1);
      assert ws[1] == Upper(front[1]);
      NoCapitalProperty(front[1]);
    }
  }

  lemma NoCapitalProperty(word: string)
    ensures Property("-O", Upper(word)) == Refused
  {
    var w := Upper(word);
    match Cut(w)
    case None =>
    case Some(i) =>
      var key := w[..i];
      if key != "" {
        assert key[0] == w[0];
        assert !('a' <= key[0] <= 'z');
      }
  }

  /** The editor's layout parses like the command it was made from, unless that names the pool before its options. */
  lemma FormatParses(words: seq<string>, disks: seq<Disk>)
    requires WellFormed(disks) && Parsed(words, disks).Some? && forall w | w in words :: w != ""
    ensures Parsed(Format(words), disks) == Parsed(words, disks) <==>
              !(words[2] == POOL && FlagOf(words[3]) != Argument)
  {
    hide KindOf, Clean, FlagOf, AllOptions, Devices, Parsed, WellFormed, Format, HasDisk;
    var poolFirst, front, rest := Anatomy(words, disks);
    if poolFirst {
      PoolFirstFormat(words, front, rest, disks);
    } else {
      OptionsFirstFormat(words, front, rest, disks);
    }
  }

  lemma OptionsFirstFormat(words: seq<string>, front: seq<string>, rest: seq<string>, disks: seq<Disk>)
    requires words == ["zpool", "create"] + front + [POOL] + rest && rest != []
    requires AllOptions(front).Some? && Devices(rest, disks, {}).Some? && HasDisk(rest, disks)
    requires Parsed(words, disks) == Some(FIXED + AllOptions(front).value + [POOL] + Devices(rest, disks, {}).value)
    requires (forall w | w in words :: w != "" && Clean(w)) && (forall w | w in front + rest :: w in words)
    requires WellFormed(disks)
    ensures Parsed(Format(words), disks) == Parsed(words, disks)
  {
    hide KindOf, Clean, FlagOf, AllOptions, Devices, Parsed, WellFormed, HasDisk, Capitals, Format;
    OptionsFirstLayout(words, front, rest);
    assert forall w | w in rest :: w in front + rest;
    assert forall w | w in front :: w in front + rest;
    CapitalKinds(rest, disks);
    LayoutParses(front, rest, Capitals(rest), disks);
  }

  lemma OptionsFirstLayout(words: seq<string>, front: seq<string>, rest: seq<string>)
    requires words == ["zpool", "create"] + front + [POOL] + rest && rest != [] && AllOptions(front).Some?
    ensures Format(words) == ["zpool", "create", POOL] + front + Capitals(rest)
  {
    hide Capital, AllOptions;
    var n := 2 + |front|;
    assert words[n] == POOL && words[n + 1..] == rest && words[2..n] == front && words[1] == "create";
    forall k | 1 <= k < n ensures words[k] != POOL {
      if k >= 2 {
        OptionWords(front, k - 2);
        assert words[k] == front[k - 2];
      }
    }
    PoolAtIs(words, 1, n);
  }

  lemma PoolFirstFormat(words: seq<string>, front: seq<string>, rest: seq<string>, disks: seq<Disk>)
    requires words == ["zpool", "create", POOL] + front + rest && rest != []
    requires AllOptions(front).Some? && Devices(rest, disks, {}).Some? && HasDisk(rest, disks)
    requires Parsed(words, disks) == Some(FIXED + AllOptions(front).value + [POOL] + Devices(rest, disks, {}).value)
    requires |words| >= 4 && forall w | w in words :: w != "" && Clean(w)
    requires WellFormed(disks)
    ensures Parsed(Format(words), disks) == Parsed(words, disks) <==> FlagOf(words[3]) == Argument
  {
    hide KindOf, Clean, FlagOf, AllOptions, Devices, WellFormed, Split, HasDisk, Parsed, Capitals, Format;
    PoolFirstLayout(words, front, rest);
    if front == [] {
      assert words[3] == rest[0] && rest[0] in rest;
      assert forall w | w in rest :: w in words;
      KnownKinds(rest, disks, {});
      ArgumentWord(rest[0], disks);
      CapitalKinds(rest, disks);
      LayoutParses([], rest, Capitals(rest), disks);
      assert ["zpool", "create", POOL] + [] + Capitals(rest) == ["zpool", "create", POOL] + Capitals(rest);
      assert front + rest == rest;
      NoOptions(front);
    } else {
      assert words[3] == front[0];
      OptionWords(front, 0);
      CapitalOptions(front, rest);
      LayoutFails(Format(words), Capitals(front + rest), disks);
    }
  }

  lemma PoolFirstLayout(words: seq<string>, front: seq<string>, rest: seq<string>)
    requires words == ["zpool", "create", POOL] + front + rest && |words| >= 4
    ensures Format(words) == ["zpool", "create", POOL] + Capitals(front + rest)
  {
    hide Capital;
    assert words[2] == POOL && words[1] == "create" && words[3..] == front + rest;
    PoolAtIs(words, 1, 2);
    assert ["zpool", "create", POOL] + [] + Capitals(front + rest)
        == ["zpool", "create", POOL] + Capitals(front + rest);
  }

  lemma LayoutFails(f: seq<string>, after: seq<string>, disks: seq<Disk>)
    requires f == ["zpool", "create", POOL] + after && Split(after).None?
    ensures Parsed(f, disks).None?
  {
    hide Split, Clean;
    assert |f| >= 4 ==> f[2..][1..] == after && f[2] == POOL;
  }

  lemma NoOptions(front: seq<string>)
    requires front == []
    ensures AllOptions(front) == Some([])
  {
  }

  lemma ArgumentWord(w: string, disks: seq<Disk>)
    requires WellFormed(disks) && KindOf(w, disks) != Unknown && w != ""
    ensures FlagOf(w) == Argument
  {
    match KindOf(w, disks)
    case Vdev(name) =>
      TopologyLetter(name);
      assert w[0] != '-' && "-"[0] == '-';
    case Names(i) =>
      NamesKind(w, i, disks);
      assert "-"[0] == '-';
  }

  // Short device names, presentation only.

  function Suffix(device: string): string {
    if device != "" && Digit(device[|device| - 1]) then "p2" else "2"
  }

  function Short(word: string, some: seq<Disk>): string {
    if some == [] then word
    else
      var d := some[|some| - 1];
      if d.device != "" && word == d.path then d.device
      else if d.device != "" && word == DataPartition(d) then d.device + Suffix(d.device)
      else Short(word, some[..|some| - 1])
  }

  function Shorten(ws: seq<string>, some: seq<Disk>): seq<string> {
    seq(|ws|, i requires 0 <= i < |ws| => Short(ws[i], some))
  }

  /** Either untouched, or the name of a disk for its path, or an unparsable name for its partition. */
  lemma {:induction false} ShortIs(word: string, some: seq<Disk>)
    ensures Short(word, some) == word
         || exists d :: d in some && d.device != "" && (if word == d.path then Short(word, some) == d.device
                                                         else word == DataPartition(d)
                                                              && Short(word, some) == d.device + Suffix(d.device))
  {
    if some != [] {
      var d := some[|some| - 1];
      if !(d.device != "" && (word == d.path || word == DataPartition(d))) {
        ShortIs(word, some[..|some| - 1]);
        if Short(word, some[..|some| - 1]) != word {
          var e :| e in some[..|some| - 1] && e.device != ""
                   && (if word == e.path then Short(word, some[..|some| - 1]) == e.device
                       else word == DataPartition(e) && Short(word, some[..|some| - 1]) == e.device + Suffix(e.device));
          assert e in some;
        }
      }
    }
  }

  /** No word names the partition of a disk that has a short name. */
  predicate WholeDisksOnly(words: seq<string>, some: seq<Disk>) {
    forall d | d in some && d.device != "" :: DataPartition(d) !in words
  }

  lemma ShortKinds(ws: seq<string>, some: seq<Disk>, disks: seq<Disk>)
    requires WellFormed(disks) && (forall d | d in some :: d in disks) && WholeDisksOnly(ws, some)
    ensures SameKinds(ws, Shorten(ws, some), disks)
    ensures forall i | 0 <= i < |ws| && Clean(ws[i]) && ws[i] != "" ::
        Clean(Shorten(ws, some)[i]) && Shorten(ws, some)[i] != ""
  {
    hide KindOf, Clean, Named;
    forall i | 0 <= i < |ws|
      ensures KindOf(ws[i], disks) == KindOf(Short(ws[i], some), disks)
      ensures Clean(ws[i]) && ws[i] != "" ==> Clean(Short(ws[i], some)) && Short(ws[i], some) != ""
    {
      ShortIs(ws[i], some);
      if Short(ws[i], some) != ws[i] {
        assert ws[i] in ws;
        var d :| d in some && d.device != "" && ws[i] == d.path && Short(ws[i], some) == d.device;
        var k :| 0 <= k < |disks| && disks[k] == d;
        NamedBoth(d);
        NamesKind(d.path, k, disks);
        NamesKind(d.device, k, disks);
      }
    }
  }

  lemma ShortOptions(ws: seq<string>, some: seq<Disk>, disks: seq<Disk>)
    requires WellFormed(disks) && (forall d | d in some :: d in disks)
    requires forall w | w in ws :: w != "" && w[0] != '/'
    ensures Shorten(ws, some) == ws
  {
    assert forall d | d in some :: DataPartition(d)[0] == '/' && d.path[0] == '/';
    forall i | 0 <= i < |ws| ensures Short(ws[i], some) == ws[i] {
      ShortIs(ws[i], some);
      assert ws[i] in ws;
    }
  }

  /** The same command with other words for the same devices. */
  lemma ReparseDevices(words: seq<string>, poolFirst: bool, front: seq<string>, rest: seq<string>, vs: seq<string>,
                       disks: seq<Disk>)
    requires WellFormed(disks) && AllOptions(front).Some? && (!poolFirst ==> front != [])
    requires Devices(rest, disks, {}).Some? && HasDisk(rest, disks)
    requires SameKinds(rest, vs, disks) && forall w | w in front + vs :: Clean(w) && w != ""
    ensures Parsed(if poolFirst then ["zpool", "create", POOL] + front + vs
                   else ["zpool", "create"] + front + [POOL] + vs, disks)
         == Some(FIXED + AllOptions(front).value + [POOL] + Devices(rest, disks, {}).value)
  {
    hide KindOf, Clean, FlagOf, AllOptions, Devices, Parsed, WellFormed;
    DevicesByKinds(rest, vs, disks, {});
    if poolFirst {
      HasDiskNonEmpty(vs, disks);
      KnownKinds(vs, disks, {});
      assert vs[0] in front + vs;
      ArgumentWord(vs[0], disks);
      ParsePoolFirst(front, vs, disks);
    } else {
      ParseOptionsFirst(front, vs, disks);
    }
  }

  /**
   The short layout parses to the same arguments when every disk is named whole and the options
   come before the pool.
   */
  lemma ShortParses(words: seq<string>, disks: seq<Disk>, some: seq<Disk>)
    requires WellFormed(disks) && Parsed(words, disks).Some? && (forall w | w in words :: w != "")
    requires (forall d | d in some :: d in disks) && WholeDisksOnly(words, some)
    ensures Parsed(Format(Shorten(words, some)), disks) == Parsed(words, disks) <==>
              !(words[2] == POOL && FlagOf(words[3]) != Argument)
  {
    hide KindOf, Clean, FlagOf, AllOptions, Devices, Parsed, WellFormed, Short, Format, Shorten, WholeDisksOnly;
    var poolFirst, front, rest := Anatomy(words, disks);
    var vs, short := Shorten(rest, some), Shorten(words, some);
    ShortAnatomy(words, poolFirst, front, rest, disks, some);
    ShortRest(words, front, rest, some, disks);
    ReparseDevices(words, poolFirst, front, rest, vs, disks);
    assert forall w | w in short :: w in ["zpool", "create", POOL] || w in front + vs;
    FormatParses(short, disks);
    assert forall w | w in rest :: w in front + rest;
    assert forall w | w in vs :: w in front + vs;
    ShortThird(words, short, poolFirst, front, rest, vs, disks);
  }

  lemma ShortRest(words: seq<string>, front: seq<string>, rest: seq<string>, some: seq<Disk>, disks: seq<Disk>)
    requires WellFormed(disks) && (forall d | d in some :: d in disks) && WholeDisksOnly(words, some)
    requires forall w | w in front + rest :: w in words
    requires forall w | w in words :: Clean(w) && w != ""
    ensures SameKinds(rest, Shorten(rest, some), disks)
    ensures forall w | w in front + Shorten(rest, some) :: Clean(w) && w != ""
  {
    hide Clean, WellFormed, KindOf, Short;
    assert forall w | w in rest :: w in front + rest;
    assert forall w | w in front :: w in front + rest;
    ShortKinds(rest, some, disks);
    forall i | 0 <= i < |rest| ensures Clean(Shorten(rest, some)[i]) && Shorten(rest, some)[i] != "" {
      assert rest[i] in rest;
    }
  }

  lemma ShortThird(words: seq<string>, short: seq<string>, poolFirst: bool, front: seq<string>, rest: seq<string>,
                   vs: seq<string>, disks: seq<Disk>)
    requires WellFormed(disks) && SameKinds(rest, vs, disks) && Devices(rest, disks, {}).Some? && rest != []
    requires words == if poolFirst then ["zpool", "create", POOL] + front + rest
        else ["zpool", "create"] + front + [POOL] + rest
    requires short == if poolFirst then ["zpool", "create", POOL] + front + vs
        else ["zpool", "create"] + front + [POOL] + vs
    requires (forall w | w in rest :: w != "") && (forall w | w in vs :: w != "") && |words| > 3
    ensures words[2] == short[2]
            && (words[2] == POOL && poolFirst ==> (FlagOf(words[3]) == Argument <==> FlagOf(short[3]) == Argument))
  {
    hide KindOf, FlagOf, WellFormed, Devices;
    if poolFirst && front == [] {
      KnownKinds(rest, disks, {});
      assert words[3] == rest[0] && rest[0] in rest && short[3] == vs[0] && vs[0] in vs;
      ArgumentWord(rest[0], disks);
      ArgumentWord(vs[0], disks);
    }
  }

  lemma ShortAnatomy(words: seq<string>, poolFirst: bool, front: seq<string>, rest: seq<string>, disks: seq<Disk>,
                     some: seq<Disk>)
    requires words == if poolFirst then ["zpool", "create", POOL] + front + rest
        else ["zpool", "create"] + front + [POOL] + rest
    requires WellFormed(disks) && AllOptions(front).Some? && forall d | d in some :: d in disks
    ensures Shorten(words, some)
         == if poolFirst then ["zpool", "create", POOL] + front + Shorten(rest, some)
             else ["zpool", "create"] + front + [POOL] + Shorten(rest, some)
  {
    hide AllOptions, Short, WellFormed, Shorten;
    var head := if poolFirst then ["zpool", "create", POOL] + front else ["zpool", "create"] + front + [POOL];
    HeadPlain(front);
    assert forall w | w in head :: w in ["zpool", "create", POOL] || w in front;
    ShortOptions(head, some, disks);
    ShortConcat(head, rest, some);
  }

  lemma HeadPlain(front: seq<string>)
    requires AllOptions(front).Some?
    ensures forall w | w in ["zpool", "create", POOL] || w in front :: w != "" && w[0] != '/'
  {
    hide AllOptions;
    forall w | w in front ensures w != "" && w[0] != '/' {
      var i :| 0 <= i < |front| && front[i] == w;
      OptionWords(front, i);
    }
  }

  lemma ShortConcat(a: seq<string>, b: seq<string>, some: seq<Disk>)
    ensures Shorten(a + b, some) == Shorten(a, some) + Shorten(b, some)
  {
    hide Short;
  }

  /** A short partition name is no disk's name. */
  ghost predicate NoClash(disks: seq<Disk>) {
    forall d, e | d in disks && e in disks && d.device != "" :: !Named(d.device + Suffix(d.device), e)
  }

  lemma {:induction false} ShortHits(word: string, some: seq<Disk>)
    requires exists d :: d in some && d.device != "" && word == DataPartition(d)
    ensures exists d :: d in some && d.device != "" && (if word == d.path then Short(word, some) == d.device
                                                         else word == DataPartition(d)
                                                              && Short(word, some) == d.device + Suffix(d.device))
  {
    var n := |some| - 1;
    var last := some[n];
    if !(last.device != "" && (word == last.path || word == DataPartition(last))) {
      var d :| d in some && d.device != "" && word == DataPartition(d);
      assert d in some[..n];
      ShortHits(word, some[..n]);
      var e :| e in some[..n] && e.device != ""
               && (if word == e.path then Short(word, some[..n]) == e.device
                   else word == DataPartition(e) && Short(word, some[..n]) == e.device + Suffix(e.device));
      assert e in some;
    }
  }

  /** No absolute word of a command that parses is unknown. */
  lemma AbsoluteWordsKnown(words: seq<string>, disks: seq<Disk>, w: string)
    requires Parsed(words, disks).Some? && w in words && w != "" && w[0] == '/'
    ensures KindOf(w, disks) != Unknown
  {
    hide KindOf, Clean, AllOptions, Devices, Parsed;
    var poolFirst, front, rest := Anatomy(words, disks);
    if w in front {
      var i :| 0 <= i < |front| && front[i] == w;
      OptionWords(front, i);
      assert false;
    } else {
      assert w in rest;
      KnownKinds(rest, disks, {});
    }
  }

  lemma FormatKeepsPaths(words: seq<string>, w: string)
    requires w in words && w != "" && w[0] == '/'
    ensures w in Format(words)
  {
    var k :| 0 <= k < |words| && words[k] == w;
    assert Capital(w) == w by { assert "/" == w[..1]; }
    if PoolAt(words, 1).Some? {
      var i := PoolAt(words, 1).value;
      if k > i {
        assert Capitals(words[i + 1..])[k - i - 1] == w;
      } else {
        var n := if i >= 2 && words[0] == "zpool" && words[1] == "create" then 2 else 0;
        assert k >= n && words[n..i][k - n] == w;
      }
    }
  }

  lemma ShortPartition(word: string, d: Disk, disks: seq<Disk>, some: seq<Disk>) returns (e: Disk)
    requires WellFormed(disks) && (forall x | x in some :: x in disks) && d in some && d.device != ""
             && word == DataPartition(d)
    ensures e in some && e.device != "" && Short(word, some) == e.device + Suffix(e.device)
  {
    hide Digit;
    ShortHits(word, some);
    e :| e in some && e.device != ""
         && (if word == e.path then Short(word, some) == e.device
             else word == DataPartition(e) && Short(word, some) == e.device + Suffix(e.device));
    PathIsNoPartition(d, e, disks);
  }

  lemma PathIsNoPartition(d: Disk, e: Disk, disks: seq<Disk>)
    requires WellFormed(disks) && d in disks && e in disks
    ensures DataPartition(d) != e.path
  {
    var i :| 0 <= i < |disks| && disks[i] == d;
    var k :| 0 <= k < |disks| && disks[k] == e;
    NamedBoth(d);
    NamedBoth(e);
    NamesKind(DataPartition(d), i, disks);
    NamesKind(e.path, k, disks);
    assert |DataPartition(d)| > |d.path|;
  }

  lemma Unclashing(disks: seq<Disk>, d: Disk, e: Disk)
    requires NoClash(disks) && d in disks && e in disks && d.device != ""
    ensures !Named(d.device + Suffix(d.device), e)
  {
  }

  lemma ShortPartitionUnknown(d: Disk, disks: seq<Disk>)
    requires WellFormed(disks) && NoClash(disks) && d in disks && d.device != ""
    ensures var x := d.device + Suffix(d.device); x[0] == '/' && KindOf(x, disks) == Unknown
  {
    hide Digit, Topology, Named, Suffix;
    var x := d.device + Suffix(d.device);
    var k :| 0 <= k < |disks| && disks[k] == d;
    assert x[0] == disks[k].device[0] == '/' && Lower(x)[0] == '/';
    SlashIsNoTopology(Lower(x));
    forall i | 0 <= i < |disks| ensures !Named(x, disks[i]) {
      Unclashing(disks, d, disks[i]);
    }
    assert Find(x, disks, 0).None?;
  }

  /** The short layout of a partition does not parse back. */
  lemma ShortPartitionFails(words: seq<string>, disks: seq<Disk>, some: seq<Disk>)
    requires WellFormed(disks) && NoClash(disks) && (forall d | d in some :: d in disks) && !WholeDisksOnly(words, some)
    ensures Parsed(Format(Shorten(words, some)), disks).None?
  {
    hide Parsed, Format, KindOf, WellFormed, NoClash, Short, Suffix;
    var d :| d in some && d.device != "" && DataPartition(d) in words;
    var k :| 0 <= k < |words| && words[k] == DataPartition(d);
    var e := ShortPartition(words[k], d, disks, some);
    ShortPartitionUnknown(e, disks);
    var x := e.device + Suffix(e.device);
    assert Shorten(words, some)[k] == x;
    FormatKeepsPaths(Shorten(words, some), x);
    if Parsed(Format(Shorten(words, some)), disks).Some? {
      AbsoluteWordsKnown(Format(Shorten(words, some)), disks, x);
      assert false;
    }
  }

  // Which disks a command names.

  function Matching(arg: string, inventory: seq<Disk>): seq<Disk> {
    if inventory == [] then []
    else
      var rest := Matching(arg, inventory[..|inventory| - 1]);
      var d := inventory[|inventory| - 1];
      if arg == DataPartition(d) then rest + [d] else rest
  }

  function CommandDisks(args: seq<string>, inventory: seq<Disk>): seq<Disk> {
    if args == [] then [] else Matching(args[0], inventory) + CommandDisks(args[1..], inventory)
  }

  /** The disks the words after the pool name stand for, in the order they are named. */
  function Selected(ws: seq<string>, disks: seq<Disk>): seq<Disk> {
    if ws == [] then []
    else
      match KindOf(ws[0], disks)
      case Names(i) => (if i < |disks| then [disks[i]] else []) + Selected(ws[1..], disks)
      case _ => Selected(ws[1..], disks)
  }

  predicate DistinctPaths(disks: seq<Disk>) {
    forall i, j | 0 <= i < j < |disks| :: disks[i].path != disks[j].path
  }

  lemma {:induction false} MatchNone(arg: string, inventory: seq<Disk>)
    requires forall d | d in inventory :: arg != DataPartition(d)
    ensures Matching(arg, inventory) == []
  {
    if inventory != [] { MatchNone(arg, inventory[..|inventory| - 1]); }
  }

  lemma {:induction false} MatchOne(inventory: seq<Disk>, i: nat)
    requires i < |inventory|
    requires forall j | 0 <= j < |inventory| && j != i :: DataPartition(inventory[j]) != DataPartition(inventory[i])
    ensures Matching(DataPartition(inventory[i]), inventory) == [inventory[i]]
  {
    var n := |inventory| - 1;
    if i == n {
      MatchNone(DataPartition(inventory[i]), inventory[..n]);
    } else {
      MatchOne(inventory[..n], i);
    }
  }

  lemma {:induction false} CommandConcat(a: seq<string>, b: seq<string>, inventory: seq<Disk>)
    ensures CommandDisks(a + b, inventory) == CommandDisks(a, inventory) + CommandDisks(b, inventory)
  {
    if a == [] {
      assert a + b == b;
    } else {
      assert (a + b)[1..] == a[1..] + b;
      CommandConcat(a[1..], b, inventory);
    }
  }

  lemma {:induction false} NoCommandDisks(args: seq<string>, disks: seq<Disk>)
    requires WellFormed(disks) && forall w | w in args :: w != "" && w[0] != '/'
    ensures CommandDisks(args, disks) == []
  {
    hide Matching;
    if args != [] {
      assert forall d | d in disks :: DataPartition(d)[0] == '/';
      assert forall w | w in args[1..] :: w in args;
      MatchNone(args[0], disks);
      NoCommandDisks(args[1..], disks);
    }
  }

  lemma {:induction false} DeviceDisks(ws: seq<string>, disks: seq<Disk>, seen: set<string>)
    requires WellFormed(disks) && Devices(ws, disks, seen).Some?
    ensures CommandDisks(Devices(ws, disks, seen).value, disks) == Selected(ws, disks)
    ensures DistinctPaths(Selected(ws, disks))
    ensures forall d | d in Selected(ws, disks) :: d in disks && d.eligible && d.path !in seen
  {
    hide KindOf, Matching, WellFormed;
    if ws != [] {
      var devices := Devices(ws, disks, seen).value;
      match KindOf(ws[0], disks)
      case Vdev(name) =>
        KindVdev(ws[0], disks);
        VdevMatchesNothing(name, disks);
        DeviceDisks(ws[1..], disks, seen);
        assert devices[1..] == Devices(ws[1..], disks, seen).value;
      case Names(i) =>
        PartitionsDistinct(disks, i);
        MatchOne(disks, i);
        DeviceDisks(ws[1..], disks, seen + {disks[i].path});
        assert devices[1..] == Devices(ws[1..], disks, seen + {disks[i].path}).value;
    }
  }

  lemma KindVdev(w: string, disks: seq<Disk>)
    ensures KindOf(w, disks).Vdev? ==> Topology(KindOf(w, disks).name)
  {
  }

  lemma VdevMatchesNothing(name: string, disks: seq<Disk>)
    requires WellFormed(disks) && Topology(name)
    ensures Matching(name, disks) == []
  {
    TopologyLetter(name);
    assert forall d | d in disks :: DataPartition(d)[0] == '/';
    MatchNone(name, disks);
  }

  lemma PartitionsDistinct(disks: seq<Disk>, i: nat)
    requires WellFormed(disks) && i < |disks|
    ensures forall j | 0 <= j < |disks| && j != i :: DataPartition(disks[j]) != DataPartition(disks[i])
  {
    forall j | 0 <= j < |disks| && j != i ensures DataPartition(disks[j]) != DataPartition(disks[i]) {
      NamedBoth(disks[i]);
      NamedBoth(disks[j]);
    }
  }

  /** commandDisks finds exactly the disks the command names, each once, in order, all of them eligible. */
  lemma CommandNamesDisks(words: seq<string>, disks: seq<Disk>)
    requires WellFormed(disks) && Parsed(words, disks).Some?
    ensures Layout(words[2..]).Some?
    ensures var named := Selected(Layout(words[2..]).value.1, disks);
            && CommandDisks(Parsed(words, disks).value, disks) == named
            && DistinctPaths(named) && forall d | d in named :: d in disks && d.eligible
  {
    hide KindOf, Clean, AllOptions, Parsed, Devices, WellFormed, Layout;
    var poolFirst, front, rest := Anatomy(words, disks);
    var kept, devices := AllOptions(front).value, Devices(rest, disks, {}).value;
    DeviceDisks(rest, disks, {});
    CommandConcat(FIXED + kept + [POOL], devices, disks);
    KeptAgain(front);
    forall w | w in FIXED + kept + [POOL] ensures w != "" && w[0] != '/' {
      if w in kept {
        var i :| 0 <= i < |kept| && kept[i] == w;
        OptionWords(kept, i);
      }
    }
    NoCommandDisks(FIXED + kept + [POOL], disks);
    assert [] + Selected(rest, disks) == Selected(rest, disks);
  }

  // The generated command.

  function Parts(disks: seq<Disk>): seq<string> {
    seq(|disks|, i requires 0 <= i < |disks| => DataPartition(disks[i]))
  }

  function Mirror(disks: seq<Disk>): seq<string> {
    if |disks| > 1 then ["mirror"] else []
  }

  const GENERATED :=
    ["create", "-f", "-o", "cachefile=none", "-o", "compatibility=openzfs-2.3-linux"] + DEFAULTS
        + ["-O", "mountpoint=none"]

  function ZPoolArgs(disks: seq<Disk>): seq<string> {
    GENERATED + [POOL] + Mirror(disks) + Parts(disks)
  }

  function ZPoolCommand(disks: seq<Disk>): seq<string> {
    ["zpool"] + WholeDisk(ZPoolArgs(disks), disks)
  }

  /** The generated command parses to its own arguments, the fixed ones moved to the front. */
  lemma GeneratedParses(selected: seq<Disk>, disks: seq<Disk>)
    requires WellFormed(disks) && selected != [] && DistinctPaths(selected)
    requires forall d | d in selected :: d in disks && d.eligible
    ensures Parsed(ZPoolCommand(selected), disks)
        == Some(FIXED + DEFAULTS + [POOL] + (Mirror(selected) + Parts(selected)))
    ensures multiset(FIXED + DEFAULTS + [POOL] + (Mirror(selected) + Parts(selected))) == multiset(ZPoolArgs(selected))
  {
    hide KindOf, Clean, AllOptions, Parsed, Devices, WellFormed, HasDisk, FlagOf, ZPoolCommand, WholeDisk, ZPoolArgs;
    var ws, front := Mirror(selected) + Parts(selected), GENERATED[1..];
    GeneratedOptions();
    GeneratedForm(selected, disks);
    GeneratedPrinted(selected, disks, front);
    GeneratedLayout(front, ws, WholeDisk(ws, selected), DEFAULTS, disks);
    GeneratedOrder(selected);
  }

  /** And the editor's layout of it parses the same. */
  lemma GeneratedLayoutParses(selected: seq<Disk>, disks: seq<Disk>)
    requires WellFormed(disks) && selected != [] && DistinctPaths(selected)
    requires forall d | d in selected :: d in disks && d.eligible
    ensures Parsed(Format(ZPoolCommand(selected)), disks) == Parsed(ZPoolCommand(selected), disks)
  {
    hide KindOf, Clean, AllOptions, Parsed, Devices, WellFormed, HasDisk, Format, FlagOf, ZPoolCommand, WholeDisk,
         ZPoolArgs;
    var words := ZPoolCommand(selected);
    GeneratedStart(selected, disks);
    FormatParses(words, disks);
  }

  lemma GeneratedStart(selected: seq<Disk>, disks: seq<Disk>)
    requires WellFormed(disks) && selected != [] && DistinctPaths(selected)
    requires forall d | d in selected :: d in disks && d.eligible
    ensures var words := ZPoolCommand(selected);
            Parsed(words, disks).Some? && |words| > 3 && words[2] != POOL && forall w | w in words :: w != ""
  {
    hide KindOf, Clean, AllOptions, Parsed, Devices, WellFormed, HasDisk, FlagOf, WholeDisk, SameKinds, ZPoolCommand,
         ZPoolArgs, Mirror, Parts;
    GeneratedParses(selected, disks);
    GeneratedThird(selected, disks);
    GeneratedPrinted(selected, disks, GENERATED[1..]);
  }

  lemma GeneratedThird(selected: seq<Disk>, disks: seq<Disk>)
    requires WellFormed(disks) && forall d | d in selected :: d in disks
    ensures |ZPoolCommand(selected)| > 3 && ZPoolCommand(selected)[2] != POOL
  {
    hide WellFormed, ZPoolCommand, WholeDisk;
    GeneratedForm(selected, disks);
    OptionsAtThird(GENERATED[1..], WholeDisk(Mirror(selected) + Parts(selected), selected), ZPoolCommand(selected));
  }

  lemma OptionsAtThird(front: seq<string>, tail: seq<string>, words: seq<string>)
    requires words == ["zpool", "create"] + front + [POOL] + tail && |front| > 1 && front[0] == "-f"
    ensures |words| > 3 && words[2] != POOL
  {
    assert words[2] == front[0];
  }

  lemma GeneratedPrinted(selected: seq<Disk>, disks: seq<Disk>, front: seq<string>)
    requires WellFormed(disks) && selected != [] && DistinctPaths(selected) && front == GENERATED[1..]
    requires forall d | d in selected :: d in disks && d.eligible
    ensures var ws := Mirror(selected) + Parts(selected);
            var printed := WholeDisk(ws, selected);
            && SameKinds(ws, printed, disks) && Devices(ws, disks, {}) == Some(ws) && HasDisk(ws, disks)
            && (forall w | w in front + printed :: Clean(w) && w != "")
            && (forall w | w in ZPoolCommand(selected) :: w != "")
  {
    hide KindOf, Clean, Devices, WellFormed, HasDisk, Whole;
    var ws := Mirror(selected) + Parts(selected);
    var printed := WholeDisk(ws, selected);
    GeneratedDevices(selected, disks);
    WholeKinds(ws, selected, disks);
    GeneratedForm(selected, disks);
    assert forall w | w in front :: Clean(w) && w != "" by {
      GeneratedClean();
      assert forall w | w in front :: w in GENERATED;
    }
    forall w | w in printed ensures Clean(w) && w != "" {
      var i :| 0 <= i < |printed| && printed[i] == w;
      PrintedClean(selected, disks, i);
    }
    assert forall w | w in ZPoolCommand(selected) :: w in ["zpool", "create", POOL] || w in front || w in printed;
  }

  lemma GeneratedLayout(front: seq<string>, ws: seq<string>, printed: seq<string>, kept: seq<string>, disks: seq<Disk>)
    requires AllOptions(front) == Some(kept) && front != [] && Devices(ws, disks, {}) == Some(ws) && HasDisk(ws, disks)
    requires SameKinds(ws, printed, disks) && forall w | w in front + printed :: Clean(w)
    ensures Parsed(["zpool", "create"] + front + [POOL] + printed, disks) == Some(FIXED + kept + [POOL] + ws)
  {
    hide KindOf, Clean, AllOptions, Parsed, Devices, HasDisk, SameKinds;
    DevicesByKinds(ws, printed, disks, {});
    ParseOptionsFirst(front, printed, disks);
  }

  lemma GeneratedOptions()
    ensures AllOptions(GENERATED[1..]) == Some(DEFAULTS)
  {
    hide AllOptions, Property;
    FixedProperties();
    DefaultProperties();
    var a := ["-O", "mountpoint=none"];
    FixedOption("-O", "mountpoint=none", []);
    assert a + [] == a;
    NoOptions([]);
    KeptOption("-O", "atime=off", a);
    var b := ["-O", "atime=off"] + a;
    KeptOption("-O", "compression=zstd", b);
    var c := ["-O", "compression=zstd"] + b;
    KeptOption("-o", "autotrim=on", c);
    var d := ["-o", "autotrim=on"] + c;
    KeptOption("-o", "ashift=12", d);
    var e := ["-o", "ashift=12"] + d;
    FixedOption("-o", "compatibility=openzfs-2.3-linux", e);
    var f := ["-o", "compatibility=openzfs-2.3-linux"] + e;
    FixedOption("-o", "cachefile=none", f);
    ForceOption(["-o", "cachefile=none"] + f);
    assert GENERATED[1..] == ["-f"] + (["-o", "cachefile=none"] + f);
    assert ["-o", "ashift=12"] + (["-o", "autotrim=on"] + (["-O", "compression=zstd"] + (["-O", "atime=off"] + [])))
        == DEFAULTS;
  }

  lemma KeptOption(flag: string, word: string, rest: seq<string>)
    requires FlagOf(flag) == Set && Property(flag, word) == Kept && AllOptions(rest).Some?
    ensures AllOptions([flag, word] + rest) == Some([flag, word] + AllOptions(rest).value)
  {
    hide Property, FlagOf;
    assert ([flag, word] + rest)[2..] == rest && ([flag, word] + rest)[..2] == [flag, word];
  }

  lemma DefaultProperties()
    ensures Property("-o", "ashift=12") == Kept && Property("-o", "autotrim=on") == Kept
    ensures Property("-O", "compression=zstd") == Kept && Property("-O", "atime=off") == Kept
  {
    hide Cut, Atoi;
    CutWord("ashift", "12");
    CutWord("autotrim", "on");
    CutWord("compression", "zstd");
    CutWord("atime", "off");
    AtoiTwelve();
    assert "ashift" + "=" + "12" == "ashift=12";
    assert "autotrim" + "=" + "on" == "autotrim=on";
    assert "compression" + "=" + "zstd" == "compression=zstd";
    assert "atime" + "=" + "off" == "atime=off";
  }

  lemma AtoiTwelve()
    ensures Atoi("12") == Some(12)
  {
    assert "12"[..1] == "1" && "1"[..0] == "";
    assert Value("1") == 1;
  }

  lemma {:induction false} PathDevices(disks: seq<Disk>, selected: seq<Disk>, seen: set<string>)
    requires WellFormed(disks) && DistinctPaths(selected)
    requires forall d | d in selected :: d in disks && d.eligible && d.path !in seen
    ensures Devices(Parts(selected), disks, seen) == Some(Parts(selected))
  {
    hide KindOf, WellFormed;
    if selected != [] {
      var d, rest := selected[0], selected[1..];
      var i :| 0 <= i < |disks| && disks[i] == d;
      NamedBoth(d);
      NamesKind(DataPartition(d), i, disks);
      assert forall x | x in rest :: x in selected;
      assert Parts(selected)[1..] == Parts(rest);
      PathDevices(disks, rest, seen + {d.path});
      assert Parts(selected) == [DataPartition(d)] + Parts(rest);
    }
  }

  lemma GeneratedDevices(selected: seq<Disk>, disks: seq<Disk>)
    requires WellFormed(disks) && selected != [] && DistinctPaths(selected)
    requires forall d | d in selected :: d in disks && d.eligible
    ensures var ws := Mirror(selected) + Parts(selected);
            Devices(ws, disks, {}) == Some(ws) && HasDisk(ws, disks)
  {
    hide KindOf, WellFormed;
    var ws := Mirror(selected) + Parts(selected);
    PathDevices(disks, selected, {});
    if |selected| > 1 {
      MirrorKind(disks);
      assert ws[1..] == Parts(selected);
    } else {
      assert ws == Parts(selected);
    }
    var k := |Mirror(selected)|;
    var i :| 0 <= i < |disks| && disks[i] == selected[0];
    NamedBoth(selected[0]);
    NamesKind(ws[k], i, disks);
  }

  lemma MirrorKind(disks: seq<Disk>)
    ensures KindOf("mirror", disks) == Vdev("mirror")
  {
    assert Lower("mirror") == "mirror";
  }

  lemma GeneratedClean()
    ensures forall w | w in GENERATED :: Clean(w) && w != "" && w[0] != '/'
  {
    FixedClean();
    DefaultsClean();
    hide Clean;
  }

  lemma DefaultsClean()
    ensures Clean("ashift=12") && Clean("autotrim=on") && Clean("compression=zstd") && Clean("atime=off")
  {
  }

  lemma PrintedClean(selected: seq<Disk>, disks: seq<Disk>, i: nat)
    requires WellFormed(disks) && forall d | d in selected :: d in disks
    requires i < |WholeDisk(Mirror(selected) + Parts(selected), selected)|
    ensures var w := WholeDisk(Mirror(selected) + Parts(selected), selected)[i]; Clean(w) && w != ""
  {
    hide WellFormed, KindOf;
    var ws := Mirror(selected) + Parts(selected);
    WholeIs(ws[i], selected);
    MirrorClean();
    var d := if ws[i] == "mirror" then selected[0] else selected[i - |Mirror(selected)|];
    PathClean(disks);
  }

  lemma MirrorClean()
    ensures Clean("mirror")
  {
  }

  lemma PathClean(disks: seq<Disk>)
    requires WellFormed(disks)
    ensures forall d | d in disks :: Clean(d.path) && d.path != "" && Clean(DataPartition(d))
  {
    assert Clean("-part2");
  }

  lemma GeneratedForm(selected: seq<Disk>, disks: seq<Disk>)
    requires WellFormed(disks) && forall d | d in selected :: d in disks
    ensures ZPoolCommand(selected)
         == ["zpool", "create"] + GENERATED[1..] + [POOL] + WholeDisk(Mirror(selected) + Parts(selected), selected)
  {
    hide Whole, WellFormed, Clean;
    GeneratedClean();
    WholeOptions(GENERATED + [POOL], selected, disks);
    assert ZPoolArgs(selected) == GENERATED + [POOL] + (Mirror(selected) + Parts(selected));
    WholeConcat(GENERATED + [POOL], Mirror(selected) + Parts(selected), selected);
    assert GENERATED == ["create"] + GENERATED[1..];
  }

  lemma GeneratedOrder(selected: seq<Disk>)
    ensures multiset(FIXED + DEFAULTS + [POOL] + (Mirror(selected) + Parts(selected))) == multiset(ZPoolArgs(selected))
  {
    var a, b := FIXED[..6], FIXED[6..];
    assert FIXED == a + b && GENERATED == a + DEFAULTS + b;
    Reordered(a, b, DEFAULTS, [POOL], Mirror(selected), Parts(selected));
  }

  lemma Reordered(a: seq<string>, b: seq<string>, c: seq<string>, d: seq<string>, e: seq<string>, f: seq<string>)
    ensures multiset((a + b) + c + d + (e + f)) == multiset((a + c + b) + d + e + f)
  {
  }
}
