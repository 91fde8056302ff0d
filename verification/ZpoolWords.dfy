/**
 The words of a `zpool create` command: which options are kept, fixed or refused, and which
 words are vdev keywords.  Commands are sequences of words; letters are ASCII.
 */
module ZpoolWords {
  import opened Options

  predicate HasPrefix(s: string, p: string) {
    p <= s
  }

  function Lower(s: string): (r: string)
    ensures |r| == |s|
  {
    seq(|s|, i requires 0 <= i < |s| => if 'A' <= s[i] <= 'Z' then s[i] - 'A' + 'a' else s[i])
  }

  function Upper(s: string): (r: string)
    ensures |r| == |s|
  {
    seq(|s|, i requires 0 <= i < |s| => if 'a' <= s[i] <= 'z' then s[i] - 'a' + 'A' else s[i])
  }

  lemma CaseRoundTrip(s: string)
    ensures Lower(Upper(s)) == Lower(s) && Lower(Lower(s)) == Lower(s)
  {
  }

  predicate Digit(c: char) {
    '0' <= c <= '9'
  }

  function Digits(s: string): nat {
    if s == "" || !Digit(s[0]) then 0 else 1 + Digits(s[1..])
  }

  function Value(s: string): nat
    requires forall c | c in s :: Digit(c)
  {
    if s == "" then 0
    else
      assert s[|s| - 1] in s && Digit(s[|s| - 1]);
      Value(s[..|s| - 1]) * 10 + (s[|s| - 1] as int - '0' as int)
  }

  /** Atoi, short of its overflow error: a sign, then decimal digits. */
  function Atoi(s: string): Option<int> {
    var signed := s != "" && (s[0] == '-' || s[0] == '+');
    var body := if signed then s[1..] else s;
    if body == "" || exists c | c in body :: !Digit(c) then None
    else Some(if signed && s[0] == '-' then -(Value(body) as int) else Value(body))
  }

  predicate Compression(v: string) {
    || v in {"off", "on", "lz4", "lzjb", "zle", "gzip", "zstd"}
    || (|v| == 6 && v[..5] in {"gzip-", "zstd-"} && '1' <= v[5] <= '9')
    || (|v| == 7 && v[..5] == "zstd-" && v[5] == '1' && Digit(v[6]))
  }

  /** `:` number and one of c, d, s, any number of times. */
  predicate DraidGroups(s: string)
    decreases |s|
  {
    s == "" || (s[0] == ':' &&
                var k := Digits(s[1..]);
                1 <= k && 1 + k < |s| && s[1 + k] in "cds" && DraidGroups(s[2 + k..]))
  }

  predicate Topology(name: string) {
    || name in {"mirror", "raidz", "raidz1", "raidz2", "raidz3", "log", "cache", "spare", "special", "dedup"}
    || (|name| >= 6 && name[..5] == "draid" && '1' <= name[5] <= '3' && DraidGroups(name[6..]))
  }

  /** The first `=`, as strings.Cut finds it. */
  function Cut(s: string): (r: Option<nat>)
    ensures r.Some? ==> r.value < |s| && s[r.value] == '=' && '=' !in s[..r.value]
    ensures r.None? ==> '=' !in s
  {
    if s == "" then None
    else if s[0] == '=' then Some(0)
    else
      match Cut(s[1..])
      case None => None
      case Some(i) => assert s[..i + 1] == [s[0]] + s[1..][..i]; Some(i + 1)
  }

  /** What becomes of one `-o` or `-O` with its argument. */
  datatype Verdict = Kept | Fixed | Refused

  function Property(flag: string, word: string): Verdict {
    match Cut(word)
    case None => Refused
    case Some(i) =>
      var key, value := word[..i], word[i + 1..];
      if value == "" then Refused
      else if (flag == "-o" && key == "cachefile") || (flag == "-O" && key == "mountpoint") then
        if value == "none" then Fixed else Refused
      else if flag == "-o" && key == "compatibility" then
        if value == "openzfs-2.3-linux" then Fixed else Refused
      else if flag == "-o" && key == "ashift" then
        if Atoi(value).Some? && 12 <= Atoi(value).value <= 16 then Kept else Refused
      else if (flag == "-o" && key == "autotrim") || (flag == "-O" && key == "atime") then
        if value == "on" || value == "off" then Kept else Refused
      else if flag == "-O" && key == "compression" then
        if Compression(value) then Kept else Refused
      else Refused
  }

  lemma {:induction false} CutAt(key: string, value: string)
    requires '=' !in key
    ensures Cut(key + "=" + value) == Some(|key|)
  {
    var word := key + "=" + value;
    if key != "" {
      assert word[1..] == key[1..] + "=" + value;
      assert word[0] == key[0] && key[0] in key;
      CutAt(key[1..], value);
    }
  }

  /** The properties an operator may set, and the three that must stay as they are. */
  lemma PropertyVerdicts(flag: string, key: string, value: string)
    requires '=' !in key
    ensures Property(flag, key + "=" + value) == Kept <==>
              || (flag == "-o" && key == "ashift" && Atoi(value).Some? && 12 <= Atoi(value).value <= 16)
              || ((flag, key) in {("-o", "autotrim"), ("-O", "atime")} && value in {"on", "off"})
              || (flag == "-O" && key == "compression" && Compression(value))
    ensures Property(flag, key + "=" + value) == Fixed <==>
              (flag, key, value) in {("-o", "cachefile", "none"), ("-o", "compatibility", "openzfs-2.3-linux"),
                                     ("-O", "mountpoint", "none")}
  {
    CutAt(key, value);
    var word := key + "=" + value;
    assert word[..|key|] == key && word[|key| + 1..] == value;
    assert Atoi("").None? && !Compression("");
  }

  datatype Flag = Argument | Force | Set | Unsupported

  function FlagOf(word: string): Flag {
    if !HasPrefix(word, "-") then Argument
    else if word == "-f" then Force
    else if word == "-o" || word == "-O" then Set
    else Unsupported
  }

  /** The options at the front of `ws`: those kept, and the words after them. */
  function Split(ws: seq<string>): (r: Option<(seq<string>, seq<string>)>)
    decreases |ws|
  {
    if ws == [] || FlagOf(ws[0]) == Argument then Some(([], ws))
    else if FlagOf(ws[0]) == Force then Split(ws[1..])
    else if FlagOf(ws[0]) == Unsupported || |ws| == 1 then None
    else
      match Property(ws[0], ws[1])
      case Refused => None
      case Fixed => Split(ws[2..])
      case Kept =>
        match Split(ws[2..])
        case None => None
        case Some(rest) => Some((ws[..2] + rest.0, rest.1))
  }

  /** The same over words that are all options. */
  function AllOptions(front: seq<string>): Option<seq<string>>
    decreases |front|
  {
    if front == [] then Some([])
    else if FlagOf(front[0]) == Force then AllOptions(front[1..])
    else if FlagOf(front[0]) != Set || |front| == 1 then None
    else
      match Property(front[0], front[1])
      case Refused => None
      case Fixed => AllOptions(front[2..])
      case Kept =>
        match AllOptions(front[2..])
        case None => None
        case Some(rest) => Some(front[..2] + rest)
  }

  /** Split finds the longest front of options ... */
  lemma {:induction false} SplitFront(ws: seq<string>) returns (front: seq<string>)
    requires Split(ws).Some?
    ensures ws == front + Split(ws).value.1 && AllOptions(front) == Some(Split(ws).value.0)
    decreases |ws|
  {
    hide Property, FlagOf;
    if ws == [] || FlagOf(ws[0]) == Argument {
      front := [];
    } else if FlagOf(ws[0]) == Force {
      var rest := SplitFront(ws[1..]);
      front := [ws[0]] + rest;
      assert front[1..] == rest;
    } else {
      var rest := SplitFront(ws[2..]);
      front := PrependTwo(ws[0], ws[1], rest, Split(ws[2..]).value.1, ws);
    }
  }

  lemma PrependTwo(flag: string, word: string, rest: seq<string>, tail: seq<string>,
                   ws: seq<string>) returns (front: seq<string>)
    requires |ws| >= 2 && ws[0] == flag && ws[1] == word && ws[2..] == rest + tail
    ensures front == [flag, word] + rest && front + tail == ws
    ensures front[0] == flag && front[1] == word && front[2..] == rest && front[..2] == ws[..2]
  {
    front := [flag, word] + rest;
    assert ws == ws[..2] + ws[2..];
  }

  /** ... and any front of options before a word that is none. */
  lemma {:induction false} FrontSplit(front: seq<string>, tail: seq<string>)
    requires AllOptions(front).Some? && (tail == [] || FlagOf(tail[0]) == Argument)
    ensures Split(front + tail) == Some((AllOptions(front).value, tail))
    decreases |front|
  {
    hide Property, FlagOf;
    var ws := front + tail;
    if front == [] {
      assert ws == tail;
    } else {
      assert ws[0] == front[0];
      if FlagOf(front[0]) == Force {
        assert ws[1..] == front[1..] + tail;
        FrontSplit(front[1..], tail);
      } else {
        assert ws[1] == front[1] && ws[2..] == front[2..] + tail && ws[..2] == front[..2];
        FrontSplit(front[2..], tail);
      }
    }
  }

  /** The options kept are options, and all of them are kept again. */
  lemma {:induction false} KeptAgain(front: seq<string>)
    requires AllOptions(front).Some?
    ensures AllOptions(AllOptions(front).value) == AllOptions(front)
    decreases |front|
  {
    hide Property, FlagOf;
    if front != [] {
      if FlagOf(front[0]) == Force {
        KeptAgain(front[1..]);
      } else {
        KeptAgain(front[2..]);
        if Property(front[0], front[1]) == Kept {
          var rest := AllOptions(front[2..]).value;
          assert (front[..2] + rest)[2..] == rest && (front[..2] + rest)[..2] == front[..2];
        }
      }
    }
  }

  lemma {:induction false} MoreOptions(front: seq<string>, more: seq<string>)
    requires AllOptions(front).Some? && AllOptions(more).Some?
    ensures AllOptions(front + more) == Some(AllOptions(front).value + AllOptions(more).value)
    decreases |front|
  {
    hide Property, FlagOf;
    var ws := front + more;
    if front == [] {
      assert ws == more && [] + AllOptions(more).value == AllOptions(more).value;
    } else {
      assert ws[0] == front[0];
      if FlagOf(front[0]) == Force {
        assert ws[1..] == front[1..] + more;
        MoreOptions(front[1..], more);
      } else {
        assert ws[1] == front[1] && ws[2..] == front[2..] + more && ws[..2] == front[..2];
        MoreOptions(front[2..], more);
        if Property(front[0], front[1]) == Kept {
          var a, b := AllOptions(front[2..]).value, AllOptions(more).value;
          assert front[..2] + (a + b) == front[..2] + a + b;
        }
      }
    }
  }

  /** An option word is neither the pool's name nor a path. */
  lemma {:induction false} OptionWords(front: seq<string>, i: nat)
    requires AllOptions(front).Some? && i < |front|
    ensures Plain(front[i])
    ensures i == 0 ==> FlagOf(front[i]) != Argument
    decreases |front|
  {
    hide Property;
    if i == 0 {
      assert Plain(front[0]);
    } else if FlagOf(front[0]) == Force {
      OptionWords(front[1..], i - 1);
    } else if i >= 2 {
      OptionWords(front[2..], i - 2);
    } else {
      PropertiesHaveValues(front[0], front[1]);
    }
  }

  predicate Plain(word: string) {
    word != "" && word[0] != '/' && word != "floatlab"
  }

  lemma PropertiesHaveValues(flag: string, word: string)
    ensures Property(flag, word) != Refused ==> Plain(word)
  {
    if Property(flag, word) != Refused {
      var i := Cut(word).value;
      var key := word[..i];
      assert word[i] == '=';
      assert key in {"cachefile", "mountpoint", "compatibility", "ashift", "autotrim", "atime", "compression"};
      assert key[0] == word[0];
    }
  }

  /** Kept words are among the words given. */
  lemma {:induction false} KeptWords(front: seq<string>)
    requires AllOptions(front).Some?
    ensures forall w | w in AllOptions(front).value :: w in front
    decreases |front|
  {
    hide Property, FlagOf;
    if front != [] {
      KeptWords(front[if FlagOf(front[0]) == Force then 1 else 2..]);
    }
  }
}
