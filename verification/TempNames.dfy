// Names of temporary files, .tmp_{host}_{pid}_{random}, and how cleanup reads
// them.
module TempNames {
  import opened Wrappers

  const TMP: string := ".tmp_"
  const RECENT := 3600
  const U32 := 0x1_0000_0000

  predicate Plain(c: char) {
    '0' <= c <= '9' || 'a' <= c <= 'z' || 'A' <= c <= 'Z' || c == '-'
  }

  function SanitizeHostname(s: string): (out: string)
    ensures |out| == |s| && forall i :: 0 <= i < |out| ==> Plain(out[i])
    ensures forall i :: 0 <= i < |out| ==>
              var c := s[i];
              if '0' <= c <= '9' || 'a' <= c <= 'z' || 'A' <= c <= 'Z' then out[i] == c else out[i] == '-'
  {
    seq(|s|, i requires 0 <= i < |s| => if Plain(s[i]) then s[i] else '-')
  }

  // From HOSTNAME, else from gethostname, else a constant.
  function HostId(variable: Option<string>, system: Option<string>): (id: string)
    ensures id != [] && forall i :: 0 <= i < |id| ==> Plain(id[i])
    ensures variable.Some? && variable.value != "" ==> id == SanitizeHostname(variable.value)
    ensures (variable.None? || variable.value == "") && system.Some? && system.value != "" ==>
              id == SanitizeHostname(system.value)
  {
    if variable.Some? && SanitizeHostname(variable.value) != [] then SanitizeHostname(variable.value)
    else if system.Some? && SanitizeHostname(system.value) != [] then SanitizeHostname(system.value)
    else "host"
  }

  function Digit(n: nat): char
    requires n < 10
  {
    ('0' as int + n) as char
  }

  function Decimal(n: nat): (s: string)
    ensures s != [] && forall i :: 0 <= i < |s| ==> '0' <= s[i] <= '9'
  {
    if n < 10 then [Digit(n)] else Decimal(n / 10) + [Digit(n % 10)]
  }

  function Digits(s: string): Option<nat> {
    if s == [] then Some(0)
    else
      var c, front := s[|s| - 1], Digits(s[..|s| - 1]);
      if front.None? || !('0' <= c <= '9') then None else Some(front.value * 10 + (c as int - '0' as int))
  }

  // str::parse::<u32>
  function ParseU32(s: string): Option<nat> {
    var digits := if s != [] && s[0] == '+' then Digits(s[1..]) else Digits(s);
    if s == [] || s == "+" || digits.None? || digits.value >= U32 then None else digits
  }

  lemma {:induction false} DigitsOfDecimal(n: nat)
    ensures Digits(Decimal(n)) == Some(n)
  {
    if n >= 10 {
      DigitsOfDecimal(n / 10);
      var s := Decimal(n);
      assert s[..|s| - 1] == Decimal(n / 10);
    } else {
      assert Decimal(n)[..0] == [];
    }
  }

  lemma PidParses(pid: nat)
    ensures ParseU32(Decimal(pid)) == if pid < 4294967296 then Some(pid) else None
  {
    DigitsOfDecimal(pid);
    assert '0' <= Decimal(pid)[0] <= '9';
  }

  function TmpName(host: string, pid: nat, random: nat): string {
    TMP + (host + "_" + (Decimal(pid) + "_" + Decimal(random)))
  }

  predicate IsTemp(name: string) {
    TMP <= name
  }

  // trim_start_matches: as often as the prefix is there.
  function TrimTmp(s: string): string
    decreases |s|
  {
    if TMP <= s then TrimTmp(s[5..]) else s
  }

  // split('_')
  function SplitName(s: string): (parts: seq<string>)
    ensures parts != []
  {
    if s == [] then [""]
    else if s[0] == '_' then [""] + SplitName(s[1..])
    else var rest := SplitName(s[1..]); [[s[0]] + rest[0]] + rest[1..]
  }

  predicate NoBar(s: string) {
    forall i :: 0 <= i < |s| ==> s[i] != '_'
  }

  lemma {:induction false} SplitAtBar(a: string, rest: string)
    requires NoBar(a)
    ensures SplitName(a + "_" + rest) == [a] + SplitName(rest)
  {
    var s := a + "_" + rest;
    if a == [] {
      assert s == "_" + rest && s[1..] == rest;
    } else {
      SplitAtBar(a[1..], rest);
      assert s[1..] == a[1..] + "_" + rest;
      assert [a[0]] + a[1..] == a;
    }
  }

  lemma {:induction false} SplitWhole(a: string)
    requires NoBar(a)
    ensures SplitName(a) == [a]
  {
    if a == [] {
    } else {
      SplitWhole(a[1..]);
      assert [a[0]] + a[1..] == a;
    }
  }

  // A sanitised host has no underscore and does not look like another prefix,
  // so the name splits back into exactly its three parts.
  lemma NameSplits(host: string, pid: nat, random: nat)
    requires host != [] && forall i :: 0 <= i < |host| ==> Plain(host[i])
    ensures IsTemp(TmpName(host, pid, random))
    ensures SplitName(TrimTmp(TmpName(host, pid, random))) == [host, Decimal(pid), Decimal(random)]
  {
    var tail := Decimal(pid) + "_" + Decimal(random);
    var inner := host + "_" + tail;
    var name := TMP + inner;
    assert name[..5] == TMP && name[5..] == inner;
    assert inner[0] == host[0] != '.';
    assert TrimTmp(name) == TrimTmp(inner) == inner;
    hide TrimTmp, SplitName, Decimal;
    SplitAtBar(host, tail);
    SplitAtBar(Decimal(pid), Decimal(random));
    SplitWhole(Decimal(random));
  }

  // Hosts, process ids and random numbers can be read off the name.
  lemma NamesDiffer(host: string, pid: nat, random: nat, host2: string, pid2: nat, random2: nat)
    requires host != [] && forall i :: 0 <= i < |host| ==> Plain(host[i])
    requires host2 != [] && forall i :: 0 <= i < |host2| ==> Plain(host2[i])
    requires TmpName(host, pid, random) == TmpName(host2, pid2, random2)
    ensures host == host2 && pid == pid2 && random == random2
  {
    NameSplits(host, pid, random);
    NameSplits(host2, pid2, random2);
    DigitsOfDecimal(pid);
    DigitsOfDecimal(pid2);
    DigitsOfDecimal(random);
    DigitsOfDecimal(random2);
    var parts := [host, Decimal(pid), Decimal(random)];
    assert parts[0] == host2 && parts[1] == Decimal(pid2) && parts[2] == Decimal(random2);
  }

  // Whether cleanup spares a temporary file: `host` and the live processes are
  // those of the machine that cleans up. A file from the future of its clock
  // has no age and is not spared.
  predicate InFlight(name: string, age: int, host: string, alive: set<nat>) {
    var parts := SplitName(TrimTmp(name));
    && 0 <= age < RECENT
    && if |parts| >= 3 then
         parts[0] != host || (ParseU32(parts[1]).Some? && ParseU32(parts[1]).value in alive)
       else ParseU32(parts[0]).Some? && ParseU32(parts[0]).value in alive
  }

  // A recent file is spared exactly if it carries another host's id or the pid
  // of a live process of the cleaning machine.
  lemma SparedExactly(host: string, pid: nat, random: nat, age: int, cleaner: string, alive: set<nat>)
    requires host != [] && (forall i :: 0 <= i < |host| ==> Plain(host[i])) && pid < U32
    ensures InFlight(TmpName(host, pid, random), age, cleaner, alive) <==>
              0 <= age < RECENT && (host != cleaner || pid in alive)
  {
    NameSplits(host, pid, random);
    PidParses(pid);
  }

  // .tmp_, host, pid and random number in decimal digits, and an hour's grace.
  lemma TmpNameReads(host: string, d: nat)
    requires d < 10
    ensures TmpName(host, 90, d) == ".tmp_" + host + "_90_" + ["0123456789"[d]]
    ensures RECENT == 60 * 60 && U32 == 4294967296
  {
    assert Decimal(9) == "9";
    assert Decimal(90) == "9" + "0";
    assert Decimal(d) == ["0123456789"[d]];
  }

  // A name without a host, .tmp_{pid}_{random}, is spared for a live pid alone; a
  // name without numbers never is.
  lemma OldNamesSpared(pid: nat, random: nat, word: string, age: int, cleaner: string, alive: set<nat>)
    requires pid < U32 && word != "" && NoBar(word) && word[0] != '.' && !('0' <= word[|word| - 1] <= '9')
    ensures InFlight(".tmp_" + (Decimal(pid) + "_" + Decimal(random)), age, cleaner, alive) <==>
              0 <= age < 3600 && pid in alive
    ensures !InFlight(".tmp_" + word, age, cleaner, alive)
  {
    PidParses(pid);
    OneTrimmed(Decimal(pid) + "_" + Decimal(random));
    OneTrimmed(word);
    hide TrimTmp, Decimal, SplitName;
    SplitAtBar(Decimal(pid), Decimal(random));
    SplitWhole(Decimal(random));
    SplitWhole(word);
  }

  lemma OneTrimmed(s: string)
    requires s != "" && s[0] != '.'
    ensures TrimTmp(".tmp_" + s) == s
  {
    assert (".tmp_" + s)[..5] == ".tmp_" && (".tmp_" + s)[5..] == s;
    assert TrimTmp(".tmp_" + s) == TrimTmp(s) == s;
  }
}
