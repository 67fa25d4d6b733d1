// The string operations of the standard library that several parts use.
module TextTools {

  predicate AsciiWhite(c: char) {
    c == ' ' || c == '\t' || c == '\n' || c == '\U{0C}' || c == '\r'
  }

  // char::is_whitespace
  predicate White(c: char) {
    || '\U{09}' <= c <= '\U{0D}' || c == ' ' || c == '\U{85}' || c == '\U{A0}' || c == '\U{1680}'
    || '\U{2000}' <= c <= '\U{200A}' || c == '\U{2028}' || c == '\U{2029}' || c == '\U{202F}' || c == '\U{205F}'
    || c == '\U{3000}'
  }

  function Trim(s: string): string
    decreases |s|
  {
    if s == [] then s
    else if White(s[0]) then Trim(s[1..])
    else if White(s[|s| - 1]) then Trim(s[..|s| - 1])
    else s
  }

  // trim().is_empty()
  predicate Blank(s: string) {
    forall i :: 0 <= i < |s| ==> White(s[i])
  }

  // to_ascii_uppercase
  function Upper(s: string): string {
    seq(|s|, i requires 0 <= i < |s| => if 'a' <= s[i] <= 'z' then (s[i] as int - 32) as char else s[i])
  }

  predicate Contains(s: string, pattern: string) {
    pattern <= s || (s != [] && Contains(s[1..], pattern))
  }

  // Visible ASCII is not white; a blank, a tab and the line ends are.
  lemma WhiteMeans(c: char)
    ensures '!' <= c <= '~' ==> !White(c) && !AsciiWhite(c)
    ensures c == ' ' || c == '\t' || c == '\n' || c == '\r' ==> White(c) && AsciiWhite(c)
    ensures AsciiWhite(c) ==> White(c)
  {
  }

  // What is trimmed is white, and no white end is left.
  lemma {:induction false} TrimMeans(s: string) returns (lead: string, tail: string)
    ensures s == lead + Trim(s) + tail && Blank(lead) && Blank(tail)
    ensures Trim(s) != [] ==> !White(Trim(s)[0]) && !White(Trim(s)[|Trim(s)| - 1])
    decreases |s|
  {
    lead, tail := [], [];
    TrimStep(s);
    hide Trim, White;
    if s == [] {
    } else if White(s[0]) {
      lead, tail := TrimMeans(s[1..]);
      assert s == [s[0]] + (lead + Trim(s) + tail) == [s[0]] + lead + Trim(s) + tail;
      lead := [s[0]] + lead;
    } else if White(s[|s| - 1]) {
      var n := |s| - 1;
      lead, tail := TrimMeans(s[..n]);
      assert s == lead + Trim(s) + tail + [s[n]] == lead + Trim(s) + (tail + [s[n]]);
      tail := tail + [s[n]];
    }
  }

  lemma TrimStep(s: string)
    ensures Trim(s) == if s == [] then s else if White(s[0]) then Trim(s[1..])
                       else if White(s[|s| - 1]) then Trim(s[..|s| - 1]) else s
  {
    hide White;
  }

  // Each letter becomes its capital, all else stays.
  lemma UpperMeans(s: string, i: nat)
    requires i < |s|
    ensures |Upper(s)| == |s|
    ensures 'a' <= s[i] <= 'z' ==> 'A' <= Upper(s)[i] <= 'Z' && Upper(s)[i] - 'A' == s[i] - 'a'
    ensures !('a' <= s[i] <= 'z') ==> Upper(s)[i] == s[i]
  {
  }

  predicate StandsAt(s: string, pattern: string, n: nat) {
    n + |pattern| <= |s| && s[n..n + |pattern|] == pattern
  }

  lemma StandsLater(s: string, pattern: string, n: nat)
    requires s != []
    ensures StandsAt(s[1..], pattern, n) <==> StandsAt(s, pattern, n + 1)
  {
    if n + 1 + |pattern| <= |s| {
      assert s[1..][n..n + |pattern|] == s[n + 1..n + 1 + |pattern|];
    }
  }

  lemma {:induction false} ContainsMeans(s: string, pattern: string)
    ensures Contains(s, pattern) <==> exists n: nat :: StandsAt(s, pattern, n)
  {
    if pattern <= s {
      assert StandsAt(s, pattern, 0);
    } else if s != [] {
      ContainsMeans(s[1..], pattern);
      assert !StandsAt(s, pattern, 0);
      hide StandsAt;
      if n: nat :| StandsAt(s[1..], pattern, n) {
        StandsLater(s, pattern, n);
      }
      if n: nat :| StandsAt(s, pattern, n) {
        StandsLater(s, pattern, n - 1);
      }
    }
  }
}
