// The order of Rust's strings: lexicographic by scalar value.
module Names {

  predicate AtMost(a: string, b: string)
    decreases |a|
  {
    a == [] || (b != [] && (a[0] < b[0] || (a[0] == b[0] && AtMost(a[1..], b[1..]))))
  }

  // At the first difference the lower character comes first, and a beginning
  // comes before what it begins.
  predicate ComesBefore(a: string, b: string, n: nat) {
    && n <= |a| && n <= |b| && a[..n] == b[..n]
    && (n == |a| || (n < |b| && a[n] < b[n]))
  }

  lemma {:induction false} AtMostMeans(a: string, b: string)
    ensures AtMost(a, b) <==> exists n: nat :: ComesBefore(a, b, n)
    decreases |a|
  {
    if a == [] {
      assert ComesBefore(a, b, 0);
    } else if b != [] && a[0] == b[0] {
      AtMostMeans(a[1..], b[1..]);
      if n: nat :| ComesBefore(a[1..], b[1..], n) {
        assert a[..n + 1] == [a[0]] + a[1..][..n] && b[..n + 1] == [b[0]] + b[1..][..n];
        assert ComesBefore(a, b, n + 1);
      }
      if n: nat :| ComesBefore(a, b, n) {
        assert n > 0 && a[1..][..n - 1] == a[..n][1..] && b[1..][..n - 1] == b[..n][1..];
        assert ComesBefore(a[1..], b[1..], n - 1);
      }
    } else if b != [] {
      if a[0] < b[0] {
        assert ComesBefore(a, b, 0);
      }
      if n: nat :| ComesBefore(a, b, n) {
        assert n > 0 ==> a[..n][0] == b[..n][0];
      }
    }
  }

  lemma {:induction false} AtMostTotal(a: string, b: string)
    ensures AtMost(a, b) || AtMost(b, a)
    ensures AtMost(a, b) && AtMost(b, a) ==> a == b
    decreases |a|
  {
    if a != [] && b != [] && a[0] == b[0] {
      AtMostTotal(a[1..], b[1..]);
      assert a == [a[0]] + a[1..] && b == [b[0]] + b[1..];
    }
  }

  lemma {:induction false} AtMostTransitive(a: string, b: string, c: string)
    requires AtMost(a, b) && AtMost(b, c)
    ensures AtMost(a, c)
    decreases |a|
  {
    if a != [] && a[0] == b[0] && b[0] == c[0] {
      AtMostTransitive(a[1..], b[1..], c[1..]);
    }
  }

  // Pairs, as tuples compare.
  predicate PairAtMost(a: (string, string), b: (string, string)) {
    if a.0 == b.0 then AtMost(a.1, b.1) else AtMost(a.0, b.0)
  }

  lemma PairTotal(a: (string, string), b: (string, string))
    ensures PairAtMost(a, b) || PairAtMost(b, a)
    ensures PairAtMost(a, b) && PairAtMost(b, a) ==> a == b
  {
    AtMostTotal(a.0, b.0);
    AtMostTotal(a.1, b.1);
  }

  lemma PairTransitive(a: (string, string), b: (string, string), c: (string, string))
    requires PairAtMost(a, b) && PairAtMost(b, c)
    ensures PairAtMost(a, c)
  {
    if a.0 == b.0 && b.0 == c.0 {
      AtMostTransitive(a.1, b.1, c.1);
    } else if a.0 != b.0 && b.0 != c.0 {
      AtMostTransitive(a.0, b.0, c.0);
      if a.0 == c.0 {
        AtMostTotal(a.0, b.0);
      }
    }
  }

  // Vec<String>::sort
  function SortedStrings(list: seq<string>): (out: seq<string>)
    ensures multiset(out) == multiset(list)
  {
    if list == [] then []
    else
      assert list == [list[0]] + list[1..];
      InsertedString(list[0], SortedStrings(list[1..]))
  }

  function InsertedString(s: string, sorted: seq<string>): (out: seq<string>)
    ensures multiset(out) == multiset(sorted) + multiset{s}
  {
    if sorted == [] || AtMost(s, sorted[0]) then [s] + sorted
    else
      assert sorted == [sorted[0]] + sorted[1..];
      [sorted[0]] + InsertedString(s, sorted[1..])
  }

  predicate Ascending(list: seq<string>) {
    forall i, j :: 0 <= i < j < |list| ==> AtMost(list[i], list[j])
  }

  lemma {:induction false} InsertedAscends(s: string, sorted: seq<string>)
    requires Ascending(sorted)
    ensures Ascending(InsertedString(s, sorted))
  {
    if sorted == [] {
    } else if AtMost(s, sorted[0]) {
      forall j | 0 < j < |sorted| ensures AtMost(s, sorted[j]) {
        AtMostTransitive(s, sorted[0], sorted[j]);
      }
    } else {
      AtMostTotal(s, sorted[0]);
      InsertedAscends(s, sorted[1..]);
      var rest := InsertedString(s, sorted[1..]);
      forall j | 0 <= j < |rest| ensures AtMost(sorted[0], rest[j]) {
        assert rest[j] in multiset(rest);
        if rest[j] != s {
          assert rest[j] in multiset(sorted[1..]);
          var k :| 0 <= k < |sorted[1..]| && sorted[1..][k] == rest[j];
          assert sorted[k + 1] == rest[j];
        }
      }
    }
  }

  lemma {:induction false} StringsAscend(list: seq<string>)
    ensures Ascending(SortedStrings(list))
  {
    if list == [] {
    } else {
      StringsAscend(list[1..]);
      InsertedAscends(list[0], SortedStrings(list[1..]));
    }
  }

  // Of any two, the one that comes before the other stands first.
  lemma SortedReads(list: seq<string>, i: nat, j: nat)
    requires i < j < |SortedStrings(list)|
    ensures exists n: nat :: ComesBefore(SortedStrings(list)[i], SortedStrings(list)[j], n)
  {
    StringsAscend(list);
    AtMostMeans(SortedStrings(list)[i], SortedStrings(list)[j]);
  }
}
