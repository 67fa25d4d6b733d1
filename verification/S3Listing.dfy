// Listing an S3 prefix: keys under the repository prefix, page after page.
module S3Listing {
  import opened Wrappers
  import opened Names
  import Paths
  import opened TextTools
  import opened S3Xml
  import opened S3Documents

  // trim_start_matches('/')
  function TrimSlashes(s: string): string {
    if s != [] && s[0] == '/' then TrimSlashes(s[1..]) else s
  }

  function FullKey(prefix: string, path: string): string {
    if prefix == [] then TrimSlashes(path) else prefix + "/" + TrimSlashes(path)
  }

  function CleanKey(prefix: string, key: string): string {
    if prefix != [] && prefix <= key then TrimSlashes(key[|prefix|..]) else key
  }

  lemma {:induction false} TrimmedOnce(s: string)
    ensures TrimSlashes(TrimSlashes(s)) == TrimSlashes(s)
  {
    if s != [] && s[0] == '/' {
      TrimmedOnce(s[1..]);
    }
  }

  // Stripping the repository prefix undoes full_key.
  lemma CleanUndoesFull(prefix: string, path: string)
    ensures CleanKey(prefix, FullKey(prefix, path)) == TrimSlashes(path)
  {
  }

  // What S3 matches on full keys is the match on relative ones.
  lemma PrefixesAgree(prefix: string, dir: string, path: string)
    ensures FullKey(prefix, dir) <= FullKey(prefix, path) <==> TrimSlashes(dir) <= TrimSlashes(path)
  {
    if prefix != [] {
      var a, b := TrimSlashes(dir), TrimSlashes(path);
      var head := prefix + "/";
      assert FullKey(prefix, dir) == head + a && FullKey(prefix, path) == head + b;
      if head + a <= head + b {
        assert a == (head + a)[|head|..] && b == (head + b)[|head|..];
        assert head + a == (head + b)[..|head + a|];
        assert a == b[..|a|];
      }
    }
  }

  // ------------------------------------------------------------------- pages

  // One response: some document whose elements of these three names say which
  // keys it lists and whether, and from which token, the listing goes on.
  datatype Page = Page(chosen: set<char>, items: seq<Item>, keys: seq<string>, next: Option<string>) {
    ghost predicate Valid() {
      && Escaping(chosen)
      && (forall i :: 0 <= i < |items| ==> WellFormed(items[i], "Key") && WellFormed(items[i], "IsTruncated")
                                           && WellFormed(items[i], "NextContinuationToken"))
      && TextsOf(items, "Key") == keys
      && TextsOf(items, "IsTruncated") == [if next.None? then "false" else "true"]
      && TextsOf(items, "NextContinuationToken") == (if next.None? then [] else [next.value])
      && (next.Some? ==> !Blank(next.value))
    }

    function Body(): string {
      PrintAll(chosen, items)
    }
  }

  predicate SaysTrue(s: string) {
    Upper(Trim(s)) == "TRUE"
  }

  // The listing service: by search prefix and token; None is a failed request.
  type Service = (string, Option<string>) -> Option<string>

  ghost predicate Answers(service: Service, search: string, token: Option<string>, page: Page) {
    service(search, token).Some? ==> service(search, token).value == page.Body()
  }

  ghost predicate Serves(service: Service, search: string, pages: seq<Page>) {
    && pages != []
    && (forall i :: 0 <= i < |pages| ==> pages[i].Valid() && (pages[i].next.None? <==> i == |pages| - 1))
    && Answers(service, search, None, pages[0])
    && (forall i :: 1 <= i < |pages| ==> Answers(service, search, pages[i - 1].next, pages[i]))
  }

  function CleanKeys(prefix: string, keys: seq<string>): seq<string> {
    seq(|keys|, i requires 0 <= i < |keys| => CleanKey(prefix, keys[i]))
  }

  ghost function AllKeys(pages: seq<Page>): seq<string> {
    if pages == [] then [] else AllKeys(pages[..|pages| - 1]) + pages[|pages| - 1].keys
  }

  lemma TagNames()
    ensures IsName("Key") && IsName("IsTruncated") && IsName("NextContinuationToken")
  {
  }

  // What a page says.
  lemma PageRead(page: Page)
    requires page.Valid()
    ensures Extracted(page.Body(), "Key") == page.keys
    ensures Extracted(page.Body(), "IsTruncated") == [if page.next.None? then "false" else "true"]
    ensures Extracted(page.Body(), "NextContinuationToken") == if page.next.None? then [] else [page.next.value]
  {
    hide WellFormed, Extracted, PrintAll, IsName, TextsOf, Escaping, Blank;
    TagNames();
    DocumentReadsBack(page.chosen, page.items, "Key");
    DocumentReadsBack(page.chosen, page.items, "IsTruncated");
    DocumentReadsBack(page.chosen, page.items, "NextContinuationToken");
  }

  lemma Said()
    ensures SaysTrue("true") && !SaysTrue("false")
  {
  }

  // Every page is asked for; the keys of all of them come back relative to the
  // repository prefix, sorted.
  method ListObjects(prefix: string, path: string, service: Service, ghost pages: seq<Page>)
    returns (r: Option<seq<string>>)
    requires Serves(service, FullKey(prefix, path), pages)
    ensures r.Some? ==> r.value == SortedStrings(CleanKeys(prefix, AllKeys(pages)))
    ensures (forall token :: service(FullKey(prefix, path), token).Some?) ==> r.Some?
  {
    hide Extracted, SaysTrue, FullKey, CleanKey, SortedStrings, Serves, CleanKeys, AllKeys, Blank, Page.Valid;
    var search := FullKey(prefix, path);
    var results: seq<string> := [];
    var token: Option<string> := None;
    ghost var n := 0;
    FirstPage(prefix, service, search, pages);
    while true
      invariant n < |pages| && results == CleanKeys(prefix, AllKeys(pages[..n]))
      invariant Answers(service, search, token, pages[n])
      decreases |pages| - n
    {
      var reply := service(search, token);
      if reply.None? {
        return None;
      }
      var body := reply.value;
      PageServed(service, search, pages, n);
      PageRead(pages[n]);
      OnePageMore(prefix, pages, n);
      var keys := ExtractXmlTags(body, "Key");
      var cleaned := CleanAll(prefix, keys);
      results := results + cleaned;
      var flags := ExtractXmlTags(body, "IsTruncated");
      Said();
      if flags != [] && !SaysTrue(flags[0]) {
        break;
      }
      var tokens := ExtractXmlTags(body, "NextContinuationToken");
      if tokens != [] && !Blank(tokens[0]) {
        token := Some(tokens[0]);
        n := n + 1;
      } else {
        break;
      }
    }
    assert pages[..|pages|] == pages;
    return Some(SortedStrings(results));
  }

  lemma FirstPage(prefix: string, service: Service, search: string, pages: seq<Page>)
    requires Serves(service, search, pages)
    ensures pages != [] && Answers(service, search, None, pages[0])
    ensures pages[..0] == [] && CleanKeys(prefix, AllKeys([])) == []
  {
  }

  lemma PageServed(service: Service, search: string, pages: seq<Page>, n: nat)
    requires Serves(service, search, pages) && n < |pages|
    ensures pages[n].Valid() && (pages[n].next.None? <==> n == |pages| - 1)
    ensures n + 1 < |pages| ==> Answers(service, search, pages[n].next, pages[n + 1])
    ensures pages[n].next.Some? ==> !Blank(pages[n].next.value)
  {
  }

  lemma OnePageMore(prefix: string, pages: seq<Page>, n: nat)
    requires n < |pages|
    ensures CleanKeys(prefix, AllKeys(pages[..n + 1]))
            == CleanKeys(prefix, AllKeys(pages[..n])) + CleanKeys(prefix, pages[n].keys)
  {
    hide CleanKey;
    assert pages[..n + 1][..n] == pages[..n];
  }

  method CleanAll(prefix: string, keys: seq<string>) returns (cleaned: seq<string>)
    ensures cleaned == CleanKeys(prefix, keys)
  {
    cleaned := [];
    for i := 0 to |keys|
      invariant cleaned == CleanKeys(prefix, keys[..i])
    {
      cleaned := cleaned + [CleanKey(prefix, keys[i])];
    }
    assert keys[..|keys|] == keys;
  }

  // ---------------------------------------------------------- what is listed

  predicate Once(keys: seq<string>) {
    forall i, j :: 0 <= i < j < |keys| ==> keys[i] != keys[j]
  }

  predicate Relative(path: string) {
    path == [] || path[0] != '/'
  }

  // However the matching keys of the bucket are split into pages, the listing
  // is exactly the relative paths that begin with the wanted one, in order and
  // each once.
  lemma ListsExactly(prefix: string, dir: string, bucket: set<string>, keys: seq<string>)
    requires forall i, j :: 0 <= i < j < |keys| ==> keys[i] != keys[j]
    requires forall key :: key in keys <==> key in bucket && FullKey(prefix, dir) <= key
    requires forall key :: key in keys ==>
               exists path :: (path == "" || path[0] != '/') && key == FullKey(prefix, path)
    ensures var listed := SortedStrings(CleanKeys(prefix, keys));
            && Ascending(listed)
            && (forall path :: path == "" || path[0] != '/' ==>
                  multiset(listed)[path] ==
                    if FullKey(prefix, path) in bucket && TrimSlashes(dir) <= path then 1 else 0)
            && (forall path :: path in listed ==> Relative(path))
  {
    hide SortedStrings, FullKey, CleanKey;
    var cleaned := CleanKeys(prefix, keys);
    StringsAscend(cleaned);
    forall i | 0 <= i < |keys| ensures Relative(cleaned[i]) && keys[i] == FullKey(prefix, cleaned[i]) {
      assert keys[i] in keys;
      var path :| (path == "" || path[0] != '/') && keys[i] == FullKey(prefix, path);
      CleanUndoesFull(prefix, path);
    }
    forall i, j | 0 <= i < j < |cleaned| ensures cleaned[i] != cleaned[j] {
      assert keys[i] != keys[j];
    }
    forall path | Relative(path)
      ensures multiset(cleaned)[path] == if FullKey(prefix, path) in bucket && TrimSlashes(dir) <= path then 1 else 0
    {
      PrefixesAgree(prefix, dir, path);
      CleanUndoesFull(prefix, path);
      CountOnce(cleaned, path);
      if FullKey(prefix, path) in keys {
        var i :| 0 <= i < |keys| && keys[i] == FullKey(prefix, path);
        assert cleaned[i] == path;
      }
      if path in cleaned {
        var i :| 0 <= i < |cleaned| && cleaned[i] == path;
        assert keys[i] in keys;
      }
    }
    forall path | path in SortedStrings(cleaned) ensures Relative(path) {
      assert path in multiset(SortedStrings(cleaned));
      assert path in multiset(cleaned);
      var i :| 0 <= i < |cleaned| && cleaned[i] == path;
    }
  }

  lemma {:induction false} CountOnce(list: seq<string>, s: string)
    requires Once(list)
    ensures multiset(list)[s] == if s in list then 1 else 0
  {
    if list == [] {
    } else {
      var n := |list| - 1;
      assert list == list[..n] + [list[n]];
      CountOnce(list[..n], s);
    }
  }

  // S3 matches a bare prefix and not a directory. Among the keys the repository
  // itself writes the two are the same; a stray key such as "blobs-old/x" is listed too.
  lemma OwnKeysListedAlike(dir: string, key: string)
    requires dir == "locks" || dir == "blobs" || dir == "snapshots"
    requires key == "config" || "locks/" <= key || "blobs/" <= key || "snapshots/" <= key
    ensures dir <= key <==> Paths.Under(dir, key)
  {
    if dir <= key {
      assert key[0] == dir[0];
      assert Paths.Under("locks", key) ==> key[0] == ("locks" + "/")[0];
      assert Paths.Under("blobs", key) ==> key[0] == ("blobs" + "/")[0];
      assert Paths.Under("snapshots", key) ==> key[0] == ("snapshots" + "/")[0];
    }
    if Paths.Under(dir, key) {
      assert key[..|dir|] == (dir + "/")[..|dir|] == dir;
    }
  }

  // The prefix and one slash go in front, and leading slashes go.
  lemma KeysRead(prefix: string, path: string)
    requires path != "" && path[0] != '/'
    ensures FullKey("", path) == FullKey("", "//" + path) == path
    ensures prefix != "" ==> FullKey(prefix, path) == FullKey(prefix, "//" + path) == prefix + "/" + path
    ensures prefix != "" ==> CleanKey(prefix, prefix + "/" + path) == path && CleanKey(prefix, prefix) == ""
    ensures CleanKey("", path) == path && (!(prefix <= path) ==> CleanKey(prefix, path) == path)
  {
    assert ("//" + path)[1..] == "/" + path && ("/" + path)[1..] == path;
    assert TrimSlashes(path) == path && TrimSlashes("/" + path) == path && TrimSlashes("//" + path) == path;
    assert (prefix + "/" + path)[|prefix|..] == "/" + path;
  }

  // true in any letters, between any white space, goes on.
  lemma TruthRead(s: string) returns (lead: string, word: string, tail: string)
    requires SaysTrue(s)
    ensures s == lead + word + tail && Blank(lead) && Blank(tail) && |word| == 4
    ensures word[0] in "tT" && word[1] in "rR" && word[2] in "uU" && word[3] in "eE"
  {
    lead, tail := TrimMeans(s);
    word := Trim(s);
    assert |Upper(word)| == 4;
    UpperMeans(word, 0);
    UpperMeans(word, 1);
    UpperMeans(word, 2);
    UpperMeans(word, 3);
  }

  // Any keys can be served, in any number, by a service as it is taken to be.
  lemma OnePageServed(keys: seq<string>, search: string) returns (service: Service, page: Page)
    ensures page.keys == keys && Serves(service, search, [page])
  {
    page := OnePage(keys);
    hide Page.Valid, Page.Body;
    var body := page.Body();
    service := (s, t) => Some(body);
    assert Answers(service, search, None, page);
  }

  lemma OnePage(keys: seq<string>) returns (page: Page)
    ensures page.Valid() && page.keys == keys && page.next.None?
  {
    hide WellFormed, KeyItems, TextsOf;
    var flag := Leaf("IsTruncated", "", "false");
    page := Page(SPECIAL, [flag] + KeyItems(keys), keys, None);
    KeysPrinted(keys);
    FirstText(flag, KeyItems(keys), "Key");
    FirstText(flag, KeyItems(keys), "IsTruncated");
    FirstText(flag, KeyItems(keys), "NextContinuationToken");
    PlainReadable("IsTruncated", "false");
    KeysReadable(keys);
    assert [] + keys == keys && ["false"] + [] == ["false"];
  }

  lemma PlainReadable(name: string, text: string)
    requires name == "Key" || name == "IsTruncated"
    ensures forall tag :: WellFormed(Leaf(name, "", text), tag)
  {
    ReadableItems(name, "", text);
  }

  lemma KeysReadable(keys: seq<string>)
    ensures forall i, tag :: 0 <= i < |KeyItems(keys)| ==> WellFormed(KeyItems(keys)[i], tag)
  {
    forall i, tag | 0 <= i < |KeyItems(keys)| ensures WellFormed(KeyItems(keys)[i], tag) {
      PlainReadable("Key", keys[i]);
    }
  }

  lemma FirstText(leaf: Item, rest: seq<Item>, tag: string)
    requires leaf.Leaf?
    ensures TextsOf([leaf] + rest, tag) == (if leaf.name == tag then [leaf.text] else []) + TextsOf(rest, tag)
  {
    assert ([leaf] + rest)[1..] == rest;
  }

  function KeyItems(keys: seq<string>): seq<Item> {
    seq(|keys|, i requires 0 <= i < |keys| => Leaf("Key", "", keys[i]))
  }

  lemma {:induction false} KeysPrinted(keys: seq<string>)
    ensures TextsOf(KeyItems(keys), "Key") == keys && TextsOf(KeyItems(keys), "IsTruncated") == []
    ensures TextsOf(KeyItems(keys), "NextContinuationToken") == []
  {
    if keys == [] {
    } else {
      KeysPrinted(keys[1..]);
      assert KeyItems(keys)[1..] == KeyItems(keys[1..]);
      assert keys == [keys[0]] + keys[1..];
    }
  }
}
