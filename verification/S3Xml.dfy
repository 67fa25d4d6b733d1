// The S3 client's XML reading: entities, and the text of the elements of one
// name in a listing response.
module S3Xml {
  import opened Codecs
  import opened TextTools
  import opened Wrappers

  // ---------------------------------------------------------------- entities

  // str::replace: leftmost, not overlapping.
  function Replace(s: string, from: string, to: string): string
    requires from != ""
  {
    if |s| < |from| then s
    else if from <= s then to + Replace(s[|from|..], from, to)
    else [s[0]] + Replace(s[1..], from, to)
  }

  function UnescapeXml(s: string): string {
    Replace(Replace(Replace(Replace(Replace(s, "&quot;", "\""), "&apos;", "'"), "&lt;", "<"),
            "&gt;", ">"), "&amp;", "&")
  }

  const SPECIAL: set<char> := {'&', '<', '>', '\"', '\''}

  // The predefined entities (section 4.6 of XML 1.0).
  function Entity(c: char): string {
    if c == '\"' then "&quot;"
    else if c == '\'' then "&apos;"
    else if c == '<' then "&lt;"
    else if c == '>' then "&gt;"
    else "&amp;"
  }

  // Text as a server writes it, which chooses the characters it escapes.
  function Escape(chosen: set<char>, s: string): string {
    if s == [] then [] else EscapeChar(chosen, s[0]) + Escape(chosen, s[1..])
  }

  function EscapeChar(chosen: set<char>, c: char): string {
    if c in chosen then Entity(c) else [c]
  }

  lemma ReplaceMiss(c: char, rest: string, from: string, to: string)
    requires from != "" && !(from <= [c] + rest)
    ensures Replace([c] + rest, from, to) == [c] + Replace(rest, from, to)
  {
  }

  lemma {:induction false} ReplaceSkips(front: string, rest: string, from: string, to: string)
    requires from != "" && forall i :: 0 <= i < |front| ==> front[i] != from[0]
    ensures Replace(front + rest, from, to) == front + Replace(rest, from, to)
  {
    hide Replace;
    if front == [] {
      assert front + rest == rest;
    } else {
      var tail := front[1..];
      assert front == [front[0]] + tail;
      assert front + rest == [front[0]] + (tail + rest);
      ReplaceSkips(tail, rest, from, to);
      assert ([front[0]] + (tail + rest))[0] != from[0];
      ReplaceMiss(front[0], tail + rest, from, to);
    }
  }

  lemma ReplaceFront(front: string, rest: string, from: string, to: string)
    requires from != "" && front != [] && !(from <= front + rest)
    requires forall i :: 1 <= i < |front| ==> front[i] != from[0]
    ensures Replace(front + rest, from, to) == front + Replace(rest, from, to)
  {
    hide Replace;
    var tail := front[1..];
    assert front == [front[0]] + tail;
    assert front + rest == [front[0]] + (tail + rest);
    ReplaceSkips(tail, rest, from, to);
    ReplaceMiss(front[0], tail + rest, from, to);
  }

  lemma EntityShape(c: char)
    requires c in SPECIAL
    ensures |Entity(c)| >= 4 && Entity(c)[0] == '&' && forall i :: 1 <= i < |Entity(c)| ==> Entity(c)[i] != '&'
  {
  }

  // No entity is the beginning of another.
  lemma EntitiesApart(c: char, d: char, rest: string)
    requires c in SPECIAL && d in SPECIAL && c != d
    ensures !(Entity(c) <= Entity(d) + rest)
  {
    var s := Entity(d) + rest;
    assert s[1] == Entity(d)[1] && s[2] == Entity(d)[2] && s[3] == Entity(d)[3];
  }

  // Replacing one entity undoes the escaping of one character, as long as the
  // ampersand itself is still escaped.
  lemma {:induction false} ReplaceOne(chosen: set<char>, c: char, s: string)
    requires chosen <= SPECIAL && c in SPECIAL && '&' in chosen
    ensures Replace(Escape(chosen, s), Entity(c), [c]) == Escape(chosen - {c}, s)
    decreases |s|
  {
    hide Entity;
    EntityShape(c);
    if s == [] {
    } else {
      var text, rest := Escape(chosen, s), Escape(chosen, s[1..]);
      var front := EscapeChar(chosen, s[0]);
      ReplaceOne(chosen, c, s[1..]);
      if s[0] == c && c in chosen {
        assert text[|front|..] == rest && Entity(c) <= text;
      } else if s[0] in chosen {
        EntityShape(s[0]);
        EntitiesApart(c, s[0], rest);
        ReplaceFront(front, rest, Entity(c), [c]);
      } else {
        ReplaceSkips(front, rest, Entity(c), [c]);
      }
    }
  }

  lemma {:induction false} EscapeNothing(s: string)
    ensures Escape({}, s) == s
  {
    if s == [] {
    } else {
      EscapeNothing(s[1..]);
    }
  }

  // The ordered replacements, the ampersand last, undo any such escaping.
  lemma UnescapeUndoes(chosen: set<char>, s: string)
    requires '&' in chosen && chosen <= SPECIAL
    ensures UnescapeXml(Escape(chosen, s)) == s
  {
    hide Replace, Escape;
    var a := chosen - {'\"'};
    var b := a - {'\''};
    var c := b - {'<'};
    var d := c - {'>'};
    ReplaceOne(chosen, '\"', s);
    ReplaceOne(a, '\'', s);
    ReplaceOne(b, '<', s);
    ReplaceOne(c, '>', s);
    ReplaceOne(d, '&', s);
    assert d - {'&'} == {};
    EscapeNothing(s);
  }

  // ---------------------------------------------------------------- elements

  function Find(s: string, pattern: string): (r: Option<nat>)
    ensures r.Some? ==> r.value + |pattern| <= |s| && pattern <= s[r.value..]
  {
    if |s| < |pattern| then None
    else if pattern <= s then Some(0)
    else if s == [] then None
    else
      var r := Find(s[1..], pattern);
      if r.None? then None else Some(r.value + 1)
  }

  // s.trim_end().ends_with('/')
  predicate EndsWithSlash(s: string) {
    s != [] && (s[|s| - 1] == '/' || (White(s[|s| - 1]) && EndsWithSlash(s[..|s| - 1])))
  }

  // What one occurrence of the opening pattern yields: a text, if any, and
  // where to go on, unless the loop ends.
  datatype Scan = Scan(text: Option<string>, rest: Option<string>)

  // From after the '>' of an opening tag.
  function Content(s: string, tag: string): Scan {
    var close := Find(s, "</" + tag);
    if close.None? then Scan(None, None)
    else
      var after := s[close.value + |tag| + 2..];
      var end := Find(after, ">");
      Scan(Some(UnescapeXml(s[..close.value])), if end.None? then None else Some(after[end.value + 1..]))
  }

  // From after "<tag".
  function AfterOpen(s: string, tag: string): (r: Scan)
    ensures r.rest.Some? ==> |r.rest.value| <= |s|
  {
    if ">" <= s then Content(s[1..], tag)
    else if "/" <= s then
      if "/>" <= s then Scan(Some(""), Some(s[2..])) else Scan(None, Some(s))
    else if s != [] && AsciiWhite(s[0]) then
      var end := Find(s, ">");
      if end.None? then Scan(None, None)
      else if EndsWithSlash(s[..end.value]) then Scan(Some(""), Some(s[end.value + 1..]))
      else Content(s[end.value + 1..], tag)
    else Scan(None, Some(s))
  }

  function Texts(scan: Scan): seq<string> {
    if scan.text.Some? then [scan.text.value] else []
  }

  function Extracted(cursor: string, tag: string): seq<string>
    decreases |cursor|
  {
    var start := Find(cursor, "<" + tag);
    if start.None? then []
    else
      var scan := AfterOpen(cursor[start.value + |tag| + 1..], tag);
      Texts(scan) + if scan.rest.None? then [] else Extracted(scan.rest.value, tag)
  }

  method ExtractXmlTags(xml: string, tag: string) returns (results: seq<string>)
    ensures results == Extracted(xml, tag)
  {
    hide AfterOpen, Extracted, Find;
    results := [];
    var cursor := xml;
    while true
      invariant results + Extracted(cursor, tag) == Extracted(xml, tag)
      decreases |cursor|
    {
      var start := Find(cursor, "<" + tag);
      if start.None? {
        NothingFound(results, cursor, tag);
        break;
      }
      var afterStart := cursor[start.value + |tag| + 1..];
      var text, rest := Element(afterStart, tag);
      ExtractedStep(results, cursor, tag);
      if text.Some? {
        results := results + [text.value];
      }
      if rest.None? {
        break;
      }
      cursor := rest.value;
    }
  }

  lemma NothingFound(results: seq<string>, cursor: string, tag: string)
    requires Find(cursor, "<" + tag).None?
    ensures results + Extracted(cursor, tag) == results
  {
  }

  lemma ExtractedStep(results: seq<string>, cursor: string, tag: string)
    requires Find(cursor, "<" + tag).Some?
    ensures var scan := AfterOpen(cursor[Find(cursor, "<" + tag).value + |tag| + 1..], tag);
            results + Extracted(cursor, tag)
            == results + Texts(scan) + if scan.rest.None? then [] else Extracted(scan.rest.value, tag)
  {
    hide AfterOpen, Find, Texts;
    var scan := AfterOpen(cursor[Find(cursor, "<" + tag).value + |tag| + 1..], tag);
    var more := if scan.rest.None? then [] else Extracted(scan.rest.value, tag);
    Regroup(results, Texts(scan), more);
    assert Extracted(cursor, tag) == Texts(scan) + more;
  }

  method Element(afterStart: string, tag: string) returns (text: Option<string>, rest: Option<string>)
    ensures Scan(text, rest) == AfterOpen(afterStart, tag)
  {
    if afterStart != [] && afterStart[0] == '>' {
      text, rest := ReadContent(afterStart[1..], tag);
    } else if afterStart != [] && afterStart[0] == '/' {
      if "/>" <= afterStart {
        text, rest := Some(""), Some(afterStart[2..]);
      } else {
        text, rest := None, Some(afterStart);
      }
    } else if afterStart != [] && AsciiWhite(afterStart[0]) {
      var openEnd := Find(afterStart, ">");
      if openEnd.None? {
        text, rest := None, None;
      } else if EndsWithSlash(afterStart[..openEnd.value]) {
        text, rest := Some(""), Some(afterStart[openEnd.value + 1..]);
      } else {
        text, rest := ReadContent(afterStart[openEnd.value + 1..], tag);
      }
    } else {
      text, rest := None, Some(afterStart);
    }
  }

  method ReadContent(s: string, tag: string) returns (text: Option<string>, rest: Option<string>)
    ensures Scan(text, rest) == Content(s, tag)
  {
    hide Find, UnescapeXml;
    var closePos := Find(s, "</" + tag);
    if closePos.None? {
      return None, None;
    }
    text, rest := Some(UnescapeXml(s[..closePos.value])), None;
    var afterClose := s[closePos.value + |tag| + 2..];
    var endAngle := Find(afterClose, ">");
    if endAngle.Some? {
      rest := Some(afterClose[endAngle.value + 1..]);
    }
  }

  // --------------------------------------------------------------- documents

  // A document as a server prints it: text elements, empty elements, the tags
  // of elements that hold others (and the XML declaration), and loose text.
  datatype Item =
    | Leaf(name: string, attributes: string, text: string)
    | Empty(name: string, attributes: string)
    | Start(name: string, attributes: string)
    | End(name: string)
    | Loose(text: string)

  predicate Free(s: string, c: char) {
    forall i :: 0 <= i < |s| ==> s[i] != c
  }

  predicate IsName(name: string) {
    name != [] && forall i :: 0 <= i < |name| ==>
      name[i] != '<' && name[i] != '>' && name[i] != '/' && !AsciiWhite(name[i])
  }

  predicate AreAttributes(attributes: string) {
    && Free(attributes, '<') && Free(attributes, '>') && !EndsWithSlash(attributes)
    && (attributes != [] ==> AsciiWhite(attributes[0]))
  }

  predicate WellFormed(item: Item, tag: string) {
    match item
    case Leaf(name, attributes, _) => IsName(name) && AreAttributes(attributes)
    case Empty(name, attributes) => IsName(name) && AreAttributes(attributes)
    case Start(name, attributes) => IsName(name) && AreAttributes(attributes) && name != tag
    case End(name) => IsName(name)
    case Loose(_) => true
  }

  function PrintItem(chosen: set<char>, item: Item): string {
    match item
    case Leaf(name, attributes, text) => "<" + name + attributes + ">" + Escape(chosen, text) + "</" + name + ">"
    case Empty(name, attributes) => "<" + name + attributes + "/>"
    case Start(name, attributes) => "<" + name + attributes + ">"
    case End(name) => "</" + name + ">"
    case Loose(text) => Escape(chosen, text)
  }

  function PrintAll(chosen: set<char>, items: seq<Item>): string {
    if items == [] then [] else PrintItem(chosen, items[0]) + PrintAll(chosen, items[1..])
  }

  // The texts of the elements of this name, in order.
  function TextsOf(items: seq<Item>, tag: string): seq<string> {
    if items == [] then []
    else
      (match items[0]
       case Leaf(name, _, text) => if name == tag then [text] else []
       case Empty(name, _) => if name == tag then [""] else []
       case _ => [])
      + TextsOf(items[1..], tag)
  }

  // The five entities, each by itself.
  lemma EntitiesRead()
    ensures UnescapeXml("&quot;") == "\"" && UnescapeXml("&apos;") == "'" && UnescapeXml("&lt;") == "<"
    ensures UnescapeXml("&gt;") == ">" && UnescapeXml("&amp;") == "&"
  {
    EscapedAlone('\"', "&quot;");
    EscapedAlone('\'', "&apos;");
    EscapedAlone('<', "&lt;");
    EscapedAlone('>', "&gt;");
    EscapedAlone('&', "&amp;");
  }

  lemma EscapedAlone(c: char, entity: string)
    requires c in SPECIAL && entity == Entity(c)
    ensures UnescapeXml(entity) == [c]
  {
    hide UnescapeXml, Entity;
    assert [c][1..] == [];
    assert Escape(SPECIAL, [c]) == entity + [] == entity;
    UnescapeUndoes(SPECIAL, [c]);
  }

  // A tag closes itself if its last character that is not white is a slash.
  lemma {:induction false} SlashMeans(s: string, tail: string)
    requires Blank(tail)
    ensures EndsWithSlash(s + "/" + tail)
    ensures s == "" || (s[|s| - 1] != '/' && !White(s[|s| - 1])) ==> !EndsWithSlash(s + tail)
  {
    if tail == "" {
      assert s + tail == s;
    } else {
      var n := |tail| - 1;
      SlashMeans(s, tail[..n]);
      assert (s + "/" + tail)[..|s| + 1 + n] == s + "/" + tail[..n];
      assert (s + tail)[..|s| + n] == s + tail[..n];
    }
  }

  // The elements that can be read: any name without brackets, slashes and white
  // space, and attributes, if any, after white space, without brackets and
  // without a slash at their end.
  lemma ReadableItems(name: string, attributes: string, text: string)
    requires name != "" && forall i :: 0 <= i < |name| ==>
               name[i] != '<' && name[i] != '>' && name[i] != '/' && !AsciiWhite(name[i])
    requires forall i :: 0 <= i < |attributes| ==> attributes[i] != '<' && attributes[i] != '>'
    requires attributes != "" ==>
               attributes[0] == ' ' && attributes[|attributes| - 1] != '/' && !White(attributes[|attributes| - 1])
    ensures forall tag ::
              && WellFormed(Leaf(name, attributes, text), tag) && WellFormed(Empty(name, attributes), tag)
              && (tag != name ==> WellFormed(Start(name, attributes), tag)) && WellFormed(End(name), tag)
              && WellFormed(Loose(text), tag)
  {
    SlashMeans(attributes, "");
    assert attributes + "" == attributes;
  }
}
