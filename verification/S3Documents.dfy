// Reading a listing response back gives the texts that were put in.
module S3Documents {
  import opened TextTools
  import opened Wrappers
  import opened S3Xml

  predicate Escaping(chosen: set<char>) {
    {'&', '<'} <= chosen <= SPECIAL
  }

  lemma {:induction false} EscapeFree(chosen: set<char>, s: string)
    requires Escaping(chosen)
    ensures Free(Escape(chosen, s), '<')
  {
    if s == [] {
    } else {
      EscapeFree(chosen, s[1..]);
      assert Free(EscapeChar(chosen, s[0]), '<');
    }
  }

  lemma FindHere(s: string, pattern: string)
    requires pattern <= s
    ensures Find(s, pattern) == Some(0)
  {
  }

  lemma FindMiss(c: char, s: string, pattern: string)
    requires !(pattern <= [c] + s)
    ensures Find([c] + s, pattern) == if Find(s, pattern).None? then None else Some(Find(s, pattern).value + 1)
  {
  }

  lemma {:induction false} FindAfter(a: string, s: string, pattern: string)
    requires pattern != "" && Free(a, pattern[0])
    ensures Find(a + s, pattern) == if Find(s, pattern).None? then None else Some(|a| + Find(s, pattern).value)
  {
    hide Find;
    if a == [] {
      assert a + s == s;
    } else {
      FindAfter(a[1..], s, pattern);
      assert a + s == [a[0]] + (a[1..] + s);
      assert ([a[0]] + (a[1..] + s))[0] == a[0];
      FindMiss(a[0], a[1..] + s, pattern);
    }
  }

  ghost function Resumed(s: string, tag: string): seq<string> {
    var scan := AfterOpen(s, tag);
    Texts(scan) + if scan.rest.None? then [] else Extracted(scan.rest.value, tag)
  }

  lemma Unfold(cursor: string, tag: string)
    ensures var start := Find(cursor, "<" + tag);
            Extracted(cursor, tag) == if start.None? then [] else Resumed(cursor[start.value + |tag| + 1..], tag)
  {
    hide AfterOpen, Find, Texts, Extracted;
    if Find(cursor, "<" + tag).None? {
      NothingFound([], cursor, tag);
      assert [] + Extracted(cursor, tag) == Extracted(cursor, tag);
    } else {
      ExtractedStep([], cursor, tag);
      assert [] + Extracted(cursor, tag) == Extracted(cursor, tag);
    }
  }

  // The same position seen from a later start.
  lemma ShiftedStart(cursor: string, s: string, tag: string, k: nat)
    requires k <= |cursor| && cursor[k..] == s
    requires Find(cursor, "<" + tag) == if Find(s, "<" + tag).None? then None else Some(k + Find(s, "<" + tag).value)
    ensures Extracted(cursor, tag) == Extracted(s, tag)
  {
    hide Extracted, Resumed, Find;
    Unfold(cursor, tag);
    Unfold(s, tag);
    var found := Find(s, "<" + tag);
    if found.Some? {
      LaterSlice(cursor, k, found.value + |tag| + 1);
    }
  }

  lemma LaterSlice(cursor: string, k: nat, at: nat)
    requires k + at <= |cursor|
    ensures cursor[k..][at..] == cursor[k + at..]
  {
  }

  lemma SkipText(a: string, s: string, tag: string)
    requires Free(a, '<')
    ensures Extracted(a + s, tag) == Extracted(s, tag)
  {
    hide Extracted, Find;
    FindAfter(a, s, "<" + tag);
    assert (a + s)[|a|..] == s;
    ShiftedStart(a + s, s, tag, |a|);
  }

  lemma SkipBracket(s: string, tag: string)
    requires !("<" + tag <= "<" + s)
    ensures Extracted("<" + s, tag) == Extracted(s, tag)
  {
    hide Extracted, Find;
    FindMiss('<', s, "<" + tag);
    assert ("<" + s)[1..] == s;
    ShiftedStart("<" + s, s, tag, 1);
  }

  lemma AtOpening(tag: string, s: string)
    ensures var scan := AfterOpen(s, tag);
            Extracted("<" + tag + s, tag)
            == Texts(scan) + if scan.rest.None? then [] else Extracted(scan.rest.value, tag)
  {
  }

  // The tag of an element of another name is passed over.
  lemma OtherTag(name: string, after: string, s: string, tag: string)
    requires IsName(name) && IsName(tag) && name != tag && Free(after, '<') && after != []
    requires after[0] == '>' || after[0] == '/' || AsciiWhite(after[0])
    ensures Extracted("<" + name + after + s, tag) == Extracted(s, tag)
  {
    hide Extracted, AfterOpen;
    var inner := name + after;
    assert "<" + name + after + s == "<" + (inner + s);
    assert Free(inner, '<');
    SkipText(inner, s, tag);
    if "<" + tag <= "<" + (inner + s) {
      PrefixOfName(name, after, s, tag);
      var more := name[|tag|..] + after;
      assert "<" + (inner + s) == "<" + tag + (more + s);
      AtOpening(tag, more + s);
      SkipText(more, s, tag);
      NoElementHere(more + s, tag);
    } else {
      SkipBracket(inner + s, tag);
    }
  }

  lemma NoElementHere(s: string, tag: string)
    requires s != [] && s[0] != '>' && s[0] != '/' && !AsciiWhite(s[0])
    ensures AfterOpen(s, tag) == Scan(None, Some(s))
  {
  }

  lemma PrefixOfName(name: string, after: string, s: string, tag: string)
    requires IsName(name) && IsName(tag) && name != tag && after != []
    requires after[0] == '>' || after[0] == '/' || AsciiWhite(after[0])
    requires "<" + tag <= "<" + (name + after + s)
    ensures |tag| < |name| && name[..|tag|] == tag
  {
    var text := name + after + s;
    assert tag == ("<" + tag)[1..] && text == ("<" + text)[1..];
    assert tag == text[..|tag|];
    assert forall i :: 0 <= i < |tag| ==> text[i] == tag[i];
    assert text[|name|] == after[0];
    assert text[..|name|] == name;
  }

  // An end tag is passed over.
  lemma EndTag(name: string, s: string, tag: string)
    requires IsName(name) && IsName(tag)
    ensures Extracted("</" + name + ">" + s, tag) == Extracted(s, tag)
  {
    hide Extracted;
    var inner := "/" + name + ">";
    assert "</" + name + ">" + s == "<" + (inner + s);
    assert ("<" + (inner + s))[1] == '/' && ("<" + tag)[1] == tag[0];
    SkipBracket(inner + s, tag);
    SkipText(inner, s, tag);
  }

  lemma CloseFound(body: string, s: string, tag: string)
    requires Free(body, '<')
    ensures Find(body + ("</" + tag + ">" + s), "</" + tag) == Some(|body|)
    ensures Find(">" + s, ">") == Some(0)
  {
    var tail := "</" + tag + ">" + s;
    assert "</" + tag <= tail;
    FindHere(tail, "</" + tag);
    FindAfter(body, tail, "</" + tag);
    FindHere(">" + s, ">");
  }

  lemma ContentRead(chosen: set<char>, text: string, s: string, tag: string)
    requires Escaping(chosen)
    ensures Content(Escape(chosen, text) + ("</" + tag + ">" + s), tag) == Scan(Some(text), Some(s))
  {
    hide UnescapeXml, Escape, Find, Free;
    var body := Escape(chosen, text);
    EscapeFree(chosen, text);
    CloseFound(body, s, tag);
    UnescapeUndoes(chosen, text);
    AroundClose(body, s, tag);
  }

  lemma AroundClose(body: string, s: string, tag: string)
    ensures var input := body + ("</" + tag + ">" + s);
            && |body| + |tag| + 2 <= |input|
            && input[..|body|] == body
            && input[|body| + |tag| + 2..] == ">" + s
            && (">" + s)[1..] == s
  {
  }

  lemma TagEnds(attributes: string, body: string, tag: string)
    requires AreAttributes(attributes)
    ensures AfterOpen(attributes + ">" + body, tag) == Content(body, tag)
  {
    hide Content, EndsWithSlash;
    var input := attributes + ">" + body;
    if attributes == [] {
      assert input == ">" + body && input[1..] == body;
    } else {
      assert input == attributes + (">" + body);
      assert input[0] == attributes[0];
      FindHere(">" + body, ">");
      FindAfter(attributes, ">" + body, ">");
      hide Find;
      assert input[..|attributes|] == attributes && input[|attributes| + 1..] == body;
    }
  }

  lemma EmptyTagEnds(attributes: string, s: string, tag: string)
    requires AreAttributes(attributes)
    ensures AfterOpen(attributes + "/>" + s, tag) == Scan(Some(""), Some(s))
  {
    hide Content;
    var input := attributes + "/>" + s;
    if attributes == [] {
      assert input == "/>" + s && input[2..] == s && input[0] == '/' && input[..2] == "/>";
    } else {
      var front := attributes + "/";
      assert input == front + (">" + s);
      assert input[0] == attributes[0];
      FindHere(">" + s, ">");
      FindAfter(front, ">" + s, ">");
      hide Find;
      assert input[..|front|] == front && input[|front| + 1..] == s;
      assert front[|front| - 1] == '/';
    }
  }

  lemma LeafRead(chosen: set<char>, name: string, attributes: string, text: string, s: string, tag: string)
    requires Escaping(chosen) && IsName(tag) && IsName(name) && AreAttributes(attributes)
    ensures Extracted("<" + name + attributes + ">" + Escape(chosen, text) + "</" + name + ">" + s, tag)
            == (if name == tag then [text] else []) + Extracted(s, tag)
  {
    hide Extracted, AfterOpen, Escape, IsName, EndsWithSlash, UnescapeXml, Content;
    var body := Escape(chosen, text);
    var tail := "</" + name + ">" + s;
    var input := "<" + name + attributes + ">" + body + "</" + name + ">" + s;
    if name == tag {
      assert input == "<" + tag + (attributes + ">" + (body + tail));
      AtOpening(tag, attributes + ">" + (body + tail));
      TagEnds(attributes, body + tail, tag);
      ContentRead(chosen, text, s, tag);
    } else {
      assert input == "<" + name + (attributes + ">") + (body + tail);
      TagText(attributes, ">");
      OtherTag(name, attributes + ">", body + tail, tag);
      EscapeFree(chosen, text);
      SkipText(body, tail, tag);
      EndTag(name, s, tag);
    }
  }

  lemma TagText(attributes: string, end: string)
    requires AreAttributes(attributes) && (end == ">" || end == "/>")
    ensures var after := attributes + end;
            after != [] && Free(after, '<') && (after[0] == '>' || after[0] == '/' || AsciiWhite(after[0]))
  {
  }

  lemma EmptyRead(name: string, attributes: string, s: string, tag: string)
    requires IsName(tag) && IsName(name) && AreAttributes(attributes)
    ensures Extracted("<" + name + attributes + "/>" + s, tag) == (if name == tag then [""] else []) + Extracted(s, tag)
  {
    hide Extracted, AfterOpen, IsName, EndsWithSlash;
    var input := "<" + name + attributes + "/>" + s;
    if name == tag {
      assert input == "<" + tag + (attributes + "/>" + s);
      AtOpening(tag, attributes + "/>" + s);
      EmptyTagEnds(attributes, s, tag);
    } else {
      assert input == "<" + name + (attributes + "/>") + s;
      TagText(attributes, "/>");
      OtherTag(name, attributes + "/>", s, tag);
    }
  }

  lemma StartRead(name: string, attributes: string, s: string, tag: string)
    requires IsName(tag) && IsName(name) && AreAttributes(attributes) && name != tag
    ensures Extracted("<" + name + attributes + ">" + s, tag) == Extracted(s, tag)
  {
    hide Extracted, IsName;
    assert "<" + name + attributes + ">" + s == "<" + name + (attributes + ">") + s;
    TagText(attributes, ">");
    OtherTag(name, attributes + ">", s, tag);
  }

  lemma ItemRead(chosen: set<char>, item: Item, s: string, tag: string)
    requires Escaping(chosen) && IsName(tag) && WellFormed(item, tag)
    ensures Extracted(PrintItem(chosen, item) + s, tag) == TextsOf([item], tag) + Extracted(s, tag)
  {
    hide Extracted, Escape, IsName, AreAttributes;
    assert [item][1..] == [];
    match item {
      case Leaf(name, attributes, text) => LeafRead(chosen, name, attributes, text, s, tag);
      case Empty(name, attributes) => EmptyRead(name, attributes, s, tag);
      case Start(name, attributes) => StartRead(name, attributes, s, tag);
      case End(name) => EndTag(name, s, tag);
      case Loose(text) =>
        EscapeFree(chosen, text);
        SkipText(Escape(chosen, text), s, tag);
    }
  }

  // From a document as servers print it, whatever else it holds, exactly the
  // texts of the elements of the wanted name come out, in order and unescaped.
  lemma {:induction false} DocumentReadsBack(chosen: set<char>, items: seq<Item>, tag: string)
    requires Escaping(chosen) && IsName(tag)
    requires forall i :: 0 <= i < |items| ==> WellFormed(items[i], tag)
    ensures Extracted(PrintAll(chosen, items), tag) == TextsOf(items, tag)
  {
    hide PrintItem, WellFormed;
    if items == [] {
    } else {
      ItemRead(chosen, items[0], PrintAll(chosen, items[1..]), tag);
      DocumentReadsBack(chosen, items[1..], tag);
      TextsSplit(items, tag);
    }
  }

  lemma TextsSplit(items: seq<Item>, tag: string)
    requires items != []
    ensures TextsOf(items, tag) == TextsOf([items[0]], tag) + TextsOf(items[1..], tag)
  {
  }
}
