/** The release changelog: parsing the unreleased body, folding in fragments, rendering, releasing. */
module Changelog {
  import opened Text
  import opened DatedLog
  import opened Options

  const CATEGORIES: seq<string> :=
    ["added", "changed", "deprecated", "removed", "fixed", "security", "performance", "documentation"]

  // ------------------------------------------------------------------------------------------------
  // Names of categories

  function LowerChar(c: char): char {
    if 'A' <= c <= 'Z' then c + 32 as char else c
  }

  function UpperChar(c: char): char {
    if 'a' <= c <= 'z' then c - 32 as char else c
  }

  function Lower(s: string): (r: string)
    ensures |r| == |s| && forall i :: 0 <= i < |s| ==> r[i] == LowerChar(s[i])
  {
    seq(|s|, i requires 0 <= i < |s| => LowerChar(s[i]))
  }

  /** `str.capitalize` */
  function Capitalize(s: string): string {
    if s == [] then [] else [UpperChar(s[0])] + Lower(s[1..])
  }

  predicate IsHeading(line: string) {
    "### " <= line
  }

  function NameOf(line: string): string
    requires IsHeading(line)
  {
    Lower(StripSpace(line[4..]))
  }

  predicate AllSpace(s: string) {
    forall c :: c in s ==> IsSpace(c)
  }

  /** What a heading line can name: lower case, on one line, no white space at its ends. */
  predicate ProperName(name: string) {
    && OneLine(name) && Lower(name) == name
    && (name != [] ==> !IsSpace(name[0]) && !IsSpace(name[|name|-1]))
  }

  lemma {:induction false} TrimSpaceIsPrefix(s: string)
    ensures TrimSpace(s) <= s
    ensures TrimSpace(s) != [] ==> !IsSpace(TrimSpace(s)[|TrimSpace(s)|-1])
  {
    if s != [] && IsSpace(s[|s|-1]) {
      TrimSpaceIsPrefix(s[..|s|-1]);
    }
  }

  lemma {:induction false} TrimSpaceLeftIsSuffix(s: string) returns (k: nat)
    ensures k <= |s| && TrimSpaceLeft(s) == s[k..] && AllSpace(s[..k])
    ensures k < |s| ==> !IsSpace(s[k])
  {
    k := 0;
    if s != [] && IsSpace(s[0]) {
      var j := TrimSpaceLeftIsSuffix(s[1..]);
      k := j + 1;
      assert s[..k] == [s[0]] + s[1..][..j];
    }
  }

  lemma NamesAreProper(line: string)
    requires IsHeading(line) && OneLine(line)
    ensures ProperName(NameOf(line))
  {
    hide TrimSpace, TrimSpaceLeft;
    var s := line[4..];
    TrimSpaceIsPrefix(s);
    var t := TrimSpace(s);
    var k := TrimSpaceLeftIsSuffix(t);
    var u := t[k..];
    var name := Lower(u);
    forall c | c in name ensures !IsBreak(c) {
      var i :| 0 <= i < |name| && name[i] == c;
      assert u[i] == t[k + i] == s[k + i] == line[4 + (k + i)] && u[i] in line;
    }
  }

  lemma CapitalizedIsName(name: string)
    requires ProperName(name)
    ensures var c := Capitalize(name); |c| == |name| && OneLine(c) && Lower(c) == name && TrimSpace(c) == c && TrimSpaceLeft(c) == c
  {
    var c := Capitalize(name);
    forall i | 0 <= i < |name| ensures LowerChar(c[i]) == name[i] && !IsBreak(c[i]) {
      assert LowerChar(name[i]) == Lower(name)[i] == name[i] && name[i] in name;
      if i > 0 {
        assert c[i] == Lower(name[1..])[i - 1] == LowerChar(name[i]);
      }
    }
    assert Lower(c) == name;
  }

  /** Rendering a category's heading and reading it back gives the category. */
  lemma HeadingNames(name: string)
    requires ProperName(name)
    ensures var h := "### " + Capitalize(name);
            IsHeading(h) && OneLine(h) && NameOf(h) == name
  {
    hide Capitalize, IsBreak, TrimSpace, TrimSpaceLeft, Lower;
    CapitalizedIsName(name);
    var c := Capitalize(name);
    var h := "### " + c;
    assert h[4..] == c;
    Mark();
  }

  lemma Mark()
    ensures OneLine("### ")
  {
  }

  // ------------------------------------------------------------------------------------------------
  // Parsing

  predicate IsBlank(line: string) {
    StripSpace(line) == []
  }

  datatype Block = Block(name: string, lines: seq<string>)

  /** The lines before the first heading, and each heading with the lines below it. */
  datatype Outline = Outline(before: seq<string>, blocks: seq<Block>)

  function Open(lines: seq<string>): Outline {
    if lines == [] then Outline([], [])
    else
      var rest := Open(lines[1..]);
      if IsHeading(lines[0]) then Outline([], [Block(NameOf(lines[0]), rest.before)] + rest.blocks)
      else Outline([lines[0]] + rest.before, rest.blocks)
  }

  /** One key of the dictionary, with its list of entries; keys stand in insertion order. */
  datatype Category = Category(name: string, entries: seq<string>)

  function Entries(categories: seq<Category>, name: string): seq<string> {
    if categories == [] then []
    else if categories[0].name == name then categories[0].entries
    else Entries(categories[1..], name)
  }

  /** `setdefault(name, []).extend(entries)` */
  function Extend(categories: seq<Category>, name: string, entries: seq<string>): seq<Category> {
    if categories == [] then [Category(name, entries)]
    else if categories[0].name == name then [Category(name, categories[0].entries + entries)] + categories[1..]
    else [categories[0]] + Extend(categories[1..], name, entries)
  }

  function Flush(categories: seq<Category>, block: Block): seq<Category> {
    var text := StripNewlines(Join(block.lines));
    if text == [] then categories else Extend(categories, block.name, [text])
  }

  function Collect(blocks: seq<Block>, categories: seq<Category>): seq<Category> {
    if blocks == [] then categories else Collect(blocks[1..], Flush(categories, blocks[0]))
  }

  function Written(lines: seq<string>): seq<string> {
    if lines == [] then []
    else if IsBlank(lines[0]) then Written(lines[1..])
    else [lines[0]] + Written(lines[1..])
  }

  datatype Parsed = Sections(categories: seq<Category>) | Stray(line: string)

  function ParseLines(lines: seq<string>): Parsed {
    var stray := Written(Open(lines).before);
    if stray == [] then Sections(Collect(Open(lines).blocks, [])) else Stray(stray[0])
  }

  function Parse(body: string): Parsed {
    ParseLines(SplitLines(body))
  }

  /** What is left to do once `current` has been opened with `buffer` below it. */
  function Resume(current: Option<string>, buffer: seq<string>, rest: Outline): seq<Block> {
    if current.None? then rest.blocks else [Block(current.value, buffer + rest.before)] + rest.blocks
  }

  lemma ResumeStep(current: Option<string>, buffer: seq<string>, lines: seq<string>)
    requires lines != []
    ensures IsHeading(lines[0]) && current.None? ==>
              Resume(current, buffer, Open(lines)) == Resume(Some(NameOf(lines[0])), [], Open(lines[1..]))
    ensures IsHeading(lines[0]) && current.Some? ==>
              Resume(current, buffer, Open(lines)) ==
              [Block(current.value, buffer)] + Resume(Some(NameOf(lines[0])), [], Open(lines[1..]))
    ensures !IsHeading(lines[0]) ==>
              Resume(current, buffer, Open(lines)) == Resume(current, buffer + [lines[0]], Open(lines[1..]))
  {
    hide NameOf;
    var rest := Open(lines[1..]);
    assert [] + rest.before == rest.before && buffer + [] == buffer;
    assert buffer + ([lines[0]] + rest.before) == buffer + [lines[0]] + rest.before;
  }

  lemma {:induction false} WrittenConcat(a: seq<string>, b: seq<string>)
    ensures Written(a + b) == Written(a) + Written(b)
  {
    hide IsBlank;
    if a == [] {
      assert a + b == b;
    } else {
      WrittenConcat(a[1..], b);
      assert (a + b)[1..] == a[1..] + b && (a + b)[0] == a[0];
      if !IsBlank(a[0]) {
        Assoc([a[0]], Written(a[1..]), Written(b));
      }
    }
  }

  lemma CollectFirst(block: Block, blocks: seq<Block>, categories: seq<Category>)
    ensures Collect([block] + blocks, categories) == Collect(blocks, Flush(categories, block))
  {
    assert ([block] + blocks)[1..] == blocks;
  }

  method ParseSections(body: string) returns (parsed: Parsed)
    ensures parsed == Parse(body)
  {
    hide Open, Written, Collect, Flush, NameOf, IsBlank, SplitLines, Resume, Join, StripNewlines;
    var lines := SplitLines(body);
    var categories: seq<Category> := [];
    var current: Option<string> := None;
    var buffer: seq<string> := [];
    var stray: seq<string> := [];
    NothingOpened(lines);
    for i := 0 to |lines|
      invariant Collect(Resume(current, buffer, Open(lines[i..])), categories) == Collect(Open(lines).blocks, [])
      invariant Written(Open(lines).before) == stray + if current.None? then Written(Open(lines[i..]).before) else []
    {
      var line := lines[i];
      assert lines[i..][0] == line && lines[i..][1..] == lines[i + 1..];
      ResumeStep(current, buffer, lines[i..]);
      OpenStep(lines[i..]);
      if IsHeading(line) {
        if current.Some? {
          CollectFirst(Block(current.value, buffer), Resume(Some(NameOf(line)), [], Open(lines[i + 1..])), categories);
          var text := StripNewlines(Join(buffer));
          FlushIs(categories, Block(current.value, buffer));
          if text != [] {
            categories := Extend(categories, current.value, [text]);
          }
        }
        buffer := [];
        current := Some(NameOf(line));
        continue;
      }
      if current.None? {
        ResumeNothing(buffer, buffer + [line], Open(lines[i + 1..]));
        if StripSpace(line) != [] {
          stray := stray + [line];
        }
        continue;
      }
      buffer := buffer + [line];
    }
    NothingLeft(lines[|lines|..], current, buffer);
    if current.Some? {
      CollectFirst(Block(current.value, buffer), [], categories);
      CollectNone(Flush(categories, Block(current.value, buffer)));
      FlushIs(categories, Block(current.value, buffer));
      var text := StripNewlines(Join(buffer));
      if text != [] {
        categories := Extend(categories, current.value, [text]);
      }
    } else {
      CollectNone(categories);
    }
    parsed := if stray != [] then Stray(stray[0]) else Sections(categories);
  }

  lemma NothingOpened(lines: seq<string>)
    ensures Resume(None, [], Open(lines)) == Open(lines).blocks && lines[0..] == lines
  {
  }

  lemma ResumeNothing(buffer: seq<string>, longer: seq<string>, rest: Outline)
    ensures Resume(None, buffer, rest) == Resume(None, longer, rest)
  {
  }

  lemma OpenStep(lines: seq<string>)
    requires lines != []
    ensures IsHeading(lines[0]) ==> Open(lines).before == [] && Written(Open(lines).before) == []
    ensures !IsHeading(lines[0]) ==>
              Written(Open(lines).before) == (if IsBlank(lines[0]) then [] else [lines[0]]) + Written(Open(lines[1..]).before)
    ensures IsBlank(lines[0]) <==> StripSpace(lines[0]) == []
  {
    hide NameOf, StripSpace;
    assert !IsHeading(lines[0]) ==> Open(lines).before[1..] == Open(lines[1..]).before;
  }

  lemma NothingLeft(lines: seq<string>, current: Option<string>, buffer: seq<string>)
    requires lines == []
    ensures Written(Open(lines).before) == []
    ensures Resume(current, buffer, Open(lines)) == if current.None? then [] else [Block(current.value, buffer)] + []
  {
    assert buffer + [] == buffer;
  }

  lemma CollectNone(categories: seq<Category>)
    ensures Collect([], categories) == categories
  {
  }

  lemma FlushIs(categories: seq<Category>, block: Block)
    ensures var text := StripNewlines(Join(block.lines));
            Flush(categories, block) == if text == [] then categories else Extend(categories, block.name, [text])
  {
  }

  // ------------------------------------------------------------------------------------------------
  // What a body says, read line by line

  /** The lines that are not empty, in order. */
  function NonEmpty(lines: seq<string>): seq<string> {
    if lines == [] then []
    else if lines[0] == [] then NonEmpty(lines[1..])
    else [lines[0]] + NonEmpty(lines[1..])
  }

  /** The lines, headings and empty ones aside, that stand under headings of category `c`. */
  function Under(lines: seq<string>, current: Option<string>, c: string): seq<string> {
    if lines == [] then []
    else if IsHeading(lines[0]) then Under(lines[1..], Some(NameOf(lines[0])), c)
    else if current == Some(c) && lines[0] != [] then [lines[0]] + Under(lines[1..], current, c)
    else Under(lines[1..], current, c)
  }

  /** Everything the entries of one category say. */
  function Content(entries: seq<string>): seq<string> {
    if entries == [] then [] else NonEmpty(Segments(entries[0])) + Content(entries[1..])
  }

  function BlocksUnder(blocks: seq<Block>, c: string): seq<string> {
    if blocks == [] then []
    else (if blocks[0].name == c then NonEmpty(blocks[0].lines) else []) + BlocksUnder(blocks[1..], c)
  }

  lemma {:induction false} NonEmptyConcat(a: seq<string>, b: seq<string>)
    ensures NonEmpty(a + b) == NonEmpty(a) + NonEmpty(b)
  {
    if a == [] {
      assert a + b == b;
    } else {
      NonEmptyConcat(a[1..], b);
      assert (a + b)[1..] == a[1..] + b && (a + b)[0] == a[0];
      if a[0] != [] {
        Assoc([a[0]], NonEmpty(a[1..]), NonEmpty(b));
      }
    }
  }

  lemma {:induction false} ContentConcat(a: seq<string>, b: seq<string>)
    ensures Content(a + b) == Content(a) + Content(b)
  {
    hide NonEmpty, Segments;
    if a == [] {
      assert a + b == b;
    } else {
      ContentConcat(a[1..], b);
      assert (a + b)[1..] == a[1..] + b && (a + b)[0] == a[0];
      Assoc(NonEmpty(Segments(a[0])), Content(a[1..]), Content(b));
    }
  }

  /** The outline keeps every line under its category. */
  lemma {:induction false} UnderIsBlocks(lines: seq<string>, current: Option<string>, c: string)
    ensures Under(lines, current, c) ==
            (if current == Some(c) then NonEmpty(Open(lines).before) else []) + BlocksUnder(Open(lines).blocks, c)
  {
    hide NameOf;
    if lines != [] {
      var rest := Open(lines[1..]);
      if IsHeading(lines[0]) {
        UnderIsBlocks(lines[1..], Some(NameOf(lines[0])), c);
        var blocks := [Block(NameOf(lines[0]), rest.before)] + rest.blocks;
        assert blocks[1..] == rest.blocks;
      } else {
        UnderIsBlocks(lines[1..], current, c);
        assert ([lines[0]] + rest.before)[1..] == rest.before;
        if current == Some(c) && lines[0] != [] {
          Assoc([lines[0]], NonEmpty(rest.before), BlocksUnder(rest.blocks, c));
        }
      }
    }
  }

  lemma {:induction false} DroppingKeepsNonEmpty(lines: seq<string>)
    ensures NonEmpty(DropBlankLeft(lines)) == NonEmpty(lines)
    ensures NonEmpty(DropBlankRight(lines)) == NonEmpty(lines)
    decreases |lines|
  {
    if lines != [] {
      if lines[0] == [] {
        DroppingKeepsNonEmpty(lines[1..]);
      }
      if lines[|lines|-1] == [] {
        var init := lines[..|lines|-1];
        DroppingKeepsNonEmpty(init);
        NonEmptyConcat(init, [[]]);
        assert init + [[]] == lines;
        NoLine();
      }
    }
  }

  lemma NoLine()
    ensures NonEmpty([[]]) == []
  {
    assert NonEmpty([[]][1..]) == [];
  }

  /** An entry made from buffered lines says what the lines say, and is left out only if they say nothing. */
  lemma EntrySays(lines: seq<string>)
    requires AllLines(lines)
    ensures var text := StripNewlines(Join(lines));
            && (text == [] ==> NonEmpty(lines) == [])
            && (text != [] ==> NonEmpty(Segments(text)) == NonEmpty(lines))
  {
    hide Segments, StripNewlines, NonEmpty;
    StripJoin(lines);
    var kept := DropBlankLeft(DropBlankRight(lines));
    DroppingKeepsNonEmpty(lines);
    DroppingKeepsNonEmpty(DropBlankRight(lines));
    if kept != [] {
      SegmentsOfJoin(kept);
      if Join(kept) == [] {
        assert |kept| == 1 && kept[0] == [];
        NoLine();
        assert kept == [[]];
      }
    } else {
      NoLines();
    }
  }

  lemma NoLines()
    ensures NonEmpty([]) == []
  {
  }

  lemma {:induction false} ExtendAdds(categories: seq<Category>, name: string, entries: seq<string>, c: string)
    ensures Entries(Extend(categories, name, entries), c) == Entries(categories, c) + if c == name then entries else []
  {
    if categories != [] && categories[0].name != name {
      ExtendAdds(categories[1..], name, entries, c);
    }
  }

  predicate BlockLines(blocks: seq<Block>) {
    forall b :: b in blocks ==> AllLines(b.lines)
  }

  lemma FlushSays(categories: seq<Category>, block: Block, c: string)
    requires AllLines(block.lines)
    ensures Content(Entries(Flush(categories, block), c)) ==
            Content(Entries(categories, c)) + if block.name == c then NonEmpty(block.lines) else []
  {
    hide Entries, Extend, Segments, StripNewlines, Join, NonEmpty;
    EntrySays(block.lines);
    var text := StripNewlines(Join(block.lines));
    var before := Content(Entries(categories, c));
    assert before + [] == before;
    if text != [] {
      ExtendAdds(categories, block.name, [text], c);
      if block.name == c {
        ContentConcat(Entries(categories, c), [text]);
        assert Content([text][1..]) == [];
        assert NonEmpty(Segments(text)) + [] == NonEmpty(Segments(text));
      } else {
        assert Entries(categories, c) + [] == Entries(categories, c);
      }
    }
  }

  lemma {:induction false} CollectSays(blocks: seq<Block>, categories: seq<Category>, c: string)
    requires BlockLines(blocks)
    ensures Content(Entries(Collect(blocks, categories), c)) == Content(Entries(categories, c)) + BlocksUnder(blocks, c)
  {
    hide Entries, Content, Flush, NonEmpty;
    if blocks != [] {
      FlushSays(categories, blocks[0], c);
      CollectSays(blocks[1..], Flush(categories, blocks[0]), c);
      Assoc(Content(Entries(categories, c)), if blocks[0].name == c then NonEmpty(blocks[0].lines) else [], BlocksUnder(blocks[1..], c));
    }
  }

  lemma {:induction false} OutlineIsMadeOfLines(lines: seq<string>)
    requires AllLines(lines)
    ensures AllLines(Open(lines).before) && BlockLines(Open(lines).blocks)
    ensures forall l :: l in Open(lines).before ==> !IsHeading(l)
    ensures forall b :: b in Open(lines).blocks ==> ProperName(b.name) && forall l :: l in b.lines ==> !IsHeading(l)
  {
    hide NameOf, ProperName, OneLine;
    if lines != [] {
      OutlineIsMadeOfLines(lines[1..]);
      if IsHeading(lines[0]) {
        assert OneLine(lines[0]);
        NamesAreProper(lines[0]);
      }
    }
  }

  lemma SplitGivesLines(text: string)
    ensures AllLines(SplitLines(text))
  {
    SegmentsAreLines(text);
  }

  /** Parsing a body keeps, category by category, everything the body says. */
  lemma ParseSays(body: string, c: string)
    requires Parse(body).Sections?
    ensures Content(Entries(Parse(body).categories, c)) == Under(SplitLines(body), None, c)
  {
    hide Open, Collect, Under, BlocksUnder, SplitLines;
    var lines := SplitLines(body);
    SplitGivesLines(body);
    OutlineIsMadeOfLines(lines);
    CollectSays(Open(lines).blocks, [], c);
    UnderIsBlocks(lines, None, c);
  }

  // ------------------------------------------------------------------------------------------------
  // Fragments

  lemma {:induction false} TrimmedAway(s: string)
    ensures TrimSpace(s) == [] <==> AllSpace(s)
  {
    hide IsSpace;
    if s != [] {
      var init, last := s[..|s|-1], s[|s|-1];
      assert s == init + [last];
      if IsSpace(last) {
        TrimmedAway(init);
      } else {
        assert last in s;
      }
    }
  }

  lemma BlankIs(s: string)
    ensures StripSpace(s) == [] <==> AllSpace(s)
  {
    hide IsSpace, TrimSpace, TrimSpaceLeft;
    TrimmedAway(s);
    TrimSpaceIsPrefix(s);
    var t := TrimSpace(s);
    var k := TrimSpaceLeftIsSuffix(t);
    assert t != [] ==> t[|t|-1] in t;
    assert t[..k] + t[k..] == t;
  }

  lemma {:induction false} SpaceInSegments(s: string)
    ensures AllSpace(s) <==> forall l :: l in Segments(s) ==> AllSpace(l)
  {
    hide IsBreak, IsSpace;
    if s != [] {
      var first, rest := s[0], Segments(s[1..]);
      SpaceInSegments(s[1..]);
      assert s == [first] + s[1..] && rest == [rest[0]] + rest[1..];
      BreakIsSpace(first);
      if !IsBreak(first) {
        var l := [first] + rest[0];
        assert AllSpace(l) <==> IsSpace(first) && AllSpace(rest[0]);
        assert Segments(s) == [l] + rest[1..];
      } else {
        assert Segments(s) == [[]] + rest;
      }
    } else {
      assert Segments(s) == [[]];
    }
  }

  lemma BreakIsSpace(c: char)
    ensures IsBreak(c) ==> IsSpace(c)
  {
  }

  lemma {:induction false} WrittenIs(lines: seq<string>)
    ensures forall l :: l in Written(lines) <==> l in lines && !IsBlank(l)
  {
    hide IsBlank;
    if lines != [] {
      WrittenIs(lines[1..]);
      assert lines == [lines[0]] + lines[1..];
    }
  }

  lemma BlankText(text: string)
    ensures StripSpace(text) == [] <==> Written(SplitLines(text)) == []
  {
    hide Segments, Written, StripSpace, AllSpace;
    BlankIs(text);
    SpaceInSegments(text);
    var lines, segments := SplitLines(text), Segments(text);
    WrittenIs(lines);
    assert segments == lines || segments == lines + [[]];
    BlankIs([]);
    NothingIsSpace();
    assert forall l :: l in segments <==> l in lines || (l == [] && segments == lines + [[]]);
    forall l | l in lines ensures IsBlank(l) <==> AllSpace(l) {
      BlankIs(l);
    }
    if Written(lines) != [] {
      assert Written(lines)[0] in Written(lines);
    }
  }

  lemma NothingIsSpace()
    ensures AllSpace([])
  {
  }

  /** A fragment holds list items: its first written line starts one, every other starts or continues one. */
  predicate ValidFragment(text: string) {
    var lines := Written(SplitLines(text));
    && lines != [] && "- " <= lines[0]
    && forall l :: l in lines ==> "- " <= l || "  " <= l
  }

  method ValidateReleaseFragment(text: string) returns (valid: bool)
    ensures valid <==> ValidFragment(text)
  {
    hide Written, StripSpace, SplitLines, IsBlank;
    BlankText(text);
    if StripSpace(text) == [] {
      return false;
    }
    var lines := SplitLines(text);
    var seenItem := false;
    NothingWritten(lines);
    for i := 0 to |lines|
      invariant seenItem <==> Written(lines[..i]) != []
      invariant seenItem ==> "- " <= Written(lines[..i])[0]
      invariant forall l :: l in Written(lines[..i]) ==> "- " <= l || "  " <= l
    {
      var line := lines[i];
      assert lines[..i + 1] == lines[..i] + [line] && lines == lines[..i + 1] + lines[i + 1..];
      WrittenConcat(lines[..i], [line]);
      WrittenConcat(lines[..i + 1], lines[i + 1..]);
      WrittenOne(line);
      if StripSpace(line) == [] {
        continue;
      }
      assert line in Written(lines[..i + 1]) && line in Written(lines);
      if "- " <= line {
        seenItem := true;
        continue;
      }
      if "  " <= line && seenItem {
        continue;
      }
      return false;
    }
    assert lines[..|lines|] == lines;
    return true;
  }

  lemma NothingWritten(lines: seq<string>)
    ensures Written(lines[..0]) == []
  {
  }

  lemma WrittenOne(line: string)
    ensures Written([line]) == if IsBlank(line) then [] else [line]
    ensures IsBlank(line) <==> StripSpace(line) == []
  {
    hide StripSpace;
    assert Written([line][1..]) == [];
  }

  datatype Fragment = Fragment(category: string, text: string)

  /** What the checks on a fragment file's name and body leave to rely on. */
  predicate ValidFragments(fragments: seq<Fragment>) {
    forall f :: f in fragments ==> f.category in CATEGORIES && ValidFragment(f.text)
  }

  /** What the fragments of one category say, in file order. */
  function FragmentLines(fragments: seq<Fragment>, c: string): seq<string> {
    if fragments == [] then []
    else (if fragments[0].category == c then NonEmpty(SplitLines(fragments[0].text)) else []) + FragmentLines(fragments[1..], c)
  }

  /** An entry with something to say, and no heading among its lines. */
  predicate Plain(entry: string) {
    && (forall l :: l in Segments(entry) ==> !IsHeading(l))
    && NonEmpty(Segments(entry)) != []
  }

  lemma {:induction false} TrimNewlinesSegments(s: string) returns (n: nat)
    ensures n <= |Segments(s)| && Segments(TrimNewlines(s)) == Segments(s)[..n]
    ensures NonEmpty(Segments(TrimNewlines(s))) == NonEmpty(Segments(s))
  {
    hide Segments, NonEmpty;
    n := |Segments(s)|;
    if s != [] && s[|s|-1] == '\n' {
      var init := s[..|s|-1];
      n := TrimNewlinesSegments(init);
      SegmentsConcat(init, '\n', []);
      assert init + ['\n'] + [] == s;
      NoText();
      NoLine();
      NonEmptyConcat(Segments(init), [[]]);
      assert NonEmpty(Segments(init)) + [] == NonEmpty(Segments(init));
    }
  }

  lemma SplitOrSegments(text: string)
    ensures Segments(text) == SplitLines(text) || Segments(text) == SplitLines(text) + [[]]
    ensures NonEmpty(Segments(text)) == NonEmpty(SplitLines(text))
  {
    hide Segments;
    var lines := SplitLines(text);
    if Segments(text) != lines {
      assert Segments(text) == lines + [[]];
      NonEmptyConcat(lines, [[]]);
      NoLine();
      assert NonEmpty(lines) + [] == NonEmpty(lines);
    }
  }

  lemma {:induction false} WrittenIsNonEmpty(lines: seq<string>)
    ensures forall l :: l in Written(lines) ==> l in NonEmpty(lines)
  {
    hide IsBlank;
    if lines != [] {
      WrittenIsNonEmpty(lines[1..]);
      BlankNothing();
    }
  }

  lemma BlankNothing()
    ensures IsBlank([])
  {
  }

  lemma FragmentIsPlain(f: Fragment)
    requires ValidFragment(f.text)
    ensures Plain(TrimNewlines(f.text))
    ensures NonEmpty(Segments(TrimNewlines(f.text))) == NonEmpty(SplitLines(f.text))
  {
    hide Segments, NonEmpty, Written, SplitLines, TrimNewlines, IsBlank, IsHeading;
    var n := TrimNewlinesSegments(f.text);
    SplitOrSegments(f.text);
    var lines := SplitLines(f.text);
    WrittenIs(lines);
    WrittenIsNonEmpty(lines);
    assert Written(lines)[0] in NonEmpty(lines);
    forall l | l in Segments(TrimNewlines(f.text)) ensures !IsHeading(l) {
      assert l in Segments(f.text);
      assert l in lines || l == [];
      HeadingIsWritten(l);
    }
  }

  lemma HeadingIsWritten(l: string)
    ensures IsHeading(l) ==> !IsBlank(l) && !("- " <= l) && !("  " <= l)
    ensures !IsHeading([])
  {
    BlankIs(l);
    if IsHeading(l) {
      assert l[0] == '#' && l[0] in l;
    }
  }

  lemma EntryIsPlain(lines: seq<string>)
    requires AllLines(lines) && StripNewlines(Join(lines)) != [] && forall l :: l in lines ==> !IsHeading(l)
    ensures Plain(StripNewlines(Join(lines)))
  {
    hide Segments, NonEmpty, StripNewlines, DropBlankLeft, DropBlankRight, IsHeading;
    StripJoin(lines);
    var kept := DropBlankLeft(DropBlankRight(lines));
    DroppedRight(lines);
    DroppedLeft(DropBlankRight(lines));
    assert kept != [];
    SegmentsOfJoin(kept);
    EdgesAreWritten(DropBlankRight(lines));
  }

  lemma {:induction false} DroppedLeft(lines: seq<string>)
    ensures forall l :: l in DropBlankLeft(lines) ==> l in lines
  {
    if lines != [] && lines[0] == [] {
      DroppedLeft(lines[1..]);
    }
  }

  lemma {:induction false} DroppedRight(lines: seq<string>)
    ensures forall l :: l in DropBlankRight(lines) ==> l in lines
  {
    if lines != [] && lines[|lines|-1] == [] {
      DroppedRight(lines[..|lines|-1]);
    }
  }

  lemma {:induction false} EdgesAreWritten(lines: seq<string>)
    ensures DropBlankLeft(lines) != [] ==> NonEmpty(DropBlankLeft(lines)) != []
  {
    if lines != [] && lines[0] == [] {
      EdgesAreWritten(lines[1..]);
    }
  }

  // ------------------------------------------------------------------------------------------------
  // Rendering

  function Named(names: seq<string>): seq<Category> {
    if names == [] then [] else [Category(names[0], [])] + Named(names[1..])
  }

  function ExtendAll(categories: seq<Category>, existing: seq<Category>): seq<Category>
    decreases |existing|
  {
    if existing == [] then categories
    else ExtendAll(Extend(categories, existing[0].name, existing[0].entries), existing[1..])
  }

  function AddFragments(categories: seq<Category>, fragments: seq<Fragment>): seq<Category>
    decreases |fragments|
  {
    if fragments == [] then categories
    else AddFragments(Extend(categories, fragments[0].category, [TrimNewlines(fragments[0].text)]), fragments[1..])
  }

  function ByCategory(existing: seq<Category>, fragments: seq<Fragment>): seq<Category> {
    AddFragments(ExtendAll(Named(CATEGORIES), existing), fragments)
  }

  /** The names the dictionary holds besides the known categories, in insertion order. */
  function Others(categories: seq<Category>): seq<string> {
    if categories == [] then []
    else if categories[0].name in CATEGORIES then Others(categories[1..])
    else [categories[0].name] + Others(categories[1..])
  }

  /** The categories to render: those with entries. */
  function Pending(names: seq<string>, categories: seq<Category>): seq<Category> {
    if names == [] then []
    else
      var entries := Entries(categories, names[0]);
      (if entries == [] then [] else [Category(names[0], entries)]) + Pending(names[1..], categories)
  }

  function Chunk(c: Category): string {
    "### " + Capitalize(c.name) + "\n\n" + Join(c.entries)
  }

  /** The chunks joined by `"\n\n"`. */
  function Chunks(cs: seq<Category>): string {
    if cs == [] then []
    else if |cs| == 1 then Chunk(cs[0])
    else Chunk(cs[0]) + "\n\n" + Chunks(cs[1..])
  }

  function ToRender(existing: seq<Category>, fragments: seq<Fragment>): seq<Category> {
    var categories := ByCategory(existing, fragments);
    Pending(CATEGORIES + Others(categories), categories)
  }

  function Render(existing: seq<Category>, fragments: seq<Fragment>): string {
    Chunks(ToRender(existing, fragments))
  }

  method RenderReleaseSections(existing: seq<Category>, fragments: seq<Fragment>) returns (text: string)
    ensures text == Render(existing, fragments)
  {
    hide Named, Others, Chunk, Entries, TrimNewlines, Extend;
    var byCategory := Named(CATEGORIES);
    for i := 0 to |existing|
      invariant ExtendAll(byCategory, existing[i..]) == ExtendAll(Named(CATEGORIES), existing)
    {
      byCategory := Extend(byCategory, existing[i].name, existing[i].entries);
      assert existing[i..][1..] == existing[i + 1..];
    }
    assert existing[|existing|..] == [];
    ghost var base := byCategory;
    for i := 0 to |fragments|
      invariant AddFragments(byCategory, fragments[i..]) == AddFragments(base, fragments)
    {
      byCategory := Extend(byCategory, fragments[i].category, [TrimNewlines(fragments[i].text)]);
      assert fragments[i..][1..] == fragments[i + 1..];
    }
    assert fragments[|fragments|..] == [];
    assert byCategory == ByCategory(existing, fragments);
    var ordered := CATEGORIES + Others(byCategory);
    var chunks: seq<Category> := [];
    for i := 0 to |ordered|
      invariant chunks + Pending(ordered[i..], byCategory) == Pending(ordered, byCategory)
    {
      var entries := Entries(byCategory, ordered[i]);
      assert ordered[i..][1..] == ordered[i + 1..];
      ghost var before := chunks;
      if entries != [] {
        chunks := chunks + [Category(ordered[i], entries)];
      }
      Assoc(before, if entries == [] then [] else [Category(ordered[i], entries)], Pending(ordered[i + 1..], byCategory));
      assert before + [] == before;
    }
    assert ordered[|ordered|..] == [];
    assert chunks + [] == chunks;
    text := Chunks(chunks);
  }

  /** The lines of some entries joined by newlines. */
  function LinesOf(entries: seq<string>): seq<string> {
    if entries == [] then [] else Segments(entries[0]) + LinesOf(entries[1..])
  }

  lemma {:induction false} SegmentsOfEntries(entries: seq<string>)
    requires entries != []
    ensures Segments(Join(entries)) == LinesOf(entries)
  {
    hide Segments;
    if |entries| == 1 {
      assert LinesOf(entries[1..]) == [];
      assert Segments(entries[0]) + [] == Segments(entries[0]);
    } else {
      SegmentsOfEntries(entries[1..]);
      SegmentsConcat(entries[0], '\n', Join(entries[1..]));
    }
  }

  function ChunkLines(c: Category): seq<string> {
    ["### " + Capitalize(c.name), ""] + LinesOf(c.entries)
  }

  function ChunksLines(cs: seq<Category>): seq<string> {
    if cs == [] then []
    else if |cs| == 1 then ChunkLines(cs[0])
    else ChunkLines(cs[0]) + [""] + ChunksLines(cs[1..])
  }

  lemma SegmentsOfChunk(c: Category)
    requires ProperName(c.name) && c.entries != []
    ensures Segments(Chunk(c)) == ChunkLines(c)
  {
    hide Segments, Join, Capitalize, NameOf, LinesOf;
    HeadingNames(c.name);
    var h := "### " + Capitalize(c.name);
    SegmentsOfLine(h);
    SegmentsOfEntries(c.entries);
    NoText();
    SegmentsConcat([], '\n', Join(c.entries));
    SegmentsConcat(h, '\n', ['\n'] + Join(c.entries));
    assert [] + ['\n'] + Join(c.entries) == ['\n'] + Join(c.entries);
    assert h + ['\n'] + (['\n'] + Join(c.entries)) == Chunk(c);
    assert [h] + ([""] + LinesOf(c.entries)) == ChunkLines(c);
  }

  /** Every category has a proper name, and entries that say something. */
  predicate Proper(categories: seq<Category>) {
    forall c :: c in categories ==> ProperName(c.name) && forall e :: e in c.entries ==> Plain(e)
  }

  lemma {:induction false} SegmentsOfChunks(cs: seq<Category>)
    requires cs != [] && forall c :: c in cs ==> ProperName(c.name) && c.entries != []
    ensures Segments(Chunks(cs)) == ChunksLines(cs)
  {
    hide Segments, Chunk, ChunkLines, ProperName;
    SegmentsOfChunk(cs[0]);
    if |cs| > 1 {
      SegmentsOfChunks(cs[1..]);
      var first, rest := Chunk(cs[0]), Chunks(cs[1..]);
      NoText();
      SegmentsConcat([], '\n', rest);
      assert [] + ['\n'] + rest == ['\n'] + rest;
      SegmentsConcat(first, '\n', ['\n'] + rest);
      assert first + ['\n'] + (['\n'] + rest) == Chunks(cs);
      Assoc(ChunkLines(cs[0]), [""], ChunksLines(cs[1..]));
    }
  }

  /** The blocks a rendered text parses into. */
  function RenderedBlocks(cs: seq<Category>): seq<Block> {
    if cs == [] then []
    else if |cs| == 1 then [Block(cs[0].name, [""] + LinesOf(cs[0].entries))]
    else [Block(cs[0].name, [""] + LinesOf(cs[0].entries) + [""])] + RenderedBlocks(cs[1..])
  }

  /** Plain lines in front of anything just stand before it. */
  lemma {:induction false} OpenPlain(lines: seq<string>, rest: seq<string>)
    requires forall l :: l in lines ==> !IsHeading(l)
    ensures Open(lines + rest) == Outline(lines + Open(rest).before, Open(rest).blocks)
  {
    hide IsHeading, NameOf;
    if lines == [] {
      assert [] + rest == rest && [] + Open(rest).before == Open(rest).before;
    } else {
      OpenPlain(lines[1..], rest);
      assert (lines + rest)[1..] == lines[1..] + rest && (lines + rest)[0] == lines[0];
      assert [lines[0]] + (lines[1..] + Open(rest).before) == lines + Open(rest).before;
    }
  }

  lemma {:induction false} EntryLinesArePlain(entries: seq<string>)
    requires forall e :: e in entries ==> Plain(e)
    ensures forall l :: l in LinesOf(entries) ==> !IsHeading(l)
    ensures entries != [] ==> NonEmpty(LinesOf(entries)) != []
    ensures NonEmpty(LinesOf(entries)) == Content(entries)
  {
    hide Segments, NonEmpty, IsHeading;
    if entries != [] {
      EntryLinesArePlain(entries[1..]);
      NonEmptyConcat(Segments(entries[0]), LinesOf(entries[1..]));
      assert Plain(entries[0]);
    } else {
      NoLines();
    }
  }

  lemma OpenChunk(c: Category, tail: seq<string>, rest: seq<string>)
    requires ProperName(c.name) && (forall e :: e in c.entries ==> Plain(e))
    requires forall l :: l in tail ==> l == []
    requires Open(rest).before == []
    ensures Open(ChunkLines(c) + tail + rest) ==
            Outline([], [Block(c.name, [""] + LinesOf(c.entries) + tail)] + Open(rest).blocks)
  {
    hide Plain, NameOf, Open, LinesOf, Capitalize;
    HeadingNames(c.name);
    EntryLinesArePlain(c.entries);
    var h := "### " + Capitalize(c.name);
    var body := [""] + LinesOf(c.entries) + tail;
    OpenPlain(body, rest);
    assert ChunkLines(c) + tail + rest == [h] + (body + rest);
    OpenHeading(h, body + rest);
    assert body + [] == body;
  }

  lemma OpenHeading(h: string, lines: seq<string>)
    requires IsHeading(h)
    ensures Open([h] + lines) == Outline([], [Block(NameOf(h), Open(lines).before)] + Open(lines).blocks)
  {
    assert ([h] + lines)[1..] == lines;
  }

  lemma {:induction false} OpenChunks(cs: seq<Category>)
    requires Proper(cs)
    ensures Open(ChunksLines(cs)) == Outline([], RenderedBlocks(cs))
  {
    hide Open, ChunkLines, ProperName, Plain, LinesOf;
    if cs == [] {
      OpenNothing();
    } else if |cs| == 1 {
      OpenNothing();
      OpenChunk(cs[0], [], []);
      assert ChunkLines(cs[0]) + [] + [] == ChunkLines(cs[0]);
      assert [""] + LinesOf(cs[0].entries) + [] == [""] + LinesOf(cs[0].entries);
    } else {
      OpenChunks(cs[1..]);
      OpenChunk(cs[0], [""], ChunksLines(cs[1..]));
    }
  }

  lemma OpenNothing()
    ensures Open([]) == Outline([], [])
  {
  }

  // ------------------------------------------------------------------------------------------------
  // Nothing is lost

  predicate DistinctNames(categories: seq<Category>) {
    forall i, j :: 0 <= i < j < |categories| ==> categories[i].name != categories[j].name
  }

  lemma ExtendKeeps(categories: seq<Category>, name: string, entries: seq<string>)
    requires DistinctNames(categories) && Proper(categories)
    requires ProperName(name) && forall e :: e in entries ==> Plain(e)
    ensures DistinctNames(Extend(categories, name, entries)) && Proper(Extend(categories, name, entries))
  {
    hide ProperName, Plain, Extend, Proper, DistinctNames;
    ExtendNames(categories, name, entries);
    ExtendProper(categories, name, entries);
  }

  /** Extending appends to one category, or adds one at the end. */
  lemma {:induction false} ExtendNames(categories: seq<Category>, name: string, entries: seq<string>)
    requires DistinctNames(categories)
    ensures var r := Extend(categories, name, entries);
            && DistinctNames(r) && |categories| <= |r| <= |categories| + 1
            && (forall i :: 0 <= i < |categories| ==> r[i].name == categories[i].name)
            && (|r| > |categories| ==> r[|categories|].name == name && forall i :: 0 <= i < |categories| ==> categories[i].name != name)
  {
    hide DistinctNames, Extend;
    ExtendIs(categories, name, entries);
    var r := Extend(categories, name, entries);
    if categories == [] || categories[0].name == name {
      SameNames(categories, r);
    } else {
      var rest := categories[1..];
      SameNames(categories, rest);
      ExtendNames(rest, name, entries);
      var more := Extend(rest, name, entries);
      FirstDiffers(categories, more, name);
      forall i | 0 <= i < |categories| ensures r[i].name == categories[i].name {
        assert i > 0 ==> r[i] == more[i - 1] && categories[i] == rest[i - 1];
      }
      forall i | |r| > |categories| && 0 <= i < |categories| ensures categories[i].name != name {
        assert i > 0 ==> categories[i] == rest[i - 1];
      }
    }
  }

  lemma ExtendIs(categories: seq<Category>, name: string, entries: seq<string>)
    ensures categories == [] ==> Extend(categories, name, entries) == [Category(name, entries)]
    ensures categories != [] && categories[0].name == name ==>
              Extend(categories, name, entries) == [Category(name, categories[0].entries + entries)] + categories[1..]
    ensures categories != [] && categories[0].name != name ==>
              Extend(categories, name, entries) == [categories[0]] + Extend(categories[1..], name, entries)
  {
  }

  lemma SameNames(categories: seq<Category>, other: seq<Category>)
    requires DistinctNames(categories)
    ensures |other| <= 1 ==> DistinctNames(other)
    ensures |other| == |categories| && (forall i :: 0 <= i < |other| ==> other[i].name == categories[i].name) ==> DistinctNames(other)
    ensures categories != [] && other == categories[1..] ==> DistinctNames(other)
  {
  }

  lemma FirstDiffers(categories: seq<Category>, more: seq<Category>, name: string)
    requires categories != [] && categories[0].name != name && DistinctNames(categories) && DistinctNames(more)
    requires |categories| - 1 <= |more| <= |categories|
    requires forall i :: 0 <= i < |categories| - 1 ==> more[i].name == categories[1..][i].name
    requires |more| == |categories| ==> more[|categories| - 1].name == name
    ensures DistinctNames([categories[0]] + more)
  {
    forall j | 0 <= j < |more| ensures more[j].name != categories[0].name {
      assert j < |categories| - 1 ==> more[j].name == categories[1..][j].name == categories[j + 1].name;
    }
  }

  lemma {:induction false} ExtendProper(categories: seq<Category>, name: string, entries: seq<string>)
    requires Proper(categories) && ProperName(name) && forall e :: e in entries ==> Plain(e)
    ensures Proper(Extend(categories, name, entries))
  {
    hide ProperName, Plain;
    if categories != [] {
      var first, rest := categories[0], categories[1..];
      assert first in categories && forall c :: c in rest ==> c in categories;
      if first.name != name {
        ExtendProper(rest, name, entries);
      }
    }
  }

  lemma {:induction false} CollectKeeps(blocks: seq<Block>, categories: seq<Category>)
    requires DistinctNames(categories) && Proper(categories) && BlockLines(blocks)
    requires forall b :: b in blocks ==> ProperName(b.name) && forall l :: l in b.lines ==> !IsHeading(l)
    ensures DistinctNames(Collect(blocks, categories)) && Proper(Collect(blocks, categories))
  {
    hide ProperName, Plain, Extend, Segments, Proper, DistinctNames, AllLines, IsHeading;
    if blocks != [] {
      var b := blocks[0];
      assert b in blocks;
      FlushIs(categories, b);
      var text := StripNewlines(Join(b.lines));
      if text != [] {
        EntryIsPlain(b.lines);
        ExtendKeeps(categories, b.name, [text]);
      }
      CollectKeeps(blocks[1..], Flush(categories, b));
    }
  }

  /** What parsing returns: categories named once each, with entries that hold something and no heading. */
  lemma ParsedIsProper(body: string)
    requires Parse(body).Sections?
    ensures DistinctNames(Parse(body).categories) && Proper(Parse(body).categories)
  {
    hide Open, SplitLines, Collect;
    SplitGivesLines(body);
    OutlineIsMadeOfLines(SplitLines(body));
    CollectKeeps(Open(SplitLines(body)).blocks, []);
  }

  predicate IsWord(s: string) {
    s != [] && forall i :: 0 <= i < |s| ==> 'a' <= s[i] <= 'z'
  }

  lemma WordIsProper(s: string)
    requires IsWord(s)
    ensures ProperName(s)
  {
    assert Lower(s) == s;
  }

  lemma {:induction false} NamedAt(names: seq<string>)
    ensures |Named(names)| == |names| && forall i :: 0 <= i < |names| ==> Named(names)[i] == Category(names[i], [])
  {
    if names != [] {
      NamedAt(names[1..]);
    }
  }

  lemma {:induction false} NoEntries(categories: seq<Category>, c: string)
    requires forall i :: 0 <= i < |categories| ==> categories[i].entries == []
    ensures Entries(categories, c) == []
  {
    if categories != [] {
      NoEntries(categories[1..], c);
    }
  }

  lemma NamedIs(names: seq<string>, c: string)
    requires forall n :: n in names ==> ProperName(n)
    requires forall i, j :: 0 <= i < j < |names| ==> names[i] != names[j]
    ensures Entries(Named(names), c) == [] && Proper(Named(names)) && DistinctNames(Named(names))
  {
    hide ProperName, Named, Entries;
    NamedAt(names);
    NoEntries(Named(names), c);
  }

  lemma KnownCategories()
    ensures forall i :: 0 <= i < |CATEGORIES| ==> IsWord(CATEGORIES[i])
    ensures forall i, j :: 0 <= i < j < |CATEGORIES| ==> CATEGORIES[i] != CATEGORIES[j]
  {
  }

  lemma KnownAreProper(c: string)
    ensures Entries(Named(CATEGORIES), c) == [] && Proper(Named(CATEGORIES)) && DistinctNames(Named(CATEGORIES))
    ensures forall n :: n in CATEGORIES ==> ProperName(n)
  {
    hide IsWord, ProperName;
    KnownCategories();
    forall n | n in CATEGORIES ensures ProperName(n) {
      WordIsProper(n);
    }
    NamedIs(CATEGORIES, c);
  }

  lemma {:induction false} ExtendAllAdds(categories: seq<Category>, existing: seq<Category>, c: string)
    requires DistinctNames(existing) && Proper(existing) && DistinctNames(categories) && Proper(categories)
    ensures Entries(ExtendAll(categories, existing), c) == Entries(categories, c) + Entries(existing, c)
    ensures DistinctNames(ExtendAll(categories, existing)) && Proper(ExtendAll(categories, existing))
    decreases |existing|
  {
    hide ProperName, Plain, Extend;
    if existing == [] {
      assert Entries(categories, c) + [] == Entries(categories, c);
    } else {
      var first, rest := existing[0], existing[1..];
      assert first in existing && forall d :: d in rest ==> d in existing;
      ExtendKeeps(categories, first.name, first.entries);
      ExtendAdds(categories, first.name, first.entries, c);
      ExtendAllAdds(Extend(categories, first.name, first.entries), rest, c);
      if c == first.name {
        NotThere(rest, c);
      }
    }
  }

  lemma {:induction false} NotThere(categories: seq<Category>, c: string)
    requires forall i :: 0 <= i < |categories| ==> categories[i].name != c
    ensures Entries(categories, c) == []
  {
    if categories != [] {
      NotThere(categories[1..], c);
    }
  }

  lemma {:induction false} FragmentsAdd(categories: seq<Category>, fragments: seq<Fragment>, c: string)
    requires ValidFragments(fragments) && DistinctNames(categories) && Proper(categories)
    ensures Content(Entries(AddFragments(categories, fragments), c)) == Content(Entries(categories, c)) + FragmentLines(fragments, c)
    ensures DistinctNames(AddFragments(categories, fragments)) && Proper(AddFragments(categories, fragments))
    decreases |fragments|
  {
    hide ProperName, Plain, Extend, ValidFragment, NonEmpty, SplitLines, Segments, TrimNewlines, Proper, DistinctNames, Content, Entries;
    if fragments != [] {
      var f, rest := fragments[0], fragments[1..];
      assert f in fragments;
      FragmentIsPlain(f);
      KnownAreProper(c);
      var entry := TrimNewlines(f.text);
      ExtendKeeps(categories, f.category, [entry]);
      ExtendAdds(categories, f.category, [entry], c);
      OneEntry(entry);
      ContentConcat(Entries(categories, c), [entry]);
      FragmentsAdd(Extend(categories, f.category, [entry]), rest, c);
      var said := if f.category == c then NonEmpty(SplitLines(f.text)) else [];
      assert Entries(categories, c) + [] == Entries(categories, c);
      assert Content(Entries(categories, c)) + [] == Content(Entries(categories, c));
      Assoc(Content(Entries(categories, c)), said, FragmentLines(rest, c));
    }
  }

  lemma OneEntry(entry: string)
    ensures Content([entry]) == NonEmpty(Segments(entry))
  {
    assert [entry][1..] == [];
    assert Content([entry][1..]) == [];
    assert NonEmpty(Segments(entry)) + [] == NonEmpty(Segments(entry));
  }

  lemma {:induction false} OthersAre(categories: seq<Category>)
    requires DistinctNames(categories)
    ensures forall n :: n in Others(categories) <==> n !in CATEGORIES && exists i :: 0 <= i < |categories| && categories[i].name == n
    ensures forall i, j :: 0 <= i < j < |Others(categories)| ==> Others(categories)[i] != Others(categories)[j]
  {
    if categories != [] {
      var first, rest := categories[0], categories[1..];
      OthersAre(rest);
      forall n ensures n in Others(categories) <==> n !in CATEGORIES && exists i :: 0 <= i < |categories| && categories[i].name == n {
        if n in Others(rest) {
          var i :| 0 <= i < |rest| && rest[i].name == n;
          assert categories[i + 1].name == n;
        }
        if i :| 0 <= i < |categories| && categories[i].name == n && i > 0 {
          assert rest[i - 1].name == n;
        }
      }
      if first.name !in CATEGORIES {
        forall j | 0 <= j < |Others(rest)| ensures Others(rest)[j] != first.name {
          assert Others(rest)[j] in Others(rest);
        }
      }
    }
  }

  lemma {:induction false} PendingIs(names: seq<string>, categories: seq<Category>, c: string)
    ensures Entries(Pending(names, categories), c) == if c in names then Entries(categories, c) else []
    ensures forall d :: d in Pending(names, categories) ==> d.name in names && d.entries == Entries(categories, d.name) != []
  {
    if names != [] {
      PendingIs(names[1..], categories, c);
      assert names == [names[0]] + names[1..];
      var entries := Entries(categories, names[0]);
      if entries != [] {
        assert Pending(names, categories)[1..] == Pending(names[1..], categories);
      } else {
        assert Pending(names, categories) == Pending(names[1..], categories);
      }
    }
  }

  lemma {:induction false} PendingIsDistinct(names: seq<string>, categories: seq<Category>)
    requires forall i, j :: 0 <= i < j < |names| ==> names[i] != names[j]
    ensures DistinctNames(Pending(names, categories))
  {
    if names != [] {
      var rest := Pending(names[1..], categories);
      PendingIsDistinct(names[1..], categories);
      forall j | 0 <= j < |rest| ensures rest[j].name != names[0] {
        PendingIs(names[1..], categories, names[0]);
        assert rest[j] in rest;
      }
    }
  }

  lemma {:induction false} EntriesAreThere(categories: seq<Category>, c: string)
    ensures Entries(categories, c) != [] ==> exists i :: 0 <= i < |categories| && categories[i].name == c && categories[i].entries == Entries(categories, c)
  {
    if categories != [] && categories[0].name != c {
      EntriesAreThere(categories[1..], c);
      if i :| 0 <= i < |categories[1..]| && categories[1..][i].name == c && categories[1..][i].entries == Entries(categories, c) {
        assert categories[i + 1].name == c;
      }
    }
  }

  /** What gets rendered: every category once, with what the body and the fragments hold for it, in that order. */
  lemma ToRenderIs(existing: seq<Category>, fragments: seq<Fragment>, c: string)
    requires DistinctNames(existing) && Proper(existing) && ValidFragments(fragments)
    ensures Content(Entries(ToRender(existing, fragments), c)) == Content(Entries(existing, c)) + FragmentLines(fragments, c)
    ensures DistinctNames(ToRender(existing, fragments)) && Proper(ToRender(existing, fragments))
    ensures forall d :: d in ToRender(existing, fragments) ==> d.entries != []
  {
    hide DistinctNames, Proper, Entries, Content, Others, Pending, AddFragments, ExtendAll, Named, Plain, ProperName, ValidFragments;
    var known := Named(CATEGORIES);
    KnownAreProper(c);
    ExtendAllAdds(known, existing, c);
    assert [] + Entries(existing, c) == Entries(existing, c);
    FragmentsAdd(ExtendAll(known, existing), fragments, c);
    var categories := ByCategory(existing, fragments);
    var names := CATEGORIES + Others(categories);
    OthersAre(categories);
    KnownCategories();
    forall i, j | 0 <= i < j < |names| ensures names[i] != names[j] {
      if j >= |CATEGORIES| {
        assert names[j] == Others(categories)[j - |CATEGORIES|] && names[j] in Others(categories);
        if i >= |CATEGORIES| {
          assert names[i] == Others(categories)[i - |CATEGORIES|];
        }
      }
    }
    PendingIsDistinct(names, categories);
    PendingIs(names, categories, c);
    EntriesAreThere(categories, c);
    PendingIsProper(names, categories);
  }

  lemma PendingIsProper(names: seq<string>, categories: seq<Category>)
    requires Proper(categories)
    ensures Proper(Pending(names, categories))
  {
    hide ProperName, Plain, Pending;
    forall d | d in Pending(names, categories) ensures ProperName(d.name) && forall e :: e in d.entries ==> Plain(e) {
      PendingIs(names, categories, d.name);
      EntriesAreThere(categories, d.name);
    }
  }

  lemma {:induction false} RenderedUnder(cs: seq<Category>, c: string)
    requires DistinctNames(cs) && Proper(cs)
    ensures BlocksUnder(RenderedBlocks(cs), c) == Content(Entries(cs, c))
  {
    hide ProperName, Plain, NonEmpty, LinesOf, Content;
    NothingSaid();
    if cs != [] {
      var first, rest := cs[0], cs[1..];
      assert forall d :: d in rest ==> d in cs;
      RenderedUnder(rest, c);
      EntryLinesArePlain(first.entries);
      AroundEntry(first.entries);
      assert RenderedBlocks(cs)[1..] == RenderedBlocks(rest);
      if first.name == c {
        NotThere(rest, c);
        assert Content(first.entries) + [] == Content(first.entries);
      }
    }
  }

  lemma NothingSaid()
    ensures Content([]) == []
  {
  }

  lemma AroundEntry(entries: seq<string>)
    ensures NonEmpty([""] + LinesOf(entries)) == NonEmpty(LinesOf(entries))
    ensures NonEmpty([""] + LinesOf(entries) + [""]) == NonEmpty(LinesOf(entries))
  {
    hide NonEmpty, LinesOf;
    var l := LinesOf(entries);
    NoLine();
    NonEmptyConcat([""], l);
    NonEmptyConcat([""] + l, [""]);
    assert [] + NonEmpty(l) == NonEmpty(l) && NonEmpty(l) + [] == NonEmpty(l);
  }

  /**
   No entry is ever lost: under each category the rendered section says exactly what the body said there,
   then what the fragments of that category say, line for line and in order.
   */
  lemma NothingIsLost(body: string, fragments: seq<Fragment>, c: string)
    requires Parse(body).Sections? && ValidFragments(fragments)
    ensures Under(SplitLines(Render(Parse(body).categories, fragments)), None, c) ==
            Under(SplitLines(body), None, c) + FragmentLines(fragments, c)
  {
    hide Parse, DistinctNames, Proper, Entries, Content, ToRender, Under, SplitLines, ValidFragments, Chunks;
    var existing := Parse(body).categories;
    ParsedIsProper(body);
    ParseSays(body, c);
    ToRenderIs(existing, fragments, c);
    RenderedSays(ToRender(existing, fragments), c);
  }

  lemma RenderedSays(cs: seq<Category>, c: string)
    requires DistinctNames(cs) && Proper(cs) && forall d :: d in cs ==> d.entries != []
    ensures Under(SplitLines(Chunks(cs)), None, c) == Content(Entries(cs, c))
  {
    hide DistinctNames, Entries, Content, Under, SplitLines, Chunks, BlocksUnder, RenderedBlocks, ChunksLines, Open, ProperName, Plain, Segments;
    var text := Chunks(cs);
    RenderedUnder(cs, c);
    OpenChunks(cs);
    UnderIsBlocks(ChunksLines(cs), None, c);
    NoLines();
    assert [] + BlocksUnder(RenderedBlocks(cs), c) == BlocksUnder(RenderedBlocks(cs), c);
    if cs == [] {
      NoChunks();
    } else {
      SegmentsOfChunks(cs);
      TrailingBlankSaysNothing(SplitLines(text), None, c);
      SplitOrSegments(text);
    }
  }

  lemma NoChunks()
    ensures SplitLines(Chunks([])) == ChunksLines([])
  {
    NoText();
  }

  lemma {:induction false} TrailingBlankSaysNothing(lines: seq<string>, current: Option<string>, c: string)
    ensures Under(lines + [[]], current, c) == Under(lines, current, c)
  {
    hide NameOf;
    if lines == [] {
      assert Under([""][1..], current, c) == [];
      assert Under([[]], current, c) == [];
    } else {
      assert (lines + [[]])[1..] == lines[1..] + [[]] && (lines + [[]])[0] == lines[0];
      TrailingBlankSaysNothing(lines[1..], if IsHeading(lines[0]) then Some(NameOf(lines[0])) else current, c);
    }
  }

  // ------------------------------------------------------------------------------------------------
  // Round trip

  /** The one entry the entries of a category read back as. */
  function Joined(entries: seq<string>): string {
    Join(DropBlankLeft(DropBlankRight(LinesOf(entries))))
  }

  function Reread(cs: seq<Category>): seq<Category> {
    if cs == [] then [] else [Category(cs[0].name, [Joined(cs[0].entries)])] + Reread(cs[1..])
  }

  lemma {:induction false} LinesOfAreLines(entries: seq<string>)
    ensures AllLines(LinesOf(entries))
  {
    if entries != [] {
      SegmentsAreLines(entries[0]);
      LinesOfAreLines(entries[1..]);
    }
  }

  lemma DropAround(lines: seq<string>, tail: seq<string>)
    requires tail == [] || tail == [[]]
    requires NonEmpty(lines) != []
    ensures DropBlankLeft(DropBlankRight([[]] + lines + tail)) == DropBlankLeft(DropBlankRight(lines))
  {
    DropRightOfFront(lines);
    var all := [[]] + lines + tail;
    if tail == [[]] {
      assert all[..|all|-1] == [[]] + lines;
    } else {
      assert all == [[]] + lines;
    }
    var kept := DropBlankRight(lines);
    assert ([[]] + kept)[1..] == kept;
  }

  lemma {:induction false} DropRightOfFront(lines: seq<string>)
    requires NonEmpty(lines) != []
    ensures DropBlankRight([[]] + lines) == [[]] + DropBlankRight(lines)
    decreases |lines|
  {
    assert ([[]] + lines)[|lines|] == lines[|lines|-1];
    if lines[|lines|-1] == [] {
      var init := lines[..|lines|-1];
      assert init + [[]] == lines && ([[]] + lines)[..|lines|] == [[]] + init;
      NonEmptyConcat(init, [[]]);
      NoLine();
      DropRightOfFront(init);
    }
  }

  lemma RenderedFlush(c: Category, tail: seq<string>, categories: seq<Category>)
    requires tail == [] || tail == [[]]
    requires c.entries != [] && forall e :: e in c.entries ==> Plain(e)
    ensures Flush(categories, Block(c.name, [""] + LinesOf(c.entries) + tail)) == Extend(categories, c.name, [Joined(c.entries)])
  {
    hide Plain, Extend, NonEmpty, LinesOf, StripNewlines, DropBlankRight, DropBlankLeft, Join;
    var lines := LinesOf(c.entries);
    LinesOfAreLines(c.entries);
    EntryLinesArePlain(c.entries);
    DropAround(lines, tail);
    var all := [""] + lines + tail;
    assert AllLines(all);
    StripJoin(all);
    EntrySays(all);
    AroundEntry(c.entries);
    assert [""] + lines + [] == [""] + lines;
    FlushIs(categories, Block(c.name, all));
  }

  lemma {:induction false} ExtendFresh(categories: seq<Category>, name: string, entries: seq<string>)
    requires forall i :: 0 <= i < |categories| ==> categories[i].name != name
    ensures Extend(categories, name, entries) == categories + [Category(name, entries)]
  {
    if categories != [] {
      ExtendFresh(categories[1..], name, entries);
      Assoc([categories[0]], categories[1..], [Category(name, entries)]);
      assert categories == [categories[0]] + categories[1..];
    }
  }

  lemma {:induction false} CollectRendered(cs: seq<Category>, before: seq<Category>)
    requires DistinctNames(before + cs) && Proper(cs) && forall d :: d in cs ==> d.entries != []
    ensures Collect(RenderedBlocks(cs), before) == before + Reread(cs)
    decreases |cs|
  {
    hide ProperName, Plain, LinesOf, Joined, Flush, Extend, Collect;
    if cs == [] {
      CollectNone(before);
    } else {
      var first, rest := cs[0], cs[1..];
      assert first in cs && forall d :: d in rest ==> d in cs;
      forall i | 0 <= i < |before| ensures before[i].name != first.name {
        assert (before + cs)[i] == before[i] && (before + cs)[|before|] == first;
      }
      var now := Category(first.name, [Joined(first.entries)]);
      ExtendFresh(before, first.name, [Joined(first.entries)]);
      var tail := if |cs| == 1 then [] else [""];
      assert tail == [] || tail == [[]];
      assert first.entries != [];
      assert forall e :: e in first.entries ==> Plain(e);
      RenderedFlush(first, tail, before);
      assert [""] + LinesOf(first.entries) + [] == [""] + LinesOf(first.entries);
      assert RenderedBlocks(cs) == [Block(first.name, [""] + LinesOf(first.entries) + tail)] + RenderedBlocks(rest);
      CollectFirst(Block(first.name, [""] + LinesOf(first.entries) + tail), RenderedBlocks(rest), before);
      StillDistinct(before, cs, now);
      assert forall d :: d in rest ==> d.entries != [];
      CollectRendered(rest, before + [now]);
      Assoc(before, [now], Reread(rest));
    }
  }

  lemma StillDistinct(before: seq<Category>, cs: seq<Category>, now: Category)
    requires cs != [] && DistinctNames(before + cs) && now.name == cs[0].name
    ensures DistinctNames(before + [now] + cs[1..])
  {
    var a, b := before + [now] + cs[1..], before + cs;
    assert |a| == |b| && forall i :: 0 <= i < |a| ==> a[i].name == b[i].name;
  }

  lemma {:induction false} CollectSnoc(blocks: seq<Block>, b: Block, categories: seq<Category>)
    ensures Collect(blocks + [b], categories) == Flush(Collect(blocks, categories), b)
  {
    hide Flush;
    if blocks == [] {
      assert [] + [b] == [b] && [b][1..] == [];
      CollectNone(Flush(categories, b));
    } else {
      assert (blocks + [b])[1..] == blocks[1..] + [b] && (blocks + [b])[0] == blocks[0];
      CollectSnoc(blocks[1..], b, Flush(categories, blocks[0]));
    }
  }

  function WithBlank(o: Outline): Outline {
    var n := |o.blocks|;
    if n == 0 then Outline(o.before + [[]], [])
    else Outline(o.before, o.blocks[..n - 1] + [Block(o.blocks[n - 1].name, o.blocks[n - 1].lines + [[]])])
  }

  lemma {:induction false} OpenTrailingBlank(lines: seq<string>)
    ensures Open(lines + [[]]) == WithBlank(Open(lines))
  {
    hide NameOf;
    if lines == [] {
      OpenNothing();
      assert Open([""][1..]) == Outline([], []);
      assert Open([[]][1..]) == Outline([], []);
      assert Open([[]]).before == [[]];
    } else {
      OpenTrailingBlank(lines[1..]);
      assert (lines + [[]])[1..] == lines[1..] + [[]] && (lines + [[]])[0] == lines[0];
      var o, p := Open(lines), Open(lines[1..]);
      if IsHeading(lines[0]) {
        assert o.blocks == [Block(NameOf(lines[0]), p.before)] + p.blocks;
      }
    }
  }

  lemma BlankEndsNothing(block: Block, categories: seq<Category>)
    requires AllLines(block.lines)
    ensures Flush(categories, Block(block.name, block.lines + [[]])) == Flush(categories, block)
  {
    hide Join, StripNewlines, DropBlankLeft, Extend;
    var all := block.lines + [[]];
    assert all[..|all|-1] == block.lines;
    StripJoin(block.lines);
    StripJoin(all);
  }

  /** An empty last line changes nothing. */
  lemma TrailingBlankParses(lines: seq<string>)
    requires AllLines(lines)
    ensures ParseLines(lines + [[]]) == ParseLines(lines)
  {
    hide Open, Written, Collect, Flush;
    OpenTrailingBlank(lines);
    OutlineIsMadeOfLines(lines);
    var o := Open(lines);
    var n := |o.blocks|;
    if n == 0 {
      WrittenConcat(o.before, [[]]);
      WrittenOne([]);
      BlankNothing();
      assert Written(o.before) + [] == Written(o.before);
    } else {
      var last := o.blocks[n - 1];
      assert last in o.blocks;
      BlankEndsNothing(last, Collect(o.blocks[..n - 1], []));
      CollectSnoc(o.blocks[..n - 1], last, []);
      CollectSnoc(o.blocks[..n - 1], Block(last.name, last.lines + [[]]), []);
      assert o.blocks[..n - 1] + [last] == o.blocks;
    }
  }

  lemma RenderedLinesParse(cs: seq<Category>)
    requires DistinctNames(cs) && Proper(cs) && forall d :: d in cs ==> d.entries != []
    ensures ParseLines(ChunksLines(cs)) == Sections(Reread(cs))
  {
    hide ProperName, Plain, Open, ChunksLines, Collect, RenderedBlocks;
    OpenChunks(cs);
    assert [] + cs == cs;
    CollectRendered(cs, []);
    assert [] + Reread(cs) == Reread(cs);
  }

  /**
   Parsing what was rendered gives back each category once, in the order rendered, its entries joined into
   one and stripped of empty lines at its edges; no line is stray.
   */
  lemma RenderedParses(existing: seq<Category>, fragments: seq<Fragment>)
    requires DistinctNames(existing) && Proper(existing) && ValidFragments(fragments)
    ensures Parse(Render(existing, fragments)) == Sections(Reread(ToRender(existing, fragments)))
  {
    hide DistinctNames, Proper, ToRender, SplitLines, Chunks, ValidFragments, ParseLines, Segments;
    ToRenderIs(existing, fragments, "");
    var cs := ToRender(existing, fragments);
    RenderedLinesParse(cs);
    if cs == [] {
      NoChunks();
    } else {
      SegmentsOfProper(cs);
      SplitOrSegments(Chunks(cs));
      SplitGivesLines(Chunks(cs));
      TrailingBlankParses(SplitLines(Chunks(cs)));
    }
  }

  lemma SegmentsOfProper(cs: seq<Category>)
    requires cs != [] && Proper(cs) && forall d :: d in cs ==> d.entries != []
    ensures Segments(Chunks(cs)) == ChunksLines(cs)
  {
    hide Segments, Chunks, ChunksLines, ProperName, Plain;
    SegmentsOfChunks(cs);
  }

  // ------------------------------------------------------------------------------------------------
  // Titles and their order

  /** The eight known titles. */
  lemma KnownTitles()
    ensures Capitalize("added") == "Added" && Capitalize("changed") == "Changed" && Capitalize("deprecated") == "Deprecated"
    ensures Capitalize("removed") == "Removed" && Capitalize("fixed") == "Fixed" && Capitalize("security") == "Security"
    ensures Capitalize("performance") == "Performance" && Capitalize("documentation") == "Documentation"
  {
    hide Capitalize;
    TitleIs("added", "Added");
    TitleIs("changed", "Changed");
    TitleIs("deprecated", "Deprecated");
    TitleIs("removed", "Removed");
    TitleIs("fixed", "Fixed");
    TitleIs("security", "Security");
    TitleIs("performance", "Performance");
    TitleIs("documentation", "Documentation");
  }

  lemma TitleIs(word: string, title: string)
    requires IsWord(word) && |title| == |word| && title[0] as int == word[0] as int - 32
    requires forall i :: 1 <= i < |word| ==> title[i] == word[i]
    ensures Capitalize(word) == title
  {
    hide Capitalize;
    CapitalizedWord(word);
  }

  /** A word's first letter moves by 32 places, the rest stays. */
  lemma CapitalizedWord(s: string)
    requires IsWord(s)
    ensures Capitalize(s) == [s[0] - 32 as char] + s[1..]
  {
    assert Lower(s[1..]) == s[1..];
  }

  function Titles(lines: seq<string>): seq<string> {
    if lines == [] then [] else (if "### " <= lines[0] then [lines[0]] else []) + Titles(lines[1..])
  }

  function TitlesOf(cs: seq<Category>): (r: seq<string>)
    ensures |r| == |cs| && forall i :: 0 <= i < |cs| ==> r[i] == "### " + Capitalize(cs[i].name)
  {
    if cs == [] then [] else ["### " + Capitalize(cs[0].name)] + TitlesOf(cs[1..])
  }

  lemma {:induction false} TitlesConcat(a: seq<string>, b: seq<string>)
    ensures Titles(a + b) == Titles(a) + Titles(b)
  {
    if a == [] {
      assert a + b == b;
    } else {
      TitlesConcat(a[1..], b);
      assert (a + b)[1..] == a[1..] + b && (a + b)[0] == a[0];
      Assoc(if "### " <= a[0] then [a[0]] else [], Titles(a[1..]), Titles(b));
    }
  }

  lemma {:induction false} NoTitles(lines: seq<string>)
    requires forall l :: l in lines ==> !IsHeading(l)
    ensures Titles(lines) == []
  {
    if lines != [] {
      assert lines[0] in lines;
      NoTitles(lines[1..]);
    }
  }

  /** The titles of a rendered text are its categories', in order. */
  lemma {:induction false} ChunksTitles(cs: seq<Category>)
    requires Proper(cs)
    ensures Titles(ChunksLines(cs)) == TitlesOf(cs)
  {
    hide ProperName, Plain, Titles, LinesOf, Capitalize;
    NoTitles([]);
    if cs != [] {
      var first, rest := cs[0], cs[1..];
      assert forall d :: d in rest ==> d in cs;
      EntryLinesArePlain(first.entries);
      NoTitles([""] + LinesOf(first.entries));
      var title := "### " + Capitalize(first.name);
      OneTitle(title);
      TitlesConcat([title], [""] + LinesOf(first.entries));
      assert [title] + ([""] + LinesOf(first.entries)) == ChunkLines(first);
      if |cs| > 1 {
        ChunksTitles(rest);
        NoTitles([""]);
        TitlesConcat(ChunkLines(first), [""]);
        TitlesConcat(ChunkLines(first) + [""], ChunksLines(rest));
      }
    }
  }

  lemma OneTitle(title: string)
    requires "### " <= title
    ensures Titles([title]) == [title]
  {
    assert Titles([title][1..]) == [];
  }

  function NamesOf(cs: seq<Category>): (r: seq<string>)
    ensures |r| == |cs| && forall i :: 0 <= i < |cs| ==> r[i] == cs[i].name
  {
    if cs == [] then [] else [cs[0].name] + NamesOf(cs[1..])
  }

  /** The names that are not among some others, in their order. */
  function Besides(names: seq<string>, known: seq<string>): seq<string> {
    if names == [] then [] else (if names[0] in known then [] else [names[0]]) + Besides(names[1..], known)
  }

  lemma {:induction false} BesidesConcat(a: seq<string>, b: seq<string>, known: seq<string>)
    ensures Besides(a + b, known) == Besides(a, known) + Besides(b, known)
  {
    if a == [] {
      assert a + b == b;
    } else {
      BesidesConcat(a[1..], b, known);
      assert (a + b)[1..] == a[1..] + b && (a + b)[0] == a[0];
    }
  }

  lemma {:induction false} ExtendedNames(cs: seq<Category>, name: string, entries: seq<string>)
    ensures NamesOf(Extend(cs, name, entries)) == NamesOf(cs) + if name in NamesOf(cs) then [] else [name]
  {
    if cs != [] && cs[0].name != name {
      ExtendedNames(cs[1..], name, entries);
      assert NamesOf(cs) == [cs[0].name] + NamesOf(cs[1..]);
    }
  }

  lemma NamesFirst(cs: seq<Category>, known: seq<string>)
    requires cs != []
    ensures NamesOf(cs) == [cs[0].name] + NamesOf(cs[1..])
    ensures Besides(NamesOf(cs), known) == (if cs[0].name in known then [] else [cs[0].name]) + Besides(NamesOf(cs[1..]), known)
  {
    assert NamesOf(cs)[1..] == NamesOf(cs[1..]);
  }

  lemma NameIsNew(existing: seq<Category>)
    requires DistinctNames(existing) && existing != []
    ensures DistinctNames(existing[1..]) && existing[0].name !in NamesOf(existing[1..])
  {
  }

  lemma {:induction false} ExtendedAllNames(cs: seq<Category>, existing: seq<Category>)
    requires DistinctNames(existing)
    ensures NamesOf(ExtendAll(cs, existing)) == NamesOf(cs) + Besides(NamesOf(existing), NamesOf(cs))
    decreases |existing|
  {
    hide Extend, DistinctNames;
    if existing == [] {
      assert NamesOf(cs) + [] == NamesOf(cs);
    } else {
      hide NamesOf, Besides;
      var first, rest, known := existing[0], existing[1..], NamesOf(cs);
      NameIsNew(existing);
      NamesFirst(existing, known);
      ExtendedNames(cs, first.name, first.entries);
      ExtendedAllNames(Extend(cs, first.name, first.entries), rest);
      OneMoreKnown(NamesOf(rest), known, first.name);
      var tail := Besides(NamesOf(rest), known);
      if first.name in known {
        assert known + [] == known && [] + tail == tail;
      } else {
        Assoc(known, [first.name], tail);
      }
    }
  }

  lemma {:induction false} OneMoreKnown(names: seq<string>, known: seq<string>, more: string)
    requires more !in names
    ensures Besides(names, known + [more]) == Besides(names, known)
  {
    if names != [] {
      OneMoreKnown(names[1..], known, more);
    }
  }

  lemma {:induction false} FragmentNames(cs: seq<Category>, fragments: seq<Fragment>)
    requires forall f :: f in fragments ==> f.category in NamesOf(cs)
    ensures NamesOf(AddFragments(cs, fragments)) == NamesOf(cs)
    decreases |fragments|
  {
    hide Extend;
    if fragments != [] {
      var f := fragments[0];
      var more := Extend(cs, f.category, [TrimNewlines(f.text)]);
      ExtendedNames(cs, f.category, [TrimNewlines(f.text)]);
      assert NamesOf(cs) + [] == NamesOf(cs);
      FragmentNames(more, fragments[1..]);
    }
  }

  lemma {:induction false} OthersAreBesides(cs: seq<Category>)
    ensures Others(cs) == Besides(NamesOf(cs), CATEGORIES)
  {
    if cs != [] {
      OthersAreBesides(cs[1..]);
    }
  }

  lemma {:induction false} NothingBesides(names: seq<string>, known: seq<string>)
    requires forall n :: n in names ==> n in known
    ensures Besides(names, known) == []
  {
    if names != [] {
      NothingBesides(names[1..], known);
    }
  }

  lemma {:induction false} BesidesTwice(names: seq<string>, known: seq<string>)
    ensures Besides(Besides(names, known), known) == Besides(names, known)
  {
    if names != [] {
      BesidesTwice(names[1..], known);
      var rest := Besides(names[1..], known);
      if names[0] in known {
        assert [] + rest == rest;
      } else {
        assert ([names[0]] + rest)[1..] == rest && ([names[0]] + rest)[0] == names[0];
      }
    }
  }

  /** The body's categories besides the known ones keep their order. */
  lemma OthersKeepOrder(existing: seq<Category>, fragments: seq<Fragment>)
    requires DistinctNames(existing) && ValidFragments(fragments)
    ensures Others(ByCategory(existing, fragments)) == Besides(NamesOf(existing), CATEGORIES)
  {
    hide ValidFragment, Extend, Others, Besides, Named, ExtendAll, AddFragments;
    var known := Named(CATEGORIES);
    NamedAt(CATEGORIES);
    assert NamesOf(known) == CATEGORIES;
    ExtendedAllNames(known, existing);
    FragmentNames(ExtendAll(known, existing), fragments);
    OthersAreBesides(ByCategory(existing, fragments));
    var others := Besides(NamesOf(existing), CATEGORIES);
    BesidesConcat(CATEGORIES, others, CATEGORIES);
    NothingBesides(CATEGORIES, CATEGORIES);
    BesidesTwice(NamesOf(existing), CATEGORIES);
    assert [] + others == others;
  }

  /** The names under which body or fragments say anything. */
  function Said(existing: seq<Category>, fragments: seq<Fragment>, names: seq<string>): seq<string> {
    if names == [] then []
    else
      (if Content(Entries(existing, names[0])) + FragmentLines(fragments, names[0]) == [] then [] else [names[0]]) +
      Said(existing, fragments, names[1..])
  }

  lemma {:induction false} PendingAreSaid(existing: seq<Category>, fragments: seq<Fragment>, names: seq<string>)
    requires DistinctNames(existing) && Proper(existing) && ValidFragments(fragments)
    ensures NamesOf(Pending(names, ByCategory(existing, fragments))) == Said(existing, fragments, names)
  {
    hide DistinctNames, Proper, ValidFragments, Content, Entries, FragmentLines, ByCategory;
    if names != [] {
      PendingAreSaid(existing, fragments, names[1..]);
      EntriesSay(existing, fragments, names[0]);
      assert [] + NamesOf(Pending(names[1..], ByCategory(existing, fragments))) == NamesOf(Pending(names[1..], ByCategory(existing, fragments)));
    }
  }

  lemma EntriesSay(existing: seq<Category>, fragments: seq<Fragment>, c: string)
    requires DistinctNames(existing) && Proper(existing) && ValidFragments(fragments)
    ensures Entries(ByCategory(existing, fragments), c) == [] <==> Content(Entries(existing, c)) + FragmentLines(fragments, c) == []
  {
    hide DistinctNames, Proper, Entries, Content, AddFragments, ExtendAll, Named, Plain, ProperName, ValidFragments;
    var known := Named(CATEGORIES);
    KnownAreProper(c);
    ExtendAllAdds(known, existing, c);
    assert [] + Entries(existing, c) == Entries(existing, c);
    FragmentsAdd(ExtendAll(known, existing), fragments, c);
    EntriesHaveContent(ByCategory(existing, fragments), c);
  }

  lemma EntriesHaveContent(categories: seq<Category>, c: string)
    requires Proper(categories)
    ensures Entries(categories, c) == [] <==> Content(Entries(categories, c)) == []
  {
    hide ProperName, NonEmpty, Segments;
    EntriesAreThere(categories, c);
    NothingSaid();
    if Entries(categories, c) != [] {
      assert Entries(categories, c)[0] in Entries(categories, c);
    }
  }

  /**
   The order of a rendered text: of the known categories in their fixed order, and then the body's others in
   theirs, exactly those with something to say, each under its capitalized name.
   */
  lemma RenderedInOrder(existing: seq<Category>, fragments: seq<Fragment>)
    requires DistinctNames(existing) && Proper(existing) && ValidFragments(fragments)
    ensures var cs := ToRender(existing, fragments);
            && Titles(SplitLines(Render(existing, fragments))) == TitlesOf(cs)
            && NamesOf(cs) == Said(existing, fragments,
                                   ["added", "changed", "deprecated", "removed", "fixed", "security", "performance", "documentation"] +
                                   Besides(NamesOf(existing), ["added", "changed", "deprecated", "removed", "fixed", "security", "performance", "documentation"]))
  {
    hide DistinctNames, Proper, ValidFragments, SplitLines, Chunks, ChunksLines, Segments, Others, Besides, Said, Titles, ByCategory, Pending;
    var cs := ToRender(existing, fragments);
    ToRenderIs(existing, fragments, "");
    OthersKeepOrder(existing, fragments);
    PendingAreSaid(existing, fragments, CATEGORIES + Besides(NamesOf(existing), CATEGORIES));
    ChunksTitles(cs);
    if cs == [] {
      NoChunks();
    } else {
      SegmentsOfProper(cs);
      SplitOrSegments(Chunks(cs));
      NoTitles([""]);
      TitlesConcat(SplitLines(Chunks(cs)), [""]);
      assert Titles(SplitLines(Chunks(cs))) + [] == Titles(SplitLines(Chunks(cs)));
    }
  }
}
