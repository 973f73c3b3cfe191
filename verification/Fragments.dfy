/** Dated fragments: what their check guarantees, and that rendered fragments split back into whole sections. */
module DatedFragments {
  import opened Text
  import opened DatedLog
  import opened Changelog
  import opened Options

  datatype DatedFragment = DatedFragment(date: string, text: string)

  /** The checks on a fragment's body, given the date its file name carries. */
  predicate IsValid(f: DatedFragment) {
    && IsDate(f.date) && StripSpace(f.text) != [] && Opening(f.date) <= StripSpace(f.text)
    && |Headings(SplitLines(f.text), 0, false)| == 1
  }

  /** The number of headings, and of dated ones. */
  function Count(text: string): nat {
    |Headings(Segments(text), 0, false)|
  }

  function Dates(text: string): nat {
    |Starts(Segments(text), 0, false)|
  }

  // ------------------------------------------------------------------------------------------------
  // Counting headings

  lemma HeadingOfLine(line: string, k: nat, fenced: bool)
    ensures Headings([line], k, fenced) ==
            if IsFence(line) || fenced then []
            else if IsDated(line) then [Heading(k, Some(DateOf(line)))]
            else if "## " <= line then [Heading(k, None)]
            else []
    ensures FenceAfter([line], fenced) == (IsFence(line) != fenced)
  {
    hide IsFence, IsDated;
    assert Headings([line][1..], k + 1, fenced) == [] && Headings([line][1..], k + 1, !fenced) == [];
    assert FenceAfter([line][1..], IsFence(line) != fenced) == (IsFence(line) != fenced);
  }

  lemma {:induction false} HeadingsShift(lines: seq<string>, k: nat, fenced: bool)
    ensures |Headings(lines, k, fenced)| == |Headings(lines, 0, fenced)|
    ensures |Dated(Headings(lines, k, fenced))| == |Dated(Headings(lines, 0, fenced))|
  {
    hide IsFence, IsDated;
    if lines != [] {
      HeadingsShift(lines[1..], k + 1, fenced);
      HeadingsShift(lines[1..], 1, fenced);
      HeadingsShift(lines[1..], k + 1, !fenced);
      HeadingsShift(lines[1..], 1, !fenced);
      SkipFirst(lines, k, fenced);
      SkipFirst(lines, 0, fenced);
    }
  }

  lemma SkipFirst(lines: seq<string>, k: nat, fenced: bool)
    requires lines != []
    ensures var h := Headings(lines, k, fenced);
            var rest := Headings(lines[1..], k + 1, IsFence(lines[0]) != fenced);
            if IsFence(lines[0]) || fenced || !("## " <= lines[0]) then h == rest
            else if IsDated(lines[0]) then h == [Heading(k, Some(DateOf(lines[0])))] + rest && Dated(h) == [Start(k, DateOf(lines[0]))] + Dated(rest)
            else h == [Heading(k, None)] + rest && Dated(h) == Dated(rest)
  {
    hide IsFence;
    var rest := Headings(lines[1..], k + 1, IsFence(lines[0]) != fenced);
    if IsDated(lines[0]) {
      DatedMark(lines[0]);
      assert ([Heading(k, Some(DateOf(lines[0])))] + rest)[1..] == rest;
    }
    assert ([Heading(k, None)] + rest)[1..] == rest;
  }

  lemma DatedMark(line: string)
    requires IsDated(line)
    ensures "## " <= line
  {
    var o := Opening(line[3..13]);
    assert o[..3] == "## " && line[..3] == o[..3];
  }

  /** Lines of white space are neither headings nor fences. */
  lemma {:induction false} BlankLines(lines: seq<string>, k: nat)
    requires forall l :: l in lines ==> AllSpace(l)
    ensures Headings(lines, k, false) == [] && FenceAfter(lines, false) == false
  {
    hide AllSpace;
    if lines != [] {
      BlankLine(lines[0]);
      BlankLines(lines[1..], k + 1);
      SkipFirst(lines, k, false);
    }
  }

  lemma {:induction false} BlankIsTrimmed(line: string)
    requires AllSpace(line)
    ensures TrimSpaceLeft(line) == []
  {
    if line != [] {
      BlankIsTrimmed(line[1..]);
    }
  }

  lemma BlankLine(line: string)
    requires AllSpace(line)
    ensures !IsFence(line) && !("## " <= line)
  {
    BlankIsTrimmed(line);
    if line != [] {
      assert line[0] in line;
    }
  }

  /** Trimming white space off the end makes no heading. */
  lemma {:induction false} TrimMakesNoHeading(text: string)
    ensures Count(TrimSpace(text)) <= Count(text)
  {
    hide IsFence, IsDated, IsSpace, Headings, Segments;
    if text != [] && IsSpace(text[|text|-1]) {
      var init, c := text[..|text|-1], text[|text|-1];
      assert text == init + [c];
      TrimMakesNoHeading(init);
      LastSpace(init, c);
    }
  }

  lemma LastSpace(init: string, c: char)
    requires IsSpace(c)
    ensures Count(init) <= Count(init + [c])
  {
    hide IsFence, IsDated, IsSpace, IsBreak, Headings, Segments, FenceAfter;
    var r := Segments(init);
    if IsBreak(c) {
      SegmentsConcat(init, c, "");
      assert init + [c] + "" == init + [c];
      HeadingsConcat(r, Segments(""), 0, false);
    } else {
      SegmentsSnoc(init, c);
      var head, last := r[..|r|-1], r[|r|-1];
      assert r == head + [last];
      HeadingsConcat(head, [last], 0, false);
      HeadingsConcat(head, [last + [c]], 0, false);
      HeadingOfLine(last, |head|, FenceAfter(head, false));
      HeadingOfLine(last + [c], |head|, FenceAfter(head, false));
      SpaceKeepsFence(last, c);
    }
  }

  lemma CountIsCount(text: string)
    ensures Count(text) == |Headings(SplitLines(text), 0, false)|
  {
    hide Headings, Segments, FenceAfter;
    SplitOrSegments(text);
    var lines := SplitLines(text);
    if Segments(text) != lines {
      HeadingsConcat(lines, [""], 0, false);
      HeadingOfLine("", |lines|, FenceAfter(lines, false));
    }
  }

  // ------------------------------------------------------------------------------------------------
  // White space before the heading

  /** Text after `k` characters of white space starts in the middle of a line. */
  predicate Indented(u: string, k: nat)
    requires k <= |u|
  {
    k > 0 && !IsBreak(u[k - 1])
  }

  lemma {:induction false} LineStart(u: string, k: nat) returns (j: nat)
    requires k <= |u|
    ensures j <= k && (j == 0 || IsBreak(u[j - 1])) && OneLine(u[j..k]) && (j < k <==> Indented(u, k))
  {
    hide IsBreak;
    if k == 0 || IsBreak(u[k - 1]) {
      j := k;
    } else {
      j := LineStart(u, k - 1);
      assert u[j..k] == u[j..k - 1] + [u[k - 1]];
    }
  }

  /** Blank lines above count for nothing. */
  lemma BlankAbove(u: string, j: nat)
    requires j <= |u| && (j == 0 || IsBreak(u[j - 1])) && AllSpace(u[..j])
    ensures Count(u) == Count(u[j..]) && Dates(u) == Dates(u[j..])
  {
    hide IsBreak, Segments, Headings, Dated, FenceAfter, IsSpace;
    if j == 0 {
      assert u[0..] == u;
    } else {
      var above := u[..j - 1];
      assert u == above + [u[j - 1]] + u[j..];
      SegmentsConcat(above, u[j - 1], u[j..]);
      assert AllSpace(above) by {
        assert forall c :: c in above ==> c in u[..j];
      }
      SpaceInSegments(above);
      var lines := Segments(above);
      BlankLines(lines, 0);
      HeadingsConcat(lines, Segments(u[j..]), 0, false);
      HeadingsShift(Segments(u[j..]), |lines|, false);
      assert [] + Headings(Segments(u[j..]), |lines|, false) == Headings(Segments(u[j..]), |lines|, false);
    }
  }

  lemma {:induction false} IndentLine(space: string, t: string)
    requires OneLine(space)
    ensures Segments(space + t) == [space + Segments(t)[0]] + Segments(t)[1..]
  {
    hide IsBreak;
    if space == [] {
      assert space + t == t && space + Segments(t)[0] == Segments(t)[0];
      assert [Segments(t)[0]] + Segments(t)[1..] == Segments(t);
    } else {
      IndentLine(space[1..], t);
      assert (space + t)[1..] == space[1..] + t && (space + t)[0] == space[0];
      assert space[0] in space;
      assert [space[0]] + (space[1..] + Segments(t)[0]) == space + Segments(t)[0];
    }
  }

  lemma {:induction false} TrimIndent(space: string, line: string)
    requires AllSpace(space) && (line == [] || !IsSpace(line[0]))
    ensures TrimSpaceLeft(space + line) == line
  {
    if space == [] {
      assert space + line == line;
    } else {
      TrimIndent(space[1..], line);
      assert (space + line)[1..] == space[1..] + line;
    }
  }

  /** The lines from a dated heading on. */
  lemma HeadingFirst(t: string, date: string)
    requires IsDate(date) && Opening(date) <= t
    ensures var lines := Segments(t);
            && IsDated(lines[0]) && DateOf(lines[0]) == date && !IsFence(lines[0])
            && Count(t) == 1 + |Headings(lines[1..], 1, false)| && Dates(t) == 1 + |Dated(Headings(lines[1..], 1, false))|
            && Starts(lines, 0, false) == [Start(0, date)] + Dated(Headings(lines[1..], 1, false))
  {
    hide Headings, Dated, IsDated, IsFence, Segments, Opening;
    OpeningIsHeading(date);
    var o := Opening(date);
    assert t == o + t[16..];
    IndentLine(o, t[16..]);
    var first := Segments(t)[0];
    assert o <= first;
    LongerHeading(date, first);
    SkipFirst(Segments(t), 0, false);
    DatedMark(first);
  }

  lemma LongerHeading(date: string, line: string)
    requires IsDate(date) && Opening(date) <= line
    ensures IsDated(line) && DateOf(line) == date && !IsFence(line)
  {
    var o := Opening(date);
    assert line[..|o|] == o && line[3..13] == o[3..13] == date;
    assert line[0] == '#';
  }

  /** An indented first heading is not seen as one. */
  lemma IndentHides(space: string, t: string, date: string)
    requires OneLine(space) && AllSpace(space) && space != [] && IsDate(date) && Opening(date) <= t
    ensures Count(t) == Count(space + t) + 1 && Dates(t) == Dates(space + t) + 1
  {
    hide Headings, Dated, IsDated, IsFence, Segments, IsSpace;
    HeadingFirst(t, date);
    IndentLine(space, t);
    var lines := Segments(t);
    var first := space + lines[0];
    IndentedLine(space, lines[0], date);
    SkipFirst([first] + lines[1..], 0, false);
    assert ([first] + lines[1..])[1..] == lines[1..];
  }

  lemma IndentedLine(space: string, line: string, date: string)
    requires AllSpace(space) && space != [] && IsDated(line)
    ensures !IsFence(space + line) && !("## " <= space + line)
  {
    DatedMark(line);
    TrimIndent(space, line);
    assert line[0] == '#' && (space + line)[0] == space[0] && space[0] in space;
  }

  // ------------------------------------------------------------------------------------------------
  // What the check guarantees

  /** Where a fragment's text begins, behind white space, once the end is trimmed. */
  lemma Stripped(text: string) returns (k: nat)
    ensures k <= |TrimSpace(text)| && StripSpace(text) == TrimSpace(text)[k..] && AllSpace(TrimSpace(text)[..k])
  {
    k := TrimSpaceLeftIsSuffix(TrimSpace(text));
  }

  /** The fragment's heading stands at the start of a line. */
  predicate Flush(text: string) {
    var u := TrimSpace(text);
    |StripSpace(text)| <= |u| && !Indented(u, |u| - |StripSpace(text)|)
  }

  lemma SplitCounts(t: string)
    requires t != [] && !IsSpace(t[|t|-1])
    ensures SplitLines(t) == Segments(t) && |SplitDated(t)| == Dates(t)
  {
    hide Headings, Dated, Segments, IsSpace, Cut, Ascending;
    LastLine(t);
    var lines := SplitLines(t);
    StartsAscend(lines);
    if Starts(lines, 0, false) != [] {
      CutAt(lines, Starts(lines, 0, false), 0);
    } else {
      CutNothing(lines);
    }
  }

  lemma LastLine(t: string)
    requires t != [] && !IsSpace(t[|t|-1])
    ensures Segments(t)[|Segments(t)|-1] != []
  {
    hide IsSpace, Segments, IsBreak;
    var init, c := t[..|t|-1], t[|t|-1];
    assert t == init + [c];
    BreakIsSpace(c);
    SegmentsSnoc(init, c);
  }

  /**
   A fragment that passes the check becomes exactly one section, unless its heading is indented and another
   dated heading stands at the start of a line: then it is cut in two.
   */
  lemma ValidFragmentSections(f: DatedFragment)
    requires IsValid(f)
    ensures var ss := SplitDated(StripSpace(f.text));
            && |ss| == (if Flush(f.text) then 1 else 1 + Dates(TrimSpace(f.text))) && |ss| <= 2
            && ss[0].date == f.date
    ensures |SplitDated(StripSpace(f.text))| == 1 <==> Flush(f.text) || Dates(TrimSpace(f.text)) == 0
  {
    hide Headings, Dated, IsDated, IsFence, Segments, IsSpace, IsBreak, TrimSpace, Opening, SplitDated, IsDate, SplitLines, TrimSpaceLeft, Count, Dates;
    var u, t := TrimSpace(f.text), StripSpace(f.text);
    var k := Stripped(f.text);
    TrimSpaceIsPrefix(f.text);
    assert |t| == |u| - k && t == u[k..] && t[|t|-1] == u[|u|-1];
    CountIsCount(f.text);
    TrimMakesNoHeading(f.text);
    var j := LineStart(u, k);
    assert AllSpace(u[..j]) by {
      assert forall c :: c in u[..j] ==> c in u[..k];
    }
    BlankAbove(u, j);
    SplitCounts(t);
    FirstSection(t, f.date);
    if j < k {
      assert u[j..] == u[j..k] + t;
      assert AllSpace(u[j..k]) by {
        assert forall c :: c in u[j..k] ==> c in u[..k];
      }
      IndentHides(u[j..k], t, f.date);
    }
    DatesAtMostCount(u);
    DatesAtMostCount(t);
  }

  lemma {:induction false} DatedAtMost(hs: seq<Heading>)
    ensures |Dated(hs)| <= |hs|
  {
    if hs != [] {
      DatedAtMost(hs[1..]);
    }
  }

  lemma DatesAtMostCount(t: string)
    ensures Dates(t) <= Count(t)
  {
    hide Headings, Dated, Segments;
    DatedAtMost(Headings(Segments(t), 0, false));
  }

  lemma FirstSection(t: string, date: string)
    requires IsDate(date) && Opening(date) <= t && SplitLines(t) == Segments(t)
    ensures SplitDated(t) != [] && SplitDated(t)[0].date == date && Dates(t) >= 1
  {
    hide Headings, Dated, Segments, Opening, IsDated, IsFence, SplitLines, StripNewlines;
    HeadingFirst(t, date);
    var lines := SplitLines(t);
    StartsAscend(lines);
    CutAt(lines, Starts(lines, 0, false), 0);
  }

  /** A fragment of the kind the check lets through and the split cuts in two. */
  function IndentedFragment(date: string, other: string): DatedFragment {
    DatedFragment(date, " " + Opening(date) + "\n" + Opening(other) + "x")
  }

  lemma IndentedFragmentSplits(date: string, other: string)
    requires IsDate(date) && IsDate(other)
    ensures IsValid(IndentedFragment(date, other)) && |SplitDated(StripSpace(IndentedFragment(date, other).text))| == 2
  {
    hide Headings, Dated, IsDated, IsFence, Segments, IsBreak, SplitDated, SplitLines, Count, Dates, Opening, IsSpace, IsDate;
    var text := IndentedFragment(date, other).text;
    var a, b := Opening(date), Opening(other) + "x";
    OpeningIsHeading(date);
    OpeningIsHeading(other);
    SpaceAndMark();
    var t := a + "\n" + b;
    assert text == " " + t;
    assert TrimSpace(text) == text;
    StripOne(t);
    TwoHeadings(a, b, date, other);
    CountIsCount(text);
    IndentHides(" ", t, date);
    ValidFragmentSections(IndentedFragment(date, other));
    assert text[0] == ' ';
  }

  lemma SpaceAndMark()
    ensures IsSpace(' ') && !IsSpace('#') && !IsSpace('x') && !IsBreak(' ') && IsBreak('\n')
    ensures OneLine(" ") && AllSpace(" ") && OneLine("x")
  {
  }

  lemma StripOne(t: string)
    requires t != [] && t[0] == '#' && t[|t|-1] == 'x'
    ensures TrimSpace(" " + t) == " " + t && StripSpace(" " + t) == t
  {
    assert (" " + t)[1..] == t;
    assert TrimSpaceLeft(t) == t;
  }

  lemma TwoHeadings(a: string, b: string, date: string, other: string)
    requires IsDate(date) && IsDate(other) && a == Opening(date) && b == Opening(other) + "x"
    ensures Count(a + "\n" + b) == 2 && Dates(a + "\n" + b) == 2
  {
    hide Headings, Dated, IsDated, IsFence, Segments, IsBreak, Opening, IsSpace;
    OpeningIsHeading(date);
    OpeningIsHeading(other);
    SpaceAndMark();
    SegmentsOfLine(a);
    SegmentsOfLine(b);
    SegmentsConcat(a, '\n', b);
    assert a + ['\n'] + b == a + "\n" + b;
    HeadingFirst(a + "\n" + b, date);
    LongerHeading(other, b);
    HeadingOfLine(b, 1, false);
    assert ([a] + [b])[1..] == [b];
    OneDated(Heading(1, Some(DateOf(b))));
  }

  lemma OneDated(h: Heading)
    requires h.date.Some?
    ensures |Dated([h])| == 1
  {
    assert Dated([h][1..]) == [];
  }

  // ------------------------------------------------------------------------------------------------
  // Rendering

  /** The bodies, stripped, joined by empty lines. */
  function Rendered(fs: seq<DatedFragment>): string {
    if fs == [] then []
    else if |fs| == 1 then StripSpace(fs[0].text)
    else StripSpace(fs[0].text) + "\n\n" + Rendered(fs[1..])
  }

  function SectionsOf(fs: seq<DatedFragment>): (ss: seq<Section>)
    ensures |ss| == |fs|
  {
    if fs == [] then [] else [SectionOf(fs[0])] + SectionsOf(fs[1..])
  }

  /** The first section a fragment splits into. */
  function SectionOf(f: DatedFragment): Section {
    var ss := SplitDated(StripSpace(f.text));
    if ss == [] then Section(f.date, "") else ss[0]
  }

  lemma {:induction false} SectionsAt(fs: seq<DatedFragment>, i: nat)
    requires i < |fs|
    ensures SectionsOf(fs)[i] == SectionOf(fs[i])
  {
    hide SectionOf;
    if i > 0 {
      SectionsAt(fs[1..], i - 1);
    }
  }

  /** The fragment's text is one section. */
  predicate Single(f: DatedFragment) {
    |SplitDated(StripSpace(f.text))| == 1
  }

  predicate AllValid(fs: seq<DatedFragment>) {
    forall i :: 0 <= i < |fs| ==> IsValid(fs[i])
  }

  /** A valid fragment's text: its heading comes first, and no white space last. */
  lemma ValidText(f: DatedFragment)
    requires IsValid(f)
    ensures var t := StripSpace(f.text); t != [] && !IsSpace(t[|t|-1]) && SplitLines(t) == Segments(t) && Opening(f.date) <= t
    ensures var t := StripSpace(f.text); Starts(Segments(t), 0, false) != [] && Starts(Segments(t), 0, false)[0] == Start(0, f.date)
  {
    hide Headings, Dated, IsDated, IsFence, Segments, IsSpace, IsBreak, TrimSpace, Opening, IsDate, SplitLines, TrimSpaceLeft, SplitDated;
    var k := Stripped(f.text);
    TrimSpaceIsPrefix(f.text);
    var t := StripSpace(f.text);
    assert t[|t|-1] == TrimSpace(f.text)[|TrimSpace(f.text)|-1];
    SplitCounts(t);
    HeadingFirst(t, f.date);
  }

  /** A single valid fragment is a whole section of the fragment's very lines. */
  lemma SingleFragment(f: DatedFragment)
    requires IsValid(f) && Single(f)
    ensures var ss := SplitDated(StripSpace(f.text));
            ss[0] == SectionOf(f) && ss[0].date == f.date && Segments(ss[0].body) == Segments(StripSpace(f.text)) && Whole(ss[0])
  {
    hide Headings, Dated, IsDated, IsFence, Segments, IsSpace, IsBreak, TrimSpace, Opening, IsDate, SplitLines, TrimSpaceLeft, Dates, StripNewlines, Join, Whole, DropBlankLeft, DropBlankRight, StripSpace;
    ValidText(f);
    var t := StripSpace(f.text);
    SplitCounts(t);
    HeadingFirst(t, f.date);
    SplitGivesWhole(t);
    var lines := Segments(t);
    StartsAscend(lines);
    CutAt(lines, Starts(lines, 0, false), 0);
    assert lines[0..|lines|] == lines;
    SegmentsAreLines(t);
    StripJoin(lines);
    LastLine(t);
    Untrimmed(lines, f.date);
    SegmentsOfJoin(lines);
  }

  lemma Untrimmed(lines: seq<string>, date: string)
    requires lines != [] && lines[|lines|-1] != [] && IsDated(lines[0])
    ensures DropBlankLeft(DropBlankRight(lines)) == lines
  {
  }

  /** The rendering begins with the first fragment's heading and ends without white space. */
  lemma {:induction false} RenderedEnds(fs: seq<DatedFragment>)
    requires fs != [] && AllValid(fs)
    ensures Rendered(fs) != [] && !IsSpace(Rendered(fs)[|Rendered(fs)|-1]) && Opening(fs[0].date) <= Rendered(fs)
  {
    hide IsValid, Segments, SplitDated, StripSpace, IsSpace, Opening, Starts;
    ValidText(fs[0]);
    if |fs| > 1 {
      RenderedEnds(fs[1..]);
    }
  }

  lemma {:induction false} RenderedLines(fs: seq<DatedFragment>)
    requires fs != [] && AllValid(fs) && forall i :: 0 <= i < |fs| ==> Single(fs[i])
    ensures Segments(Rendered(fs)) == Layout(SectionsOf(fs))
  {
    hide IsValid, Single, Segments, SplitDated, StripSpace, SectionOf;
    SingleFragment(fs[0]);
    var ss := SectionsOf(fs);
    if |fs| > 1 {
      RenderedLines(fs[1..]);
      Spaced(StripSpace(fs[0].text), Rendered(fs[1..]));
      assert ss[1..] == SectionsOf(fs[1..]);
    }
  }

  // A fragment that is more than one section carries more lines than its first section.

  function Lines(fs: seq<DatedFragment>): nat {
    if fs == [] then 0 else Weight(Segments(StripSpace(fs[0].text))) + Lines(fs[1..])
  }

  lemma {:induction false} RenderedWeight(fs: seq<DatedFragment>)
    requires fs != []
    ensures Weight(Segments(Rendered(fs))) == Lines(fs)
  {
    hide Segments, StripSpace;
    if |fs| == 1 {
      assert Lines(fs[1..]) == 0;
    } else {
      var first, rest := StripSpace(fs[0].text), Rendered(fs[1..]);
      RenderedWeight(fs[1..]);
      Spaced(first, rest);
      WeightConcat(Segments(first), [""]);
      WeightConcat(Segments(first) + [""], Segments(rest));
      assert Weight([""]) == 0 by {
        assert [""][1..] == [];
      }
    }
  }

  /** A text that begins with a dated heading loses only empty lines when it is cut. */
  lemma CutKeepsWeight(t: string)
    requires SplitLines(t) == Segments(t) && Starts(Segments(t), 0, false) != [] && Starts(Segments(t), 0, false)[0].line == 0
    ensures SectionsWeight(SplitDated(t)) == Weight(Segments(t))
  {
    hide Segments, Starts, SplitLines, Cut, OneLine;
    var lines := Segments(t);
    SegmentsAreLines(t);
    StartsAscend(lines);
    CutWeight(lines, Starts(lines, 0, false));
    assert lines[0..] == lines;
  }

  lemma FragmentWeight(f: DatedFragment)
    requires IsValid(f)
    ensures var first, all := Weight(Segments(SectionOf(f).body)), Weight(Segments(StripSpace(f.text)));
            first <= all && (first == all <==> Single(f))
  {
    hide IsValid, Segments, StripSpace, Starts, SplitDated, Whole, Opening, IsSpace, SplitLines;
    ValidText(f);
    var t := StripSpace(f.text);
    CutKeepsWeight(t);
    SplitGivesWhole(t);
    var ss := SplitDated(t);
    NotEmpty(t);
    if |ss| > 1 {
      assert Whole(ss[1]);
      WholeWeighs(ss[1]);
      assert ss[1..][0] == ss[1];
    } else {
      assert SectionsWeight(ss[1..]) == 0;
    }
  }

  lemma NotEmpty(t: string)
    requires SplitLines(t) == Segments(t) && Starts(Segments(t), 0, false) != []
    ensures SplitDated(t) != []
  {
    hide Starts, Segments, SplitLines;
    StartsAscend(SplitLines(t));
  }

  lemma WholeWeighs(s: Section)
    requires Whole(s)
    ensures Weight(Segments(s.body)) > 0
  {
    hide Starts, IsDated;
    FirstLineIsHeading(Segments(s.body), 0, s.date);
  }

  lemma {:induction false} FragmentsWeigh(fs: seq<DatedFragment>)
    requires AllValid(fs)
    ensures SectionsWeight(SectionsOf(fs)) <= Lines(fs)
    ensures SectionsWeight(SectionsOf(fs)) == Lines(fs) ==> forall i :: 0 <= i < |fs| ==> Single(fs[i])
  {
    hide IsValid, Segments, StripSpace, SectionOf, Single;
    if fs != [] {
      var ss := SectionsOf(fs);
      FragmentWeight(fs[0]);
      FragmentsWeigh(fs[1..]);
      assert ss[1..] == SectionsOf(fs[1..]);
      if SectionsWeight(ss) == Lines(fs) {
        forall i | 0 <= i < |fs| ensures Single(fs[i]) {
          assert i > 0 ==> fs[i] == fs[1..][i - 1];
        }
      }
    }
  }

  /**
   Rendered fragments that passed the check split back into one section each, in the order rendered, exactly
   when every fragment is a single section and none but the last leaves a code fence open.
   */
  lemma RenderedFragmentsSplit(fs: seq<DatedFragment>)
    requires fs != [] && AllValid(fs)
    ensures SplitDated(Rendered(fs)) == SectionsOf(fs) <==>
            (forall i :: 0 <= i < |fs| ==> Single(fs[i])) && forall i :: 0 <= i < |fs| - 1 ==> Closed(SectionsOf(fs)[i])
  {
    hide IsValid, Single, Segments, SplitDated, Closed, Rendered, SectionsOf, Starts, Weight, IsSpace, Opening, SplitLines;
    var text := Rendered(fs);
    RenderedEnds(fs);
    SplitCounts(text);
    RenderedBegins(fs);
    if SplitDated(text) == SectionsOf(fs) {
      CutKeepsWeight(text);
      RenderedWeight(fs);
      FragmentsWeigh(fs);
    }
    if forall i :: 0 <= i < |fs| ==> Single(fs[i]) {
      SinglesSplit(fs);
    }
  }

  lemma RenderedBegins(fs: seq<DatedFragment>)
    requires fs != [] && AllValid(fs) && Opening(fs[0].date) <= Rendered(fs)
    ensures var starts := Starts(Segments(Rendered(fs)), 0, false); starts != [] && starts[0].line == 0
  {
    hide Headings, Dated, IsDated, IsFence, Segments, Opening, Rendered, IsDate, StripSpace, SplitLines;
    assert IsDate(fs[0].date);
    HeadingFirst(Rendered(fs), fs[0].date);
  }

  lemma SinglesSplit(fs: seq<DatedFragment>)
    requires fs != [] && AllValid(fs) && forall i :: 0 <= i < |fs| ==> Single(fs[i])
    requires Rendered(fs) != [] && !IsSpace(Rendered(fs)[|Rendered(fs)|-1])
    ensures SplitDated(Rendered(fs)) == SectionsOf(fs) <==> forall i :: 0 <= i < |fs| - 1 ==> Closed(SectionsOf(fs)[i])
  {
    hide IsValid, Single, Segments, StripSpace, IsSpace, Closed, Whole, Starts, FenceAfter, Layout, Cut, Expected, SplitLines, Dates, SectionOf, Rendered, SectionsOf;
    RenderedLines(fs);
    var ss, text := SectionsOf(fs), Rendered(fs);
    forall i | 0 <= i < |fs| ensures Whole(ss[i]) {
      SingleFragment(fs[i]);
      SectionsAt(fs, i);
    }
    SplitCounts(text);
    SplitGivesWhole(text);
    if forall i :: 0 <= i < |ss| - 1 ==> Closed(ss[i]) {
      LayoutStarts(ss, 0);
      CutLayout([], ss);
      assert [] + Layout(ss) == Layout(ss);
    }
  }
}
