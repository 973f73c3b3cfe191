/** Newest-first logs of dated sections: finding section headings, cutting, sorting and merging. */
module DatedLog {
  import opened Text
  import opened Options

  predicate IsDigit(c: char) {
    '0' <= c <= '9'
  }

  /** `\d{4}-\d{2}-\d{2}` */
  predicate IsDate(s: string) {
    && |s| == 10 && s[4] == '-' && s[7] == '-'
    && IsDigit(s[0]) && IsDigit(s[1]) && IsDigit(s[2]) && IsDigit(s[3])
    && IsDigit(s[5]) && IsDigit(s[6]) && IsDigit(s[8]) && IsDigit(s[9])
  }

  /** What a dated heading line starts with. */
  function Opening(date: string): string {
    "## " + date + " - "
  }

  predicate IsDated(line: string) {
    |line| >= 16 && IsDate(line[3..13]) && Opening(line[3..13]) <= line
  }

  function DateOf(line: string): string
    requires IsDated(line)
  {
    line[3..13]
  }

  predicate IsFence(line: string) {
    var t := TrimSpaceLeft(line);
    "```" <= t || "~~~" <= t
  }

  // What the patterns match, said without them.

  /** The number a digit stands for. */
  function Digit(c: char): nat
    requires IsDigit(c)
  {
    c as int - '0' as int
  }

  function Year(d: string): nat
    requires IsDate(d)
  {
    1000 * Digit(d[0]) + 100 * Digit(d[1]) + 10 * Digit(d[2]) + Digit(d[3])
  }

  function Month(d: string): nat
    requires IsDate(d)
  {
    10 * Digit(d[5]) + Digit(d[6])
  }

  function Day(d: string): nat
    requires IsDate(d)
  {
    10 * Digit(d[8]) + Digit(d[9])
  }

  /** The date's place in time, months of up to 99 days and years of up to 99 months. */
  function DateNumber(d: string): nat
    requires IsDate(d)
  {
    10000 * Year(d) + 100 * Month(d) + Day(d)
  }

  /** The last decimal digit of a number. */
  function LastDigit(n: nat): char {
    "0123456789"[n % 10]
  }

  /** A date written out, year first, in a fixed number of digits. */
  function DateText(year: nat, month: nat, day: nat): string {
    [LastDigit(year / 10 / 10 / 10), LastDigit(year / 10 / 10), LastDigit(year / 10), LastDigit(year), '-',
     LastDigit(month / 10), LastDigit(month), '-', LastDigit(day / 10), LastDigit(day)]
  }

  lemma LastDigitIs(n: nat)
    ensures IsDigit(LastDigit(n)) && Digit(LastDigit(n)) == n % 10
  {
    var d := n % 10;
    assert "0123456789"[d] as int == 48 + d;
  }

  lemma DigitIsLast(c: char, n: nat)
    requires IsDigit(c) && n % 10 == Digit(c)
    ensures LastDigit(n) == c
  {
    LastDigitIs(n);
  }

  lemma TenTimes(q: nat, r: nat)
    requires r < 10
    ensures (10 * q + r) / 10 == q && (10 * q + r) % 10 == r
  {
  }

  lemma Decimals(a: nat, b: nat, c: nat, d: nat)
    requires a < 10 && b < 10 && c < 10 && d < 10
    ensures var n := 1000 * a + 100 * b + 10 * c + d;
            n / 10 / 10 / 10 % 10 == a && n / 10 / 10 % 10 == b && n / 10 % 10 == c && n % 10 == d
  {
    TenTimes(100 * a + 10 * b + c, d);
    TenTimes(10 * a + b, c);
    TenTimes(a, b);
    TenTimes(0, a);
  }

  lemma DecimalsBack(n: nat)
    requires n < 10000
    ensures n == 1000 * (n / 10 / 10 / 10 % 10) + 100 * (n / 10 / 10 % 10) + 10 * (n / 10 % 10) + n % 10
    ensures n < 100 ==> n == 10 * (n / 10 % 10) + n % 10
  {
    var a, b, c := n / 10, n / 10 / 10, n / 10 / 10 / 10;
    assert n == 10 * a + n % 10 && a == 10 * b + a % 10 && b == 10 * c + b % 10;
    assert c < 10 && (n < 100 ==> a < 10);
  }

  /** Every year, month and day in range has a date, and it reads back. */
  lemma DateReadsBack(year: nat, month: nat, day: nat)
    requires year < 10000 && month < 100 && day < 100
    ensures var d := DateText(year, month, day);
            IsDate(d) && Year(d) == year && Month(d) == month && Day(d) == day
  {
    hide LastDigit;
    LastDigitIs(year / 10 / 10 / 10);
    LastDigitIs(year / 10 / 10);
    LastDigitIs(year / 10);
    LastDigitIs(year);
    LastDigitIs(month / 10);
    LastDigitIs(month);
    LastDigitIs(day / 10);
    LastDigitIs(day);
    DecimalsBack(year);
    DecimalsBack(month);
    DecimalsBack(day);
  }

  /** And there are no other dates. */
  lemma DateIsText(d: string)
    requires IsDate(d)
    ensures Year(d) < 10000 && Month(d) < 100 && Day(d) < 100 && d == DateText(Year(d), Month(d), Day(d))
  {
    hide LastDigit;
    Decimals(Digit(d[0]), Digit(d[1]), Digit(d[2]), Digit(d[3]));
    Decimals(0, 0, Digit(d[5]), Digit(d[6]));
    Decimals(0, 0, Digit(d[8]), Digit(d[9]));
    DigitIsLast(d[0], Year(d) / 10 / 10 / 10);
    DigitIsLast(d[1], Year(d) / 10 / 10);
    DigitIsLast(d[2], Year(d) / 10);
    DigitIsLast(d[3], Year(d));
    DigitIsLast(d[5], Month(d) / 10);
    DigitIsLast(d[6], Month(d));
    DigitIsLast(d[8], Day(d) / 10);
    DigitIsLast(d[9], Day(d));
    assert d == [d[0], d[1], d[2], d[3], d[4], d[5], d[6], d[7], d[8], d[9]];
  }

  /** A dated heading is two marks, a space, its date, a dash between spaces, and anything. */
  lemma DatedIs(line: string)
    ensures IsDated(line) <==> exists d :: IsDate(d) && "## " + d + " - " <= line
    ensures IsDated(line) ==> IsDate(DateOf(line)) && "## " + DateOf(line) + " - " <= line
  {
    if d :| IsDate(d) && "## " + d + " - " <= line {
      var o := "## " + d + " - ";
      assert line[..|o|] == o && line[3..13] == o[3..13] == d;
    }
  }

  /** Three equal marks, back quotes or tildes, after white space only. */
  predicate FenceAt(line: string, k: nat) {
    && k + 3 <= |line| && (forall i :: 0 <= i < k ==> IsSpace(line[i]))
    && line[k] == line[k + 1] == line[k + 2] && line[k] in {'`', '~'}
  }

  lemma {:induction false} TrimmedAt(line: string) returns (k: nat)
    ensures k <= |line| && TrimSpaceLeft(line) == line[k..] && forall i :: 0 <= i < k ==> IsSpace(line[i])
    ensures k < |line| ==> !IsSpace(line[k])
  {
    k := 0;
    if line != [] && IsSpace(line[0]) {
      var j := TrimmedAt(line[1..]);
      k := j + 1;
      forall i | 0 <= i < k ensures IsSpace(line[i]) {
        assert i > 0 ==> line[i] == line[1..][i - 1];
      }
    }
  }

  lemma FenceIs(line: string)
    ensures IsFence(line) <==> exists k: nat :: FenceAt(line, k)
  {
    var k := TrimmedAt(line);
    var t := line[k..];
    assert forall i :: 0 <= i < |t| ==> t[i] == line[k + i];
    if IsFence(line) {
      assert t[0] == t[1] == t[2];
      assert FenceAt(line, k);
    }
    if j: nat :| FenceAt(line, j) {
      assert !IsSpace(line[j]);
      assert j == k;
      assert t[..3] == [line[k], line[k + 1], line[k + 2]];
    }
  }

  datatype Heading = Heading(line: nat, date: Option<string>)

  /** Section headings outside fences, numbered from `k`; a fence line toggles and is never a heading. */
  function Headings(lines: seq<string>, k: nat, fenced: bool): seq<Heading> {
    if lines == [] then []
    else if IsFence(lines[0]) then Headings(lines[1..], k + 1, !fenced)
    else
      var rest := Headings(lines[1..], k + 1, fenced);
      if fenced then rest
      else if IsDated(lines[0]) then [Heading(k, Some(DateOf(lines[0])))] + rest
      else if "## " <= lines[0] then [Heading(k, None)] + rest
      else rest
  }

  function FenceAfter(lines: seq<string>, fenced: bool): bool {
    if lines == [] then fenced else FenceAfter(lines[1..], IsFence(lines[0]) != fenced)
  }

  datatype Start = Start(line: nat, date: string)

  function Dated(headings: seq<Heading>): seq<Start> {
    if headings == [] then []
    else if headings[0].date.Some? then [Start(headings[0].line, headings[0].date.value)] + Dated(headings[1..])
    else Dated(headings[1..])
  }

  /** The dated starts of some lines. */
  function Starts(lines: seq<string>, k: nat, fenced: bool): seq<Start> {
    Dated(Headings(lines, k, fenced))
  }

  lemma {:induction false} DatedConcat(a: seq<Heading>, b: seq<Heading>)
    ensures Dated(a + b) == Dated(a) + Dated(b)
  {
    if a == [] {
      assert a + b == b;
    } else {
      DatedConcat(a[1..], b);
      assert (a + b)[1..] == a[1..] + b;
    }
  }

  lemma {:induction false} HeadingsConcat(a: seq<string>, b: seq<string>, k: nat, fenced: bool)
    ensures Headings(a + b, k, fenced) == Headings(a, k, fenced) + Headings(b, k + |a|, FenceAfter(a, fenced))
    ensures FenceAfter(a + b, fenced) == FenceAfter(b, FenceAfter(a, fenced))
  {
    hide IsFence, IsDated;
    if a == [] {
      assert a + b == b;
    } else {
      HeadingsConcat(a[1..], b, k + 1, IsFence(a[0]) != fenced);
      assert (a + b)[1..] == a[1..] + b;
    }
  }

  lemma StartsConcat(a: seq<string>, b: seq<string>, k: nat, fenced: bool)
    ensures Starts(a + b, k, fenced) == Starts(a, k, fenced) + Starts(b, k + |a|, FenceAfter(a, fenced))
    ensures FenceAfter(a + b, fenced) == FenceAfter(b, FenceAfter(a, fenced))
  {
    HeadingsConcat(a, b, k, fenced);
    DatedConcat(Headings(a, k, fenced), Headings(b, k + |a|, FenceAfter(a, fenced)));
  }

  /** The scan of the tool, with its fence flag. */
  method HeadingLines(text: string) returns (found: seq<Heading>)
    ensures found == Headings(SplitLines(text), 0, false)
  {
    hide IsFence, IsDated, SplitLines;
    var lines := SplitLines(text);
    found := [];
    var inFence := false;
    for i := 0 to |lines|
      invariant found == Headings(lines[..i], 0, false) && inFence == FenceAfter(lines[..i], false)
    {
      var line := lines[i];
      assert lines[..i+1] == lines[..i] + [line];
      HeadingsConcat(lines[..i], [line], 0, false);
      if IsFence(line) {
        inFence := !inFence;
      } else if !inFence {
        if IsDated(line) {
          found := found + [Heading(i, Some(DateOf(line)))];
        } else if "## " <= line {
          found := found + [Heading(i, None)];
        }
      }
    }
    assert lines[..|lines|] == lines;
  }

  /** Every start is a dated heading outside fences, in ascending order. */
  lemma {:induction false} StartsAreHeadings(lines: seq<string>, k: nat, fenced: bool)
    ensures var starts := Starts(lines, k, fenced);
            && (forall p :: 0 <= p < |starts| ==> StartAt(lines, k, fenced, starts[p]))
            && (forall p, q :: 0 <= p < q < |starts| ==> starts[p].line < starts[q].line)
  {
    hide IsFence, IsDated;
    if lines != [] {
      StartsAreHeadings(lines[1..], k + 1, IsFence(lines[0]) != fenced);
      var rest := Starts(lines[1..], k + 1, IsFence(lines[0]) != fenced);
      forall p | 0 <= p < |rest| ensures StartAt(lines, k, fenced, rest[p]) {
        assert StartAt(lines[1..], k + 1, IsFence(lines[0]) != fenced, rest[p]);
        var i := rest[p].line - k;
        assert lines[..i][1..] == lines[1..][..i-1];
      }
    }
  }

  predicate StartAt(lines: seq<string>, k: nat, fenced: bool, s: Start) {
    && k <= s.line < k + |lines|
    && IsDated(lines[s.line - k]) && DateOf(lines[s.line - k]) == s.date
    && !IsFence(lines[s.line - k]) && !FenceAfter(lines[..s.line - k], fenced)
  }

  // ------------------------------------------------------------------------------------------------
  // Cutting a text into dated sections

  datatype Section = Section(date: string, body: string)

  predicate Ascending(starts: seq<Start>, n: nat) {
    && (forall p :: 0 <= p < |starts| ==> starts[p].line < n)
    && (forall p, q :: 0 <= p < q < |starts| ==> starts[p].line < starts[q].line)
  }

  /** Each section runs to the next start, or to the end, and loses the newlines at its ends. */
  function Cut(lines: seq<string>, starts: seq<Start>): seq<Section>
    requires Ascending(starts, |lines|)
  {
    if starts == [] then []
    else
      var end := if |starts| > 1 then starts[1].line else |lines|;
      [Section(starts[0].date, StripNewlines(Join(lines[starts[0].line..end])))] + Cut(lines, starts[1..])
  }

  lemma StartsAscend(lines: seq<string>)
    ensures Ascending(Starts(lines, 0, false), |lines|)
  {
    StartsAreHeadings(lines, 0, false);
  }

  function Sections(lines: seq<string>): seq<Section> {
    StartsAscend(lines);
    Cut(lines, Starts(lines, 0, false))
  }

  function SplitDated(text: string): seq<Section> {
    Sections(SplitLines(text))
  }

  method SplitDatedSections(text: string) returns (sections: seq<Section>)
    ensures sections == SplitDated(text)
  {
    hide IsFence, IsDated, SplitLines, Headings, Dated;
    var lines := SplitLines(text);
    var headings := HeadingLines(text);
    StartsAscend(lines);
    var starts := Dated(headings);
    sections := [];
    for position := 0 to |starts|
      invariant sections + Cut(lines, starts[position..]) == Cut(lines, starts)
    {
      var end := if position + 1 < |starts| then starts[position + 1].line else |lines|;
      sections := sections + [Section(starts[position].date, StripNewlines(Join(lines[starts[position].line..end])))];
      assert starts[position..][1..] == starts[position+1..];
    }
  }

  /** A section that stands on its own: one dated heading, at its top, and text to its last line. */
  ghost predicate Whole(s: Section) {
    var b := Segments(s.body);
    && s.body == Join(b) && b[|b|-1] != []
    && Starts(b, 0, false) == [Start(0, s.date)]
  }

  /** The section leaves no code fence open. */
  predicate Closed(s: Section) {
    !FenceAfter(Segments(s.body), false)
  }

  /** The lines of sections separated by one empty line. */
  function Layout(ss: seq<Section>): seq<string> {
    if ss == [] then []
    else if |ss| == 1 then Segments(ss[0].body)
    else Segments(ss[0].body) + [""] + Layout(ss[1..])
  }

  /** `"\n\n".join` of the bodies. */
  function JoinSections(ss: seq<Section>): string {
    if ss == [] then []
    else if |ss| == 1 then ss[0].body
    else ss[0].body + "\n\n" + JoinSections(ss[1..])
  }

  lemma {:induction false} LayoutIsSegments(ss: seq<Section>)
    requires ss != []
    ensures Segments(JoinSections(ss)) == Layout(ss)
  {
    hide Segments, IsBreak;
    if |ss| > 1 {
      LayoutIsSegments(ss[1..]);
      Spaced(ss[0].body, JoinSections(ss[1..]));
    }
  }

  /** An empty line between two texts. */
  lemma Spaced(first: string, rest: string)
    ensures Segments(first + "\n\n" + rest) == Segments(first) + [""] + Segments(rest)
  {
    hide Segments;
    NoText();
    SegmentsConcat("", '\n', rest);
    assert "" + ['\n'] + rest == ['\n'] + rest;
    SegmentsConcat(first, '\n', ['\n'] + rest);
    assert first + ['\n'] + (['\n'] + rest) == first + "\n\n" + rest;
    assert Segments(first) + ([""] + Segments(rest)) == Segments(first) + [""] + Segments(rest);
  }

  function Expected(ss: seq<Section>, k: nat): seq<Start> {
    if ss == [] then [] else [Start(k, ss[0].date)] + Expected(ss[1..], k + |Segments(ss[0].body)| + 1)
  }

  lemma {:induction false} StartsShift(lines: seq<string>, k: nat, fenced: bool)
    ensures var a, b := Starts(lines, 0, fenced), Starts(lines, k, fenced);
            |a| == |b| && forall p :: 0 <= p < |a| ==> b[p] == Start(a[p].line + k, a[p].date)
  {
    hide IsFence, IsDated;
    if lines != [] {
      StartsShift(lines[1..], 1, IsFence(lines[0]) != fenced);
      StartsShift(lines[1..], k + 1, IsFence(lines[0]) != fenced);
    }
  }

  lemma WholeStarts(s: Section, k: nat)
    requires Whole(s)
    ensures Starts(Segments(s.body), k, false) == [Start(k, s.date)]
  {
    StartsShift(Segments(s.body), k, false);
  }

  lemma EmptyLine(k: nat, fenced: bool)
    ensures Starts([""], k, fenced) == [] && FenceAfter([""], fenced) == fenced
  {
    assert !IsFence("") && !IsDated("") && [""][1..] == [];
    assert Headings([""], k, fenced) == [];
  }

  lemma {:induction false} LayoutStarts(ss: seq<Section>, k: nat)
    requires forall i :: 0 <= i < |ss| ==> Whole(ss[i])
    requires forall i :: 0 <= i < |ss| - 1 ==> Closed(ss[i])
    ensures Starts(Layout(ss), k, false) == Expected(ss, k)
  {
    hide Whole, Starts, FenceAfter;
    if ss == [] {
      assert Starts(Layout(ss), k, false) == [] by {
        NoStarts(k);
      }
    } else if |ss| == 1 {
      WholeStarts(ss[0], k);
    } else {
      var b, rest := Segments(ss[0].body), ss[1..];
      assert Closed(ss[0]);
      WholeStarts(ss[0], k);
      LayoutStarts(rest, k + |b| + 1);
      EmptyLine(k + |b|, false);
      StartsConcat(b, [""], k, false);
      StartsConcat(b + [""], Layout(rest), k, false);
      ClosedIs(ss[0]);
      assert Layout(ss) == b + [""] + Layout(rest);
    }
  }

  lemma ClosedIs(s: Section)
    ensures Closed(s) ==> FenceAfter(Segments(s.body), false) == false
  {
  }

  lemma NoStarts(k: nat)
    ensures Starts([], k, false) == []
  {
  }

  lemma {:induction false} ExpectedAscend(ss: seq<Section>, k: nat, n: nat)
    requires k + |Layout(ss)| <= n
    ensures Ascending(Expected(ss, k), n)
    ensures forall p :: 0 <= p < |Expected(ss, k)| ==> k <= Expected(ss, k)[p].line
  {
    if |ss| == 1 {
      assert Expected(ss[1..], k + |Segments(ss[0].body)| + 1) == [];
    } else if ss != [] {
      ExpectedAscend(ss[1..], k + |Segments(ss[0].body)| + 1, n);
    }
  }

  /** A whole section survives the trimming of the newlines around it. */
  lemma WholeIsTrimmed(s: Section, tail: seq<string>)
    requires Whole(s) && (tail == [] || tail == [""])
    ensures StripNewlines(Join(Segments(s.body) + tail)) == s.body
  {
    var b := Segments(s.body);
    SegmentsAreLines(s.body);
    StripJoin(b + tail);
    FirstLineIsHeading(b, 0, s.date);
    assert DropBlankRight(b) == b && DropBlankLeft(b) == b;
    if tail == [] {
      assert b + tail == b;
    } else {
      assert (b + tail)[..|b + tail|-1] == b;
    }
  }

  /** Cutting behind any preamble recovers the sections that were laid out. */
  lemma {:induction false} CutLayout(preamble: seq<string>, ss: seq<Section>)
    requires forall i :: 0 <= i < |ss| ==> Whole(ss[i])
    ensures Ascending(Expected(ss, |preamble|), |preamble| + |Layout(ss)|)
    ensures Cut(preamble + Layout(ss), Expected(ss, |preamble|)) == ss
    decreases |ss|
  {
    hide Whole, StripNewlines, Join, Segments;
    ExpectedAscend(ss, |preamble|, |preamble| + |Layout(ss)|);
    if ss != [] {
      var b, rest, lines := Segments(ss[0].body), ss[1..], preamble + Layout(ss);
      var starts := Expected(ss, |preamble|);
      var tail := if rest == [] then [] else [""];
      var longer := preamble + b + [""];
      WholeIsTrimmed(ss[0], tail);
      assert starts[1..] == Expected(rest, |longer|);
      if rest == [] {
        assert |starts| == 1 && starts[1..] == [];
        assert lines[|preamble|..|lines|] == b + tail;
        assert Cut(lines, starts[1..]) == [];
        assert ss == [ss[0]];
      } else {
        CutLayout(longer, rest);
        assert longer + Layout(rest) == lines;
        assert starts[1].line == |longer|;
        assert lines[|preamble|..|longer|] == b + tail;
        assert [ss[0]] + rest == ss;
      }
    }
  }

  // ------------------------------------------------------------------------------------------------
  // What cutting a text yields

  /** Empty lines at the end neither start sections nor move fences. */
  lemma {:induction false} DropBlankKeepsStarts(lines: seq<string>, k: nat, fenced: bool)
    ensures Starts(DropBlankRight(lines), k, fenced) == Starts(lines, k, fenced)
    ensures FenceAfter(DropBlankRight(lines), fenced) == FenceAfter(lines, fenced)
    ensures DropBlankRight(lines) == [] || DropBlankRight(lines)[|DropBlankRight(lines)|-1] != []
    ensures DropBlankRight(lines) <= lines
  {
    hide Starts, FenceAfter;
    if lines != [] && lines[|lines|-1] == [] {
      var init := lines[..|lines|-1];
      DropBlankKeepsStarts(init, k, fenced);
      StartsConcat(init, [""], k, fenced);
      EmptyLine(k + |init|, FenceAfter(init, fenced));
      assert lines == init + [""];
    }
  }

  /** A run of lines with one dated heading, at its top, becomes a whole section that closes what the run closes. */
  lemma RunIsWhole(run: seq<string>, k: nat, date: string)
    requires AllLines(run) && Starts(run, k, false) == [Start(k, date)]
    ensures Whole(Section(date, StripNewlines(Join(run))))
    ensures Closed(Section(date, StripNewlines(Join(run)))) <==> !FenceAfter(run, false)
  {
    hide Headings, Dated, FenceAfter, IsFence, IsDated;
    var b := DropBlankRight(run);
    DropBlankKeepsStarts(run, k, false);
    NoStarts(k);
    assert b != [];
    FirstLineIsHeading(b, k, date);
    StripJoin(run);
    assert DropBlankLeft(b) == b;
    SegmentsOfJoin(b);
    StartsShift(b, k, false);
  }

  lemma FirstLineIsHeading(lines: seq<string>, k: nat, date: string)
    requires Starts(lines, k, false) == [Start(k, date)]
    ensures lines != [] && lines[0] != [] && IsDated(lines[0])
  {
    StartsAreHeadings(lines, k, false);
    assert StartAt(lines, k, false, Starts(lines, k, false)[0]);
  }

  /** The lines between two starts hold the first of them only, and end outside any fence. */
  lemma RunBetween(lines: seq<string>, p: nat)
    requires p < |Starts(lines, 0, false)|
    ensures Ascending(Starts(lines, 0, false), |lines|)
    ensures var starts := Starts(lines, 0, false);
            var end := if p + 1 < |starts| then starts[p + 1].line else |lines|;
            var run := lines[starts[p].line..end];
            && Starts(run, starts[p].line, false) == [starts[p]]
            && (p + 1 < |starts| ==> !FenceAfter(run, false))
            && FenceAfter(lines[..starts[p].line], false) == false
  {
    hide IsFence, IsDated, Headings, Dated, FenceAfter;
    var starts := Starts(lines, 0, false);
    StartsAreHeadings(lines, 0, false);
    assert StartAt(lines, 0, false, starts[p]);
    var from := starts[p].line;
    var end := if p + 1 < |starts| then starts[p + 1].line else |lines|;
    if p + 1 < |starts| {
      assert StartAt(lines, 0, false, starts[p + 1]);
    }
    var head, run, tail := lines[..from], lines[from..end], lines[end..];
    assert lines == head + (run + tail);
    assert lines[..end] == head + run;
    StartsConcat(head, run + tail, 0, false);
    StartsConcat(run, tail, from, false);
    StartsConcat(head, run, 0, false);
    var f := FenceAfter(run, false);
    StartsAreWithin(head, 0, false);
    StartsAreWithin(run, from, false);
    StartsAreWithin(tail, end, f);
    MiddleIsOne(Starts(head, 0, false), Starts(run, from, false), Starts(tail, end, f), p, from, end, |lines|);
  }

  lemma StartsAreWithin(lines: seq<string>, k: nat, fenced: bool)
    ensures forall p :: 0 <= p < |Starts(lines, k, fenced)| ==> k <= Starts(lines, k, fenced)[p].line < k + |lines|
  {
    StartsAreHeadings(lines, k, fenced);
    forall p | 0 <= p < |Starts(lines, k, fenced)| ensures k <= Starts(lines, k, fenced)[p].line < k + |lines| {
      assert StartAt(lines, k, fenced, Starts(lines, k, fenced)[p]);
    }
  }

  /** Of ascending starts split at two of them, the middle part holds just the first. */
  lemma MiddleIsOne(a: seq<Start>, m: seq<Start>, b: seq<Start>, p: nat, from: nat, end: nat, n: nat)
    requires var all := a + (m + b);
             && p < |all| && all[p].line == from && Ascending(all, n)
             && (if p + 1 < |all| then all[p + 1].line == end else end == n)
    requires (forall i :: 0 <= i < |a| ==> a[i].line < from) && (forall i :: 0 <= i < |m| ==> from <= m[i].line < end)
    requires forall i :: 0 <= i < |b| ==> end <= b[i].line
    ensures m == [(a + (m + b))[p]]
  {
    var all := a + (m + b);
    assert forall i :: 0 <= i < |a| ==> all[i] == a[i];
    assert forall i :: |a| <= i < |a| + |m| ==> all[i] == m[i - |a|];
    assert forall i :: |a| + |m| <= i < |all| ==> all[i] == b[i - |a| - |m|];
    assert |a| <= p < |a| + |m|;
    assert all[|a|] == m[0];
    assert |a| == p;
    SecondOfMiddle(a, m, b);
  }

  lemma SecondOfMiddle(a: seq<Start>, m: seq<Start>, b: seq<Start>)
    ensures |m| > 1 ==> (a + (m + b))[|a| + 1] == m[1]
  {
  }

  lemma {:induction false} CutAt(lines: seq<string>, starts: seq<Start>, p: nat)
    requires Ascending(starts, |lines|) && p < |starts|
    ensures |Cut(lines, starts)| == |starts|
    ensures var end := if p + 1 < |starts| then starts[p + 1].line else |lines|;
            Cut(lines, starts)[p] == Section(starts[p].date, StripNewlines(Join(lines[starts[p].line..end])))
  {
    hide StripNewlines, Join;
    if |starts| == 1 {
      assert Cut(lines, starts[1..]) == [];
    } else {
      CutAt(lines, starts[1..], if p == 0 then 0 else p - 1);
    }
  }

  /** Cutting any text yields whole sections, all but perhaps the last leaving no fence open. */
  lemma SplitGivesWhole(text: string)
    ensures var ss := SplitDated(text);
            (forall i :: 0 <= i < |ss| ==> Whole(ss[i])) && (forall i :: 0 <= i < |ss| - 1 ==> Closed(ss[i]))
  {
    hide Whole, Closed, StripNewlines, Join, Cut, Starts;
    var lines := SplitLines(text);
    var starts, ss := Starts(lines, 0, false), SplitDated(text);
    SegmentsAreLines(text);
    StartsAscend(lines);
    assert |ss| == |starts| by {
      if starts != [] {
        CutAt(lines, starts, 0);
      } else {
        CutNothing(lines);
      }
    }
    forall i | 0 <= i < |ss| ensures Whole(ss[i]) && (i < |ss| - 1 ==> Closed(ss[i])) {
      RunBetween(lines, i);
      CutAt(lines, starts, i);
      var end := if i + 1 < |starts| then starts[i + 1].line else |lines|;
      RunIsWhole(lines[starts[i].line..end], starts[i].line, starts[i].date);
    }
  }

  lemma CutNothing(lines: seq<string>)
    ensures Cut(lines, []) == []
  {
  }

  // ------------------------------------------------------------------------------------------------
  // Sorting

  /** Python's order on strings. */
  predicate AtMost(a: string, b: string) {
    a == [] || (b != [] && (a[0] < b[0] || (a[0] == b[0] && AtMost(a[1..], b[1..]))))
  }

  lemma {:induction false} AtMostTotal(a: string, b: string)
    ensures AtMost(a, b) || AtMost(b, a)
  {
    if a != [] && b != [] {
      AtMostTotal(a[1..], b[1..]);
    }
  }

  lemma {:induction false} AtMostTransitive(a: string, b: string, c: string)
    requires AtMost(a, b) && AtMost(b, c)
    ensures AtMost(a, c)
  {
    if a != [] && b != [] && c != [] {
      if a[0] == b[0] == c[0] {
        AtMostTransitive(a[1..], b[1..], c[1..]);
      }
    }
  }

  /** The order of strings by their characters' codes: a prefix comes first, else the smaller code at the first difference. */
  predicate Differs(a: string, b: string, k: nat) {
    k < |a| && k < |b| && a[..k] == b[..k] && a[k] as int < b[k] as int
  }

  lemma {:induction false} AtMostIs(a: string, b: string)
    ensures AtMost(a, b) <==> a <= b || exists k: nat :: Differs(a, b, k)
  {
    if a == [] || b == [] {
    } else {
      AtMostIs(a[1..], b[1..]);
      if a[0] == b[0] {
        assert a == [a[0]] + a[1..] && b == [b[0]] + b[1..];
        if k: nat :| Differs(a[1..], b[1..], k) {
          assert a[..k + 1] == [a[0]] + a[1..][..k] && b[..k + 1] == [b[0]] + b[1..][..k];
          assert Differs(a, b, k + 1);
        }
        if k: nat :| Differs(a, b, k) {
          assert a[1..][..k - 1] == a[..k][1..] && b[1..][..k - 1] == b[..k][1..];
          assert Differs(a[1..], b[1..], k - 1);
        }
        if a <= b {
          assert a[1..] <= b[1..];
        }
      } else if a[0] < b[0] {
        assert Differs(a, b, 0);
      } else {
        forall k: nat ensures !Differs(a, b, k) {
          assert k > 0 && k < |a| && k < |b| ==> a[..k][0] == a[0] && b[..k][0] == b[0];
        }
      }
    }
  }

  /** On dates the order of the strings is the order in time. */
  lemma DatesInOrder(a: string, b: string)
    requires IsDate(a) && IsDate(b)
    ensures AtMost(a, b) <==> DateNumber(a) <= DateNumber(b)
  {
    hide AtMost;
    AtMostIs(a, b);
    if k: nat :| Differs(a, b, k) {
      SmallerDate(a, b, k);
    } else if a == b {
    } else {
      var k := FirstDifference(a, b);
      assert Differs(a, b, k) || Differs(b, a, k);
      SmallerDate(b, a, k);
    }
  }

  lemma SmallerDate(a: string, b: string, k: nat)
    requires IsDate(a) && IsDate(b) && Differs(a, b, k)
    ensures DateNumber(a) < DateNumber(b)
  {
    assert forall i :: 0 <= i < k ==> a[i] == a[..k][i] == b[..k][i] == b[i];
  }

  lemma {:induction false} FirstDifference(a: string, b: string) returns (k: nat)
    requires |a| == |b| && a != b
    ensures k < |a| && a[..k] == b[..k] && a[k] != b[k]
  {
    if a[0] != b[0] {
      k := 0;
    } else {
      assert a == [a[0]] + a[1..] && b == [b[0]] + b[1..];
      var j := FirstDifference(a[1..], b[1..]);
      k := j + 1;
      assert a[..k] == [a[0]] + a[1..][..j] && b[..k] == [b[0]] + b[1..][..j];
    }
  }

  /** `sort(key=date, reverse=True)`: newest first, and Python keeps equal keys in their order. */
  function SortNewestFirst(ss: seq<Section>): seq<Section> {
    if ss == [] then [] else Insert(ss[0], SortNewestFirst(ss[1..]))
  }

  function Insert(s: Section, sorted: seq<Section>): seq<Section> {
    if sorted == [] || AtMost(sorted[0].date, s.date) then [s] + sorted
    else [sorted[0]] + Insert(s, sorted[1..])
  }

  predicate NewestFirst(ss: seq<Section>) {
    forall i, j :: 0 <= i < j < |ss| ==> AtMost(ss[j].date, ss[i].date)
  }

  /** Dates all, and none later than one before it. */
  predicate Descending(ss: seq<Section>) {
    && (forall i :: 0 <= i < |ss| ==> IsDate(ss[i].date))
    && forall i, j :: 0 <= i < j < |ss| ==> DateNumber(ss[j].date) <= DateNumber(ss[i].date)
  }

  lemma NewestFirstDescends(ss: seq<Section>)
    requires NewestFirst(ss) && forall s :: s in ss ==> IsDate(s.date)
    ensures Descending(ss)
  {
    hide AtMost, IsDate, DateNumber;
    forall i, j | 0 <= i < j < |ss| ensures DateNumber(ss[j].date) <= DateNumber(ss[i].date) {
      DatesInOrder(ss[j].date, ss[i].date);
    }
  }

  function OfDate(ss: seq<Section>, date: string): seq<Section> {
    if ss == [] then [] else (if ss[0].date == date then [ss[0]] else []) + OfDate(ss[1..], date)
  }

  lemma {:induction false} InsertKeeps(s: Section, sorted: seq<Section>)
    requires NewestFirst(sorted)
    ensures NewestFirst(Insert(s, sorted))
    ensures multiset(Insert(s, sorted)) == multiset{s} + multiset(sorted)
    ensures forall x :: x in Insert(s, sorted) <==> x == s || x in sorted
  {
    if sorted == [] {
    } else if AtMost(sorted[0].date, s.date) {
      forall j | 0 <= j < |sorted| ensures AtMost(sorted[j].date, s.date) {
        if j > 0 {
          AtMostTransitive(sorted[j].date, sorted[0].date, s.date);
        }
      }
    } else {
      var rest := sorted[1..];
      InsertKeeps(s, rest);
      AtMostTotal(sorted[0].date, s.date);
      forall x | x in Insert(s, rest) ensures AtMost(x.date, sorted[0].date) {
        if x != s {
          var j :| 0 <= j < |rest| && rest[j] == x;
          assert sorted[j + 1] == x;
        }
      }
      assert sorted == [sorted[0]] + rest;
    }
  }

  lemma {:induction false} InsertIsStable(s: Section, sorted: seq<Section>, date: string)
    ensures OfDate(Insert(s, sorted), date) == (if s.date == date then [s] else []) + OfDate(sorted, date)
  {
    hide AtMost;
    AtMostReflexive(s.date);
    if sorted == [] || AtMost(sorted[0].date, s.date) {
      assert ([s] + sorted)[1..] == sorted;
    } else {
      InsertIsStable(s, sorted[1..], date);
      assert Insert(s, sorted)[1..] == Insert(s, sorted[1..]);
      if sorted[0].date == date {
        assert s.date != date;
      }
    }
  }

  lemma {:induction false} AtMostReflexive(a: string)
    ensures AtMost(a, a)
  {
    if a != [] {
      AtMostReflexive(a[1..]);
    }
  }

  /** Sorting loses and duplicates nothing, orders by date, and keeps the order within each date. */
  lemma {:induction false} SortIsStable(ss: seq<Section>)
    ensures NewestFirst(SortNewestFirst(ss)) && multiset(SortNewestFirst(ss)) == multiset(ss)
    ensures forall x :: x in SortNewestFirst(ss) <==> x in ss
    ensures forall date :: OfDate(SortNewestFirst(ss), date) == OfDate(ss, date)
  {
    if ss != [] {
      var rest := SortNewestFirst(ss[1..]);
      SortIsStable(ss[1..]);
      InsertKeeps(ss[0], rest);
      assert ss == [ss[0]] + ss[1..];
      forall date ensures OfDate(Insert(ss[0], rest), date) == OfDate(ss, date) {
        InsertIsStable(ss[0], rest, date);
      }
    }
  }

  // ------------------------------------------------------------------------------------------------
  // Merging

  predicate Occurs(text: string, pattern: string, i: nat) {
    i + |pattern| <= |text| && text[i..i + |pattern|] == pattern
  }

  /** `text.index(pattern)`, searching from `i`. */
  function Find(text: string, pattern: string, i: nat): Option<nat>
    requires i <= |text|
    decreases |text| - i
  {
    if Occurs(text, pattern, i) then Some(i) else if i == |text| then None else Find(text, pattern, i + 1)
  }

  lemma {:induction false} FindIsFirst(text: string, pattern: string, i: nat)
    requires i <= |text|
    ensures Find(text, pattern, i).Some? ==>
              var k := Find(text, pattern, i).value;
              i <= k <= |text| && Occurs(text, pattern, k) && forall j: nat :: i <= j < k ==> !Occurs(text, pattern, j)
    ensures Find(text, pattern, i).None? ==> forall j: nat :: i <= j ==> !Occurs(text, pattern, j)
    decreases |text| - i
  {
    if !Occurs(text, pattern, i) && i < |text| {
      FindIsFirst(text, pattern, i + 1);
    }
  }

  /** Where the `i`-th line begins. */
  function Offset(segments: seq<string>, i: nat): nat
    requires i <= |segments|
  {
    if i == 0 then 0 else |segments[0]| + 1 + Offset(segments[1..], i - 1)
  }

  lemma {:induction false} OffsetSplits(text: string, i: nat)
    requires i < |Segments(text)|
    ensures var segments := Segments(text);
            var off := Offset(segments, i);
            && off <= |text| && segments[i] <= text[off..]
            && (i == 0 ==> off == 0)
            && (i > 0 ==> off > 0 && IsBreak(text[off - 1]) && Segments(text[..off - 1]) == segments[..i])
    decreases |text|
  {
    hide IsBreak, Segments;
    FirstSegment(text);
    var segments := Segments(text);
    if i > 0 {
      var n := |segments[0]|;
      var rest := text[n + 1..];
      OffsetSplits(rest, i - 1);
      var off := Offset(segments, i);
      assert text[off..] == rest[off - n - 1..];
      if i > 1 {
        assert text[..off - 1] == text[..n] + [text[n]] + rest[..off - n - 2];
        SegmentsConcat(text[..n], text[n], rest[..off - n - 2]);
        assert [segments[0]] + segments[1..][..i - 1] == segments[..i];
      } else {
        assert text[..off - 1] == text[..n] && segments[..1] == [segments[0]];
      }
    }
  }

  /** A text is its first line, then perhaps a break and the rest. */
  lemma {:induction false} FirstSegment(text: string)
    ensures var segments := Segments(text);
            var n := |segments[0]|;
            && n <= |text| && segments[0] == text[..n] && Segments(text[..n]) == [segments[0]]
            && (|segments| > 1 ==> n < |text| && IsBreak(text[n]) && Segments(text[n + 1..]) == segments[1..])
  {
    hide IsBreak;
    if text != [] && !IsBreak(text[0]) {
      FirstSegment(text[1..]);
      var n := |Segments(text)[0]|;
      assert text[..n][1..] == text[1..][..n - 1];
      if |Segments(text)| > 1 {
        assert text[1..][n - 1 + 1..] == text[n + 1..];
      }
    }
  }

  // Trimming white space off the preamble

  lemma OneLineStarts(line: string, k: nat, fenced: bool)
    ensures Starts([line], k, fenced) == if !fenced && !IsFence(line) && IsDated(line) then [Start(k, DateOf(line))] else []
    ensures FenceAfter([line], fenced) == (IsFence(line) != fenced)
  {
    hide IsFence, IsDated;
    assert [line][1..] == [];
    NoHeadings(k + 1);
    if !IsFence(line) && !fenced && (IsDated(line) || "## " <= line) {
      var h := Heading(k, if IsDated(line) then Some(DateOf(line)) else None);
      assert Headings([line], k, fenced) == [h] && [h][1..] == [];
      assert Dated([h][1..]) == [];
    }
  }

  lemma NoHeadings(k: nat)
    ensures Headings([], k, true) == Headings([], k, false) == []
  {
  }

  lemma {:induction false} SpaceKeepsTrim(line: string, c: char)
    requires IsSpace(c)
    ensures TrimSpaceLeft(line + [c]) == if TrimSpaceLeft(line) == [] then [] else TrimSpaceLeft(line) + [c]
  {
    hide IsSpace;
    if line == [] {
      assert line + [c] == [c] && [c][1..] == [];
    } else if IsSpace(line[0]) {
      SpaceKeepsTrim(line[1..], c);
      assert (line + [c])[1..] == line[1..] + [c];
    }
  }

  lemma SpaceKeepsFence(line: string, c: char)
    requires IsSpace(c)
    ensures IsFence(line + [c]) == IsFence(line)
    ensures IsDated(line) ==> IsDated(line + [c])
  {
    SpaceKeepsTrim(line, c);
    var t := TrimSpaceLeft(line);
    if |t| == 2 {
      assert (t + [c])[2] == c;
    }
    if IsDated(line) {
      assert (line + [c])[3..13] == line[3..13];
    }
  }

  lemma {:induction false} SegmentsSnoc(text: string, c: char)
    requires !IsBreak(c)
    ensures var r := Segments(text);
            Segments(text + [c]) == r[..|r|-1] + [r[|r|-1] + [c]]
  {
    hide IsBreak;
    if text == [] {
      assert text + [c] == [c] && [c][1..] == [] && [c] + [] == [c];
      assert Segments([c]) == [[c]];
    } else {
      SegmentsSnoc(text[1..], c);
      assert (text + [c])[1..] == text[1..] + [c] && (text + [c])[0] == text[0];
      SnocAcross(text[0], Segments(text[1..]), c);
    }
  }

  lemma SnocAcross(t: char, x: seq<string>, c: char)
    requires |x| > 0
    ensures var y := x[..|x|-1] + [x[|x|-1] + [c]];
            var a, b := [[]] + x, [[t] + x[0]] + x[1..];
            && [[]] + y == a[..|a|-1] + [a[|a|-1] + [c]]
            && [[t] + y[0]] + y[1..] == b[..|b|-1] + [b[|b|-1] + [c]]
  {
    if |x| == 1 {
      assert [t] + (x[0] + [c]) == ([t] + x[0]) + [c];
    }
  }

  /** The text starts no section and leaves no fence open. */
  predicate Quiet(lines: seq<string>) {
    Starts(lines, 0, false) == [] && !FenceAfter(lines, false)
  }

  lemma {:induction false} TrimKeepsQuiet(text: string)
    requires Quiet(Segments(text))
    ensures Quiet(Segments(TrimSpace(text)))
  {
    hide Starts, FenceAfter, IsFence, IsDated, IsSpace;
    if text != [] && IsSpace(text[|text|-1]) {
      var init, c := text[..|text|-1], text[|text|-1];
      assert text == init + [c];
      var r := Segments(init);
      if IsBreak(c) {
        SegmentsConcat(init, c, "");
        assert init + [c] + "" == text;
        EmptyLine(|r|, FenceAfter(r, false));
        StartsConcat(r, [""], 0, false);
      } else {
        SegmentsSnoc(init, c);
        var head, last := r[..|r|-1], r[|r|-1];
        assert r == head + [last];
        StartsConcat(head, [last], 0, false);
        StartsConcat(head, [last + [c]], 0, false);
        OneLineStarts(last, |head|, FenceAfter(head, false));
        OneLineStarts(last + [c], |head|, FenceAfter(head, false));
        SpaceKeepsFence(last, c);
      }
      TrimKeepsQuiet(init);
    }
  }

  /** Where the first dated section really begins. */
  function FirstOffset(text: string): nat
    requires SplitDated(text) != []
  {
    StartsAscend(SplitLines(text));
    Offset(Segments(text), Starts(SplitLines(text), 0, false)[0].line)
  }

  /** What the tool takes for it: the first place the heading's opening occurs at all. */
  function FoundOffset(text: string): Option<nat>
    requires SplitDated(text) != []
  {
    Find(text, Opening(SplitDated(text)[0].date), 0)
  }

  /** Everything before the first section is quiet, and the opening occurs where the section begins. */
  lemma PreambleIsQuiet(text: string)
    requires SplitDated(text) != []
    ensures FirstOffset(text) <= |text| && Occurs(text, Opening(SplitDated(text)[0].date), FirstOffset(text))
    ensures Quiet(Segments(TrimSpace(text[..FirstOffset(text)])))
    ensures FoundOffset(text).Some? && FoundOffset(text).value <= FirstOffset(text)
  {
    hide Starts, FenceAfter, IsFence, IsDated, StripNewlines, Segments, Cut, Find, TrimSpace, Ascending, Quiet;
    var i := FirstStart(text);
    var off := FirstOffset(text);
    OffsetSplits(text, i);
    OpeningAtHeading(text, off, Segments(text)[i]);
    FindIsFirst(text, Opening(SplitDated(text)[0].date), 0);
    if i == 0 {
      assert text[..off] == "";
      NothingIsQuiet();
    } else {
      TrimKeepsQuiet(text[..off - 1]);
      TrimSpaceStep(text[..off]);
      assert text[..off][..off - 1] == text[..off - 1];
    }
  }

  lemma NothingIsQuiet()
    ensures Quiet(Segments(TrimSpace("")))
  {
    EmptyLine(0, false);
  }

  lemma TrimSpaceStep(t: string)
    requires t != [] && IsBreak(t[|t|-1])
    ensures TrimSpace(t) == TrimSpace(t[..|t|-1])
  {
  }

  /** The line of the first dated heading, and what is known about it. */
  lemma FirstStart(text: string) returns (i: nat)
    requires SplitDated(text) != []
    ensures i < |Segments(text)| && Quiet(Segments(text)[..i])
    ensures IsDated(Segments(text)[i]) && DateOf(Segments(text)[i]) == SplitDated(text)[0].date
    ensures FirstOffset(text) == Offset(Segments(text), i)
  {
    hide Segments, IsDated, Headings, Dated, Quiet, FenceAfter, IsFence, Cut, Offset;
    FirstHasDate(text);
    var lines := SplitLines(text);
    var starts := Starts(lines, 0, false);
    StartsAreHeadings(lines, 0, false);
    HeadIsQuiet(lines);
    assert StartAt(lines, 0, false, starts[0]);
    assert lines[..starts[0].line] == Segments(text)[..starts[0].line];
    i := starts[0].line;
  }

  lemma HeadIsQuiet(lines: seq<string>)
    requires Starts(lines, 0, false) != []
    ensures var i := Starts(lines, 0, false)[0].line;
            i < |lines| && Quiet(lines[..i])
  {
    hide Headings, Dated, FenceAfter, IsFence, IsDated;
    var starts := Starts(lines, 0, false);
    StartsAreHeadings(lines, 0, false);
    assert StartAt(lines, 0, false, starts[0]);
    var i := starts[0].line;
    var head := lines[..i];
    assert lines == head + lines[i..];
    StartsConcat(head, lines[i..], 0, false);
    StartsAreWithin(head, 0, false);
    FirstOfConcat(Starts(head, 0, false), Starts(lines[i..], i, FenceAfter(head, false)));
  }

  lemma FirstOfConcat(a: seq<Start>, b: seq<Start>)
    ensures a != [] ==> (a + b)[0] == a[0]
  {
  }

  lemma FirstHasDate(text: string)
    requires SplitDated(text) != []
    ensures Starts(SplitLines(text), 0, false) != []
    ensures SplitDated(text)[0].date == Starts(SplitLines(text), 0, false)[0].date
  {
    StartsAscend(SplitLines(text));
  }

  lemma OpeningAtHeading(text: string, off: nat, line: string)
    requires off <= |text| && line <= text[off..] && IsDated(line)
    ensures Occurs(text, Opening(DateOf(line)), off)
  {
    var o := Opening(DateOf(line));
    assert text[off..][..|o|] == line[..|o|] == o;
    assert text[off..off + |o|] == text[off..][..|o|];
  }

  /** `merge_dated_document`: `None` where the document has no dated section. */
  function Merge(text: string, fragments: string): Option<string> {
    var existing := SplitDated(text);
    if existing == [] then None
    else
      PreambleIsQuiet(text);
      var first := FoundOffset(text).value;
      Some(TrimSpace(text[..first]) + "\n\n" + JoinSections(SortNewestFirst(existing + SplitDated(fragments))) + "\n")
  }

  method MergeDatedDocument(text: string, fragments: string) returns (merged: Option<string>)
    ensures merged == Merge(text, fragments)
  {
    hide SplitDated, Find;
    var existing := SplitDatedSections(text);
    if existing == [] {
      return None;
    }
    PreambleIsQuiet(text);
    var first := Find(text, Opening(existing[0].date), 0).value;
    var added := SplitDatedSections(fragments);
    var sections := SortNewestFirst(existing + added);
    merged := Some(TrimSpace(text[..first]) + "\n\n" + JoinSections(sections) + "\n");
  }

  // ------------------------------------------------------------------------------------------------
  // What a merge preserves

  /** The merged sections in their final order. */
  function Merged(text: string, fragments: string): seq<Section> {
    SortNewestFirst(SplitDated(text) + SplitDated(fragments))
  }

  lemma MergedAreWhole(text: string, fragments: string)
    ensures forall s :: s in Merged(text, fragments) ==> Whole(s)
  {
    hide Whole;
    SplitGivesWhole(text);
    SplitGivesWhole(fragments);
    SortIsStable(SplitDated(text) + SplitDated(fragments));
  }

  /** The lines of a merged document. */
  lemma MergedLines(preamble: string, ss: seq<Section>)
    requires ss != []
    ensures SplitLines(TrimSpace(preamble) + "\n\n" + JoinSections(ss) + "\n") ==
            Segments(TrimSpace(preamble)) + [""] + Layout(ss)
  {
    hide Segments, Layout, JoinSections, TrimSpace;
    var t, m := TrimSpace(preamble), JoinSections(ss);
    LayoutIsSegments(ss);
    NoText();
    SegmentsConcat(m, '\n', "");
    assert m + ['\n'] + "" == m + "\n";
    SegmentsConcat("", '\n', m + "\n");
    assert "" + ['\n'] + (m + "\n") == ['\n'] + (m + "\n");
    SegmentsConcat(t, '\n', ['\n'] + (m + "\n"));
    assert t + ['\n'] + (['\n'] + (m + "\n")) == t + "\n\n" + m + "\n";
    var all := Segments(t) + ([""] + (Layout(ss) + [""]));
    assert all[|all|-1] == "" && all[..|all|-1] == Segments(t) + [""] + Layout(ss);
  }

  lemma NoText()
    ensures Segments("") == [""]
  {
  }

  /** Sections laid out below a quiet preamble, none but the last leaving a fence open, are found again. */
  lemma LayoutIsFound(preamble: seq<string>, ss: seq<Section>)
    requires Quiet(preamble) && (forall i :: 0 <= i < |ss| ==> Whole(ss[i])) && (forall i :: 0 <= i < |ss| - 1 ==> Closed(ss[i]))
    ensures Sections(preamble + [""] + Layout(ss)) == ss
  {
    hide Whole, Closed, Starts, FenceAfter, Layout, Cut, Expected;
    var top := preamble + [""];
    EmptyLine(|preamble|, false);
    StartsConcat(preamble, [""], 0, false);
    StartsConcat(top, Layout(ss), 0, false);
    LayoutStarts(ss, |top|);
    CutLayout(top, ss);
    assert Starts(top + Layout(ss), 0, false) == Expected(ss, |top|);
  }

  // A preamble cut off anywhere above the first section starts no section itself.

  lemma LongerStaysDated(line: string, c: char)
    requires IsDated(line)
    ensures IsDated(line + [c]) && !IsFence(line + [c])
  {
    assert (line + [c])[3..13] == line[3..13];
    assert (line + [c])[0] == Opening(line[3..13])[0] == '#';
  }

  lemma {:induction false} PrefixHasNoStarts(t: string, k: nat)
    requires k <= |t| && Starts(Segments(t), 0, false) == []
    ensures Starts(Segments(t[..k]), 0, false) == []
    decreases |t|
  {
    hide Starts, FenceAfter, IsFence, IsDated, Segments;
    if k == |t| {
      assert t[..k] == t;
    } else {
      var init, c := t[..|t|-1], t[|t|-1];
      assert t == init + [c] && init[..k] == t[..k];
      InitHasNoStarts(init, c);
      PrefixHasNoStarts(init, k);
    }
  }

  lemma InitHasNoStarts(init: string, c: char)
    requires Starts(Segments(init + [c]), 0, false) == []
    ensures Starts(Segments(init), 0, false) == []
  {
    hide Starts, FenceAfter, IsFence, IsDated, IsBreak, Segments;
    var r := Segments(init);
    if IsBreak(c) {
      SegmentsConcat(init, c, "");
      assert init + [c] + "" == init + [c];
      StartsConcat(r, Segments(""), 0, false);
    } else {
      SegmentsSnoc(init, c);
      var head, last := r[..|r|-1], r[|r|-1];
      assert r == head + [last];
      StartsConcat(head, [last], 0, false);
      StartsConcat(head, [last + [c]], 0, false);
      OneLineStarts(last, |head|, FenceAfter(head, false));
      OneLineStarts(last + [c], |head|, FenceAfter(head, false));
      if IsDated(last) {
        LongerStaysDated(last, c);
      }
    }
  }

  lemma {:induction false} TrimIsPrefix(t: string)
    ensures TrimSpace(t) <= t
  {
    if t != [] && IsSpace(t[|t|-1]) {
      TrimIsPrefix(t[..|t|-1]);
    }
  }

  lemma AboveFirstHasNoStarts(text: string)
    requires SplitDated(text) != []
    ensures FirstOffset(text) <= |text| && Starts(Segments(text[..FirstOffset(text)]), 0, false) == []
  {
    hide Starts, FenceAfter, IsFence, IsDated, Segments, FirstOffset, SplitDated, Offset;
    var i := FirstStart(text);
    var off := FirstOffset(text);
    OffsetSplits(text, i);
    NoText();
    EmptyLine(0, false);
    if i == 0 {
      assert text[..off] == "";
    } else {
      var above := text[..off - 1];
      SegmentsConcat(above, text[off - 1], "");
      assert above + [text[off - 1]] + "" == text[..off];
      StartsConcat(Segments(above), [""], 0, false);
      EmptyLine(|Segments(above)|, FenceAfter(Segments(above), false));
    }
  }

  /** What a merge keeps of the text above the first section. */
  function Kept(text: string): string
    requires SplitDated(text) != []
  {
    PreambleIsQuiet(text);
    TrimSpace(text[..FoundOffset(text).value])
  }

  lemma KeptHasNoStarts(text: string)
    requires SplitDated(text) != []
    ensures Starts(Segments(Kept(text)), 0, false) == []
  {
    hide Starts, Segments, FirstOffset, FoundOffset, SplitDated, Quiet;
    PreambleIsQuiet(text);
    AboveFirstHasNoStarts(text);
    var above, found := text[..FirstOffset(text)], FoundOffset(text).value;
    assert above[..found] == text[..found];
    TrimIsPrefix(text[..found]);
    var t := Kept(text);
    assert above[..|t|] == t;
    PrefixHasNoStarts(above, |t|);
  }

  // Counting the lines that are not empty.

  function Weight(lines: seq<string>): nat {
    if lines == [] then 0 else (if lines[0] == [] then 0 else 1) + Weight(lines[1..])
  }

  function SectionsWeight(ss: seq<Section>): nat {
    if ss == [] then 0 else Weight(Segments(ss[0].body)) + SectionsWeight(ss[1..])
  }

  lemma {:induction false} WeightConcat(a: seq<string>, b: seq<string>)
    ensures Weight(a + b) == Weight(a) + Weight(b)
  {
    if a == [] {
      assert a + b == b;
    } else {
      WeightConcat(a[1..], b);
      assert (a + b)[1..] == a[1..] + b;
    }
  }

  lemma {:induction false} LayoutWeight(ss: seq<Section>)
    ensures Weight(Layout(ss)) == SectionsWeight(ss)
  {
    hide Segments;
    if |ss| == 1 {
      assert SectionsWeight(ss[1..]) == 0;
    } else if ss != [] {
      var b := Segments(ss[0].body);
      LayoutWeight(ss[1..]);
      WeightConcat(b, [""]);
      WeightConcat(b + [""], Layout(ss[1..]));
      assert Weight([""]) == 0 by {
        assert [""][1..] == [];
      }
      assert Layout(ss) == b + [""] + Layout(ss[1..]);
    }
  }

  lemma {:induction false} DropLeftWeight(lines: seq<string>)
    ensures Weight(DropBlankLeft(lines)) == Weight(lines)
  {
    if lines != [] && lines[0] == [] {
      DropLeftWeight(lines[1..]);
    }
  }

  lemma {:induction false} DropRightWeight(lines: seq<string>)
    ensures Weight(DropBlankRight(lines)) == Weight(lines)
  {
    if lines != [] && lines[|lines|-1] == [] {
      var init := lines[..|lines|-1];
      DropRightWeight(init);
      WeightConcat(init, [""]);
      assert lines == init + [""];
      assert Weight([""]) == 0 by {
        assert [""][1..] == [];
      }
    }
  }

  /** Stripping a run of lines loses empty lines only. */
  lemma RunWeight(run: seq<string>)
    requires AllLines(run)
    ensures Weight(Segments(StripNewlines(Join(run)))) == Weight(run)
  {
    hide StripNewlines, Segments, OneLine;
    StripJoin(run);
    DropRightWeight(run);
    DropLeftWeight(DropBlankRight(run));
    var kept := DropBlankLeft(DropBlankRight(run));
    if kept == [] {
      NoText();
      assert [""][1..] == [];
    } else {
      SegmentsOfJoin(kept);
    }
  }

  /** The cut sections hold every line from the first start on, empty ones aside. */
  lemma {:induction false} CutWeight(lines: seq<string>, starts: seq<Start>)
    requires Ascending(starts, |lines|) && AllLines(lines) && starts != []
    ensures SectionsWeight(Cut(lines, starts)) == Weight(lines[starts[0].line..])
    decreases |starts|
  {
    hide StripNewlines, Join, Segments, Weight, OneLine;
    var end := if |starts| > 1 then starts[1].line else |lines|;
    var run := lines[starts[0].line..end];
    var cut := Cut(lines, starts);
    RunWeight(run);
    assert cut[1..] == Cut(lines, starts[1..]);
    if |starts| == 1 {
      assert SectionsWeight(cut[1..]) == 0;
      assert lines[starts[0].line..] == run;
    } else {
      CutWeight(lines, starts[1..]);
      WeightConcat(run, lines[end..]);
      assert lines[starts[0].line..] == run + lines[end..];
    }
  }

  /** Below lines that leave a fence open, the first laid out heading is no start. */
  lemma FirstIsSwallowed(preamble: seq<string>, layout: seq<string>)
    requires Starts(preamble, 0, false) == [] && FenceAfter(preamble, false)
    ensures var starts := Starts(preamble + [""] + layout, 0, false);
            starts != [] ==> |preamble| + 1 < starts[0].line < |preamble| + 1 + |layout|
  {
    hide Starts, FenceAfter, IsFence, IsDated;
    var top := preamble + [""];
    EmptyLine(|preamble|, true);
    StartsConcat(preamble, [""], 0, false);
    StartsConcat(top, layout, 0, false);
    StartsAreHeadings(layout, |top|, true);
    var starts := Starts(layout, |top|, true);
    assert [] + starts == starts;
    if starts != [] {
      assert StartAt(layout, |top|, true, starts[0]);
      assert FenceAfter([], true) by {
        NothingToggles();
      }
      assert layout[..0] == [];
    }
  }

  lemma NothingToggles()
    ensures FenceAfter([], true)
  {
  }

  /** So the sections found there are not the ones that were laid out: they weigh less. */
  lemma SwallowedIsLost(preamble: seq<string>, ss: seq<Section>)
    requires AllLines(preamble) && Starts(preamble, 0, false) == [] && FenceAfter(preamble, false)
    requires ss != [] && forall s :: s in ss ==> Whole(s)
    ensures Sections(preamble + [""] + Layout(ss)) != ss
  {
    hide Starts, FenceAfter, Cut, Segments, OneLine, Whole;
    var layout := Layout(ss);
    var lines := preamble + [""] + layout;
    var starts := Starts(lines, 0, false);
    FirstIsSwallowed(preamble, layout);
    StartsAscend(lines);
    LayoutAreLines(ss);
    LayoutWeight(ss);
    LayoutBegins(ss);
    if starts == [] {
      CutNothing(lines);
    } else {
      CutWeight(lines, starts);
      var j := starts[0].line - |preamble| - 1;
      assert lines[starts[0].line..] == layout[j..];
      WeightConcat(layout[1..j], layout[j..]);
      assert layout[1..] == layout[1..j] + layout[j..];
    }
  }

  lemma LayoutBegins(ss: seq<Section>)
    requires ss != [] && Whole(ss[0])
    ensures Layout(ss) != [] && Layout(ss)[0] != []
  {
    hide Starts, IsDated;
    FirstLineIsHeading(Segments(ss[0].body), 0, ss[0].date);
  }

  lemma {:induction false} LayoutAreLines(ss: seq<Section>)
    ensures AllLines(Layout(ss)) && OneLine("")
  {
    if ss != [] {
      SegmentsAreLines(ss[0].body);
      LayoutAreLines(ss[1..]);
    }
  }

  /**
   Merging keeps every section: cutting the result yields existing and added sections, newest first by the
   numbers of their dates, equal dates in their old order with existing ones first, nothing lost and nothing twice. This holds exactly
   when what is kept above them leaves no code fence open, and neither does any merged section but the last.
   */
  lemma MergeKeepsSections(text: string, fragments: string)
    requires SplitDated(text) != []
    ensures SplitDated(Merge(text, fragments).value) == Merged(text, fragments) <==>
            !FenceAfter(Segments(Kept(text)), false) &&
            forall i :: 0 <= i < |Merged(text, fragments)| - 1 ==> Closed(Merged(text, fragments)[i])
    ensures Descending(Merged(text, fragments))
    ensures multiset(Merged(text, fragments)) == multiset(SplitDated(text)) + multiset(SplitDated(fragments))
    ensures forall date :: OfDate(Merged(text, fragments), date) ==
                           OfDate(SplitDated(text), date) + OfDate(SplitDated(fragments), date)
  {
    hide SplitDated, FenceAfter, Closed, FirstOffset, FoundOffset, NewestFirst, Descending, SortNewestFirst, OfDate, Segments, Merge, Kept;
    var existing, added := SplitDated(text), SplitDated(fragments);
    var ss := Merged(text, fragments);
    SortIsStable(existing + added);
    forall date ensures OfDate(ss, date) == OfDate(existing, date) + OfDate(added, date) {
      OfDateConcat(existing, added, date);
    }
    assert multiset(ss) == multiset(existing + added);
    assert existing[0] in existing + added;
    LayoutDecides(text, fragments);
    SectionsHaveDates(text);
    SectionsHaveDates(fragments);
    NewestFirstDescends(ss);
  }

  lemma SectionsHaveDates(text: string)
    ensures forall s :: s in SplitDated(text) ==> IsDate(s.date)
  {
    hide Whole, IsDate, Segments;
    SplitGivesWhole(text);
    forall s | s in SplitDated(text) ensures IsDate(s.date) {
      WholeHasDate(s);
    }
  }

  lemma WholeHasDate(s: Section)
    requires Whole(s)
    ensures IsDate(s.date)
  {
    hide Headings, Dated, Segments;
    var b := Segments(s.body);
    StartsAreHeadings(b, 0, false);
    assert StartAt(b, 0, false, Starts(b, 0, false)[0]);
    DatedIs(b[0]);
  }

  lemma LayoutDecides(text: string, fragments: string)
    requires SplitDated(text) != [] && Merged(text, fragments) != []
    ensures SplitDated(Merge(text, fragments).value) == Merged(text, fragments) <==>
            !FenceAfter(Segments(Kept(text)), false) &&
            forall i :: 0 <= i < |Merged(text, fragments)| - 1 ==> Closed(Merged(text, fragments)[i])
  {
    hide Closed, Segments, SplitDated, Layout, JoinSections, FirstOffset, FoundOffset, Whole, SplitLines, TrimSpace, SortNewestFirst, Starts, FenceAfter, Sections, Merged, OneLine;
    var ss, above := Merged(text, fragments), Segments(Kept(text));
    MergeIs(text, fragments);
    KeptHasNoStarts(text);
    MergedAreWhole(text, fragments);
    SegmentsAreLines(Kept(text));
    if FenceAfter(above, false) {
      SwallowedIsLost(above, ss);
    } else {
      SplitGivesWhole(Merge(text, fragments).value);
      if forall i :: 0 <= i < |ss| - 1 ==> Closed(ss[i]) {
        LayoutIsFound(above, ss);
      }
    }
  }

  lemma MergeIs(text: string, fragments: string)
    requires SplitDated(text) != [] && Merged(text, fragments) != []
    ensures SplitDated(Merge(text, fragments).value) == Sections(Segments(Kept(text)) + [""] + Layout(Merged(text, fragments)))
  {
    hide SplitDated, Segments, Layout, JoinSections, TrimSpace, Sections, FoundOffset, FirstOffset, SortNewestFirst;
    PreambleIsQuiet(text);
    ResultSections(text[..FoundOffset(text).value], Merged(text, fragments));
  }

  /** In particular, a document whose first heading is not quoted earlier keeps nothing open above its sections. */
  lemma UnquotedIsQuiet(text: string)
    requires SplitDated(text) != [] && FoundOffset(text) == Some(FirstOffset(text))
    ensures !FenceAfter(Segments(Kept(text)), false)
  {
    hide SplitDated, Segments, FirstOffset, FoundOffset;
    PreambleIsQuiet(text);
  }

  lemma ResultSections(preamble: string, ss: seq<Section>)
    requires ss != []
    ensures SplitDated(TrimSpace(preamble) + "\n\n" + JoinSections(ss) + "\n") ==
            Sections(Segments(TrimSpace(preamble)) + [""] + Layout(ss))
  {
    hide Segments, Layout, JoinSections, TrimSpace, Sections, SplitLines;
    MergedLines(preamble, ss);
  }

  lemma {:induction false} OfDateConcat(a: seq<Section>, b: seq<Section>, date: string)
    ensures OfDate(a + b, date) == OfDate(a, date) + OfDate(b, date)
  {
    if a == [] {
      assert a + b == b;
    } else {
      OfDateConcat(a[1..], b, date);
      var first := if a[0].date == date then [a[0]] else [];
      assert (a + b)[1..] == a[1..] + b && (a + b)[0] == a[0];
      assert OfDate(a, date) == first + OfDate(a[1..], date);
      Assoc(first, OfDate(a[1..], date), OfDate(b, date));
    }
  }

  /** The text above the first section survives, up to trailing white space, exactly when its heading's opening occurs nowhere earlier. */
  lemma MergeKeepsPreamble(text: string, fragments: string)
    requires SplitDated(text) != []
    ensures FoundOffset(text).Some? && FoundOffset(text).value <= FirstOffset(text) <= |text|
    ensures TrimSpace(text[..FoundOffset(text).value]) <= Merge(text, fragments).value
    ensures TrimSpace(text[..FoundOffset(text).value]) == TrimSpace(text[..FirstOffset(text)]) <==>
            FoundOffset(text).value == FirstOffset(text)
  {
    hide SplitDated, FirstOffset, Quiet, Segments, JoinSections, SortNewestFirst, Starts, TrimSpace;
    PreambleIsQuiet(text);
    var date := SplitDated(text)[0].date;
    var found, first := FoundOffset(text).value, FirstOffset(text);
    if found < first {
      FindIsFirst(text, Opening(date), 0);
      assert text[found + 0] == Opening(date)[0] == '#';
      TrimKeepsMark(text[..first], found);
      TrimIsShorter(text[..found]);
    }
  }

  /** Trimming never reaches past a character that is not white space. */
  lemma {:induction false} TrimKeepsMark(t: string, k: nat)
    requires k < |t| && t[k] == '#'
    ensures k < |TrimSpace(t)|
  {
    if IsSpace(t[|t|-1]) {
      TrimKeepsMark(t[..|t|-1], k);
    }
  }

  lemma {:induction false} TrimIsShorter(t: string)
    ensures |TrimSpace(t)| <= |t|
  {
    if t != [] && IsSpace(t[|t|-1]) {
      TrimIsShorter(t[..|t|-1]);
    }
  }

  /**
   The trap in looking for the heading's text: a document whose template quotes the heading of its newest
   section inside a fence. The tool cuts the document off inside the template, and the fence it leaves open
   swallows every section.
   */
  function QuotingDocument(date: string): string {
    var heading := Opening(date);
    "```\n" + heading + "\n```\n" + heading
  }

  lemma OpeningIsHeading(date: string)
    requires IsDate(date)
    ensures var h := Opening(date); |h| == 16 && OneLine(h) && IsDated(h) && DateOf(h) == date && !IsFence(h)
    ensures var h := Opening(date); h[0] == '#' && StripNewlines(h) == h
  {
    var h := Opening(date);
    assert h[3..13] == date;
    assert forall c :: c in date ==> IsDigit(c) || c == '-' by {
      assert date == [date[0], date[1], date[2], date[3], date[4], date[5], date[6], date[7], date[8], date[9]];
    }
  }

  lemma QuotingLines(date: string)
    requires IsDate(date)
    ensures var h := Opening(date); Segments(QuotingDocument(date)) == ["```", h, "```", h]
  {
    hide Segments, IsDated, IsFence, StripNewlines, Opening;
    OpeningIsHeading(date);
    var h := Opening(date);
    SegmentsOfLine("```");
    SegmentsOfLine(h);
    SegmentsConcat("```", '\n', h);
    SegmentsConcat("```", '\n', h + ['\n'] + ("```" + ['\n'] + h));
    SegmentsConcat(h, '\n', "```" + ['\n'] + h);
    assert "```" + ['\n'] + (h + ['\n'] + ("```" + ['\n'] + h)) == QuotingDocument(date);
  }

  lemma QuotingStarts(date: string)
    requires IsDate(date)
    ensures var h := Opening(date); Starts(["```", h, "```", h], 0, false) == [Start(3, date)]
    ensures var h := Opening(date); Starts(["```", "", h], 0, false) == []
  {
    hide Starts, FenceAfter, IsDated, Opening, IsFence;
    var h := Opening(date);
    OpeningIsHeading(date);
    FenceMark();
    EmptyLine(1, true);
    OneLineStarts("```", 0, false);
    OneLineStarts("```", 2, true);
    OneLineStarts(h, 1, true);
    OneLineStarts(h, 2, true);
    OneLineStarts(h, 3, false);
    StartsConcat(["```"], [h], 0, false);
    StartsConcat(["```"] + [h], ["```"], 0, false);
    StartsConcat(["```"] + [h] + ["```"], [h], 0, false);
    StartsConcat(["```"], [""], 0, false);
    StartsConcat(["```"] + [""], [h], 0, false);
    assert ["```"] + [h] + ["```"] + [h] == ["```", h, "```", h];
    assert ["```"] + [""] + [h] == ["```", "", h];
  }

  lemma FenceMark()
    ensures IsFence("```")
  {
  }

  lemma QuotingFound(date: string)
    requires IsDate(date)
    ensures Find(QuotingDocument(date), Opening(date), 0) == Some(4)
  {
    hide IsDated, IsFence, StripNewlines, Opening;
    OpeningIsHeading(date);
    var text, h := QuotingDocument(date), Opening(date);
    assert text[4..20] == h;
    assert Occurs(text, h, 4);
    forall j | 0 <= j < 4 ensures !Occurs(text, h, j) {
      assert text[j..j + 16][0] == text[j] == "```\n"[j];
    }
    FindIsFirst(text, h, 0);
  }

  lemma QuotingSections(date: string)
    requires IsDate(date)
    ensures SplitDated(QuotingDocument(date)) == [Section(date, Opening(date))]
    ensures FirstOffset(QuotingDocument(date)) > 4
  {
    hide Segments, Starts, IsDated, IsFence, Opening, StripNewlines, QuotingDocument;
    var text, h := QuotingDocument(date), Opening(date);
    OpeningIsHeading(date);
    QuotingLines(date);
    QuotingStarts(date);
    var lines := ["```", h, "```", h];
    assert lines[|lines|-1] != [] && SplitLines(text) == lines;
    assert lines[3..4] == [h] && Join([h]) == h;
    assert Cut(lines, [Start(3, date)][1..]) == [];
    assert Offset(lines, 3) == |lines[0]| + 1 + Offset(lines[1..], 2);
    assert |lines[0]| == 3;
    assert Offset(lines[1..], 2) >= 1;
  }

  lemma QuotingTemplateLosesEverything(date: string)
    requires IsDate(date)
    ensures SplitDated(QuotingDocument(date)) == [Section(date, Opening(date))]
    ensures FoundOffset(QuotingDocument(date)) == Some(4) && FirstOffset(QuotingDocument(date)) > 4
    ensures SplitDated(Merge(QuotingDocument(date), "").value) == []
  {
    hide Segments, Starts, Find, IsDated, IsFence, Opening, StripNewlines, TrimSpace, FirstOffset, SplitDated, Layout;
    var text, h := QuotingDocument(date), Opening(date);
    QuotingSections(date);
    QuotingFound(date);
    NothingToAdd();
    QuotingStarts(date);
    assert text[..4] == "```\n";
    TrimFence();
    var ss := [Section(date, h)];
    assert ss + [] == ss && ss[1..] == [];
    assert SortNewestFirst(ss) == ss;
    ResultSections("```\n", ss);
    OpeningIsHeading(date);
    SegmentsOfLine(h);
    SegmentsOfLine("```");
    assert Layout(ss) == [h] by {
      OneSection(ss);
    }
    assert ["```"] + [""] + [h] == ["```", "", h];
    NoSections(["```", "", h]);
  }

  lemma OneSection(ss: seq<Section>)
    requires |ss| == 1
    ensures Layout(ss) == Segments(ss[0].body)
  {
  }

  lemma NoSections(lines: seq<string>)
    requires Starts(lines, 0, false) == []
    ensures Sections(lines) == []
  {
  }

  lemma NothingToAdd()
    ensures SplitDated("") == []
  {
    assert Segments("") == [""];
    assert SplitLines("") == [];
    NoStarts(0);
  }

  lemma TrimFence()
    ensures TrimSpace("```\n") == "```"
  {
    assert "```\n"[..3] == "```";
  }
}
