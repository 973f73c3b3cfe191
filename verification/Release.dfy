/** Folding pending fragments into the maintained logs under a version. */
module Release {
  import opened Text
  import opened DatedLog
  import opened Changelog
  import opened Options

  const UNRELEASED := "## [Unreleased]"

  function VersionHeading(version: string): string {
    "## [" + version + "] - "
  }

  datatype Refusal = NoUnreleased | AlreadyReleased | StrayContent(line: string)

  datatype Folding = Folded(text: string) | NothingToFold | Refused(reason: Refusal)

  function Body(tail: string): string {
    var next := Find(tail, "\n## ", 0);
    FindIsFirst(tail, "\n## ", 0);
    if next.None? then tail else tail[..next.value]
  }

  function Remainder(tail: string): string {
    var next := Find(tail, "\n## ", 0);
    FindIsFirst(tail, "\n## ", 0);
    if next.None? then "" else tail[next.value + 1..]
  }

  function Section(version: string, date: string, merged: string): string {
    "## [" + version + "] - " + date + "\n\n" + merged + "\n"
  }

  /** What follows the first unreleased heading. */
  function Tail(text: string): string
    requires Find(text, UNRELEASED, 0).Some?
  {
    FindIsFirst(text, UNRELEASED, 0);
    text[Find(text, UNRELEASED, 0).value + |UNRELEASED|..]
  }

  /** What precedes it. */
  function Head(text: string): string
    requires Find(text, UNRELEASED, 0).Some?
  {
    FindIsFirst(text, UNRELEASED, 0);
    text[..Find(text, UNRELEASED, 0).value]
  }

  /** The release changelog with its unreleased body and the fragments folded into a section for `version`. */
  function Fold(text: string, version: string, date: string, fragments: seq<Fragment>): Folding {
    if Find(text, UNRELEASED, 0).None? then Refused(NoUnreleased)
    else if Find(text, VersionHeading(version), 0).Some? then Refused(AlreadyReleased)
    else
      match Parse(Body(Tail(text)))
      case Stray(line) => Refused(StrayContent(line))
      case Sections(existing) =>
        var merged := Render(existing, fragments);
        if merged == "" then NothingToFold
        else
          Folded(Head(text) + UNRELEASED + "\n\n" + Section(version, date, merged) + "\n" + Remainder(Tail(text)))
  }

  lemma PrefixOccurs(a: string, b: string, pattern: string, i: nat)
    requires i + |pattern| <= |a| && i + |pattern| <= |b| && a[..i + |pattern|] == b[..i + |pattern|]
    ensures Occurs(a, pattern, i) <==> Occurs(b, pattern, i)
  {
    assert a[i..i + |pattern|] == a[..i + |pattern|][i..];
    assert b[i..i + |pattern|] == b[..i + |pattern|][i..];
  }

  /** The first unreleased heading stays the first, whatever is put behind it. */
  lemma StillFirst(text: string, tail: string)
    requires Find(text, UNRELEASED, 0).Some?
    ensures Find(text, UNRELEASED, 0).value + |UNRELEASED| <= |text|
    ensures var u := Find(text, UNRELEASED, 0).value;
            Find(text[..u] + UNRELEASED + tail, UNRELEASED, 0) == Some(u)
  {
    hide Occurs, Find;
    FindIsFirst(text, UNRELEASED, 0);
    UnreleasedOccurs(text, Find(text, UNRELEASED, 0).value);
    var u := Find(text, UNRELEASED, 0).value;
    var after := text[..u] + UNRELEASED + tail;
    assert text[..u + |UNRELEASED|] == after[..u + |UNRELEASED|];
    forall j: nat | j <= u ensures Occurs(after, UNRELEASED, j) <==> Occurs(text, UNRELEASED, j) {
      assert text[..j + |UNRELEASED|] == text[..u + |UNRELEASED|][..j + |UNRELEASED|];
      assert after[..j + |UNRELEASED|] == after[..u + |UNRELEASED|][..j + |UNRELEASED|];
      PrefixOccurs(after, text, UNRELEASED, j);
    }
    FindIsFirst(after, UNRELEASED, 0);
  }

  lemma UnreleasedOccurs(text: string, u: nat)
    requires Occurs(text, UNRELEASED, u)
    ensures u + |UNRELEASED| <= |text| && text[..u + |UNRELEASED|] == text[..u] + UNRELEASED
  {
  }

  // ------------------------------------------------------------------------------------------------
  // What a release keeps

  /** What a fold rendered under the new heading. */
  function Merged(text: string, fragments: seq<Fragment>): string
    requires Find(text, UNRELEASED, 0).Some? && Parse(Body(Tail(text))).Sections?
  {
    Render(Parse(Body(Tail(text))).categories, fragments)
  }

  /** The parts of a changelog: above the first unreleased heading, below it up to the next release, and from there on. */
  ghost predicate Partitions(text: string, head: string, body: string, rest: string) {
    && text == head + "## [Unreleased]" + body + (if rest == "" then "" else "\n" + rest)
    && (forall i: nat :: i < |head| ==> !Occurs(text, "## [Unreleased]", i))
    && (forall i: nat :: !Occurs(body, "\n## ", i))
    && (rest == "" || "## " <= rest)
  }

  /** What stands between the new heading's line and the older releases. */
  function Part(merged: string): string {
    "\n" + merged + "\n\n"
  }

  lemma PartSays(merged: string, c: string)
    ensures Under(SplitLines(Part(merged)), None, c) == Under(SplitLines(merged), None, c)
  {
    hide Under, Segments;
    var lines := Segments(merged);
    PartLines(merged);
    SplitOrSegments(merged);
    TrailingBlankSaysNothing(SplitLines(merged), None, c);
    TrailingBlankSaysNothing([""] + lines, None, c);
    BlankFirst(lines, c);
  }

  lemma PartLines(merged: string)
    ensures SplitLines(Part(merged)) == [""] + Segments(merged) + [""]
  {
    hide Segments, SplitLines;
    NoText();
    Spaced(merged, "");
    assert merged + "\n\n" + "" == merged + "\n\n";
    SegmentsConcat("", '\n', merged + "\n\n");
    assert "" + ['\n'] + (merged + "\n\n") == Part(merged);
    LastIsEmpty(Part(merged), [""] + Segments(merged) + [""]);
    assert [""] + (Segments(merged) + [""] + [""]) == [""] + Segments(merged) + [""] + [""];
  }

  lemma LastIsEmpty(text: string, lines: seq<string>)
    ensures Segments(text) == lines + [""] ==> SplitLines(text) == lines
  {
    hide Segments;
  }

  lemma BlankFirst(lines: seq<string>, c: string)
    ensures Under([""] + lines, None, c) == Under(lines, None, c)
  {
    assert ([""] + lines)[1..] == lines && ([""] + lines)[0] == "";
  }

  /**
   A folded changelog keeps the old text above the unreleased heading and from the next release on; in between
   stands, below a heading line with version and date, a part that says, category by category, what the
   unreleased body and then the fragments said.
   */
  lemma FoldKeeps(text: string, version: string, date: string, fragments: seq<Fragment>)
    returns (head: string, body: string, rest: string, part: string)
    requires Fold(text, version, date, fragments).Folded? && ValidFragments(fragments)
    ensures Partitions(text, head, body, rest)
    ensures Fold(text, version, date, fragments).text ==
            head + "## [Unreleased]\n\n## [" + version + "] - " + date + "\n" + part + rest
    ensures forall c :: Under(SplitLines(part), None, c) == Under(SplitLines(body), None, c) + FragmentLines(fragments, c)
  {
    hide Parse, Under, SplitLines, Render, FragmentLines, ValidFragments, Body, Remainder, Find, Occurs, Part, Partitions;
    head, body, rest := Head(text), Body(Tail(text)), Remainder(Tail(text));
    var merged := Merged(text, fragments);
    part := Part(merged);
    IsPartition(text);
    Assembled(head, version, date, merged, rest);
    forall c ensures Under(SplitLines(part), None, c) == Under(SplitLines(body), None, c) + FragmentLines(fragments, c) {
      NothingIsLost(body, fragments, c);
      PartSays(merged, c);
    }
  }

  lemma Assembled(head: string, version: string, date: string, merged: string, rest: string)
    ensures head + UNRELEASED + "\n\n" + Section(version, date, merged) + "\n" + rest ==
            head + "## [Unreleased]\n\n## [" + version + "] - " + date + "\n" + Part(merged) + rest
  {
    var a, b := "## [Unreleased]", "\n\n";
    assert a + b == "## [Unreleased]\n\n";
    var h := "## [" + version + "] - " + date;
    assert Section(version, date, merged) == h + "\n" + ("\n" + merged + "\n");
    assert "## [Unreleased]\n\n## [" == a + b + "## [";
    assert Section(version, date, merged) + "\n" == h + "\n" + Part(merged);
  }

  lemma IsPartition(text: string)
    requires Find(text, UNRELEASED, 0).Some?
    ensures Partitions(text, Head(text), Body(Tail(text)), Remainder(Tail(text)))
  {
    hide Body, Remainder, Find, Occurs;
    FindIsFirst(text, UNRELEASED, 0);
    UnreleasedOccurs(text, Find(text, UNRELEASED, 0).value);
    var tail := Tail(text);
    assert text == text[..|Head(text)| + |UNRELEASED|] + tail;
    TailSplits(tail);
    BodyIsFirst(tail);
  }

  lemma BodyIsFirst(tail: string)
    ensures forall i: nat :: !Occurs(Body(tail), "\n## ", i)
    ensures Remainder(tail) == "" || "## " <= Remainder(tail)
  {
    hide Find, Occurs;
    FindIsFirst(tail, "\n## ", 0);
    var next, b := Find(tail, "\n## ", 0), Body(tail);
    forall i: nat ensures !Occurs(b, "\n## ", i) {
      if next.Some? {
        OccursLonger(b, tail, "\n## ", i);
      }
    }
    if next.Some? {
      OccursIs(tail, "\n## ", next.value);
      assert tail[next.value..][1..4] == "## ";
    }
  }

  lemma OccursLonger(a: string, b: string, pattern: string, i: nat)
    requires a <= b && pattern != []
    ensures Occurs(a, pattern, i) ==> Occurs(b, pattern, i) && i < |a|
  {
    if Occurs(a, pattern, i) {
      assert b[..|a|] == a;
      PrefixOccurs(a, b, pattern, i);
    }
  }

  lemma OccursIs(text: string, pattern: string, i: nat)
    requires Occurs(text, pattern, i)
    ensures i + |pattern| <= |text| && text[i..][..|pattern|] == pattern
  {
    assert text[i..][..|pattern|] == text[i..i + |pattern|];
  }

  /** Every way a fold can end, and when it does. */
  lemma FoldDecides(text: string, version: string, date: string, fragments: seq<Fragment>)
    requires ValidFragments(fragments)
    ensures var r := Fold(text, version, date, fragments);
            var unreleased := exists i: nat :: Occurs(text, "## [Unreleased]", i);
            var released := exists i: nat :: Occurs(text, "## [" + version + "] - ", i);
            && (r == Refused(NoUnreleased) <==> !unreleased)
            && (r == Refused(AlreadyReleased) <==> unreleased && released)
            && (unreleased && !released ==>
                  forall head, body, rest :: Partitions(text, head, body, rest) ==>
                    && (Parse(body).Stray? <==> r.Refused?)
                    && (Parse(body).Stray? ==> r == Refused(StrayContent(Parse(body).line)))
                    && (r == NothingToFold <==>
                          Parse(body).Sections? && forall c :: Under(SplitLines(body), None, c) + FragmentLines(fragments, c) == []))
  {
    hide Parse, Render, Body, Remainder, Find, Occurs, Partitions, Under, SplitLines, FragmentLines, ValidFragments;
    FindIsFirst(text, UNRELEASED, 0);
    FindIsFirst(text, VersionHeading(version), 0);
    if Find(text, UNRELEASED, 0).Some? && Find(text, VersionHeading(version), 0).None? {
      IsPartition(text);
      forall head, body, rest | Partitions(text, head, body, rest) ensures body == Body(Tail(text)) {
        PartitionIsUnique(text, head, body, rest, Head(text), Body(Tail(text)), Remainder(Tail(text)));
      }
      if Parse(Body(Tail(text))).Sections? {
        SaysNothing(Body(Tail(text)), fragments);
      }
    }
  }

  lemma SaysNothing(body: string, fragments: seq<Fragment>)
    requires Parse(body).Sections? && ValidFragments(fragments)
    ensures Render(Parse(body).categories, fragments) == "" <==>
            forall c :: Under(SplitLines(body), None, c) + FragmentLines(fragments, c) == []
  {
    hide Parse, Under, SplitLines, FragmentLines, ValidFragments, ToRender, Proper, DistinctNames, Entries, Content;
    var existing := Parse(body).categories;
    var cs := ToRender(existing, fragments);
    ParsedIsProper(body);
    ToRenderIs(existing, fragments, "");
    if cs == [] {
      forall c ensures Under(SplitLines(body), None, c) + FragmentLines(fragments, c) == [] {
        ToRenderIs(existing, fragments, c);
        ParseSays(body, c);
        NoneOf(cs, c);
      }
    } else {
      var c := cs[0].name;
      ToRenderIs(existing, fragments, c);
      ParseSays(body, c);
      FirstOf(cs);
      EntriesHaveContent(cs, c);
      ChunksAreText(cs);
    }
  }

  lemma NoneOf(cs: seq<Category>, c: string)
    requires cs == []
    ensures Content(Entries(cs, c)) == []
  {
  }

  lemma FirstOf(cs: seq<Category>)
    requires cs != [] && forall d :: d in cs ==> d.entries != []
    ensures Entries(cs, cs[0].name) != []
  {
    assert cs[0] in cs;
  }

  lemma ChunksAreText(cs: seq<Category>)
    requires cs != []
    ensures Chunks(cs) != ""
  {
  }

  /** A changelog has one partition. */
  lemma PartitionIsUnique(text: string, head: string, body: string, rest: string, head': string, body': string, rest': string)
    requires Partitions(text, head, body, rest) && Partitions(text, head', body', rest')
    ensures head == head' && body == body'
  {
    hide Occurs;
    HeadIsFirst(text, head, body, rest);
    HeadIsFirst(text, head', body', rest');
    assert |head| == |head'|;
    assert text[..|head|] == head && text[..|head'|] == head';
    var tail := text[|head| + 15..];
    assert tail == body + (if rest == "" then "" else "\n" + rest);
    assert tail == body' + (if rest' == "" then "" else "\n" + rest');
    SameBody(tail, body, rest, body', rest');
  }

  lemma HeadIsFirst(text: string, head: string, body: string, rest: string)
    requires Partitions(text, head, body, rest)
    ensures Occurs(text, "## [Unreleased]", |head|) && forall i: nat :: i < |head| ==> !Occurs(text, "## [Unreleased]", i)
  {
    assert text[|head|..|head| + 15] == "## [Unreleased]";
  }

  lemma SameBody(tail: string, body: string, rest: string, body': string, rest': string)
    requires tail == body + (if rest == "" then "" else "\n" + rest) && tail == body' + (if rest' == "" then "" else "\n" + rest')
    requires (rest == "" || "## " <= rest) && (rest' == "" || "## " <= rest')
    requires forall i: nat :: !Occurs(body, "\n## ", i) && !Occurs(body', "\n## ", i)
    ensures body == body'
  {
    hide Occurs;
    if |body| < |body'| {
      NextInside(tail, body, rest, body', rest');
    } else if |body'| < |body| {
      NextInside(tail, body', rest', body, rest);
    } else {
      assert tail[..|body|] == body && tail[..|body'|] == body';
    }
  }

  lemma NextInside(tail: string, body: string, rest: string, longer: string, rest': string)
    requires tail == body + (if rest == "" then "" else "\n" + rest) && tail == longer + (if rest' == "" then "" else "\n" + rest')
    requires (rest == "" || "## " <= rest) && (rest' == "" || "## " <= rest') && |body| < |longer|
    ensures Occurs(longer, "\n## ", |body|)
  {
    var k := |body|;
    assert rest != "";
    assert tail[k..] == "\n" + rest && rest[..3] == "## ";
    assert tail[k] == '\n' && tail[k + 1] == rest[0] == '#' && tail[k + 2] == rest[1] == '#' && tail[k + 3] == rest[2] == ' ';
    if rest' != "" {
      assert tail[|longer|] == '\n';
    }
    assert k + 4 <= |longer|;
    assert longer[k..k + 4] == tail[k..k + 4] == ['\n', '#', '#', ' '];
  }

  lemma TailSplits(tail: string)
    ensures tail == Body(tail) + (if Remainder(tail) == "" then "" else "\n" + Remainder(tail))
  {
    hide Find, Occurs;
    FindIsFirst(tail, "\n## ", 0);
    var next := Find(tail, "\n## ", 0);
    if next.Some? {
      NewlineOccurs(tail, next.value);
      assert tail == tail[..next.value] + "\n" + tail[next.value + 1..];
    }
  }

  lemma NewlineOccurs(tail: string, i: nat)
    requires Occurs(tail, "\n## ", i)
    ensures i + 4 <= |tail| && tail[i] == '\n'
  {
    assert tail[i..i + 4][0] == '\n';
  }

  /** After a fold nothing is left unreleased, and the new section heads what follows. */
  lemma FoldedTail(text: string, section: string, rest: string)
    requires Find(text, UNRELEASED, 0).Some? && "## [" <= section
    ensures var after := Head(text) + UNRELEASED + "\n\n" + section + "\n" + rest;
            && Find(after, UNRELEASED, 0).Some? && Head(after) == Head(text)
            && Body(Tail(after)) == "\n" && Remainder(Tail(after)) == section + "\n" + rest
  {
    hide Find, Occurs;
    var tail := "\n\n" + section + "\n" + rest;
    var after := Head(text) + UNRELEASED + "\n\n" + section + "\n" + rest;
    FindIsFirst(text, UNRELEASED, 0);
    StillFirst(text, tail);
    assert after == Head(text) + UNRELEASED + tail;
    assert Tail(after) == tail;
    SectionIsNext(tail, section);
    FindIsFirst(tail, "\n## ", 0);
    assert tail[..1] == "\n" && tail[2..] == section + "\n" + rest;
  }

  lemma SectionIsNext(tail: string, section: string)
    requires "\n\n" + section <= tail && "## [" <= section
    ensures Find(tail, "\n## ", 0) == Some(1)
  {
    hide Find;
    var start := "\n\n## [";
    assert tail[..6] == start;
    assert tail[1..5] == start[1..5] == "\n## ";
    assert tail[0..4][1] == start[1] != '#';
    assert !Occurs(tail, "\n## ", 0) && Occurs(tail, "\n## ", 1);
    FindIsFirst(tail, "\n## ", 0);
  }

  lemma SectionOpens(version: string, date: string, merged: string)
    ensures "## [" <= Section(version, date, merged) && VersionHeading(version) <= Section(version, date, merged)
  {
  }

  /** A version is released at most once: folding again under it, on any date, is refused. */
  lemma RerunIsRefused(text: string, version: string, date: string, fragments: seq<Fragment>,
                       laterDate: string, laterFragments: seq<Fragment>)
    requires Fold(text, version, date, fragments).Folded?
    ensures Fold(Fold(text, version, date, fragments).text, version, laterDate, laterFragments) == Refused(AlreadyReleased)
  {
    hide Parse, Render, Body, Remainder, Find, Occurs, Section, VersionHeading;
    var section := Section(version, date, Merged(text, fragments));
    SectionOpens(version, date, Merged(text, fragments));
    FoldedTail(text, section, Remainder(Tail(text)));
    var after := Fold(text, version, date, fragments).text;
    var at := |Head(text)| + |UNRELEASED| + 2;
    assert after[at..][..|section|] == section;
    PrefixOccursAt(after, VersionHeading(version), section, at);
    FindIsFirst(after, VersionHeading(version), 0);
  }

  lemma PrefixOccursAt(text: string, pattern: string, longer: string, at: nat)
    requires at + |longer| <= |text| && pattern <= longer && text[at..][..|longer|] == longer
    ensures Occurs(text, pattern, at)
  {
    assert text[at..at + |pattern|] == text[at..][..|longer|][..|pattern|];
  }

  lemma EmptyBody()
    ensures Parse("\n") == Sections([])
  {
    hide Written, Collect;
    NoText();
    SegmentsConcat("", '\n', "");
    assert "" + ['\n'] + "" == "\n";
    assert SplitLines("\n") == [""];
    assert Open([""][1..]) == Outline([], []);
    assert Open([""]) == Outline([""], []);
    WrittenOne("");
    BlankNothing();
    CollectNone([]);
  }

  /**
   Releases stack: the next version's section is put above everything the last one released, which it leaves
   as it was, and says what that version's fragments say and nothing else; without any there is nothing to fold.
   */
  lemma ReleasesStack(text: string, version: string, date: string, fragments: seq<Fragment>,
                      next: string, nextDate: string, nextFragments: seq<Fragment>) returns (head: string, older: string, part: string)
    requires Fold(text, version, date, fragments).Folded? && ValidFragments(fragments) && ValidFragments(nextFragments)
    requires forall i: nat :: !Occurs(Fold(text, version, date, fragments).text, "## [" + next + "] - ", i)
    ensures Fold(text, version, date, fragments).text == head + "## [Unreleased]\n\n" + older
    ensures forall i: nat :: i < |head| ==> !Occurs(text, "## [Unreleased]", i)
    ensures forall c :: Under(SplitLines(part), None, c) == FragmentLines(nextFragments, c)
    ensures Fold(Fold(text, version, date, fragments).text, next, nextDate, nextFragments) ==
            if forall c :: FragmentLines(nextFragments, c) == [] then NothingToFold
            else Folded(head + "## [Unreleased]\n\n## [" + next + "] - " + nextDate + "\n" + part + older)
  {
    hide Parse, Render, Body, Remainder, Find, Occurs, Section, VersionHeading, Under, SplitLines, FragmentLines, ValidFragments, Part;
    var section := Section(version, date, Merged(text, fragments));
    SectionOpens(version, date, Merged(text, fragments));
    FoldedTail(text, section, Remainder(Tail(text)));
    EmptyBody();
    var after := Fold(text, version, date, fragments).text;
    head, older := Head(text), section + "\n" + Remainder(Tail(text));
    FindIsFirst(text, UNRELEASED, 0);
    assert after == head + "## [Unreleased]\n\n" + older;
    VersionIs(next);
    FindIsFirst(after, VersionHeading(next), 0);
    var merged := Render([], nextFragments);
    part := Part(merged);
    SaysNothing("\n", nextFragments);
    forall c ensures Under(SplitLines(part), None, c) == FragmentLines(nextFragments, c) && Under(SplitLines("\n"), None, c) == [] {
      EmptySays(c);
      NothingIsLost("\n", nextFragments, c);
      PartSays(merged, c);
    }
    Assembled(head, next, nextDate, merged, older);
  }

  lemma VersionIs(version: string)
    ensures VersionHeading(version) == "## [" + version + "] - "
  {
  }

  lemma EmptySays(c: string)
    ensures Under(SplitLines("\n"), None, c) == []
  {
    NoText();
    SegmentsConcat("", '\n', "");
    assert "" + ['\n'] + "" == "\n";
    assert SplitLines("\n") == [""];
    assert Under([""][1..], None, c) == [];
  }
}
