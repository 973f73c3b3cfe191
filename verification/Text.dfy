/** The Python text operations the changelog tool is built from, on texts read with universal newlines. */
module Text {

  /** The characters `str.splitlines` breaks at, apart from the carriage return that reading removed. */
  predicate IsBreak(c: char) {
    || c == '\n' || c == '\U{000B}' || c == '\U{000C}' || '\U{001C}' <= c <= '\U{001E}'
    || c == '\U{0085}' || c == '\U{2028}' || c == '\U{2029}'
  }

  /** `str.isspace`, character by character. */
  predicate IsSpace(c: char) {
    || IsBreak(c) || c == ' ' || c == '\t' || c == '\r' || c == '\U{001F}' || c == '\U{00A0}' || c == '\U{1680}'
    || '\U{2000}' <= c <= '\U{200A}' || c == '\U{202F}' || c == '\U{205F}' || c == '\U{3000}'
  }

  /** By code points: what ends a line, and what strips off its ends. */
  lemma BreakCodes(c: char)
    ensures IsBreak(c) <==> c as int in {0x0A, 0x0B, 0x0C, 0x1C, 0x1D, 0x1E, 0x85, 0x2028, 0x2029}
    ensures IsSpace(c) <==> c as int in {0x09, 0x0A, 0x0B, 0x0C, 0x0D, 0x1C, 0x1D, 0x1E, 0x1F, 0x20, 0x85, 0xA0, 0x1680,
                                         0x2000, 0x2001, 0x2002, 0x2003, 0x2004, 0x2005, 0x2006, 0x2007, 0x2008, 0x2009, 0x200A,
                                         0x2028, 0x2029, 0x202F, 0x205F, 0x3000}
  {
  }

  predicate OneLine(s: string) {
    forall c :: c in s ==> !IsBreak(c)
  }

  predicate AllLines(lines: seq<string>) {
    forall l :: l in lines ==> OneLine(l)
  }

  /** The pieces between line breaks; one more than there are breaks. */
  function Segments(s: string): (r: seq<string>)
    ensures |r| > 0
  {
    if s == [] then [[]]
    else
      var rest := Segments(s[1..]);
      if IsBreak(s[0]) then [[]] + rest else [[s[0]] + rest[0]] + rest[1..]
  }

  /** `str.splitlines`: a break at the end opens no further line. */
  function SplitLines(s: string): seq<string> {
    var r := Segments(s);
    if r[|r|-1] == [] then r[..|r|-1] else r
  }

  lemma Assoc<T>(a: seq<T>, b: seq<T>, c: seq<T>)
    ensures a + (b + c) == a + b + c
  {
  }

  /** `"\n".join` */
  function Join(lines: seq<string>): string {
    if lines == [] then []
    else if |lines| == 1 then lines[0]
    else lines[0] + ['\n'] + Join(lines[1..])
  }

  lemma {:induction false} SegmentsAreLines(s: string)
    ensures AllLines(Segments(s))
  {
    if s != [] {
      SegmentsAreLines(s[1..]);
      var rest := Segments(s[1..]);
      forall l | l in Segments(s) ensures OneLine(l) {
        if l !in rest && !IsBreak(s[0]) {
          assert l == [s[0]] + rest[0] && OneLine(rest[0]);
          assert forall c :: c in l ==> c == s[0] || c in rest[0];
        }
      }
    }
  }

  lemma {:induction false} SegmentsConcat(a: string, c: char, b: string)
    requires IsBreak(c)
    ensures Segments(a + [c] + b) == Segments(a) + Segments(b)
  {
    hide IsBreak;
    if a == [] {
      assert a + [c] + b == [c] + b && ([c] + b)[1..] == b;
    } else {
      SegmentsConcat(a[1..], c, b);
      var s := a + [c] + b;
      assert s[1..] == a[1..] + [c] + b && s[0] == a[0];
      if IsBreak(a[0]) {
        assert [[]] + (Segments(a[1..]) + Segments(b)) == ([[]] + Segments(a[1..])) + Segments(b);
      } else {
        ExtendFirst(a[0], Segments(a[1..]), Segments(b));
      }
    }
  }

  lemma ExtendFirst(c: char, x: seq<string>, y: seq<string>)
    requires |x| > 0
    ensures [[c] + (x + y)[0]] + (x + y)[1..] == ([[c] + x[0]] + x[1..]) + y
  {
  }

  lemma {:induction false} SegmentsOfLine(l: string)
    requires OneLine(l)
    ensures Segments(l) == [l]
  {
    if l != [] {
      SegmentsOfLine(l[1..]);
      assert [l[0]] + l[1..] == l;
    }
  }

  lemma {:induction false} SegmentsOfJoin(lines: seq<string>)
    requires lines != [] && AllLines(lines)
    ensures Segments(Join(lines)) == lines
  {
    SegmentsOfLine(lines[0]);
    if |lines| > 1 {
      SegmentsOfJoin(lines[1..]);
      SegmentsConcat(lines[0], '\n', Join(lines[1..]));
      assert [lines[0]] + lines[1..] == lines;
    } else {
      assert lines == [lines[0]];
    }
  }

  lemma {:induction false} JoinConcat(a: seq<string>, b: seq<string>)
    requires a != [] && b != []
    ensures Join(a + b) == Join(a) + ['\n'] + Join(b)
  {
    if |a| == 1 {
      assert (a + b)[1..] == b;
    } else {
      JoinConcat(a[1..], b);
      assert (a + b)[1..] == a[1..] + b;
      assert (a + b)[0] == a[0];
    }
  }

  // ------------------------------------------------------------------------------------------------
  // Stripping

  /** `str.rstrip("\n")` */
  function TrimNewlines(s: string): string {
    if s != [] && s[|s|-1] == '\n' then TrimNewlines(s[..|s|-1]) else s
  }

  function TrimNewlinesLeft(s: string): string {
    if s != [] && s[0] == '\n' then TrimNewlinesLeft(s[1..]) else s
  }

  /** `str.strip("\n")` */
  function StripNewlines(s: string): string {
    TrimNewlinesLeft(TrimNewlines(s))
  }

  /** `str.rstrip()` */
  function TrimSpace(s: string): string {
    if s != [] && IsSpace(s[|s|-1]) then TrimSpace(s[..|s|-1]) else s
  }

  function TrimSpaceLeft(s: string): string {
    if s != [] && IsSpace(s[0]) then TrimSpaceLeft(s[1..]) else s
  }

  /** `str.strip()` */
  function StripSpace(s: string): string {
    TrimSpaceLeft(TrimSpace(s))
  }

  function DropBlankLeft(lines: seq<string>): seq<string> {
    if lines != [] && lines[0] == [] then DropBlankLeft(lines[1..]) else lines
  }

  function DropBlankRight(lines: seq<string>): seq<string> {
    if lines != [] && lines[|lines|-1] == [] then DropBlankRight(lines[..|lines|-1]) else lines
  }

  /** Stripping newlines off joined lines drops the empty lines at the ends. */
  lemma {:induction false} TrimJoinRight(lines: seq<string>)
    requires AllLines(lines)
    ensures TrimNewlines(Join(lines)) == Join(DropBlankRight(lines))
    ensures AllLines(DropBlankRight(lines))
  {
    if lines == [] {
    } else {
      var init, last := lines[..|lines|-1], lines[|lines|-1];
      assert lines == init + [last];
      if last == [] {
        TrimJoinRight(init);
        if init != [] {
          JoinConcat(init, [last]);
          var j := Join(init) + ['\n'];
          assert Join(lines) == j && j[..|j|-1] == Join(init);
        }
      } else {
        if init != [] {
          JoinConcat(init, [last]);
        }
        var j := Join(lines);
        assert j[|j|-1] == last[|last|-1] && last[|last|-1] in last && OneLine(last);
      }
    }
  }

  lemma {:induction false} TrimJoinLeft(lines: seq<string>)
    requires AllLines(lines)
    ensures TrimNewlinesLeft(Join(lines)) == Join(DropBlankLeft(lines))
    ensures AllLines(DropBlankLeft(lines))
  {
    if lines != [] {
      var first, rest := lines[0], lines[1..];
      if first == [] {
        TrimJoinLeft(rest);
        if rest != [] {
          assert Join(lines) == ['\n'] + Join(rest);
          assert Join(lines)[1..] == Join(rest);
        }
      } else {
        assert Join(lines)[0] == first[0] && first[0] in first && OneLine(first);
      }
    }
  }

  lemma StripJoin(lines: seq<string>)
    requires AllLines(lines)
    ensures StripNewlines(Join(lines)) == Join(DropBlankLeft(DropBlankRight(lines)))
    ensures AllLines(DropBlankLeft(DropBlankRight(lines)))
  {
    TrimJoinRight(lines);
    TrimJoinLeft(DropBlankRight(lines));
  }
}
