/** The change-point rule over trailing benchmark artifacts: strata, windows, medians and coverage. */
module Changepoint {
  import opened DatedLog

  const CANDIDATES := 3
  const MIN_BASELINE := 8
  const MAX_BASELINE := 30

  datatype Artifact = Artifact(runId: int, key: string, commit: string, medians: map<string, real>,
                               observed: seq<string>, unusable: seq<string>)

  // ------------------------------------------------------------------------------------------------
  // Medians

  function InsertReal(x: real, sorted: seq<real>): (r: seq<real>)
    ensures |r| == |sorted| + 1
  {
    if sorted == [] || x <= sorted[0] then [x] + sorted else [sorted[0]] + InsertReal(x, sorted[1..])
  }

  function SortReals(s: seq<real>): (r: seq<real>)
    ensures |r| == |s|
  {
    if s == [] then [] else InsertReal(s[0], SortReals(s[1..]))
  }

  /** `statistics.median` */
  function Median(s: seq<real>): real
    requires s != []
  {
    var t, n := SortReals(s), |s|;
    if n % 2 == 1 then t[n / 2] else (t[n / 2 - 1] + t[n / 2]) / 2.0
  }

  predicate Ascends(s: seq<real>) {
    forall i, j :: 0 <= i < j < |s| ==> s[i] <= s[j]
  }

  function CountBelow(s: seq<real>, x: real): (n: nat)
    ensures n <= |s|
  {
    if s == [] then 0 else (if s[0] < x then 1 else 0) + CountBelow(s[1..], x)
  }

  lemma {:induction false} InsertAscends(x: real, sorted: seq<real>, y: real)
    requires Ascends(sorted)
    ensures Ascends(InsertReal(x, sorted))
    ensures CountBelow(InsertReal(x, sorted), y) == CountBelow([x] + sorted, y)
    ensures forall z :: z in InsertReal(x, sorted) ==> z == x || z in sorted
  {
    assert ([x] + sorted)[1..] == sorted;
    if sorted != [] && x > sorted[0] {
      var rest := sorted[1..];
      InsertAscends(x, rest, y);
      assert ([x] + rest)[1..] == rest;
      var r := InsertReal(x, sorted);
      assert r[1..] == InsertReal(x, rest);
      forall j | 1 <= j < |r| ensures r[0] <= r[j] {
        assert r[j] == r[1..][j - 1] && r[j] in InsertReal(x, rest);
      }
    }
  }

  lemma {:induction false} SortAscends(s: seq<real>, y: real)
    ensures Ascends(SortReals(s)) && CountBelow(SortReals(s), y) == CountBelow(s, y)
  {
    if s != [] {
      SortAscends(s[1..], y);
      InsertAscends(s[0], SortReals(s[1..]), y);
      assert ([s[0]] + SortReals(s[1..]))[1..] == SortReals(s[1..]);
    }
  }

  lemma {:induction false} FirstAreBelow(s: seq<real>, k: nat, y: real)
    requires k <= |s| && forall i :: 0 <= i < k ==> s[i] < y
    ensures CountBelow(s, y) >= k
  {
    if k > 0 {
      FirstAreBelow(s[1..], k - 1, y);
    }
  }

  /** A reading above the median exceeds at least half of the readings. */
  lemma AboveMedian(s: seq<real>, y: real)
    requires s != [] && y > Median(s)
    ensures 2 * CountBelow(s, y) >= |s|
  {
    hide CountBelow, SortReals;
    SortAscends(s, y);
    var t, n := SortReals(s), |s|;
    var k := if n % 2 == 1 then n / 2 + 1 else n / 2;
    assert n % 2 == 0 ==> t[n / 2 - 1] <= t[n / 2];
    assert t[k - 1] < y;
    forall i | 0 <= i < k ensures t[i] < y {
      assert i < k - 1 ==> t[i] <= t[k - 1];
    }
    FirstAreBelow(t, k, y);
  }

  // ------------------------------------------------------------------------------------------------
  // The rule for one benchmark

  datatype Omission =
    | ShortStratum(have: nat)
    | MissingCandidate(runs: seq<int>)
    | UnusableReading(runs: seq<int>)
    | ThinBaseline(have: nat)

  datatype Judgement = Omitted(why: Omission) | Unshifted | Shifted(base: real, newest: real)

  /** The baseline's readings of a benchmark, oldest first. */
  function History(baseline: seq<Artifact>, name: string): seq<real> {
    if baseline == [] then []
    else
      var last := baseline[|baseline|-1];
      History(baseline[..|baseline|-1], name) + if name in last.medians then [last.medians[name]] else []
  }

  predicate Missing(a: Artifact, name: string) {
    name !in a.observed
  }

  predicate Unusable(a: Artifact, name: string) {
    name in a.unusable || name !in a.medians
  }

  function MissingRuns(candidates: seq<Artifact>, name: string): seq<int> {
    if candidates == [] then []
    else
      var last := candidates[|candidates|-1];
      MissingRuns(candidates[..|candidates|-1], name) + if Missing(last, name) then [last.runId] else []
  }

  function UnusableRuns(candidates: seq<Artifact>, name: string): seq<int> {
    if candidates == [] then []
    else
      var last := candidates[|candidates|-1];
      UnusableRuns(candidates[..|candidates|-1], name) + if Unusable(last, name) then [last.runId] else []
  }

  /** The candidate's reading is above the baseline median by both floors. */
  predicate Elevated(reading: real, base: real, relative: real, absolute: real) {
    reading > base * (1.0 + relative) && reading - base > absolute
  }

  function Judge(candidates: seq<Artifact>, baseline: seq<Artifact>, name: string, relative: real, absolute: real): Judgement
    requires candidates != []
  {
    if MissingRuns(candidates, name) != [] then Omitted(MissingCandidate(MissingRuns(candidates, name)))
    else if UnusableRuns(candidates, name) != [] then Omitted(UnusableReading(UnusableRuns(candidates, name)))
    else
      var history := History(baseline, name);
      if |history| < MIN_BASELINE then Omitted(ThinBaseline(|history|))
      else
        var base := Median(history);
        if forall c :: c in candidates ==> name in c.medians && Elevated(c.medians[name], base, relative, absolute) then
          Shifted(base, if name in candidates[|candidates|-1].medians then candidates[|candidates|-1].medians[name] else 0.0)
        else Unshifted
  }

  // What each judgement says about the readings.

  /** The candidate can be judged by name: observed, usable, with a reading. */
  predicate Read(c: Artifact, name: string) {
    name in c.observed && name !in c.unusable && name in c.medians
  }

  ghost predicate AllRead(candidates: seq<Artifact>, name: string) {
    forall c :: c in candidates ==> Read(c, name)
  }

  /** How many artifacts have a reading of the name. */
  function Readings(baseline: seq<Artifact>, name: string): nat {
    if baseline == [] then 0
    else Readings(baseline[..|baseline|-1], name) + if name in baseline[|baseline|-1].medians then 1 else 0
  }

  ghost predicate Means(candidates: seq<Artifact>, baseline: seq<Artifact>, name: string, relative: real, absolute: real, j: Judgement)
    requires candidates != []
  {
    match j
    case Omitted(MissingCandidate(runs)) =>
      runs != [] && forall id :: id in runs <==> exists c :: c in candidates && name !in c.observed && c.runId == id
    case Omitted(UnusableReading(runs)) =>
      && runs != [] && (forall c :: c in candidates ==> name in c.observed)
      && forall id :: id in runs <==> exists c :: c in candidates && !Read(c, name) && c.runId == id
    case Omitted(ThinBaseline(have)) =>
      AllRead(candidates, name) && have == Readings(baseline, name) < MIN_BASELINE
    case Omitted(ShortStratum(_)) => false
    case Shifted(base, newest) =>
      && AllRead(candidates, name) && Readings(baseline, name) >= MIN_BASELINE
      && History(baseline, name) != [] && base == Median(History(baseline, name))
      && name in candidates[|candidates|-1].medians && newest == candidates[|candidates|-1].medians[name]
      && forall c :: c in candidates ==> name in c.medians && Elevated(c.medians[name], base, relative, absolute)
    case Unshifted =>
      && AllRead(candidates, name) && Readings(baseline, name) >= MIN_BASELINE
      && History(baseline, name) != []
      && exists c :: c in candidates && name in c.medians && !Elevated(c.medians[name], Median(History(baseline, name)), relative, absolute)
  }

  lemma {:induction false} MissingRunsAre(candidates: seq<Artifact>, name: string)
    ensures forall id :: id in MissingRuns(candidates, name) <==> exists c :: c in candidates && name !in c.observed && c.runId == id
    ensures MissingRuns(candidates, name) == [] <==> forall c :: c in candidates ==> name in c.observed
  {
    if candidates != [] {
      var init, last := candidates[..|candidates|-1], candidates[|candidates|-1];
      MissingRunsAre(init, name);
      assert candidates == init + [last];
    }
  }

  lemma {:induction false} UnusableRunsAre(candidates: seq<Artifact>, name: string)
    ensures forall id :: id in UnusableRuns(candidates, name) <==> exists c :: c in candidates && Unusable(c, name) && c.runId == id
    ensures UnusableRuns(candidates, name) == [] <==> forall c :: c in candidates ==> !Unusable(c, name)
  {
    if candidates != [] {
      var init, last := candidates[..|candidates|-1], candidates[|candidates|-1];
      UnusableRunsAre(init, name);
      assert candidates == init + [last];
    }
  }

  lemma {:induction false} HistoryCounts(baseline: seq<Artifact>, name: string)
    ensures |History(baseline, name)| == Readings(baseline, name)
  {
    if baseline != [] {
      HistoryCounts(baseline[..|baseline|-1], name);
    }
  }

  /** The reasons, and the shift, mean what they say about the candidates' and the baseline's readings. */
  lemma JudgementMeans(candidates: seq<Artifact>, baseline: seq<Artifact>, name: string, relative: real, absolute: real)
    requires candidates != []
    ensures Means(candidates, baseline, name, relative, absolute, Judge(candidates, baseline, name, relative, absolute))
  {
    hide Median, Elevated, History, Readings;
    MissingRunsAre(candidates, name);
    UnusableRunsAre(candidates, name);
    HistoryCounts(baseline, name);
    assert candidates[|candidates|-1] in candidates;
  }

  // ------------------------------------------------------------------------------------------------
  // Names

  function InsertName(name: string, names: seq<string>): seq<string> {
    if names == [] then [name]
    else if name == names[0] then names
    else if AtMost(name, names[0]) then [name] + names
    else [names[0]] + InsertName(name, names[1..])
  }

  function AddNames(names: seq<string>, more: seq<string>): seq<string>
    decreases |more|
  {
    if more == [] then names else AddNames(InsertName(more[0], names), more[1..])
  }

  function CandidateNames(candidates: seq<Artifact>): seq<string> {
    if candidates == [] then []
    else AddNames(CandidateNames(candidates[..|candidates|-1]), candidates[|candidates|-1].observed)
  }

  predicate NamesAscend(names: seq<string>) {
    forall i, j :: 0 <= i < j < |names| ==> names[i] != names[j] && AtMost(names[i], names[j])
  }

  lemma {:induction false} InsertKeepsNames(name: string, names: seq<string>)
    requires NamesAscend(names)
    ensures NamesAscend(InsertName(name, names))
    ensures forall n :: n in InsertName(name, names) <==> n == name || n in names
  {
    hide AtMost;
    if names != [] && name != names[0] {
      var rest := names[1..];
      AtMostTotal(name, names[0]);
      if AtMost(name, names[0]) {
        forall j | 0 <= j < |names| ensures name != names[j] && AtMost(name, names[j]) {
          if j > 0 {
            AtMostTransitive(name, names[0], names[j]);
            if name == names[j] {
              Antisymmetric(name, names[0]);
            }
          }
        }
      } else {
        InsertKeepsNames(name, rest);
        var more := InsertName(name, rest);
        assert names == [names[0]] + rest;
        forall j | 0 <= j < |more| ensures names[0] != more[j] && AtMost(names[0], more[j]) {
          assert more[j] in more;
          if more[j] != name {
            var k :| 0 <= k < |rest| && rest[k] == more[j];
            assert names[k + 1] == more[j];
          }
        }
      }
    }
  }

  lemma {:induction false} Antisymmetric(a: string, b: string)
    requires AtMost(a, b) && AtMost(b, a)
    ensures a == b
  {
    if a != [] && b != [] {
      Antisymmetric(a[1..], b[1..]);
      assert a == [a[0]] + a[1..] && b == [b[0]] + b[1..];
    }
  }

  lemma {:induction false} AddKeepsNames(names: seq<string>, more: seq<string>)
    requires NamesAscend(names)
    ensures NamesAscend(AddNames(names, more)) && forall n :: n in AddNames(names, more) <==> n in names || n in more
    decreases |more|
  {
    if more != [] {
      InsertKeepsNames(more[0], names);
      AddKeepsNames(InsertName(more[0], names), more[1..]);
      assert more == [more[0]] + more[1..];
    }
  }

  /** The candidates' names: every observed one, each once, in order. */
  lemma {:induction false} CandidateNamesAre(candidates: seq<Artifact>)
    ensures NamesAscend(CandidateNames(candidates))
    ensures forall n :: n in CandidateNames(candidates) <==> exists c :: c in candidates && n in c.observed
    ensures var names := CandidateNames(candidates);
            forall i, j :: 0 <= i < j < |names| ==>
              names[i] != names[j] && (names[i] <= names[j] || exists k: nat :: Differs(names[i], names[j], k))
  {
    hide AtMost, AddNames;
    if candidates != [] {
      var init, last := candidates[..|candidates|-1], candidates[|candidates|-1];
      CandidateNamesAre(init);
      AddKeepsNames(CandidateNames(init), last.observed);
      assert candidates == init + [last];
      var names := CandidateNames(candidates);
      forall i, j | 0 <= i < j < |names| ensures names[i] <= names[j] || exists k: nat :: Differs(names[i], names[j], k) {
        AtMostIs(names[i], names[j]);
      }
    }
  }

  // ------------------------------------------------------------------------------------------------
  // Detection

  datatype Verdict = NoData | InsufficientHistory | SeriesBreak | Suspects | Partial | Clean

  datatype Suspect = Suspect(benchmark: string, base: real, newest: real, delta: real)

  datatype Omitted = Omit(benchmark: string, why: Omission)

  datatype Result = Result(verdict: Verdict, stratumSize: nat, candidateCount: nat, evaluatedCount: nat,
                           omitted: seq<Omitted>, suspects: seq<Suspect>, commits: seq<string>)

  /** A result, or the division by zero that computing a relative change raises. */
  datatype Outcome = Report(result: Result) | DivisionByZero

  function Stratum(artifacts: seq<Artifact>, key: string): seq<Artifact> {
    if artifacts == [] then []
    else
      var last := artifacts[|artifacts|-1];
      Stratum(artifacts[..|artifacts|-1], key) + if last.key == key then [last] else []
  }

  /** The last `n` elements, or all. */
  function Tail<T>(s: seq<T>, n: nat): seq<T> {
    if |s| <= n then s else s[|s| - n..]
  }

  function Candidates(stratum: seq<Artifact>): seq<Artifact> {
    Tail(stratum, CANDIDATES)
  }

  function Baseline(stratum: seq<Artifact>): seq<Artifact>
    requires |stratum| >= CANDIDATES
  {
    var window := Tail(stratum, CANDIDATES + MAX_BASELINE);
    window[..|window| - CANDIDATES]
  }

  function OmittedOf(js: seq<(string, Judgement)>): seq<Omitted> {
    if js == [] then []
    else
      var (name, j) := js[|js|-1];
      OmittedOf(js[..|js|-1]) + if j.Omitted? then [Omit(name, j.why)] else []
  }

  function SuspectsOf(js: seq<(string, Judgement)>): seq<Suspect> {
    if js == [] then []
    else
      var (name, j) := js[|js|-1];
      SuspectsOf(js[..|js|-1]) + if j.Shifted? && j.base != 0.0 then [Suspect(name, j.base, j.newest, j.newest / j.base - 1.0)] else []
  }

  function EvaluatedOf(js: seq<(string, Judgement)>): nat {
    if js == [] then 0 else EvaluatedOf(js[..|js|-1]) + if js[|js|-1].1.Omitted? then 0 else 1
  }

  function Judged(names: seq<string>, candidates: seq<Artifact>, baseline: seq<Artifact>, relative: real, absolute: real): (js: seq<(string, Judgement)>)
    requires candidates != []
    ensures |js| == |names|
  {
    if names == [] then []
    else
      var name := names[|names|-1];
      Judged(names[..|names|-1], candidates, baseline, relative, absolute) + [(name, Judge(candidates, baseline, name, relative, absolute))]
  }

  lemma {:induction false} JudgedAt(names: seq<string>, candidates: seq<Artifact>, baseline: seq<Artifact>, relative: real, absolute: real, i: nat)
    requires candidates != [] && i < |names|
    ensures Judged(names, candidates, baseline, relative, absolute)[i] == (names[i], Judge(candidates, baseline, names[i], relative, absolute))
  {
    hide Judge;
    if i < |names| - 1 {
      JudgedAt(names[..|names|-1], candidates, baseline, relative, absolute, i);
    }
  }

  predicate DividesSafely(js: seq<(string, Judgement)>) {
    forall i :: 0 <= i < |js| ==> !(js[i].1.Shifted? && js[i].1.base == 0.0)
  }

  function VerdictOf(suspects: seq<Suspect>, evaluated: nat, omitted: seq<Omitted>): Verdict {
    if suspects != [] then Suspects
    else if evaluated == 0 then InsufficientHistory
    else if omitted != [] then Partial
    else Clean
  }

  function ShortStrata(names: seq<string>, have: nat): (r: seq<Omitted>)
    ensures |r| == |names| && forall i :: 0 <= i < |names| ==> r[i] == Omit(names[i], ShortStratum(have))
  {
    if names == [] then [] else ShortStrata(names[..|names|-1], have) + [Omit(names[|names|-1], ShortStratum(have))]
  }

  /** The rule applied to a stratum that is long enough. */
  function Ruling(stratum: seq<Artifact>, relative: real, absolute: real): Outcome
    requires |stratum| >= CANDIDATES + MIN_BASELINE
  {
    var candidates, baseline := Candidates(stratum), Baseline(stratum);
    var names := CandidateNames(candidates);
    var js := Judged(names, candidates, baseline, relative, absolute);
    if !DividesSafely(js) then DivisionByZero
    else
      Report(Result(VerdictOf(SuspectsOf(js), EvaluatedOf(js), OmittedOf(js)), |stratum|, |names|, EvaluatedOf(js), OmittedOf(js), SuspectsOf(js),
                    [candidates[0].commit, baseline[|baseline|-1].commit, candidates[|candidates|-1].commit]))
  }

  function Detection(artifacts: seq<Artifact>, relative: real, absolute: real): Outcome {
    if artifacts == [] then Report(Result(NoData, 0, 0, 0, [], [], []))
    else
      var key := artifacts[|artifacts|-1].key;
      var stratum := Stratum(artifacts, key);
      if |stratum| < CANDIDATES + MIN_BASELINE then
        var names := CandidateNames(Candidates(stratum));
        var seen := exists a :: a in artifacts[..|artifacts|-1] && a.key == key;
        Report(Result(if !seen && |artifacts| > 1 then SeriesBreak else InsufficientHistory, |stratum|, |names|, 0,
                      ShortStrata(names, |stratum|), [], []))
      else Ruling(stratum, relative, absolute)
  }

  // ------------------------------------------------------------------------------------------------
  // The loop

  method JudgeOne(candidates: seq<Artifact>, baseline: seq<Artifact>, name: string, relative: real, absolute: real) returns (j: Judgement)
    requires candidates != []
    ensures Means(candidates, baseline, name, relative, absolute, j)
    ensures j == Judge(candidates, baseline, name, relative, absolute)
  {
    hide Means;
    JudgementMeans(candidates, baseline, name, relative, absolute);
    hide Median, Elevated;
    var missing, unusable := [], [];
    for i := 0 to |candidates|
      invariant missing == MissingRuns(candidates[..i], name) && unusable == UnusableRuns(candidates[..i], name)
    {
      assert candidates[..i + 1][..i] == candidates[..i];
      if name !in candidates[i].observed {
        missing := missing + [candidates[i].runId];
      }
      if name in candidates[i].unusable || name !in candidates[i].medians {
        unusable := unusable + [candidates[i].runId];
      }
    }
    assert candidates[..|candidates|] == candidates;
    if missing != [] {
      return Omitted(MissingCandidate(missing));
    }
    if unusable != [] {
      return Omitted(UnusableReading(unusable));
    }
    var history: seq<real> := [];
    for i := 0 to |baseline|
      invariant history == History(baseline[..i], name)
    {
      assert baseline[..i + 1][..i] == baseline[..i];
      if name in baseline[i].medians {
        history := history + [baseline[i].medians[name]];
      }
    }
    assert baseline[..|baseline|] == baseline;
    if |history| < MIN_BASELINE {
      return Omitted(ThinBaseline(|history|));
    }
    var base := Median(history);
    if forall c :: c in candidates ==> name in c.medians && Elevated(c.medians[name], base, relative, absolute) {
      var last := candidates[|candidates|-1];
      return Shifted(base, if name in last.medians then last.medians[name] else 0.0);
    }
    return Unshifted;
  }

  method Detect(artifacts: seq<Artifact>, relative: real, absolute: real) returns (outcome: Outcome)
    ensures outcome == Detection(artifacts, relative, absolute)
  {
    hide CandidateNames, Stratum, Judge, Judged, Tail, Means;
    if artifacts == [] {
      return Report(Result(NoData, 0, 0, 0, [], [], []));
    }
    var key := artifacts[|artifacts|-1].key;
    var stratum := Stratum(artifacts, key);
    if |stratum| < CANDIDATES + MIN_BASELINE {
      var names := CandidateNames(Candidates(stratum));
      var seen := exists a :: a in artifacts[..|artifacts|-1] && a.key == key;
      return Report(Result(if !seen && |artifacts| > 1 then SeriesBreak else InsufficientHistory, |stratum|, |names|, 0,
                           ShortStrata(names, |stratum|), [], []));
    }
    WindowSizes(stratum);
    var candidates, baseline := Candidates(stratum), Baseline(stratum);
    var names := CandidateNames(candidates);
    ghost var js := Judged(names, candidates, baseline, relative, absolute);
    var suspects: seq<Suspect> := [];
    var omitted: seq<Omitted> := [];
    var evaluated := 0;
    for i := 0 to |names|
      invariant omitted == OmittedOf(js[..i]) && suspects == SuspectsOf(js[..i]) && evaluated == EvaluatedOf(js[..i])
      invariant DividesSafely(js[..i])
    {
      var j := JudgeOne(candidates, baseline, names[i], relative, absolute);
      JudgedAt(names, candidates, baseline, relative, absolute, i);
      assert js[i] == (names[i], j) && js[..i + 1][..i] == js[..i];
      match j
      case Omitted(why) =>
        omitted := omitted + [Omit(names[i], why)];
      case Unshifted =>
        evaluated := evaluated + 1;
      case Shifted(base, newest) =>
        evaluated := evaluated + 1;
        if base == 0.0 {
          assert !DividesSafely(js);
          return DivisionByZero;
        }
        suspects := suspects + [Suspect(names[i], base, newest, newest / base - 1.0)];
    }
    assert js[..|names|] == js;
    return Report(Result(VerdictOf(suspects, evaluated, omitted), |stratum|, |names|, evaluated, omitted, suspects,
                         [candidates[0].commit, baseline[|baseline|-1].commit, candidates[|candidates|-1].commit]));
  }

  lemma WindowSizes(stratum: seq<Artifact>)
    requires |stratum| >= CANDIDATES + MIN_BASELINE
    ensures |Candidates(stratum)| == CANDIDATES && MIN_BASELINE <= |Baseline(stratum)| <= MAX_BASELINE
  {
  }

  // ------------------------------------------------------------------------------------------------
  // What the rule promises

  lemma TailOfTail<T>(s: seq<T>, m: nat, n: nat)
    requires m <= n
    ensures Tail(Tail(s, n), m) == Tail(s, m)
  {
  }

  /** The ruling but for the size of the stratum it reports. */
  function Sized(o: Outcome, size: nat): Outcome {
    match o
    case Report(r) => Report(r.(stratumSize := size))
    case DivisionByZero => DivisionByZero
  }

  /**
   Only the newest stratum's last 33 artifacts matter: two histories that agree on those get the same verdict,
   suspects, omissions and commits.
   */
  lemma OnlyTheWindowMatters(a: seq<Artifact>, b: seq<Artifact>, relative: real, absolute: real)
    requires a != [] && b != []
    requires var s, t := Stratum(a, a[|a|-1].key), Stratum(b, b[|b|-1].key);
             && |s| >= CANDIDATES + MIN_BASELINE && |t| >= CANDIDATES + MIN_BASELINE
             && Tail(s, CANDIDATES + MAX_BASELINE) == Tail(t, CANDIDATES + MAX_BASELINE)
    ensures forall size :: Sized(Detection(a, relative, absolute), size) == Sized(Detection(b, relative, absolute), size)
  {
    hide Tail, Judged, CandidateNames, Stratum, DividesSafely, OmittedOf, SuspectsOf, EvaluatedOf;
    var s, t := Stratum(a, a[|a|-1].key), Stratum(b, b[|b|-1].key);
    WindowSizes(s);
    WindowSizes(t);
    TailOfTail(s, CANDIDATES, CANDIDATES + MAX_BASELINE);
    TailOfTail(t, CANDIDATES, CANDIDATES + MAX_BASELINE);
    assert Candidates(s) == Candidates(t) && Baseline(s) == Baseline(t);
  }

  lemma {:induction false} CountsAddUp(js: seq<(string, Judgement)>)
    ensures EvaluatedOf(js) + |OmittedOf(js)| == |js|
    ensures forall o :: o in OmittedOf(js) <==> exists i :: 0 <= i < |js| && js[i].1.Omitted? && o == Omit(js[i].0, js[i].1.why)
    ensures forall x :: x in SuspectsOf(js) <==>
                          exists i :: 0 <= i < |js| && js[i].1.Shifted? && js[i].1.base != 0.0 &&
                                      x == Suspect(js[i].0, js[i].1.base, js[i].1.newest, js[i].1.newest / js[i].1.base - 1.0)
  {
    if js != [] {
      var init, last := js[..|js|-1], js[|js|-1];
      CountsAddUp(init);
      assert js == init + [last];
      forall o ensures o in OmittedOf(js) <==> exists i :: 0 <= i < |js| && js[i].1.Omitted? && o == Omit(js[i].0, js[i].1.why) {
        if i :| 0 <= i < |js| && js[i].1.Omitted? && o == Omit(js[i].0, js[i].1.why) {
          assert i < |init| ==> init[i] == js[i];
        }
        if o in OmittedOf(init) {
          var i :| 0 <= i < |init| && init[i].1.Omitted? && o == Omit(init[i].0, init[i].1.why);
          assert js[i] == init[i];
        }
      }
      forall x ensures x in SuspectsOf(js) <==>
                         exists i :: 0 <= i < |js| && js[i].1.Shifted? && js[i].1.base != 0.0 &&
                                     x == Suspect(js[i].0, js[i].1.base, js[i].1.newest, js[i].1.newest / js[i].1.base - 1.0)
      {
        if i :| 0 <= i < |js| && js[i].1.Shifted? && js[i].1.base != 0.0 &&
                x == Suspect(js[i].0, js[i].1.base, js[i].1.newest, js[i].1.newest / js[i].1.base - 1.0) {
          assert i < |init| ==> init[i] == js[i];
        }
        if x in SuspectsOf(init) {
          var i :| 0 <= i < |init| && init[i].1.Shifted? && init[i].1.base != 0.0 &&
                   x == Suspect(init[i].0, init[i].1.base, init[i].1.newest, init[i].1.newest / init[i].1.base - 1.0);
          assert js[i] == init[i];
        }
      }
    }
  }

  /** What a name observed among the candidates came to. */
  function JudgementOf(stratum: seq<Artifact>, name: string, relative: real, absolute: real): Judgement
    requires |stratum| >= CANDIDATES + MIN_BASELINE
  {
    Judge(Candidates(stratum), Baseline(stratum), name, relative, absolute)
  }

  /**
   Coverage: every name a candidate observed is evaluated or omitted with its reason, none both and none
   twice, and the counts say so; suspects are exactly the evaluated names found shifted.
   */
  lemma EveryNameIsCovered(stratum: seq<Artifact>, relative: real, absolute: real)
    requires |stratum| >= CANDIDATES + MIN_BASELINE && Ruling(stratum, relative, absolute).Report?
    ensures var r := Ruling(stratum, relative, absolute).result;
            var names := CandidateNames(Candidates(stratum));
            && NamesAscend(names) && (forall n :: n in names <==> exists c :: c in Candidates(stratum) && n in c.observed)
            && r.candidateCount == |names| == r.evaluatedCount + |r.omitted|
            && (forall o :: o in r.omitted <==>
                  o.benchmark in names && JudgementOf(stratum, o.benchmark, relative, absolute) == Judgement.Omitted(o.why))
            && (forall x :: x in r.suspects <==>
                  && x.benchmark in names && x.base != 0.0 && x.delta == x.newest / x.base - 1.0
                  && JudgementOf(stratum, x.benchmark, relative, absolute) == Shifted(x.base, x.newest))
  {
    hide Tail, CandidateNames, Judge, Judged, AtMost;
    WindowSizes(stratum);
    var names := CandidateNames(Candidates(stratum));
    var js := Judged(names, Candidates(stratum), Baseline(stratum), relative, absolute);
    CandidateNamesAre(Candidates(stratum));
    CountsAddUp(js);
    forall i | 0 <= i < |names| ensures js[i] == (names[i], JudgementOf(stratum, names[i], relative, absolute)) {
      JudgedAt(names, Candidates(stratum), Baseline(stratum), relative, absolute, i);
    }
    var r := Ruling(stratum, relative, absolute).result;
    forall o ensures o in r.omitted <==>
                       o.benchmark in names && JudgementOf(stratum, o.benchmark, relative, absolute) == Judgement.Omitted(o.why)
    {
      if o.benchmark in names && JudgementOf(stratum, o.benchmark, relative, absolute) == Judgement.Omitted(o.why) {
        var i :| 0 <= i < |names| && names[i] == o.benchmark;
        assert js[i].1.Omitted? && o == Omit(js[i].0, js[i].1.why);
      }
    }
    forall x ensures x in r.suspects <==>
                       && x.benchmark in names && x.base != 0.0 && x.delta == x.newest / x.base - 1.0
                       && JudgementOf(stratum, x.benchmark, relative, absolute) == Shifted(x.base, x.newest)
    {
      if x.benchmark in names && x.base != 0.0 && x.delta == x.newest / x.base - 1.0 &&
         JudgementOf(stratum, x.benchmark, relative, absolute) == Shifted(x.base, x.newest) {
        var i :| 0 <= i < |names| && names[i] == x.benchmark;
        assert js[i].1.Shifted? && x == Suspect(js[i].0, js[i].1.base, js[i].1.newest, js[i].1.newest / js[i].1.base - 1.0);
      }
    }
  }

  /** Each of a suspect's candidate readings exceeds at least half of its baseline readings, of which there are at least eight. */
  lemma SuspectsExceedHalf(stratum: seq<Artifact>, name: string, relative: real, absolute: real, c: Artifact)
    requires |stratum| >= CANDIDATES + MIN_BASELINE && absolute >= 0.0
    requires JudgementOf(stratum, name, relative, absolute).Shifted? && c in Candidates(stratum)
    ensures var history := History(Baseline(stratum), name);
            name in c.medians && |history| >= MIN_BASELINE && 2 * CountBelow(history, c.medians[name]) >= |history|
  {
    hide Tail, History, CountBelow, Median, MissingRuns, UnusableRuns;
    AboveMedian(History(Baseline(stratum), name), c.medians[name]);
  }

  lemma {:induction false} HistoryIsReadings(baseline: seq<Artifact>, name: string)
    ensures forall x :: x in History(baseline, name) ==> exists a :: a in baseline && name in a.medians && a.medians[name] == x
  {
    if baseline != [] {
      HistoryIsReadings(baseline[..|baseline|-1], name);
      assert baseline == baseline[..|baseline|-1] + [baseline[|baseline|-1]];
    }
  }

  lemma {:induction false} SortKeeps(s: seq<real>)
    ensures forall x :: x in SortReals(s) ==> x in s
  {
    if s != [] {
      SortKeeps(s[1..]);
      SortAscends(s[1..], 0.0);
      InsertAscends(s[0], SortReals(s[1..]), 0.0);
    }
  }

  lemma MedianOfPositive(s: seq<real>)
    requires s != [] && forall x :: x in s ==> x > 0.0
    ensures Median(s) > 0.0
  {
    SortKeeps(s);
    var t, n := SortReals(s), |s|;
    assert t[n / 2] in t;
    assert n % 2 == 0 ==> t[n / 2 - 1] in t;
  }

  lemma {:induction false} InsertIsPermutation(x: real, sorted: seq<real>)
    ensures multiset(InsertReal(x, sorted)) == multiset{x} + multiset(sorted)
  {
    if sorted != [] && x > sorted[0] {
      InsertIsPermutation(x, sorted[1..]);
      assert sorted == [sorted[0]] + sorted[1..];
    }
  }

  lemma {:induction false} SortIsPermutation(s: seq<real>)
    ensures multiset(SortReals(s)) == multiset(s)
  {
    if s != [] {
      SortIsPermutation(s[1..]);
      InsertIsPermutation(s[0], SortReals(s[1..]));
      assert s == [s[0]] + s[1..];
    }
  }

  /** In ascending order, the zeros among readings that are not negative come first. */
  lemma {:induction false} ZerosComeFirst(t: seq<real>, k: nat)
    requires Ascends(t) && k < |t| && forall i :: 0 <= i < |t| ==> t[i] >= 0.0
    ensures t[k] == 0.0 <==> multiset(t)[0.0] > k
  {
    var rest := t[1..];
    assert t == [t[0]] + rest && Ascends(rest);
    if t[0] != 0.0 {
      assert 0.0 !in multiset(t) by {
        assert forall x :: x in t ==> x > 0.0;
      }
    } else if k > 0 {
      ZerosComeFirst(rest, k - 1);
    }
  }

  /** The median of readings that are not negative is zero exactly if more than half of them are. */
  lemma ZeroMedian(s: seq<real>)
    requires s != [] && forall x :: x in s ==> x >= 0.0
    ensures Median(s) == 0.0 <==> 2 * multiset(s)[0.0] > |s|
  {
    hide SortReals;
    var t, n := SortReals(s), |s|;
    SortKeeps(s);
    SortAscends(s, 0.0);
    SortIsPermutation(s);
    forall i | 0 <= i < n ensures t[i] >= 0.0 {
      assert t[i] in t;
    }
    ZerosComeFirst(t, n / 2);
    if n % 2 == 0 {
      assert t[n / 2 - 1] <= t[n / 2];
    }
  }

  /**
   What makes the report divide by zero: every candidate reads the name above zero and above the absolute
   floor, and the median of its baseline readings, of which there are enough, is zero.
   */
  predicate RisesFromZero(stratum: seq<Artifact>, name: string, absolute: real)
    requires |stratum| >= CANDIDATES + MIN_BASELINE
  {
    var history := History(Baseline(stratum), name);
    && (forall c :: c in Candidates(stratum) ==> Read(c, name) && c.medians[name] > 0.0 && c.medians[name] > absolute)
    && |history| >= MIN_BASELINE && Median(history) == 0.0
  }

  lemma RisesIsShifted(stratum: seq<Artifact>, name: string, relative: real, absolute: real)
    requires |stratum| >= CANDIDATES + MIN_BASELINE
    ensures var j := JudgementOf(stratum, name, relative, absolute);
            RisesFromZero(stratum, name, absolute) <==> j.Shifted? && j.base == 0.0
    ensures RisesFromZero(stratum, name, absolute) ==> name in CandidateNames(Candidates(stratum))
  {
    hide Tail, Median, History, CandidateNames;
    WindowSizes(stratum);
    MissingRunsAre(Candidates(stratum), name);
    UnusableRunsAre(Candidates(stratum), name);
    CandidateNamesAre(Candidates(stratum));
    assert Candidates(stratum)[0] in Candidates(stratum);
  }

  lemma ShiftIsSomewhere(stratum: seq<Artifact>, relative: real, absolute: real)
    requires |stratum| >= CANDIDATES + MIN_BASELINE
    ensures Candidates(stratum) != []
    ensures var names := CandidateNames(Candidates(stratum));
            DividesSafely(Judged(names, Candidates(stratum), Baseline(stratum), relative, absolute)) <==>
            forall i :: 0 <= i < |names| ==> !RisesFromZero(stratum, names[i], absolute)
  {
    hide Tail, CandidateNames, Judge, Judged, RisesFromZero;
    WindowSizes(stratum);
    var names := CandidateNames(Candidates(stratum));
    var js := Judged(names, Candidates(stratum), Baseline(stratum), relative, absolute);
    forall i | 0 <= i < |names|
      ensures (js[i].1.Shifted? && js[i].1.base == 0.0) <==> RisesFromZero(stratum, names[i], absolute)
    {
      JudgedAt(names, Candidates(stratum), Baseline(stratum), relative, absolute, i);
      RisesIsShifted(stratum, names[i], relative, absolute);
    }
  }

  /** Detection fails with a division by zero exactly if some name rises from a baseline median of zero, whatever the relative floor. */
  lemma FailsOnZeroBaselines(stratum: seq<Artifact>, relative: real, absolute: real)
    requires |stratum| >= CANDIDATES + MIN_BASELINE
    ensures Ruling(stratum, relative, absolute) == DivisionByZero <==> exists name :: RisesFromZero(stratum, name, absolute)
  {
    hide Tail, CandidateNames, Judged, RisesFromZero, DividesSafely;
    ShiftIsSomewhere(stratum, relative, absolute);
    var names := CandidateNames(Candidates(stratum));
    if name :| RisesFromZero(stratum, name, absolute) {
      RisesIsShifted(stratum, name, relative, absolute);
      var i :| 0 <= i < |names| && names[i] == name;
    }
  }

  /** For readings that are not negative: more than half of at least eight baseline readings are zero. */
  lemma RisesFromMostlyZero(stratum: seq<Artifact>, name: string, absolute: real)
    requires |stratum| >= CANDIDATES + MIN_BASELINE
    requires forall a :: a in Baseline(stratum) && name in a.medians ==> a.medians[name] >= 0.0
    ensures var history := History(Baseline(stratum), name);
            RisesFromZero(stratum, name, absolute) <==>
            && (forall c :: c in Candidates(stratum) ==> Read(c, name) && c.medians[name] > 0.0 && c.medians[name] > absolute)
            && |history| >= MIN_BASELINE && 2 * multiset(history)[0.0] > |history|
  {
    hide Tail, Median, History;
    var history := History(Baseline(stratum), name);
    HistoryIsReadings(Baseline(stratum), name);
    if history != [] {
      ZeroMedian(history);
    }
  }

  /** A name whose baseline readings are all positive does not rise from zero. */
  lemma PositiveBaselinesAreSafe(stratum: seq<Artifact>, name: string, absolute: real)
    requires |stratum| >= CANDIDATES + MIN_BASELINE
    requires forall a :: a in Baseline(stratum) && name in a.medians ==> a.medians[name] > 0.0
    ensures !RisesFromZero(stratum, name, absolute)
  {
    hide Tail, Median;
    var history := History(Baseline(stratum), name);
    HistoryIsReadings(Baseline(stratum), name);
    if history != [] {
      MedianOfPositive(history);
    }
  }

  // ------------------------------------------------------------------------------------------------
  // A history the rule fails on

  function Steady(n: nat, name: string, reading: real): (s: seq<Artifact>)
    ensures |s| == n && forall i :: 0 <= i < n ==> s[i] == Artifact(i, "", "", map[name := reading], [name], [])
  {
    seq(n, i => Artifact(i, "", "", map[name := reading], [name], []))
  }

  lemma {:induction false} SteadyHistory(n: nat, name: string, reading: real)
    ensures History(Steady(n, name, reading), name) == seq(n, _ => reading)
  {
    if n > 0 {
      SteadyHistory(n - 1, name, reading);
      assert Steady(n, name, reading)[..n - 1] == Steady(n - 1, name, reading);
    }
  }

  lemma {:induction false} AllTheSame(n: nat, x: real)
    ensures multiset(seq(n, _ => x))[x] == n
  {
    if n > 0 {
      AllTheSame(n - 1, x);
      assert seq(n, _ => x) == seq(n - 1, _ => x) + [x];
    }
  }

  /** A benchmark that reads zero until, three artifacts ago, it began to read anything above the floor. */
  lemma FirstReadingsFail(n: nat, name: string, reading: real, relative: real, absolute: real)
    requires MIN_BASELINE <= n <= MAX_BASELINE && reading > 0.0 && reading > absolute
    ensures Ruling(Steady(n, name, 0.0) + Steady(CANDIDATES, name, reading), relative, absolute) == DivisionByZero
  {
    hide Ruling, History, Median, CandidateNames;
    var stratum := Steady(n, name, 0.0) + Steady(CANDIDATES, name, reading);
    assert Candidates(stratum) == Steady(CANDIDATES, name, reading);
    assert Baseline(stratum) == Steady(n, name, 0.0);
    SteadyHistory(n, name, 0.0);
    AllTheSame(n, 0.0);
    RisesFromMostlyZero(stratum, name, absolute);
    FailsOnZeroBaselines(stratum, relative, absolute);
  }

  // ------------------------------------------------------------------------------------------------
  // What the verdict says of the artifacts

  lemma {:induction false} StratumConcat(a: seq<Artifact>, b: seq<Artifact>, key: string)
    ensures Stratum(a + b, key) == Stratum(a, key) + Stratum(b, key)
  {
    if b == [] {
      assert a + b == a && Stratum(a, key) + [] == Stratum(a, key);
    } else {
      StratumConcat(a, b[..|b|-1], key);
      assert (a + b)[..|a + b|-1] == a + b[..|b|-1];
    }
  }

  lemma StratumOne(a: Artifact, key: string)
    ensures Stratum([a], key) == if a.key == key then [a] else []
  {
    assert [a][..0] == [];
  }

  /** A stratum holds exactly the artifacts with its key. */
  lemma {:induction false} StratumIs(artifacts: seq<Artifact>, key: string)
    ensures forall a :: a in Stratum(artifacts, key) <==> a in artifacts && a.key == key
  {
    if artifacts != [] {
      StratumIs(artifacts[..|artifacts|-1], key);
      assert artifacts == artifacts[..|artifacts|-1] + [artifacts[|artifacts|-1]];
    }
  }

  lemma {:induction false} HistoryConcat(a: seq<Artifact>, b: seq<Artifact>, name: string)
    ensures History(a + b, name) == History(a, name) + History(b, name)
  {
    if b == [] {
      assert a + b == a && History(a, name) + [] == History(a, name);
    } else {
      HistoryConcat(a, b[..|b|-1], name);
      assert (a + b)[..|a + b|-1] == a + b[..|b|-1];
    }
  }

  lemma HistoryOne(a: Artifact, name: string)
    ensures History([a], name) == if name in a.medians then [a.medians[name]] else []
  {
    assert [a][..0] == [];
  }

  lemma LeastComesFirst(a: seq<real>, b: seq<real>)
    requires Ascends(a) && multiset(a) == multiset(b) && a != []
    ensures b != [] && a[0] <= b[0]
  {
    assert a[0] in multiset(b);
    assert b[0] in multiset(a);
    var i :| 0 <= i < |a| && a[i] == b[0];
  }

  lemma RestIsTheSame(a: seq<real>, b: seq<real>)
    requires a != [] && b != [] && a[0] == b[0] && multiset(a) == multiset(b)
    ensures multiset(a[1..]) == multiset(b[1..]) && a == [a[0]] + a[1..] && b == [b[0]] + b[1..]
  {
    assert a == [a[0]] + a[1..] && b == [b[0]] + b[1..];
    assert multiset(a[1..]) == multiset(a) - multiset{a[0]};
    assert multiset(b[1..]) == multiset(b) - multiset{b[0]};
  }

  lemma {:induction false} AscendingIsUnique(a: seq<real>, b: seq<real>)
    requires Ascends(a) && Ascends(b) && multiset(a) == multiset(b)
    ensures a == b
  {
    if a == [] {
      if b != [] {
        LeastComesFirst(b, a);
      }
    } else {
      LeastComesFirst(a, b);
      LeastComesFirst(b, a);
      RestIsTheSame(a, b);
      AscendingIsUnique(a[1..], b[1..]);
    }
  }

  /** The median is read off the middle of the readings in ascending order. */
  lemma MedianIs(s: seq<real>, t: seq<real>)
    requires s != [] && Ascends(t) && multiset(t) == multiset(s)
    ensures |t| == |s|
    ensures Median(s) == if |s| % 2 == 1 then t[|s| / 2] else (t[|s| / 2 - 1] + t[|s| / 2]) / 2.0
  {
    hide SortReals;
    SortAscends(s, 0.0);
    SortIsPermutation(s);
    AscendingIsUnique(SortReals(s), t);
  }

  /** The last three artifacts are judged against up to thirty before them. */
  function Newest(s: seq<Artifact>): seq<Artifact>
    requires |s| >= 11
  {
    s[|s| - 3..]
  }

  function Before(s: seq<Artifact>): seq<Artifact>
    requires |s| >= 11
  {
    s[(if |s| > 33 then |s| - 33 else 0)..|s| - 3]
  }

  lemma WindowIs(s: seq<Artifact>)
    requires |s| >= 11
    ensures Candidates(s) == Newest(s) && Baseline(s) == Before(s)
    ensures Candidates(s)[0] == s[|s| - 3] && Candidates(s)[|Candidates(s)| - 1] == s[|s| - 1]
    ensures Baseline(s) != [] && Baseline(s)[|Baseline(s)| - 1] == s[|s| - 4]
  {
  }

  ghost predicate Observed(s: seq<Artifact>, name: string)
    requires |s| >= 11
  {
    exists c :: c in Newest(s) && name in c.observed
  }

  /** Every one of the newest artifacts can be read, and eight or more before them. */
  ghost predicate Judgeable(s: seq<Artifact>, name: string)
    requires |s| >= 11
  {
    && (forall c :: c in Newest(s) ==> name in c.observed && name !in c.unusable && name in c.medians)
    && |History(Before(s), name)| >= 8
  }

  /** And every one of them reads above the median of those before by both floors. */
  ghost predicate Rises(s: seq<Artifact>, name: string, relative: real, absolute: real)
    requires |s| >= 11
  {
    && Judgeable(s, name)
    && var base := Median(History(Before(s), name));
      forall c :: c in Newest(s) ==> c.medians[name] > base * (1.0 + relative) && c.medians[name] - base > absolute
  }

  lemma JudgementIs(s: seq<Artifact>, name: string, relative: real, absolute: real)
    requires |s| >= 11
    ensures var j := JudgementOf(s, name, relative, absolute);
            (j.Omitted? <==> !Judgeable(s, name)) && (j.Shifted? <==> Rises(s, name, relative, absolute))
    ensures Judgeable(s, name) ==> Observed(s, name)
  {
    hide Tail, Median, History, Candidates, Baseline;
    WindowIs(s);
    MissingRunsAre(Candidates(s), name);
    UnusableRunsAre(Candidates(s), name);
    assert Newest(s)[0] in Newest(s);
  }

  lemma {:induction false} NoneEvaluated(js: seq<(string, Judgement)>)
    ensures EvaluatedOf(js) == 0 <==> forall i :: 0 <= i < |js| ==> js[i].1.Omitted?
    ensures OmittedOf(js) == [] <==> forall i :: 0 <= i < |js| ==> !js[i].1.Omitted?
    ensures DividesSafely(js) ==> (SuspectsOf(js) == [] <==> forall i :: 0 <= i < |js| ==> !js[i].1.Shifted?)
  {
    if js != [] {
      var init, last := js[..|js|-1], js[|js|-1];
      NoneEvaluated(init);
      assert js == init + [last];
      assert DividesSafely(js) ==> DividesSafely(init);
    }
  }

  /** The verdict of a stratum that is long enough, by the names its newest artifacts observed. */
  ghost predicate VerdictIs(s: seq<Artifact>, relative: real, absolute: real, verdict: Verdict)
    requires |s| >= 11
  {
    match verdict
    case Suspects => exists name :: Rises(s, name, relative, absolute)
    case InsufficientHistory => forall name :: Observed(s, name) ==> !Judgeable(s, name)
    case Partial =>
      && (forall name :: !Rises(s, name, relative, absolute))
      && (exists name :: Judgeable(s, name)) && exists name :: Observed(s, name) && !Judgeable(s, name)
    case Clean =>
      && (forall name :: !Rises(s, name, relative, absolute))
      && (exists name :: Judgeable(s, name)) && forall name :: Observed(s, name) ==> Judgeable(s, name)
    case NoData => false
    case SeriesBreak => false
  }

  /** The judgements, one per observed name, in terms of the readings. */
  ghost predicate Reflects(s: seq<Artifact>, names: seq<string>, js: seq<(string, Judgement)>, relative: real, absolute: real)
    requires |s| >= 11 && |names| == |js|
  {
    && (forall i :: 0 <= i < |names| ==>
          && Observed(s, names[i])
          && (js[i].1.Omitted? <==> !Judgeable(s, names[i])) && (js[i].1.Shifted? <==> Rises(s, names[i], relative, absolute)))
    && (forall name :: Judgeable(s, name) || Rises(s, name, relative, absolute) || Observed(s, name) ==> name in names)
    && (forall name :: Rises(s, name, relative, absolute) ==> Judgeable(s, name))
  }

  lemma JudgementsReflect(s: seq<Artifact>, relative: real, absolute: real)
    requires |s| >= 11
    ensures Candidates(s) != []
    ensures var names := CandidateNames(Candidates(s));
            Reflects(s, names, Judged(names, Candidates(s), Baseline(s), relative, absolute), relative, absolute)
  {
    hide Tail, CandidateNames, Judge, Judged, AtMost, Differs, Candidates, Baseline, Judgeable, Rises, Newest, Before;
    WindowIs(s);
    WindowSizes(s);
    var names := CandidateNames(Candidates(s));
    var js := Judged(names, Candidates(s), Baseline(s), relative, absolute);
    NamesAreObserved(s);
    forall i | 0 <= i < |names|
      ensures && Observed(s, names[i])
              && (js[i].1.Omitted? <==> !Judgeable(s, names[i])) && (js[i].1.Shifted? <==> Rises(s, names[i], relative, absolute))
    {
      JudgedAt(names, Candidates(s), Baseline(s), relative, absolute, i);
      JudgementIs(s, names[i], relative, absolute);
      assert names[i] in names;
    }
    forall name ensures Judgeable(s, name) || Rises(s, name, relative, absolute) || Observed(s, name) ==> name in names
                ensures Rises(s, name, relative, absolute) ==> Judgeable(s, name)
    {
      JudgementIs(s, name, relative, absolute);
      RisesIsJudgeable(s, name, relative, absolute);
    }
  }

  lemma NamesAreObserved(s: seq<Artifact>)
    requires |s| >= 11
    ensures forall name :: name in CandidateNames(Candidates(s)) <==> Observed(s, name)
  {
    hide Tail, CandidateNames, AtMost, Differs, Candidates, Baseline, Newest, NamesAscend;
    WindowIs(s);
    CandidateNamesAre(Candidates(s));
  }

  lemma RulingMeans(s: seq<Artifact>, relative: real, absolute: real)
    requires |s| >= 11 && Ruling(s, relative, absolute).Report?
    ensures var r := Ruling(s, relative, absolute).result;
            && (forall v :: VerdictIs(s, relative, absolute, v) <==> r.verdict == v)
            && r.stratumSize == |s| && r.commits == [s[|s| - 3].commit, s[|s| - 4].commit, s[|s| - 1].commit]
  {
    hide Tail, CandidateNames, Judge, Judged, Candidates, Baseline, Reflects, OmittedOf, SuspectsOf, EvaluatedOf, DividesSafely, VerdictIs;
    WindowIs(s);
    WindowSizes(s);
    var names := CandidateNames(Candidates(s));
    var js := Judged(names, Candidates(s), Baseline(s), relative, absolute);
    NoneEvaluated(js);
    JudgementsReflect(s, relative, absolute);
    VerdictDecided(s, names, js, relative, absolute, Ruling(s, relative, absolute).result.verdict);
  }

  lemma RisesIsJudgeable(s: seq<Artifact>, name: string, relative: real, absolute: real)
    requires |s| >= 11
    ensures Rises(s, name, relative, absolute) ==> Judgeable(s, name)
  {
    hide Judgeable, Median, History;
  }

  lemma VerdictDecided(s: seq<Artifact>, names: seq<string>, js: seq<(string, Judgement)>, relative: real, absolute: real, verdict: Verdict)
    requires |s| >= 11 && |names| == |js| && Reflects(s, names, js, relative, absolute)
    requires var none := forall i :: 0 <= i < |js| ==> !js[i].1.Shifted?;
             var allOmitted := forall i :: 0 <= i < |js| ==> js[i].1.Omitted?;
             var noneOmitted := forall i :: 0 <= i < |js| ==> !js[i].1.Omitted?;
             verdict == if !none then Suspects else if allOmitted then InsufficientHistory else if !noneOmitted then Partial else Clean
    ensures forall v :: VerdictIs(s, relative, absolute, v) <==> verdict == v
  {
    hide Judgeable, Rises, Observed;
    if i :| 0 <= i < |js| && js[i].1.Shifted? {
      assert Rises(s, names[i], relative, absolute);
    }
    if i :| 0 <= i < |js| && !js[i].1.Omitted? {
      assert Judgeable(s, names[i]);
    }
    if i :| 0 <= i < |js| && js[i].1.Omitted? {
      assert Observed(s, names[i]) && !Judgeable(s, names[i]);
    }
  }

  /**
   Every verdict and when it is given. Without artifacts there is no data; the newest one's key decides the
   stratum; too short a stratum is a break in the series exactly if the key is new and older artifacts exist;
   and a stratum that is long enough is judged by its names' readings.
   */
  lemma DetectMeans(artifacts: seq<Artifact>, relative: real, absolute: real)
    ensures artifacts == [] <==>
              Detection(artifacts, relative, absolute).Report? && Detection(artifacts, relative, absolute).result.verdict == NoData
    ensures artifacts != [] ==>
              var o, key := Detection(artifacts, relative, absolute), artifacts[|artifacts| - 1].key;
              var s := Stratum(artifacts, key);
              if |s| < 11 then
                && o.Report? && o.result.suspects == [] && o.result.evaluatedCount == 0 && o.result.commits == [] && o.result.stratumSize == |s|
                && (o.result.verdict == SeriesBreak <==> |artifacts| > 1 && forall i :: 0 <= i < |artifacts| - 1 ==> artifacts[i].key != key)
                && (o.result.verdict == InsufficientHistory || o.result.verdict == SeriesBreak)
              else
                o.Report? ==>
                  && (forall v :: VerdictIs(s, relative, absolute, v) <==> o.result.verdict == v)
                  && o.result.stratumSize == |s| && o.result.commits == [s[|s| - 3].commit, s[|s| - 4].commit, s[|s| - 1].commit]
  {
    hide Ruling, CandidateNames, Stratum, VerdictIs, Tail;
    if artifacts != [] {
      var key := artifacts[|artifacts| - 1].key;
      var s := Stratum(artifacts, key);
      var older := artifacts[..|artifacts| - 1];
      assert (exists a :: a in older && a.key == key) <==> exists i :: 0 <= i < |older| && older[i].key == key;
      assert forall i :: 0 <= i < |older| ==> older[i] == artifacts[i];
      if |s| >= 11 && Detection(artifacts, relative, absolute).Report? {
        RulingMeans(s, relative, absolute);
        NeverNoData(s, relative, absolute);
      }
    }
  }

  lemma NeverNoData(s: seq<Artifact>, relative: real, absolute: real)
    requires |s| >= 11
    ensures !VerdictIs(s, relative, absolute, NoData)
  {
  }
}
