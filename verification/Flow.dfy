/** Admission and terminal accounting of a bounded flow, and the windows cut out of it. */
module Flow {
  import opened Machine

  datatype FlowCounters = FlowCounters(
    offered: u64, admitted: u64, rejected: u64, coalesced: u64,
    completed: u64, cancelled: u64, superseded: u64, stale: u64, failed: u64, dropped: u64,
    offeredWork: u64, consumedWork: u64,
    outstanding: u64, highWater: u64, inventory: u64, residence: u64, oldestAge: u64)
  {
    /** The sum of every terminal bucket, as the machine adds them. */
    function Terminal(): u64 {
      WrapAdd(WrapAdd(WrapAdd(WrapAdd(WrapAdd(completed, cancelled), superseded), stale), failed), dropped)
    }

    predicate AdmissionHolds() {
      offered == WrapAdd(WrapAdd(admitted, rejected), coalesced)
    }

    predicate RetentionHolds() {
      admitted == WrapAdd(Terminal(), outstanding)
    }

    predicate Conserves() {
      AdmissionHolds() && RetentionHolds()
    }
  }

  const ZERO := FlowCounters(0, 0, 0, 0, 0, 0, 0, 0, 0, 0, 0, 0, 0, 0, 0, 0, 0)

  function Max(a: u64, b: u64): (r: u64)
    ensures r >= a && r >= b && (r == a || r == b)
  {
    if a < b then b else a
  }

  /** The boundaries of one measured window. */
  datatype Window = Window(start: FlowCounters, end: FlowCounters)

  function Plus(total: u64, start: u64, end: u64): u64 {
    WrapAdd(total, WrapSub(end, start))
  }

  /** The window sum of a cell after one more repetition. */
  function Accumulated(w: FlowCounters, start: FlowCounters, end: FlowCounters): FlowCounters {
    FlowCounters(
      Plus(w.offered, start.offered, end.offered), Plus(w.admitted, start.admitted, end.admitted),
      Plus(w.rejected, start.rejected, end.rejected), Plus(w.coalesced, start.coalesced, end.coalesced),
      Plus(w.completed, start.completed, end.completed), Plus(w.cancelled, start.cancelled, end.cancelled),
      Plus(w.superseded, start.superseded, end.superseded), Plus(w.stale, start.stale, end.stale),
      Plus(w.failed, start.failed, end.failed), Plus(w.dropped, start.dropped, end.dropped),
      Plus(w.offeredWork, start.offeredWork, end.offeredWork), Plus(w.consumedWork, start.consumedWork, end.consumedWork),
      Plus(w.outstanding, start.outstanding, end.outstanding), Max(w.highWater, end.highWater),
      Plus(w.inventory, start.inventory, end.inventory), Plus(w.residence, start.residence, end.residence),
      end.oldestAge)
  }

  method AccumulateWindow(window: FlowCounters, start: FlowCounters, end: FlowCounters) returns (w: FlowCounters)
    ensures w == Accumulated(window, start, end)
  {
    w := window;
    w := w.(offered := Plus(w.offered, start.offered, end.offered));
    w := w.(admitted := Plus(w.admitted, start.admitted, end.admitted));
    w := w.(rejected := Plus(w.rejected, start.rejected, end.rejected));
    w := w.(coalesced := Plus(w.coalesced, start.coalesced, end.coalesced));
    w := w.(completed := Plus(w.completed, start.completed, end.completed));
    w := w.(cancelled := Plus(w.cancelled, start.cancelled, end.cancelled));
    w := w.(superseded := Plus(w.superseded, start.superseded, end.superseded));
    w := w.(stale := Plus(w.stale, start.stale, end.stale));
    w := w.(failed := Plus(w.failed, start.failed, end.failed));
    w := w.(dropped := Plus(w.dropped, start.dropped, end.dropped));
    w := w.(offeredWork := Plus(w.offeredWork, start.offeredWork, end.offeredWork));
    w := w.(consumedWork := Plus(w.consumedWork, start.consumedWork, end.consumedWork));
    w := w.(inventory := Plus(w.inventory, start.inventory, end.inventory));
    w := w.(residence := Plus(w.residence, start.residence, end.residence));
    w := w.(outstanding := Plus(w.outstanding, start.outstanding, end.outstanding));
    w := w.(highWater := Max(w.highWater, end.highWater));
    w := w.(oldestAge := end.oldestAge);
  }

  /** A cell's window after its repetitions. */
  function WindowOf(reps: seq<Window>): FlowCounters {
    if reps == [] then ZERO
    else
      var last := reps[|reps|-1];
      Accumulated(WindowOf(reps[..|reps|-1]), last.start, last.end)
  }

  // ------------------------------------------------------------------------------------------------
  // Arithmetic modulo 2^64

  lemma WordIs(x: int, k: int)
    requires 0 <= x + k * TWO64 < TWO64
    ensures Word(x) == x + k * TWO64
  {
    WordShift(x + k * TWO64, -k);
  }

  lemma WordShift(y: int, k: int)
    requires 0 <= y < TWO64
    ensures Word(y + k * TWO64) == y
  {
    assert (y + k * 0x1_0000_0000_0000_0000) % 0x1_0000_0000_0000_0000 == y;
  }

  lemma WordSum(a: int, b: int)
    ensures Word(Word(a) + b) == Word(a + b)
    ensures Word(b + Word(a)) == Word(a + b)
  {
    var q := a / TWO64;
    assert a == q * TWO64 + Word(a);
    var s := Word(a) + b;
    assert s == (s / TWO64) * TWO64 + Word(s);
    assert a + b == Word(s) + (q + s / TWO64) * TWO64;
    WordShift(Word(s), q + s / TWO64);
  }

  lemma WrapIsWord(a: u64, b: u64)
    ensures WrapAdd(a, b) == Word(a + b) && WrapSub(a, b) == Word(a - b)
  {
    WordIs(a + b, 0 - (a + b - WrapAdd(a, b)) / TWO64);
    WordIs(a - b, (WrapSub(a, b) - (a - b)) / TWO64);
  }

  lemma PlusIsWord(w: u64, start: u64, end: u64)
    ensures Plus(w, start, end) == Word(w + end - start)
  {
    WrapIsWord(end, start);
    WrapIsWord(w, WrapSub(end, start));
    WordSum(end - start, w);
  }

  /** What the identities say: these two differences are multiples of 2^64. */
  function AdmissionGap(c: FlowCounters): int {
    c.offered - (c.admitted + c.rejected + c.coalesced)
  }

  function RetentionGap(c: FlowCounters): int {
    c.admitted - (c.completed + c.cancelled + c.superseded + c.stale + c.failed + c.dropped + c.outstanding)
  }

  lemma SameWord(a: u64, x: int)
    ensures a == Word(x) <==> Word(a - x) == 0
  {
    if a == Word(x) {
      assert x == (x / TWO64) * TWO64 + a;
      WordShift(0, -(x / TWO64));
    }
    if Word(a - x) == 0 {
      assert a - x == ((a - x) / TWO64) * TWO64;
      WordShift(a, -((a - x) / TWO64));
    }
  }

  lemma TerminalIs(c: FlowCounters)
    ensures c.Terminal() == Word(c.completed + c.cancelled + c.superseded + c.stale + c.failed + c.dropped)
  {
    hide Word, WrapAdd;
    WrapIsWord(c.completed, c.cancelled);
    var two := WrapAdd(c.completed, c.cancelled);
    WrapIsWord(two, c.superseded);
    WordSum(c.completed + c.cancelled, c.superseded);
    var three := WrapAdd(two, c.superseded);
    WrapIsWord(three, c.stale);
    WordSum(c.completed + c.cancelled + c.superseded, c.stale);
    var four := WrapAdd(three, c.stale);
    WrapIsWord(four, c.failed);
    WordSum(c.completed + c.cancelled + c.superseded + c.stale, c.failed);
    var five := WrapAdd(four, c.failed);
    WrapIsWord(five, c.dropped);
    WordSum(c.completed + c.cancelled + c.superseded + c.stale + c.failed, c.dropped);
  }

  lemma ConservesIs(c: FlowCounters)
    ensures c.AdmissionHolds() <==> Word(AdmissionGap(c)) == 0
    ensures c.RetentionHolds() <==> Word(RetentionGap(c)) == 0
  {
    hide Word, WrapAdd;
    WrapIsWord(c.admitted, c.rejected);
    WrapIsWord(WrapAdd(c.admitted, c.rejected), c.coalesced);
    WordSum(c.admitted + c.rejected, c.coalesced);
    SameWord(c.offered, c.admitted + c.rejected + c.coalesced);
    TerminalIs(c);
    var sum := c.completed + c.cancelled + c.superseded + c.stale + c.failed + c.dropped;
    WrapIsWord(c.Terminal(), c.outstanding);
    WordSum(sum, c.outstanding);
    SameWord(c.admitted, sum + c.outstanding);
  }

  lemma WordShiftAny(x: int, k: int)
    ensures Word(x + k * TWO64) == Word(x)
  {
    assert x == (x / TWO64) * TWO64 + Word(x);
    WordShift(Word(x), x / TWO64 + k);
    assert x + k * TWO64 == Word(x) + (x / TWO64 + k) * TWO64;
  }

  lemma GapsAdd(w: FlowCounters, start: FlowCounters, end: FlowCounters)
    ensures var a := Accumulated(w, start, end);
            && Word(AdmissionGap(a)) == Word(AdmissionGap(w) + AdmissionGap(end) - AdmissionGap(start))
            && Word(RetentionGap(a)) == Word(RetentionGap(w) + RetentionGap(end) - RetentionGap(start))
  {
    hide Word, Plus;
    var a := Accumulated(w, start, end);
    Delta(w.offered, start.offered, end.offered);
    Delta(w.admitted, start.admitted, end.admitted);
    Delta(w.rejected, start.rejected, end.rejected);
    Delta(w.coalesced, start.coalesced, end.coalesced);
    Delta(w.completed, start.completed, end.completed);
    Delta(w.cancelled, start.cancelled, end.cancelled);
    Delta(w.superseded, start.superseded, end.superseded);
    Delta(w.stale, start.stale, end.stale);
    Delta(w.failed, start.failed, end.failed);
    Delta(w.dropped, start.dropped, end.dropped);
    Delta(w.outstanding, start.outstanding, end.outstanding);
    var k := Lap(w.offered, start.offered, end.offered) - Lap(w.admitted, start.admitted, end.admitted)
             - Lap(w.rejected, start.rejected, end.rejected) - Lap(w.coalesced, start.coalesced, end.coalesced);
    WordShiftAny(AdmissionGap(w) + AdmissionGap(end) - AdmissionGap(start), -k);
    var l := Lap(w.admitted, start.admitted, end.admitted) - Lap(w.completed, start.completed, end.completed)
             - Lap(w.cancelled, start.cancelled, end.cancelled) - Lap(w.superseded, start.superseded, end.superseded)
             - Lap(w.stale, start.stale, end.stale) - Lap(w.failed, start.failed, end.failed)
             - Lap(w.dropped, start.dropped, end.dropped) - Lap(w.outstanding, start.outstanding, end.outstanding);
    WordShiftAny(RetentionGap(w) + RetentionGap(end) - RetentionGap(start), -l);
  }

  /** How often adding a delta wrapped. */
  function Lap(w: u64, start: u64, end: u64): int {
    (w + end - start) / TWO64
  }

  lemma Delta(w: u64, start: u64, end: u64)
    ensures Plus(w, start, end) == w + end - start - Lap(w, start, end) * TWO64
  {
    PlusIsWord(w, start, end);
  }

  // ------------------------------------------------------------------------------------------------
  // Conservation over any number of repetitions

  lemma ZeroWords(a: int, b: int, c: int)
    requires Word(a) == 0 && Word(b) == 0
    ensures Word(a + c - b) == 0 <==> Word(c) == 0
  {
    var k := a / TWO64 - b / TWO64;
    assert a + c - b == c + k * TWO64;
    WordShiftAny(c, k);
  }

  /** Adding a window that starts in balance keeps the sums in balance exactly when the window ends in balance. */
  lemma AccumulatedConserves(w: FlowCounters, start: FlowCounters, end: FlowCounters)
    requires w.Conserves() && start.Conserves()
    ensures Accumulated(w, start, end).Conserves() <==> end.Conserves()
  {
    hide Word, Accumulated, AdmissionGap, RetentionGap, FlowCounters.AdmissionHolds, FlowCounters.RetentionHolds;
    GapsAdd(w, start, end);
    ConservesIs(w);
    ConservesIs(start);
    ConservesIs(end);
    ConservesIs(Accumulated(w, start, end));
    ZeroWords(AdmissionGap(w), AdmissionGap(start), AdmissionGap(end));
    ZeroWords(RetentionGap(w), RetentionGap(start), RetentionGap(end));
  }

  lemma ZeroConserves()
    ensures ZERO.Conserves()
  {
  }

  /** The artifact's flow balances, however many repetitions it sums and wherever their windows lie. */
  lemma {:induction false} WindowConserves(reps: seq<Window>)
    requires forall i :: 0 <= i < |reps| ==> reps[i].start.Conserves() && reps[i].end.Conserves()
    ensures WindowOf(reps).Conserves()
  {
    hide Accumulated, FlowCounters.Conserves;
    ZeroConserves();
    if reps != [] {
      var init, last := reps[..|reps|-1], reps[|reps|-1];
      WindowConserves(init);
      AccumulatedConserves(WindowOf(init), last.start, last.end);
    }
  }

  /** The counters that are summed, numbered. */
  function At(c: FlowCounters, i: nat): u64
    requires i < 15
  {
    [c.offered, c.admitted, c.rejected, c.coalesced, c.completed, c.cancelled, c.superseded, c.stale, c.failed,
     c.dropped, c.offeredWork, c.consumedWork, c.inventory, c.residence, c.outstanding][i]
  }

  /** What the `i`-th counter gained over all windows, in unbounded integers. */
  function Gained(reps: seq<Window>, i: nat): int
    requires i < 15
  {
    if reps == [] then 0
    else
      var last := reps[|reps|-1];
      Gained(reps[..|reps|-1], i) + At(last.end, i) - At(last.start, i)
  }

  lemma AccumulatedAt(w: FlowCounters, start: FlowCounters, end: FlowCounters, i: nat)
    requires i < 15
    ensures At(Accumulated(w, start, end), i) == Plus(At(w, i), At(start, i), At(end, i))
  {
  }

  lemma {:induction false} WindowIsGain(reps: seq<Window>, i: nat)
    requires i < 15
    ensures At(WindowOf(reps), i) == Word(Gained(reps, i))
  {
    hide Accumulated, At, Word, Gained, WindowOf;
    Unfold(reps, i);
    if reps == [] {
      NothingGained(WindowOf(reps), Gained(reps, i), i);
    } else {
      var init, last := reps[..|reps|-1], reps[|reps|-1];
      WindowIsGain(init, i);
      GainStep(WindowOf(init), last.start, last.end, Gained(init, i), i);
    }
  }

  lemma Unfold(reps: seq<Window>, i: nat)
    requires i < 15
    ensures reps == [] ==> WindowOf(reps) == ZERO && Gained(reps, i) == 0
    ensures reps != [] ==>
              var init, last := reps[..|reps|-1], reps[|reps|-1];
              && WindowOf(reps) == Accumulated(WindowOf(init), last.start, last.end)
              && Gained(reps, i) == Gained(init, i) + At(last.end, i) - At(last.start, i)
  {
    hide Accumulated, At;
  }

  lemma GainStep(w: FlowCounters, start: FlowCounters, end: FlowCounters, gained: int, i: nat)
    requires i < 15 && At(w, i) == Word(gained)
    ensures At(Accumulated(w, start, end), i) == Word(gained + At(end, i) - At(start, i))
  {
    hide Accumulated, At, Word, Plus;
    AccumulatedAt(w, start, end, i);
    PlusIsWord(At(w, i), At(start, i), At(end, i));
    WordAgain(gained, At(w, i), At(start, i), At(end, i));
  }

  lemma WordAgain(gained: int, w: int, s: int, e: int)
    requires w == Word(gained)
    ensures Word(w + e - s) == Word(gained + e - s)
  {
    WordSum(gained, e - s);
    assert w + (e - s) == w + e - s;
  }

  lemma NothingGained(w: FlowCounters, gained: int, i: nat)
    requires i < 15 && w == ZERO && gained == 0
    ensures At(w, i) == Word(gained)
  {
  }

  /** A published counter is the true gain exactly when that gain is not negative and fits the word. */
  lemma WindowIsExact(reps: seq<Window>, i: nat)
    requires i < 15
    ensures At(WindowOf(reps), i) == Gained(reps, i) <==> 0 <= Gained(reps, i) < TWO64
  {
    hide At, Word;
    WindowIsGain(reps, i);
    if 0 <= Gained(reps, i) < TWO64 {
      WordIs(Gained(reps, i), 0);
    }
  }

  /** No delta underflows when no counter runs backwards; a live start makes the outstanding gauge run backwards. */
  lemma {:induction false} MonotoneGains(reps: seq<Window>, i: nat)
    requires i < 15 && forall k :: 0 <= k < |reps| ==> At(reps[k].start, i) <= At(reps[k].end, i)
    ensures 0 <= Gained(reps, i)
  {
    hide At;
    if reps != [] {
      MonotoneGains(reps[..|reps|-1], i);
    }
  }

  // ------------------------------------------------------------------------------------------------
  // Windows that start with items in flight

  /** The closed-loop window: items in flight at the start count as admitted within it. */
  function Carried(start: FlowCounters, end: FlowCounters): FlowCounters {
    ZERO.(
      offered := WrapAdd(WrapSub(end.offered, start.offered), start.outstanding),
      admitted := WrapAdd(WrapSub(end.admitted, start.admitted), start.outstanding),
      completed := WrapSub(end.completed, start.completed),
      failed := WrapSub(end.failed, start.failed),
      consumedWork := WrapSub(end.consumedWork, start.consumedWork),
      offeredWork := WrapSub(end.offeredWork, start.offeredWork),
      residence := WrapSub(end.residence, start.residence),
      inventory := WrapSub(end.inventory, start.inventory),
      outstanding := end.outstanding,
      highWater := Max(start.outstanding, end.outstanding),
      oldestAge := end.oldestAge)
  }

  lemma WindowIsCarried(start: FlowCounters, end: FlowCounters, w: FlowCounters)
    requires w.offered == WrapAdd(WrapSub(end.offered, start.offered), start.outstanding)
    requires w.admitted == WrapAdd(WrapSub(end.admitted, start.admitted), start.outstanding)
    requires w.rejected == 0 && w.coalesced == 0 && w.cancelled == 0 && w.superseded == 0 && w.stale == 0 && w.dropped == 0
    requires w.completed == WrapSub(end.completed, start.completed) && w.failed == WrapSub(end.failed, start.failed)
    requires w.consumedWork == WrapSub(end.consumedWork, start.consumedWork) && w.offeredWork == WrapSub(end.offeredWork, start.offeredWork)
    requires w.residence == WrapSub(end.residence, start.residence) && w.inventory == WrapSub(end.inventory, start.inventory)
    requires w.outstanding == end.outstanding && w.oldestAge == end.oldestAge
    requires w.highWater == if end.outstanding > start.outstanding then end.outstanding else start.outstanding
    ensures w == Carried(start, end)
  {
  }

  lemma CarriedGaps(start: FlowCounters, end: FlowCounters)
    ensures Word(AdmissionGap(Carried(start, end))) ==
            Word(AdmissionGap(end) - AdmissionGap(start) + (end.rejected + end.coalesced - start.rejected - start.coalesced))
    ensures Word(RetentionGap(Carried(start, end))) ==
            Word(RetentionGap(end) - RetentionGap(start) +
                 ((end.cancelled + end.superseded + end.stale + end.dropped) - (start.cancelled + start.superseded + start.stale + start.dropped)))
  {
    hide Word, Plus, WrapAdd, WrapSub;
    var c := Carried(start, end);
    Live(end.offered, start.offered, start.outstanding);
    Live(end.admitted, start.admitted, start.outstanding);
    Live(end.completed, start.completed, 0);
    Live(end.failed, start.failed, 0);
    var k := Lap(start.outstanding, start.offered, end.offered) - Lap(start.outstanding, start.admitted, end.admitted);
    var gap := AdmissionGap(end) - AdmissionGap(start) + (end.rejected + end.coalesced - start.rejected - start.coalesced);
    WordShiftAny(gap, -k);
    assert AdmissionGap(c) == gap - k * TWO64;
    var l := Lap(start.outstanding, start.admitted, end.admitted) - Lap(0, start.completed, end.completed) - Lap(0, start.failed, end.failed);
    var kept := RetentionGap(end) - RetentionGap(start) +
                ((end.cancelled + end.superseded + end.stale + end.dropped) - (start.cancelled + start.superseded + start.stale + start.dropped));
    WordShiftAny(kept, -l);
    assert RetentionGap(c) == kept - l * TWO64;
  }

  lemma Live(end: u64, start: u64, open: u64)
    ensures WrapAdd(WrapSub(end, start), open) == open + end - start - Lap(open, start, end) * TWO64
    ensures open == 0 ==> WrapSub(end, start) == end - start - Lap(0, start, end) * TWO64
  {
    Delta(open, start, end);
    Delta(0, start, end);
    assert Plus(0, start, end) == WrapSub(end, start);
  }

  /**
   A window cut out of a live flow balances exactly when the buckets it leaves out did not move within it.
   */
  lemma CarriedConserves(start: FlowCounters, end: FlowCounters)
    requires start.Conserves() && end.Conserves()
    ensures Carried(start, end).AdmissionHolds() <==>
            Word(end.rejected + end.coalesced - start.rejected - start.coalesced) == 0
    ensures Carried(start, end).RetentionHolds() <==>
            Word((end.cancelled + end.superseded + end.stale + end.dropped) - (start.cancelled + start.superseded + start.stale + start.dropped)) == 0
  {
    hide Word, Carried, AdmissionGap, RetentionGap, FlowCounters.AdmissionHolds, FlowCounters.RetentionHolds;
    CarriedGaps(start, end);
    ConservesIs(start);
    ConservesIs(end);
    ConservesIs(Carried(start, end));
    ZeroWords(AdmissionGap(end), AdmissionGap(start), end.rejected + end.coalesced - start.rejected - start.coalesced);
    ZeroWords(RetentionGap(end), RetentionGap(start),
              (end.cancelled + end.superseded + end.stale + end.dropped) - (start.cancelled + start.superseded + start.stale + start.dropped));
  }
}
