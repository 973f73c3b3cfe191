/** Closed-loop demand: agents walk between a home and a goal, each leg one item of an accounted flow. */
module MixedDemands {
  import opened Machine
  import opened Flow
  import opened Tiles
  import opened Options

  // ------------------------------------------------------------------------------------------------
  // Accounting transitions

  datatype Accounting = Accounting(counters: FlowCounters, lastTick: u64)
  {
    function ObserveTick(tick: u64): Accounting {
      if tick > lastTick then
        Accounting(counters.(inventory := WrapAdd(counters.inventory, Word(counters.outstanding * (tick - lastTick)))), tick)
      else this
    }

    function RecordAdmitted(): Accounting {
      var now := WrapAdd(counters.outstanding, 1);
      this.(counters := counters.(admitted := WrapAdd(counters.admitted, 1), outstanding := now,
                                  highWater := Max(counters.highWater, now)))
    }

    function RecordLeftOutstanding(): Accounting {
      if counters.outstanding > 0 then this.(counters := counters.(outstanding := counters.outstanding - 1)) else this
    }
  }

  datatype Item = Item(admittedTick: u64, completedTick: u64, completed: bool, failed: bool)
  {
    predicate Resolved() {
      completed || failed
    }
  }

  // ------------------------------------------------------------------------------------------------
  // Sums over all items

  function Total(items: seq<Item>, f: Item -> int): int {
    if items == [] then 0 else Total(items[..|items|-1], f) + f(items[|items|-1])
  }

  function Done(i: Item): int {
    if i.completed then 1 else 0
  }

  function Broken(i: Item): int {
    if i.failed then 1 else 0
  }

  function Open(i: Item): int {
    if i.Resolved() then 0 else 1
  }

  /** How long a resolved item was in flight. */
  function Residing(i: Item): int {
    if i.Resolved() then i.completedTick - i.admittedTick else 0
  }

  function Since(i: Item): int {
    if i.Resolved() then 0 else i.admittedTick
  }

  lemma TotalAppend(items: seq<Item>, i: Item, f: Item -> int)
    ensures Total(items + [i], f) == Total(items, f) + f(i)
  {
    assert (items + [i])[..|items|] == items;
  }

  lemma {:induction false} TotalUpdate(items: seq<Item>, k: nat, i: Item, f: Item -> int)
    requires k < |items|
    ensures Total(items[k := i], f) == Total(items, f) - f(items[k]) + f(i)
  {
    var n := |items| - 1;
    if k == n {
      assert items[k := i][..n] == items[..n];
    } else {
      assert items[k := i][..n] == items[..n][k := i];
      TotalUpdate(items[..n], k, i, f);
    }
  }

  lemma {:induction false} TotalBounds(items: seq<Item>, f: Item -> int)
    requires forall i: Item :: 0 <= f(i) <= 1
    ensures 0 <= Total(items, f) <= |items|
  {
    if items != [] {
      TotalBounds(items[..|items|-1], f);
    }
  }

  lemma {:induction false} EachCountsOnce(items: seq<Item>)
    requires forall i :: 0 <= i < |items| ==> !(items[i].completed && items[i].failed)
    ensures Total(items, Done) + Total(items, Broken) + Total(items, Open) == |items|
    ensures 0 <= Total(items, Done) && 0 <= Total(items, Broken) && 0 <= Total(items, Open)
  {
    if items != [] {
      EachCountsOnce(items[..|items|-1]);
    }
  }

  lemma {:induction false} SomeOpen(items: seq<Item>, k: nat)
    requires k < |items| && !items[k].Resolved()
    ensures Total(items, Open) > 0
  {
    TotalBounds(items[..|items|-1], Open);
    if k < |items| - 1 {
      SomeOpen(items[..|items|-1], k);
    }
  }

  // ------------------------------------------------------------------------------------------------
  // What every reachable state keeps

  /** Items carry one outcome at most, in order of admission, with times no later than the clock. */
  predicate Timed(items: seq<Item>, now: u64) {
    && (forall i :: 0 <= i < |items| ==> !(items[i].completed && items[i].failed) && items[i].admittedTick <= now)
    && (forall i :: 0 <= i < |items| && items[i].Resolved() ==> items[i].admittedTick <= items[i].completedTick <= now)
    && (forall i, j :: 0 <= i < j < |items| ==> items[i].admittedTick <= items[j].admittedTick)
  }

  /** Unresolved items and agents with an open item match one to one. */
  predicate Tracked(items: seq<Item>, openItem: seq<Option<nat>>, owner: seq<nat>) {
    && |owner| == |items|
    && (forall i {:trigger owner[i]} :: 0 <= i < |items| ==>
          owner[i] < |openItem| && (!items[i].Resolved() ==> openItem[owner[i]] == Some(i)))
    && (forall a {:trigger openItem[a]} :: 0 <= a < |openItem| && openItem[a].Some? ==>
          openItem[a].value < |items| && owner[openItem[a].value] == a && !items[openItem[a].value].Resolved())
  }

  /** Every item before the pointer is resolved. */
  predicate Pointed(items: seq<Item>, pointer: nat) {
    pointer <= |items| && forall i :: 0 <= i < pointer ==> items[i].Resolved()
  }

  /** An agent with an open item is heading where its heading says. */
  predicate Headed(openItem: seq<Option<nat>>, currentGoal: seq<Coord>, headingAway: seq<bool>, homes: seq<Coord>, goals: seq<Coord>) {
    && |openItem| == |currentGoal| == |headingAway| == |homes| == |goals|
    && forall a {:trigger openItem[a]} :: 0 <= a < |openItem| && openItem[a].Some? ==>
         currentGoal[a] == if headingAway[a] then goals[a] else homes[a]
  }

  /** The queue names idle agents, each once. */
  predicate Queued(openItem: seq<Option<nat>>, queue: seq<nat>) {
    && (forall k {:trigger queue[k]} :: 0 <= k < |queue| ==> queue[k] < |openItem| && openItem[queue[k]].None?)
    && (forall k, l :: 0 <= k < l < |queue| ==> queue[k] != queue[l])
  }

  /** It names every idle agent. */
  predicate AllQueued(openItem: seq<Option<nat>>, queue: seq<nat>) {
    forall a {:trigger openItem[a]} :: 0 <= a < |openItem| && openItem[a].None? ==> a in queue
  }

  /** The counters are what the items say: each outcome counted, each tick of residence and inventory summed. */
  predicate Counted(items: seq<Item>, accounting: Accounting) {
    var c := accounting.counters;
    && |items| < TWO64
    && c.offered == |items| && c.admitted == |items|
    && c.rejected == 0 && c.coalesced == 0 && c.cancelled == 0 && c.superseded == 0 && c.stale == 0 && c.dropped == 0
    && c.completed == Total(items, Done) && c.failed == Total(items, Broken) && c.outstanding == Total(items, Open)
    && c.offeredWork == c.completed && c.consumedWork == c.completed
    && c.residence == Word(Total(items, Residing))
    && c.inventory == Word(Inventory(items, accounting.lastTick))
    && c.outstanding <= c.highWater
  }

  /** Ticks of residence of all items up to `now`: of the resolved ones, and the ages of the others. */
  function Inventory(items: seq<Item>, now: int): int {
    Total(items, Residing) + Total(items, Open) * now - Total(items, Since)
  }

  lemma CountedBalances(items: seq<Item>, accounting: Accounting)
    requires Timed(items, accounting.lastTick) && Counted(items, accounting)
    ensures var c := accounting.counters;
            && c.Conserves()
            && c.outstanding == c.admitted - c.completed - c.failed
  {
    hide Total, Inventory, Word;
    EachCountsOnce(items);
  }

  // One observation

  lemma ObserveCounts(items: seq<Item>, accounting: Accounting, tick: u64)
    requires Counted(items, accounting) && accounting.lastTick <= tick
    ensures Counted(items, accounting.ObserveTick(tick)) && accounting.ObserveTick(tick).lastTick == tick
  {
    hide Total, Word, WrapAdd;
    var c, last := accounting.counters, accounting.lastTick;
    var open := Total(items, Open);
    var step := open * (tick - last);
    Distribute(open, last, tick);
    WrapIsWord(c.inventory, Word(step));
    WordSum(Inventory(items, last), Word(step));
    WordSum(step, Inventory(items, last));
    assert Inventory(items, tick) == Inventory(items, last) + step;
  }

  lemma Distribute(a: int, b: int, c: int)
    ensures a * b + a * (c - b) == a * c
  {
  }

  // One admission

  lemma AdmitCounts(items: seq<Item>, accounting: Accounting)
    requires Counted(items, accounting) && Timed(items, accounting.lastTick) && |items| + 1 < TWO64
    ensures var offered := accounting.(counters := accounting.counters.(offered := WrapAdd(accounting.counters.offered, 1)));
            Counted(items + [Item(accounting.lastTick, 0, false, false)], offered.RecordAdmitted())
  {
    hide Total, Word;
    var i := Item(accounting.lastTick, 0, false, false);
    EachCountsOnce(items);
    TotalAppend(items, i, Done);
    TotalAppend(items, i, Broken);
    TotalAppend(items, i, Open);
    TotalAppend(items, i, Residing);
    TotalAppend(items, i, Since);
    var open, now := Total(items, Open), accounting.lastTick;
    Distribute(now, open, open + 1);
    assert (open + 1) * now == open * now + now;
  }

  lemma AdmitTracks(items: seq<Item>, openItem: seq<Option<nat>>, owner: seq<nat>, agent: nat, i: Item)
    requires Tracked(items, openItem, owner) && agent < |openItem| && openItem[agent].None? && !i.Resolved()
    ensures Tracked(items + [i], openItem[agent := Some(|items|)], owner + [agent])
  {
  }

  // One resolution

  function Resolve(i: Item, completed: bool, tick: u64): Item {
    if completed then i.(completed := true, completedTick := tick) else i.(failed := true, completedTick := tick)
  }

  lemma ResolveTracks(items: seq<Item>, openItem: seq<Option<nat>>, owner: seq<nat>, agent: nat, completed: bool, tick: u64)
    requires Tracked(items, openItem, owner) && agent < |openItem| && openItem[agent].Some?
    ensures openItem[agent].value < |items|
    ensures var k := openItem[agent].value;
            Tracked(items[k := Resolve(items[k], completed, tick)], openItem[agent := None], owner)
  {
  }

  lemma ResolveTimes(items: seq<Item>, k: nat, completed: bool, tick: u64)
    requires Timed(items, tick) && k < |items| && !items[k].Resolved()
    ensures Timed(items[k := Resolve(items[k], completed, tick)], tick)
  {
  }

  /** The accounting after an item resolved at the clock's tick. */
  function Left(accounting: Accounting, completed: bool, residence: u64): Accounting {
    var c := accounting.counters;
    var counted := if completed then c.(completed := WrapAdd(c.completed, 1)) else c.(failed := WrapAdd(c.failed, 1));
    var left := accounting.(counters := counted).RecordLeftOutstanding();
    var l := left.counters.(residence := WrapAdd(left.counters.residence, residence));
    left.(counters := if completed then l.(offeredWork := WrapAdd(l.offeredWork, 1), consumedWork := WrapAdd(l.consumedWork, 1)) else l)
  }

  lemma ResolveCounts(items: seq<Item>, accounting: Accounting, k: nat, completed: bool)
    requires Counted(items, accounting) && Timed(items, accounting.lastTick) && k < |items| && !items[k].Resolved()
    ensures Counted(items[k := Resolve(items[k], completed, accounting.lastTick)],
                    Left(accounting, completed, accounting.lastTick - items[k].admittedTick))
  {
    hide Total, Word;
    var tick := accounting.lastTick;
    var i, age := Resolve(items[k], completed, tick), tick - items[k].admittedTick;
    EachCountsOnce(items);
    SomeOpen(items, k);
    TotalUpdate(items, k, i, Done);
    TotalUpdate(items, k, i, Broken);
    TotalUpdate(items, k, i, Open);
    TotalUpdate(items, k, i, Residing);
    TotalUpdate(items, k, i, Since);
    var open := Total(items, Open);
    assert (open - 1) * tick == open * tick - tick;
    var residence := accounting.counters.residence;
    WrapIsWord(residence, age);
    WordSum(Total(items, Residing), age);
  }

  // ------------------------------------------------------------------------------------------------
  // The age gauge

  /** How long the oldest unresolved item has waited, or 0 if every item is resolved. */
  predicate IsOldestAge(items: seq<Item>, tick: u64, age: int) {
    if exists i :: 0 <= i < |items| && !items[i].Resolved() then
      exists i :: 0 <= i < |items| && !items[i].Resolved() && age == tick - items[i].admittedTick &&
                  forall j :: 0 <= j < |items| && !items[j].Resolved() ==> items[i].admittedTick <= items[j].admittedTick
    else age == 0
  }

  lemma PointerIsOldest(items: seq<Item>, pointer: nat, tick: u64)
    requires Timed(items, tick) && Pointed(items, pointer) && (pointer < |items| ==> !items[pointer].Resolved())
    ensures IsOldestAge(items, tick, if pointer < |items| then tick - items[pointer].admittedTick else 0)
  {
    if pointer < |items| {
      forall j | 0 <= j < |items| && !items[j].Resolved() ensures items[pointer].admittedTick <= items[j].admittedTick {
        assert pointer <= j;
      }
    }
  }

  // ------------------------------------------------------------------------------------------------
  // One tick

  /** What the simulation shows of an agent once the tick's body ran. */
  datatype View = View(hasGoal: bool, position: Coord, unreachable: bool)

  predicate Arrived(view: View, goal: Coord) {
    !view.hasGoal && view.position == goal
  }

  /** What becomes of an open item whose agent is seen so. */
  function Settled(i: Item, view: View, goal: Coord, tick: u64): Item {
    if Arrived(view, goal) then Resolve(i, true, tick)
    else if view.unreachable then Resolve(i, false, tick)
    else i
  }

  /** Where re-arming an agent with this heading sends it. */
  function NextGoal(agent: nat, headingAway: seq<bool>, homes: seq<Coord>, goals: seq<Coord>): Coord
    requires agent < |headingAway| == |homes| == |goals|
  {
    if headingAway[agent] then homes[agent] else goals[agent]
  }

  /** Transitions leave the clock and the age gauge alone. */
  predicate SameGauge(a: Accounting, b: Accounting) {
    a.lastTick == b.lastTick && a.counters.oldestAge == b.counters.oldestAge
  }

  predicate Leaves(view: View, goal: Coord) {
    Arrived(view, goal) || view.unreachable
  }

  /** The items admitted by one tick, all alike. */
  function Fresh(n: nat, tick: u64): (r: seq<Item>)
    ensures |r| == n && forall k :: 0 <= k < n ==> r[k] == Item(tick, 0, false, false)
  {
    if n == 0 then [] else Fresh(n - 1, tick) + [Item(tick, 0, false, false)]
  }

  /** The end an agent with this heading walks to. */
  function Toward(agent: nat, away: bool, homes: seq<Coord>, goals: seq<Coord>): Coord
    requires agent < |homes| == |goals|
  {
    if away then goals[agent] else homes[agent]
  }

  /** Re-armed agents have turned around and hold a fresh item; the others are as they were. */
  predicate Rearmed(q: seq<nat>, open0: seq<Option<nat>>, open: seq<Option<nat>>, away0: seq<bool>, away: seq<bool>,
                    goal0: seq<Coord>, goal: seq<Coord>, homes: seq<Coord>, goals: seq<Coord>) {
    && |open0| == |open| == |away0| == |away| == |goal0| == |goal| == |homes| == |goals|
    && forall a {:trigger open[a]} :: 0 <= a < |open| ==>
         if a in q then open[a].Some? && away[a] == !away0[a] && goal[a] == Toward(a, away[a], homes, goals)
         else open[a] == open0[a] && away[a] == away0[a] && goal[a] == goal0[a]
  }

  /** Open items of the agents before `upto` have become what the views make of them; nothing else changed. */
  predicate SettledItems(before: seq<Item>, items: seq<Item>, owner: seq<nat>, views: seq<View>, goal: seq<Coord>, upto: nat, tick: u64) {
    && |before| == |items| == |owner| && upto <= |views| == |goal|
    && forall i {:trigger items[i]} {:trigger owner[i]} :: 0 <= i < |items| ==>
         items[i] == if !before[i].Resolved() && owner[i] < upto then Settled(before[i], views[owner[i]], goal[owner[i]], tick)
                     else before[i]
  }

  /** Agents before `upto` that left their item are idle and queued; those that failed have turned around. */
  predicate SettledAgents(open0: seq<Option<nat>>, open: seq<Option<nat>>, away0: seq<bool>, away: seq<bool>, queue: seq<nat>,
                          views: seq<View>, goal: seq<Coord>, upto: nat) {
    && |open0| == |open| == |away0| == |away| == |views| == |goal| && upto <= |open|
    && (forall a {:trigger open[a]} :: 0 <= a < |open| ==>
          var left := open0[a].Some? && a < upto && Leaves(views[a], goal[a]);
          && open[a] == (if left then None else open0[a])
          && away[a] == (if left && !Arrived(views[a], goal[a]) then !away0[a] else away0[a])
          && (a in queue <==> left))
    && (forall a :: a in queue ==> a < upto)
    && (forall k, l :: 0 <= k < l < |queue| ==> queue[k] != queue[l])
  }

  /** The agents' side of the state. */
  datatype Agents = Agents(openItem: seq<Option<nat>>, headingAway: seq<bool>, currentGoal: seq<Coord>, queue: seq<nat>)

  /**
   One tick, agent by agent: `q` is re-armed toward the other end; an agent that then has an item and is seen
   to have arrived, or to be unable to, leaves it and is queued. What it is sent to next is the opposite end
   after arriving, and the same goal again after failing.
   */
  ghost predicate Ticked(q: seq<nat>, before: Agents, after: Agents, views: seq<View>, homes: seq<Coord>, goals: seq<Coord>) {
    && |before.openItem| == |before.headingAway| == |before.currentGoal| == |homes| == |goals|
    && |after.openItem| == |after.headingAway| == |after.currentGoal| == |views| == |homes|
    && forall a {:trigger after.openItem[a]} :: 0 <= a < |homes| ==>
         var away := (a in q) != before.headingAway[a];
         var held := a in q || before.openItem[a].Some?;
         var goal := after.currentGoal[a];
         var left := held && Leaves(views[a], goal);
         && goal == (if a in q then Toward(a, away, homes, goals) else before.currentGoal[a])
         && (after.openItem[a].Some? <==> held && !left)
         && (a in after.queue <==> left)
         && (held ==> goal == Toward(a, away, homes, goals))
         && (left ==> NextGoal(a, after.headingAway, homes, goals) ==
                      if Arrived(views[a], goal) then Toward(a, !away, homes, goals) else goal)
  }

  lemma TickComposes(q: seq<nat>, before: Agents, mid: Agents, after: Agents, views: seq<View>, homes: seq<Coord>, goals: seq<Coord>)
    requires Headed(before.openItem, before.currentGoal, before.headingAway, homes, goals)
    requires Rearmed(q, before.openItem, mid.openItem, before.headingAway, mid.headingAway, before.currentGoal, mid.currentGoal, homes, goals)
    requires |views| == |mid.openItem| && after.currentGoal == mid.currentGoal
    requires SettledAgents(mid.openItem, after.openItem, mid.headingAway, after.headingAway, after.queue, views, after.currentGoal, |views|)
    ensures Ticked(q, before, after, views, homes, goals)
    ensures AllQueued(before.openItem, q) ==> AllQueued(after.openItem, after.queue)
  {
    hide Arrived, Leaves;
    forall a | 0 <= a < |homes|
      ensures var away := (a in q) != before.headingAway[a];
              var held := a in q || before.openItem[a].Some?;
              var goal := after.currentGoal[a];
              var left := held && Leaves(views[a], goal);
              && goal == (if a in q then Toward(a, away, homes, goals) else before.currentGoal[a])
              && (after.openItem[a].Some? <==> held && !left)
              && (a in after.queue <==> left)
              && (held ==> goal == Toward(a, away, homes, goals))
              && (left ==> NextGoal(a, after.headingAway, homes, goals) ==
                           if Arrived(views[a], goal) then Toward(a, !away, homes, goals) else goal)
    {
      assert before.openItem[a] == before.openItem[a] && mid.openItem[a] == mid.openItem[a] && after.openItem[a] == after.openItem[a];
    }
    forall a | 0 <= a < |homes| && AllQueued(before.openItem, q) && after.openItem[a].None? ensures a in after.queue {
      assert before.openItem[a] == before.openItem[a];
    }
  }

  class MixedDemand {
    const homes: seq<Coord>
    const goals: seq<Coord>
    var items: seq<Item>
    var openItem: seq<Option<nat>>
    var currentGoal: seq<Coord>
    var headingAway: seq<bool>
    var rearmQueue: seq<nat>
    var oldestPointer: nat
    var accounting: Accounting
    /** The agent each item was admitted for. */
    ghost var owner: seq<nat>

    ghost predicate Core()
      reads this
    {
      && Timed(items, accounting.lastTick) && Tracked(items, openItem, owner) && Pointed(items, oldestPointer)
      && Headed(openItem, currentGoal, headingAway, homes, goals) && Counted(items, accounting)
    }

    ghost predicate Valid()
      reads this
    {
      Core() && Queued(openItem, rearmQueue)
    }

    method Admit(agent: nat, goal: Coord)
      requires Core() && agent < |openItem| && openItem[agent].None? && |items| + 1 < TWO64
      requires goal == if headingAway[agent] then goals[agent] else homes[agent]
      modifies `items, `openItem, `currentGoal, `accounting, `owner
      ensures Core() && SameGauge(accounting, old(accounting))
      ensures items == old(items) + [Item(accounting.lastTick, 0, false, false)] && owner == old(owner) + [agent]
      ensures openItem == old(openItem)[agent := Some(|old(items)|)] && currentGoal == old(currentGoal)[agent := goal]
    {
      hide Timed, Tracked, Pointed, Counted, Accounting.RecordAdmitted;
      var item := Item(accounting.lastTick, 0, false, false);
      AdmitTimes(items, accounting.lastTick);
      AdmitTracks(items, openItem, owner, agent, item);
      AdmitPoints(items, item, oldestPointer);
      AdmitCounts(items, accounting);
      currentGoal := currentGoal[agent := goal];
      accounting := accounting.(counters := accounting.counters.(offered := WrapAdd(accounting.counters.offered, 1)));
      AdmittedTick(accounting);
      accounting := accounting.RecordAdmitted();
      openItem := openItem[agent := Some(|items|)];
      items := items + [item];
      owner := owner + [agent];
    }

    /** Brings the age gauge up to date; the pointer only moves forward, over resolved items. */
    method Observe(tick: u64)
      requires Core() && accounting.lastTick <= tick
      modifies `accounting, `oldestPointer
      ensures Core() && accounting.lastTick == tick
      ensures old(oldestPointer) <= oldestPointer <= |items|
      ensures IsOldestAge(items, tick, accounting.counters.oldestAge)
      ensures accounting.counters == old(accounting.ObserveTick(tick).counters).(oldestAge := accounting.counters.oldestAge)
    {
      hide Timed, Tracked, Pointed, Counted, Headed, IsOldestAge, Accounting.ObserveTick;
      ObserveCounts(items, accounting, tick);
      LaterIsTimed(items, accounting.lastTick, tick);
      PointsInside(items, oldestPointer);
      accounting := accounting.ObserveTick(tick);
      label observed:
      while oldestPointer < |items| && (items[oldestPointer].completed || items[oldestPointer].failed)
        invariant Pointed(items, oldestPointer) && old(oldestPointer) <= oldestPointer <= |items|
        invariant accounting == old@observed(accounting)
        decreases |items| - oldestPointer
      {
        PointFurther(items, oldestPointer);
        oldestPointer := oldestPointer + 1;
      }
      PointerIsOldest(items, oldestPointer, tick);
      AgeIsWord(items, oldestPointer, tick);
      GaugeCounts(items, accounting, if oldestPointer < |items| then tick - items[oldestPointer].admittedTick else 0);
      accounting := accounting.(counters := accounting.counters.(oldestAge :=
        if oldestPointer < |items| then tick - items[oldestPointer].admittedTick else 0));
    }

    method Fail(agent: nat)
      requires Core() && agent < |openItem| && openItem[agent].Some? && openItem[agent].value < |items|
      modifies `items, `openItem, `accounting
      ensures Core() && SameGauge(accounting, old(accounting))
      ensures var k := old(openItem[agent].value);
              items == old(items)[k := Resolve(old(items)[k], false, accounting.lastTick)]
      ensures openItem == old(openItem)[agent := None]
    {
      hide Timed, Tracked, Pointed, Counted, Headed;
      var k, tick := openItem[agent].value, accounting.lastTick;
      ResolveKeeps(items, openItem, owner, oldestPointer, accounting, agent, false);
      ResolveHeads(openItem, currentGoal, headingAway, homes, goals, agent);
      var item := items[k];
      items := items[k := item.(failed := true, completedTick := tick)];
      openItem := openItem[agent := None];
      accounting := accounting.(counters := accounting.counters.(failed := WrapAdd(accounting.counters.failed, 1)));
      accounting := accounting.RecordLeftOutstanding();
      accounting := accounting.(counters := accounting.counters.(
        residence := WrapAdd(accounting.counters.residence, tick - item.admittedTick)));
    }

    method Complete(agent: nat)
      requires Core() && agent < |openItem| && openItem[agent].Some? && openItem[agent].value < |items|
      modifies `items, `openItem, `accounting
      ensures Core() && SameGauge(accounting, old(accounting))
      ensures var k := old(openItem[agent].value);
              items == old(items)[k := Resolve(old(items)[k], true, accounting.lastTick)]
      ensures openItem == old(openItem)[agent := None]
    {
      hide Timed, Tracked, Pointed, Counted, Headed;
      var k, tick := openItem[agent].value, accounting.lastTick;
      ResolveKeeps(items, openItem, owner, oldestPointer, accounting, agent, true);
      ResolveHeads(openItem, currentGoal, headingAway, homes, goals, agent);
      var item := items[k];
      items := items[k := item.(completed := true, completedTick := tick)];
      openItem := openItem[agent := None];
      accounting := accounting.(counters := accounting.counters.(completed := WrapAdd(accounting.counters.completed, 1)));
      accounting := accounting.RecordLeftOutstanding();
      accounting := accounting.(counters := accounting.counters.(
        residence := WrapAdd(accounting.counters.residence, tick - item.admittedTick)));
      accounting := accounting.(counters := accounting.counters.(offeredWork := WrapAdd(accounting.counters.offeredWork, 1)));
      accounting := accounting.(counters := accounting.counters.(consumedWork := WrapAdd(accounting.counters.consumedWork, 1)));
    }

    /** Every agent starts out from home toward its goal. */
    constructor (homes: seq<Coord>, goals: seq<Coord>)
      requires |homes| == |goals| < TWO64
      ensures Valid() && AllQueued(openItem, rearmQueue) && rearmQueue == [] && accounting.lastTick == 0
      ensures this.homes == homes && this.goals == goals && currentGoal == goals
      ensures items == Fresh(|homes|, 0)
      ensures forall a :: 0 <= a < |openItem| ==> openItem[a] == Some(a) && headingAway[a]
    {
      hide Timed, Tracked, Pointed, Counted, Fresh;
      this.homes, this.goals := homes, goals;
      items, rearmQueue, oldestPointer, owner := [], [], 0, [];
      openItem := seq(|homes|, a => None);
      currentGoal := goals;
      headingAway := seq(|homes|, a => true);
      accounting := Accounting(ZERO, 0);
      new;
      NothingYet(items, openItem, accounting);
      FreshNone();
      for agent := 0 to |homes|
        invariant Core() && accounting.lastTick == 0 && rearmQueue == [] && currentGoal == goals && |openItem| == |homes|
        invariant items == Fresh(agent, 0) && forall a :: 0 <= a < |headingAway| ==> headingAway[a]
        invariant forall a :: 0 <= a < |openItem| ==> openItem[a] == if a < agent then Some(a) else None
      {
        FreshNext(agent, 0);
        Admit(agent, goals[agent]);
        assert currentGoal == goals;
      }
    }

    /** Agents in the queue turn around and are offered their next leg. */
    method Rearm()
      requires Valid() && |items| + |rearmQueue| < TWO64
      modifies `items, `openItem, `currentGoal, `headingAway, `accounting, `owner
      ensures Core() && SameGauge(accounting, old(accounting)) && |openItem| == |old(openItem)|
      ensures items == old(items) + Fresh(|rearmQueue|, accounting.lastTick) && owner == old(owner) + rearmQueue
      ensures Rearmed(rearmQueue, old(openItem), openItem, old(headingAway), headingAway, old(currentGoal), currentGoal, homes, goals)
    {
      hide Timed, Tracked, Pointed, Counted, Rearmed, Fresh;
      NoneRearmed(openItem, headingAway, currentGoal, homes, goals);
      for k := 0 to |rearmQueue|
        invariant Core() && SameGauge(accounting, old(accounting)) && |openItem| == |old(openItem)|
        invariant items == old(items) + Fresh(k, accounting.lastTick) && owner == old(owner) + rearmQueue[..k]
        invariant Rearmed(rearmQueue[..k], old(openItem), openItem, old(headingAway), headingAway, old(currentGoal), currentGoal, homes, goals)
      {
        var agent := rearmQueue[k];
        StillIdle(rearmQueue, k, old(openItem), openItem, old(headingAway), headingAway, old(currentGoal), currentGoal, homes, goals);
        FreshNext(k, accounting.lastTick);
        RearmedNext(rearmQueue, k, old(openItem), openItem, Some(|items|), old(headingAway), headingAway, old(currentGoal), currentGoal, homes, goals);
        var away := headingAway[agent];
        var nextGoal := if away then homes[agent] else goals[agent];
        headingAway := headingAway[agent := !away];
        assert Core();
        Admit(agent, nextGoal);
      }
      assert rearmQueue[..|rearmQueue|] == rearmQueue;
    }

    /** Goes over the agents after the tick's body ran. */
    method Settle(views: seq<View>)
      requires Core() && rearmQueue == [] && |views| == |openItem|
      modifies `items, `openItem, `headingAway, `rearmQueue, `accounting
      ensures Valid() && SameGauge(accounting, old(accounting))
      ensures SettledItems(old(items), items, owner, views, currentGoal, |views|, accounting.lastTick)
      ensures SettledAgents(old(openItem), openItem, old(headingAway), headingAway, rearmQueue, views, currentGoal, |views|)
    {
      hide Timed, Tracked, Pointed, Counted, SettledItems, SettledAgents, Arrived, Headed, Queued;
      Sizes(openItem, currentGoal, headingAway, homes, goals, items, owner);
      NoneSettled(items, owner, openItem, headingAway, views, currentGoal, accounting.lastTick);
      for agent := 0 to |views|
        invariant Core() && SameGauge(accounting, old(accounting))
        invariant |openItem| == |views| && |currentGoal| == |views| && |headingAway| == |views|
        invariant SettledItems(old(items), items, owner, views, currentGoal, agent, accounting.lastTick)
        invariant SettledAgents(old(openItem), openItem, old(headingAway), headingAway, rearmQueue, views, currentGoal, agent)
      {
        OpenIsInside(items, openItem, owner, agent);
        SettleItemsNext(old(items), items, owner, openItem, views, currentGoal, agent, accounting.lastTick);
        SettleAgentsNext(old(openItem), openItem, old(headingAway), headingAway, rearmQueue, views, currentGoal, agent);
        if openItem[agent].None? {
          continue;
        }
        if !views[agent].hasGoal && views[agent].position == currentGoal[agent] {
          ArrivedIs(views[agent], currentGoal[agent]);
          Complete(agent);
          rearmQueue := rearmQueue + [agent];
        } else if views[agent].unreachable {
          ArrivedIs(views[agent], currentGoal[agent]);
          Fail(agent);
          TurnsAround(openItem, currentGoal, headingAway, homes, goals, agent);
          headingAway := headingAway[agent := !headingAway[agent]];
          rearmQueue := rearmQueue + [agent];
        } else {
          ArrivedIs(views[agent], currentGoal[agent]);
        }
      }
      SettledQueue(old(openItem), openItem, old(headingAway), headingAway, rearmQueue, views, currentGoal, |views|);
    }

    ghost function State(): Agents
      reads this
    {
      Agents(openItem, headingAway, currentGoal, rearmQueue)
    }

    /**
     The mandatory part of a tick: observe, re-arm while admitting, run the tick's body, whose outcome the
     views are, and settle every agent.
     */
    method Mandatory(tick: u64, admitting: bool, views: seq<View>)
      requires Valid() && accounting.lastTick <= tick && |views| == |openItem| && |items| + |rearmQueue| < TWO64
      modifies this
      ensures Valid() && accounting.lastTick == tick
      ensures IsOldestAge(old(items), tick, accounting.counters.oldestAge)
      ensures var q := if admitting then old(rearmQueue) else [];
              && owner == old(owner) + q
              && SettledItems(old(items) + Fresh(|q|, tick), items, owner, views, currentGoal, |views|, tick)
              && Ticked(q, old(State()), State(), views, homes, goals)
      ensures admitting && old(AllQueued(openItem, rearmQueue)) ==> AllQueued(openItem, rearmQueue)
      ensures Grown(old(items), items) && |items| == |old(items)| + (if admitting then |old(rearmQueue)| else 0)
      ensures |openItem| == |old(openItem)|
    {
      hide Timed, Tracked, Pointed, Counted, Headed, Queued, AllQueued, Rearmed, SettledItems, SettledAgents, IsOldestAge, Fresh, Ticked, Grown;
      Observe(tick);
      Sizes(openItem, currentGoal, headingAway, homes, goals, items, owner);
      NoneRearmed(openItem, headingAway, currentGoal, homes, goals);
      NothingAdmitted(items, owner, tick);
      ghost var before, q := State(), if admitting then rearmQueue else [];
      if admitting {
        Rearm();
      }
      ghost var mid := State();
      rearmQueue := [];
      Settle(views);
      TickComposes(q, before, mid, State(), views, homes, goals);
      TickGrows(old(items), |q|, items, owner, views, currentGoal, |views|, tick);
      Sizes(openItem, currentGoal, headingAway, homes, goals, items, owner);
    }

    ghost function Now(): Moment
      reads this
    {
      Moment(accounting.lastTick, items, owner, State())
    }

    /**
     The measured window of a repetition: the frames' ticks while admitting, one after the other, a last
     observation, and the window's counters with the inventory carried in. They balance, none of them wraps,
     and they are what became of the items in flight at the start and of those admitted since.
     */
    method Measure(ticks: seq<Tick>) returns (window: FlowCounters, ghost moments: seq<Moment>)
      requires Valid() && Scheduled(ticks, accounting.lastTick, |openItem|)
      requires |items| + |ticks| * |openItem| < TWO64
      modifies this
      ensures Valid() && IsRun(moments, ticks, homes, goals)
      ensures moments[0] == old(Now()) && moments[|ticks|] == Now()
      ensures IsOldestAge(items, accounting.lastTick, window.oldestAge)
      ensures window == Carried(old(accounting.counters), accounting.counters)
      ensures window.Conserves() && IsWindow(window, old(items), old(accounting.lastTick), items, accounting.lastTick)
    {
      hide Timed, Tracked, Pointed, Counted, Headed, Queued, AllQueued, IsOldestAge, Ticked, SettledItems, Grown, Carried, IsWindow, Fresh, Steps;
      var start, agents := accounting.counters, |openItem|;
      ghost var begun, before := accounting, items;
      moments := [Now()];
      GrownAtFirst(items);
      for i := 0 to |ticks|
        invariant Valid() && |openItem| == agents && Grown(before, items)
        invariant Scheduled(ticks[i..], accounting.lastTick, agents)
        invariant |items| + |ticks[i..]| * agents < TWO64
        invariant |moments| == i + 1 && moments[0] == old(Now()) && moments[i] == Now()
        invariant IsRun(moments, ticks[..i], homes, goals)
      {
        ghost var now := Now();
        ScheduledNext(ticks, i, accounting.lastTick, agents);
        QueueFits(openItem, rearmQueue);
        MoreRoom(|ticks| - i, agents);
        Mandatory(ticks[i].number, true, ticks[i].views);
        GrownTransitive(before, now.items, items);
        StepIs(now, ticks[i], Now(), homes, goals);
        RunGrows(moments, ticks, i, Now(), homes, goals);
        moments := moments + [Now()];
      }
      assert ticks[..|ticks|] == ticks;
      Observe(accounting.lastTick);
      var end := accounting.counters;
      window := ZERO;
      window := window.(offered := WrapAdd(WrapSub(end.offered, start.offered), start.outstanding));
      window := window.(admitted := WrapAdd(WrapSub(end.admitted, start.admitted), start.outstanding));
      window := window.(completed := WrapSub(end.completed, start.completed));
      window := window.(failed := WrapSub(end.failed, start.failed));
      window := window.(consumedWork := WrapSub(end.consumedWork, start.consumedWork));
      window := window.(offeredWork := WrapSub(end.offeredWork, start.offeredWork));
      window := window.(residence := WrapSub(end.residence, start.residence));
      window := window.(inventory := WrapSub(end.inventory, start.inventory));
      window := window.(outstanding := end.outstanding);
      window := window.(highWater := if end.outstanding > start.outstanding then end.outstanding else start.outstanding);
      window := window.(oldestAge := end.oldestAge);
      WindowIsCarried(start, end, window);
      LiveWindow(before, begun, items, accounting);
    }
  }

  /** All that a tick changes but the counters: the clock, the items with their owners, and the agents. */
  datatype Moment = Moment(clock: u64, items: seq<Item>, owner: seq<nat>, agents: Agents)

  /** One admitting tick: queued agents get fresh items, and every agent is settled by what it looks like. */
  ghost predicate Steps(b: Moment, tick: Tick, a: Moment, homes: seq<Coord>, goals: seq<Coord>) {
    && a.clock == tick.number && a.owner == b.owner + b.agents.queue
    && SettledItems(b.items + Fresh(|b.agents.queue|, tick.number), a.items, a.owner, tick.views, a.agents.currentGoal,
                    |tick.views|, tick.number)
    && Ticked(b.agents.queue, b.agents, a.agents, tick.views, homes, goals)
  }

  /** The moments between the ticks of a run. */
  ghost predicate IsRun(moments: seq<Moment>, ticks: seq<Tick>, homes: seq<Coord>, goals: seq<Coord>) {
    && |moments| == |ticks| + 1
    && forall i :: 0 <= i < |ticks| ==> Steps(moments[i], ticks[i], moments[i + 1], homes, goals)
  }

  lemma StepIs(b: Moment, tick: Tick, a: Moment, homes: seq<Coord>, goals: seq<Coord>)
    requires a.clock == tick.number && a.owner == b.owner + b.agents.queue
    requires SettledItems(b.items + Fresh(|b.agents.queue|, tick.number), a.items, a.owner, tick.views, a.agents.currentGoal,
                          |tick.views|, tick.number)
    requires Ticked(b.agents.queue, b.agents, a.agents, tick.views, homes, goals)
    ensures Steps(b, tick, a, homes, goals)
  {
  }

  lemma RunGrows(moments: seq<Moment>, ticks: seq<Tick>, i: nat, next: Moment, homes: seq<Coord>, goals: seq<Coord>)
    requires i < |ticks| && |moments| == i + 1 && IsRun(moments, ticks[..i], homes, goals)
    requires Steps(moments[i], ticks[i], next, homes, goals)
    ensures IsRun(moments + [next], ticks[..i + 1], homes, goals)
  {
    hide Steps;
    forall k | 0 <= k < i + 1 ensures Steps((moments + [next])[k], ticks[..i + 1][k], (moments + [next])[k + 1], homes, goals) {
      assert k < i ==> Steps(moments[k], ticks[..i][k], moments[k + 1], homes, goals);
    }
  }

  /** One agent, one arrival: the window of the tick that sees it holds one completion. */
  lemma ArrivalIsMeasured(b: Moment, tick: Tick, a: Moment, homes: seq<Coord>, goals: seq<Coord>)
    requires Steps(b, tick, a, homes, goals) && b.agents.queue == [] && b.items == [Item(0, 0, false, false)] && b.owner == [0]
    requires |tick.views| == 1 && |b.agents.openItem| == 1 && b.agents.currentGoal == goals && b.agents.openItem[0].Some?
    requires tick.views[0] == View(false, goals[0], tick.views[0].unreachable)
    ensures a.items == [Item(0, tick.number, true, false)] && a.agents.openItem[0].None? && a.agents.queue != []
  {
    assert b.items + Fresh(0, tick.number) == b.items;
    assert a.agents.openItem[0] == a.agents.openItem[0];
    assert a.items[0] == Settled(b.items[0], tick.views[0], a.agents.currentGoal[0], tick.number);
  }

  /** One tick of a run: its number, and what the agents look like after its body ran. */
  datatype Tick = Tick(number: u64, views: seq<View>)

  /** Tick numbers never go back, and every tick shows every agent. */
  predicate Scheduled(ticks: seq<Tick>, now: u64, agents: nat) {
    ticks == [] || (now <= ticks[0].number && |ticks[0].views| == agents && Scheduled(ticks[1..], ticks[0].number, agents))
  }

  lemma ScheduledNext(ticks: seq<Tick>, i: nat, now: u64, agents: nat)
    requires i < |ticks| && Scheduled(ticks[i..], now, agents)
    ensures now <= ticks[i].number && |ticks[i].views| == agents && Scheduled(ticks[i + 1..], ticks[i].number, agents)
    ensures |ticks[i..]| == |ticks| - i && |ticks[i + 1..]| == |ticks| - i - 1
  {
    assert ticks[i..][1..] == ticks[i + 1..];
  }

  lemma MoreRoom(n: nat, agents: nat)
    requires n > 0
    ensures n * agents == (n - 1) * agents + agents && (n - 1) * agents >= 0
  {
  }

  lemma {:induction false} DistinctBelow(q: seq<nat>, n: nat)
    requires forall k :: 0 <= k < |q| ==> q[k] < n
    requires forall k, l :: 0 <= k < l < |q| ==> q[k] != q[l]
    ensures |q| <= n
  {
    if q != [] {
      assert q[0] < n;
      if k :| 0 <= k < |q| && q[k] == n - 1 {
        DistinctBelow(q[..k] + q[k + 1..], n - 1);
      } else {
        DistinctBelow(q, n - 1);
      }
    }
  }

  /** An agent is queued at most once. */
  lemma QueueFits(openItem: seq<Option<nat>>, queue: seq<nat>)
    requires Queued(openItem, queue)
    ensures |queue| <= |openItem|
  {
    DistinctBelow(queue, |openItem|);
  }

  lemma GrownAtFirst(items: seq<Item>)
    ensures Grown(items, items)
  {
  }

  lemma NothingAdmitted(items: seq<Item>, owner: seq<nat>, tick: u64)
    ensures items + Fresh(0, tick) == items && owner + [] == owner
  {
  }

  lemma NothingYet(items: seq<Item>, openItem: seq<Option<nat>>, accounting: Accounting)
    requires items == [] && accounting == Accounting(ZERO, 0) && forall a :: 0 <= a < |openItem| ==> openItem[a] == None
    ensures Timed(items, accounting.lastTick) && Tracked(items, openItem, []) && Pointed(items, 0) && Counted(items, accounting)
  {
    hide Word;
    NothingSummed(Total(items, Residing));
    NothingSummed(Inventory(items, accounting.lastTick));
  }

  lemma NothingSummed(x: int)
    requires x == 0
    ensures Word(x) == 0
  {
  }

  lemma FreshNone()
    ensures Fresh(0, 0) == []
  {
  }

  lemma FreshNext(n: nat, tick: u64)
    ensures Fresh(n + 1, tick) == Fresh(n, tick) + [Item(tick, 0, false, false)]
  {
  }

  lemma NoneRearmed(open: seq<Option<nat>>, away: seq<bool>, goal: seq<Coord>, homes: seq<Coord>, goals: seq<Coord>)
    requires |open| == |away| == |goal| == |homes| == |goals|
    ensures Rearmed([], open, open, away, away, goal, goal, homes, goals) && Fresh(0, 0) == []
  {
  }

  lemma StillIdle(q: seq<nat>, k: nat, open0: seq<Option<nat>>, open: seq<Option<nat>>, away0: seq<bool>, away: seq<bool>,
                  goal0: seq<Coord>, goal: seq<Coord>, homes: seq<Coord>, goals: seq<Coord>)
    requires k < |q| && Queued(open0, q)
    requires Rearmed(q[..k], open0, open, away0, away, goal0, goal, homes, goals)
    ensures q[k] < |open| && open[q[k]].None? && q[k] !in q[..k]
  {
  }

  lemma RearmedNext(q: seq<nat>, k: nat, open0: seq<Option<nat>>, open: seq<Option<nat>>, item: Option<nat>, away0: seq<bool>, away: seq<bool>,
                    goal0: seq<Coord>, goal: seq<Coord>, homes: seq<Coord>, goals: seq<Coord>)
    requires k < |q| && q[k] < |open| && q[k] !in q[..k] && item.Some?
    requires Rearmed(q[..k], open0, open, away0, away, goal0, goal, homes, goals)
    ensures |away| == |open| && |goal| == |open| && |homes| == |open| && |goals| == |open|
    ensures Rearmed(q[..k + 1], open0, open[q[k] := item], away0, away[q[k] := !away[q[k]]], goal0,
                    goal[q[k] := if away[q[k]] then homes[q[k]] else goals[q[k]]], homes, goals)
  {
    assert q[..k + 1] == q[..k] + [q[k]];
    var b := q[k];
    var open1, away1 := open[b := item], away[b := !away[b]];
    var goal1 := goal[b := if away[b] then homes[b] else goals[b]];
    assert open[b] == open0[b] && away[b] == away0[b];
    forall a | 0 <= a < |open1|
      ensures if a in q[..k + 1] then open1[a].Some? && away1[a] == !away0[a] && goal1[a] == Toward(a, away1[a], homes, goals)
              else open1[a] == open0[a] && away1[a] == away0[a] && goal1[a] == goal0[a]
    {
      assert open[a] == open[a];
      assert a in q[..k + 1] <==> a in q[..k] || a == b;
    }
  }

  lemma Sizes(openItem: seq<Option<nat>>, currentGoal: seq<Coord>, headingAway: seq<bool>, homes: seq<Coord>, goals: seq<Coord>,
              items: seq<Item>, owner: seq<nat>)
    requires Headed(openItem, currentGoal, headingAway, homes, goals) && Tracked(items, openItem, owner)
    ensures |openItem| == |currentGoal| == |headingAway| == |homes| == |goals| && |owner| == |items|
  {
  }

  lemma NoneSettled(items: seq<Item>, owner: seq<nat>, open: seq<Option<nat>>, away: seq<bool>, views: seq<View>, goal: seq<Coord>, tick: u64)
    requires |owner| == |items| && |open| == |away| == |views| == |goal|
    ensures SettledItems(items, items, owner, views, goal, 0, tick)
    ensures SettledAgents(open, open, away, away, [], views, goal, 0)
  {
  }

  lemma OpenIsInside(items: seq<Item>, openItem: seq<Option<nat>>, owner: seq<nat>, agent: nat)
    requires Tracked(items, openItem, owner) && agent < |openItem|
    ensures openItem[agent].Some? ==> openItem[agent].value < |items|
  {
  }

  lemma ArrivedIs(view: View, goal: Coord)
    ensures Arrived(view, goal) <==> !view.hasGoal && view.position == goal
  {
  }

  lemma SettleItemsNext(before: seq<Item>, items: seq<Item>, owner: seq<nat>, openItem: seq<Option<nat>>, views: seq<View>, goal: seq<Coord>,
                        agent: nat, tick: u64)
    requires SettledItems(before, items, owner, views, goal, agent, tick) && Tracked(items, openItem, owner)
    requires agent < |openItem| == |views|
    ensures openItem[agent].Some? ==> openItem[agent].value < |items|
    ensures openItem[agent].None? || !Leaves(views[agent], goal[agent]) ==> SettledItems(before, items, owner, views, goal, agent + 1, tick)
    ensures openItem[agent].Some? && Leaves(views[agent], goal[agent]) ==>
              var k := openItem[agent].value;
              SettledItems(before, items[k := Resolve(items[k], Arrived(views[agent], goal[agent]), tick)], owner, views, goal, agent + 1, tick)
  {
    hide Arrived;
  }

  lemma SettleAgentsNext(open0: seq<Option<nat>>, open: seq<Option<nat>>, away0: seq<bool>, away: seq<bool>, queue: seq<nat>,
                         views: seq<View>, goal: seq<Coord>, agent: nat)
    requires SettledAgents(open0, open, away0, away, queue, views, goal, agent) && agent < |views|
    ensures open[agent].None? || !Leaves(views[agent], goal[agent]) ==>
              SettledAgents(open0, open, away0, away, queue, views, goal, agent + 1)
    ensures open[agent].Some? && Leaves(views[agent], goal[agent]) ==>
              SettledAgents(open0, open[agent := None], away0,
                            if Arrived(views[agent], goal[agent]) then away else away[agent := !away[agent]],
                            queue + [agent], views, goal, agent + 1)
  {
    hide Arrived, Leaves;
    assert open[agent] == open0[agent];
    var leaves := open[agent].Some? && Leaves(views[agent], goal[agent]);
    var open1 := if leaves then open[agent := None] else open;
    var away1 := if leaves && !Arrived(views[agent], goal[agent]) then away[agent := !away[agent]] else away;
    var queue1 := if leaves then queue + [agent] else queue;
    forall a | 0 <= a < |open|
      ensures var left := open0[a].Some? && a < agent + 1 && Leaves(views[a], goal[a]);
              && open1[a] == (if left then None else open0[a])
              && away1[a] == (if left && !Arrived(views[a], goal[a]) then !away0[a] else away0[a])
              && (a in queue1 <==> left)
    {
      assert open[a] == open[a];
    }
  }

  lemma TurnsAround(openItem: seq<Option<nat>>, currentGoal: seq<Coord>, headingAway: seq<bool>, homes: seq<Coord>, goals: seq<Coord>, agent: nat)
    requires Headed(openItem, currentGoal, headingAway, homes, goals) && agent < |openItem| && openItem[agent].None?
    ensures Headed(openItem, currentGoal, headingAway[agent := !headingAway[agent]], homes, goals)
  {
  }

  lemma SettledQueue(open0: seq<Option<nat>>, open: seq<Option<nat>>, away0: seq<bool>, away: seq<bool>, queue: seq<nat>,
                     views: seq<View>, goal: seq<Coord>, upto: nat)
    requires SettledAgents(open0, open, away0, away, queue, views, goal, upto)
    ensures Queued(open, queue)
  {
    forall k | 0 <= k < |queue| ensures queue[k] < |open| && open[queue[k]].None? {
      assert queue[k] in queue;
    }
  }

  lemma AdmitTimes(items: seq<Item>, now: u64)
    requires Timed(items, now)
    ensures Timed(items + [Item(now, 0, false, false)], now)
  {
  }

  lemma AdmitPoints(items: seq<Item>, i: Item, pointer: nat)
    requires Pointed(items, pointer)
    ensures Pointed(items + [i], pointer)
  {
  }

  lemma AdmittedTick(accounting: Accounting)
    ensures SameGauge(accounting.RecordAdmitted(), accounting)
  {
  }

  lemma LaterIsTimed(items: seq<Item>, now: u64, later: u64)
    requires Timed(items, now) && now <= later
    ensures Timed(items, later)
  {
  }

  lemma PointsInside(items: seq<Item>, pointer: nat)
    requires Pointed(items, pointer)
    ensures pointer <= |items|
  {
  }

  lemma PointFurther(items: seq<Item>, pointer: nat)
    requires Pointed(items, pointer) && pointer < |items| && items[pointer].Resolved()
    ensures Pointed(items, pointer + 1)
  {
  }

  lemma AgeIsWord(items: seq<Item>, pointer: nat, tick: u64)
    requires Timed(items, tick)
    ensures pointer < |items| ==> 0 <= tick - items[pointer].admittedTick
  {
  }

  lemma GaugeCounts(items: seq<Item>, accounting: Accounting, age: u64)
    requires Counted(items, accounting)
    ensures Counted(items, accounting.(counters := accounting.counters.(oldestAge := age)))
  {
    hide Total, Inventory, Word;
  }

  lemma ResolveKeeps(items: seq<Item>, openItem: seq<Option<nat>>, owner: seq<nat>, pointer: nat, accounting: Accounting,
                     agent: nat, completed: bool)
    requires Timed(items, accounting.lastTick) && Tracked(items, openItem, owner) && Pointed(items, pointer) && Counted(items, accounting)
    requires agent < |openItem| && openItem[agent].Some? && openItem[agent].value < |items|
    ensures var k, now := openItem[agent].value, accounting.lastTick;
            var after := items[k := Resolve(items[k], completed, now)];
            && !items[k].Resolved() && items[k].admittedTick <= now
            && Timed(after, now) && Tracked(after, openItem[agent := None], owner) && Pointed(after, pointer)
            && Counted(after, Left(accounting, completed, now - items[k].admittedTick))
  {
    hide Counted, Left;
    var k := openItem[agent].value;
    ResolveTracks(items, openItem, owner, agent, completed, accounting.lastTick);
    ResolveTimes(items, k, completed, accounting.lastTick);
    ResolveCounts(items, accounting, k, completed);
  }

  lemma ResolveHeads(openItem: seq<Option<nat>>, currentGoal: seq<Coord>, headingAway: seq<bool>, homes: seq<Coord>, goals: seq<Coord>, agent: nat)
    requires Headed(openItem, currentGoal, headingAway, homes, goals) && agent < |openItem|
    ensures Headed(openItem[agent := None], currentGoal, headingAway, homes, goals)
  {
  }

  // ------------------------------------------------------------------------------------------------
  // Windows over a live demand

  /** Later items: the same admissions and perhaps more, with outcomes once given kept. */
  predicate Grown(before: seq<Item>, after: seq<Item>) {
    && |before| <= |after|
    && forall i :: 0 <= i < |before| ==>
         after[i].admittedTick == before[i].admittedTick && (before[i].Resolved() ==> after[i] == before[i])
  }

  lemma TickGrows(before: seq<Item>, n: nat, items: seq<Item>, owner: seq<nat>, views: seq<View>, goal: seq<Coord>, upto: nat, tick: u64)
    requires SettledItems(before + Fresh(n, tick), items, owner, views, goal, upto, tick)
    ensures Grown(before, items)
  {
    forall i | 0 <= i < |before| ensures items[i].admittedTick == before[i].admittedTick && (before[i].Resolved() ==> items[i] == before[i]) {
      assert (before + Fresh(n, tick))[i] == before[i];
    }
  }

  lemma GrownTransitive(a: seq<Item>, b: seq<Item>, c: seq<Item>)
    requires Grown(a, b) && Grown(b, c)
    ensures Grown(a, c)
  {
  }

  lemma {:induction false} OutcomesGrow(before: seq<Item>, after: seq<Item>)
    requires Grown(before, after)
    ensures 0 <= Total(before, Done) <= Total(after, Done) && 0 <= Total(before, Broken) <= Total(after, Broken)
    decreases |after|
  {
    if after != [] {
      var n := |after| - 1;
      if |before| == |after| {
        OutcomesGrow(before[..n], after[..n]);
      } else {
        OutcomesGrow(before, after[..n]);
      }
    }
  }

  /** The counts of a window from one state of the items to a later one. */
  ghost predicate IsWindow(w: FlowCounters, before: seq<Item>, begun: int, after: seq<Item>, ended: int) {
    && w.offered == w.admitted == Total(before, Open) + (|after| - |before|)
    && w.completed == Total(after, Done) - Total(before, Done)
    && w.failed == Total(after, Broken) - Total(before, Broken)
    && w.outstanding == Total(after, Open)
    && w.admitted == w.completed + w.failed + w.outstanding
    && w.offeredWork == w.completed && w.consumedWork == w.completed
    && w.residence == Word(Total(after, Residing) - Total(before, Residing))
    && w.inventory == Word(Inventory(after, ended) - Inventory(before, begun))
    && Total(before, Open) <= w.highWater && Total(after, Open) <= w.highWater
    && (w.highWater == Total(before, Open) || w.highWater == Total(after, Open))
  }

  /**
   The window cut out of a running demand balances and none of its counts wraps: items in flight at the
   start and items admitted since are those completed, failed or still in flight. Residence and weighted
   inventory are what the items account for, modulo 2^64.
   */
  lemma LiveWindow(before: seq<Item>, start: Accounting, after: seq<Item>, end: Accounting)
    requires Counted(before, start) && Timed(before, start.lastTick) && Counted(after, end) && Timed(after, end.lastTick)
    requires Grown(before, after)
    ensures var w := Carried(start.counters, end.counters); w.Conserves() && IsWindow(w, before, start.lastTick, after, end.lastTick)
    ensures Carried(start.counters, end.counters).oldestAge == end.counters.oldestAge
  {
    hide Total, Inventory, Word;
    EachCountsOnce(before);
    EachCountsOnce(after);
    OutcomesGrow(before, after);
    WordDifference(start.counters.residence, end.counters.residence, Total(before, Residing), Total(after, Residing));
    WordDifference(start.counters.inventory, end.counters.inventory, Inventory(before, start.lastTick), Inventory(after, end.lastTick));
  }

  lemma WordDifference(start: u64, end: u64, before: int, after: int)
    requires start == Word(before) && end == Word(after)
    ensures WrapSub(end, start) == Word(after - before)
  {
    hide Word;
    WrapIsWord(end, start);
    WordSum(after, 0 - start);
    WordNegates(before, after);
  }

  lemma WordNegates(before: int, after: int)
    ensures Word(after - Word(before)) == Word(after - before)
  {
    var q := before / TWO64;
    assert before == q * TWO64 + Word(before);
    var d := after - Word(before);
    assert d == (d / TWO64) * TWO64 + Word(d);
    assert after - before == Word(d) + (d / TWO64 - q) * TWO64;
    WordShift(Word(d), d / TWO64 - q);
  }
}
