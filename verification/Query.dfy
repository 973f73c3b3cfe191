/**
 The production search: a cooperative Dijkstra that spends one work item per step, with explicit
 capacity limits and an honest treatment of costs that do not fit into 64 bits. One continuation serves
 both single routes (forward) and shared guidance toward priced destinations (reverse).
 */
module NavigationSearch {
  import opened Machine
  import opened Graph
  import opened Options

  datatype Availability = Legal | Blocked | Unavailable | Invalid | Overflow

  datatype Transition = Transition(from: Location, to: Location, id: u64, cost: u64, key: u64,
                                   availability: Availability, connection: bool)

  /** The frozen input of a query: member locations with their availability, and both candidate lists. */
  datatype Snapshot = Snapshot(valid: bool, complete: bool, nodes: map<Location, Availability>,
                               outgoing: map<Location, seq<Transition>>, incoming: map<Location, seq<Transition>>)
  {
    function AvailabilityAt(at: Location): Availability {
      if at in nodes then nodes[at] else Invalid
    }

    /** The candidates probed when `at` is expanded. */
    function Candidates(at: Location, reverse: bool): seq<Transition> {
      var table := if reverse then incoming else outgoing;
      if at in table then table[at] else []
    }
  }

  /** The endpoint a search expands. */
  function Near(e: Transition, reverse: bool): Location {
    if reverse then e.to else e.from
  }

  /** The endpoint a search discovers. */
  function Far(e: Transition, reverse: bool): Location {
    if reverse then e.from else e.to
  }

  predicate LegalAt(s: Snapshot, at: Location) {
    s.AvailabilityAt(at).Legal?
  }

  /** A candidate the search may use: listed at its near endpoint, legal, and so are both endpoints. */
  predicate Usable(s: Snapshot, reverse: bool, e: Transition) {
    && e in s.Candidates(Near(e, reverse), reverse)
    && e.availability.Legal? && LegalAt(s, e.from) && LegalAt(s, e.to) && e.cost != INFINITE
  }

  /** The represented graph, oriented from the discovered toward the expanded endpoint. */
  ghost function SearchArcs(s: Snapshot, reverse: bool): iset<Arc> {
    iset e: Transition | Usable(s, reverse, e) :: Arc(Far(e, reverse), Near(e, reverse), e.cost)
  }

  /** Forward, a candidate is listed where it leaves; backward, where it arrives. */
  lemma UsableIs(s: Snapshot, e: Transition)
    ensures Usable(s, false, e) <==>
              && e.from in s.outgoing && e in s.outgoing[e.from] && e.cost < 0xFFFF_FFFF_FFFF_FFFF && e.availability == Legal
              && e.from in s.nodes && s.nodes[e.from] == Legal && e.to in s.nodes && s.nodes[e.to] == Legal
    ensures Usable(s, true, e) <==>
              && e.to in s.incoming && e in s.incoming[e.to] && e.cost < 0xFFFF_FFFF_FFFF_FFFF && e.availability == Legal
              && e.from in s.nodes && s.nodes[e.from] == Legal && e.to in s.nodes && s.nodes[e.to] == Legal
  {
  }

  datatype Goal = Goal(location: Location, cost: u64)

  function LegalLocations(s: Snapshot): set<Location> {
    set x | x in s.nodes && s.nodes[x].Legal?
  }

  /** The destinations among `allowed`, each at its least stated price. */
  function Cheapest(goals: seq<Goal>, allowed: set<Location>): map<Location, nat> {
    if goals == [] then map[] else
      var rest := Cheapest(goals[..|goals|-1], allowed);
      var g := goals[|goals|-1];
      if g.location in allowed && (g.location !in rest || g.cost < rest[g.location])
      then rest[g.location := g.cost] else rest
  }

  /** The legal destinations, each at its least stated price. */
  function Prices(s: Snapshot, goals: seq<Goal>): map<Location, nat> {
    Cheapest(goals, LegalLocations(s))
  }

  // ------------------------------------------------------------------------------------------------
  // What unavailable parts could still add

  /** The part is legal or could turn out to be. */
  predicate Open(a: Availability) {
    a.Legal? || a.Unavailable?
  }

  function OpenLocations(s: Snapshot): set<Location> {
    set x | x in s.nodes && Open(s.nodes[x])
  }

  /** A candidate the search could use if every unavailable part turned out legal. */
  predicate Conceivable(s: Snapshot, reverse: bool, e: Transition) {
    && e in s.Candidates(Near(e, reverse), reverse)
    && Open(e.availability) && e.from in OpenLocations(s) && e.to in OpenLocations(s) && e.cost != INFINITE
  }

  ghost function OptimisticArcs(s: Snapshot, reverse: bool): iset<Arc> {
    iset e: Transition | Conceivable(s, reverse, e) :: Arc(Far(e, reverse), Near(e, reverse), e.cost)
  }

  lemma UsableIsConceivable(s: Snapshot, reverse: bool)
    ensures SearchArcs(s, reverse) <= OptimisticArcs(s, reverse)
  {
    forall a | a in SearchArcs(s, reverse) ensures a in OptimisticArcs(s, reverse) {
      var e: Transition :| Usable(s, reverse, e) && Arc(Far(e, reverse), Near(e, reverse), e.cost) == a;
      assert Conceivable(s, reverse, e);
    }
  }

  /** More allowed locations mean more destinations, none of them dearer. */
  lemma {:induction false} CheapestGrows(goals: seq<Goal>, a: set<Location>, b: set<Location>)
    requires a <= b
    ensures NoDearer(Cheapest(goals, a), Cheapest(goals, b))
  {
    if goals != [] {
      CheapestGrows(goals[..|goals|-1], a, b);
      CheapestAmong(goals[..|goals|-1], a);
    }
  }

  lemma {:induction false} CheapestAmong(goals: seq<Goal>, a: set<Location>)
    ensures forall x :: x in Cheapest(goals, a) <==> x in a && exists g :: g in goals && g.location == x
  {
    if goals != [] {
      var n := |goals| - 1;
      CheapestAmong(goals[..n], a);
      assert goals == goals[..n] + [goals[n]];
    }
  }

  /** Where no destination is merely open, allowing open locations changes nothing. */
  lemma {:induction false} CheapestAgrees(goals: seq<Goal>, a: set<Location>, b: set<Location>)
    requires forall g :: g in goals ==> (g.location in a <==> g.location in b)
    ensures Cheapest(goals, a) == Cheapest(goals, b)
  {
    if goals != [] {
      CheapestAgrees(goals[..|goals|-1], a, b);
    }
  }

  datatype Label = Label(cost: u64, parent: Option<Transition>, settled: bool)

  datatype Entry = Entry(cost: u64, at: Location)

  predicate Precedes(a: Entry, b: Entry) {
    a.cost < b.cost || (a.cost == b.cost &&
      (a.at.domain < b.at.domain || (a.at.domain == b.at.domain && a.at.node <= b.at.node)))
  }

  lemma {:induction false} LeastEntryExists(frontier: multiset<Entry>) returns (least: Entry)
    requires frontier != multiset{}
    ensures least in frontier && forall e :: e in frontier ==> Precedes(least, e)
    decreases |frontier|
  {
    least :| least in frontier;
    var rest := frontier - multiset{least};
    if rest == multiset{} {
      assert frontier == rest + multiset{least};
    } else {
      var other := LeastEntryExists(rest);
      var first := least;
      if !Precedes(first, other) {
        least := other;
      }
      forall e | e in frontier ensures Precedes(least, e) {
        if e != first {
          assert e in rest;
        }
      }
    }
  }

  // ------------------------------------------------------------------------------------------------
  // What the labels mean

  /** A label is a placeholder when every route known to its location overflows. */
  ghost function Finite(labels: map<Location, Label>): map<Location, nat> {
    map x | x in labels && labels[x].cost != INFINITE :: labels[x].cost
  }

  /**
   Labels sit on legal locations; the settled ones are ranked in settling order; a finite label is a
   destination's price or its parent's cost added to the label of a location settled earlier.
   */
  ghost predicate Grounded(s: Snapshot, reverse: bool, seeds: map<Location, nat>, labels: map<Location, Label>, rank: map<Location, nat>) {
    && rank.Keys <= labels.Keys
    && (forall x :: x in labels ==> LegalAt(s, x) && (labels[x].settled <==> x in rank))
    && (forall x :: x in rank ==> rank[x] < |rank| && labels[x].cost != INFINITE)
    && (forall x :: x in labels && labels[x].cost != INFINITE ==> Supported(s, reverse, seeds, labels, rank, x))
  }

  ghost predicate Supported(s: Snapshot, reverse: bool, seeds: map<Location, nat>, labels: map<Location, Label>, rank: map<Location, nat>, x: Location)
    requires x in labels
  {
    if labels[x].parent.None? then x in seeds && labels[x].cost == seeds[x]
    else Descends(s, reverse, labels, rank, x, labels[x].parent.value)
  }

  ghost predicate Descends(s: Snapshot, reverse: bool, labels: map<Location, Label>, rank: map<Location, nat>, x: Location, p: Transition)
    requires x in labels
  {
    && Usable(s, reverse, p) && Far(p, reverse) == x
    && Near(p, reverse) in rank && Near(p, reverse) in labels
    && labels[x].cost == labels[Near(p, reverse)].cost + p.cost
    && (x in rank ==> rank[Near(p, reverse)] < rank[x])
  }

  /** Labelled locations have routes, and finite labels never undercut the best one. */
  ghost predicate Honest(arcs: iset<Arc>, seeds: map<Location, nat>, labels: map<Location, Label>) {
    forall x :: x in labels ==>
      Reaches(arcs, seeds, x) && (labels[x].cost != INFINITE ==> Distance(arcs, seeds, x) <= labels[x].cost)
  }

  /** Every finite unsettled label is queued at its current cost; no entry lies below the key or its label. */
  ghost predicate Queued(labels: map<Location, Label>, frontier: multiset<Entry>, key: nat) {
    && (forall x :: x in labels && labels[x].cost != INFINITE && !labels[x].settled ==> Entry(labels[x].cost, x) in frontier)
    && (forall e :: e in frontier ==> e.at in labels && labels[e.at].cost <= e.cost && key <= e.cost < INFINITE)
  }

  /** The label-setting frontier; in addition every arc into an expanded location has a labelled source. */
  ghost predicate Expanded(arcs: iset<Arc>, seeds: map<Location, nat>, labels: map<Location, Label>, done: set<Location>, key: nat) {
    && Graph.Frontier(arcs, seeds, INFINITE, Finite(labels), done, key)
    && (forall a :: a in arcs && a.to in done ==> a.from in labels)
  }

  ghost predicate Placeholders(labels: map<Location, Label>, open: set<Location>) {
    forall x :: x in open <==> x in labels && labels[x].cost == INFINITE
  }

  /** The arcs of the first `k` candidates of the location under expansion have been relaxed. */
  ghost predicate Probed(s: Snapshot, reverse: bool, labels: map<Location, Label>, at: Location, key: nat, k: nat)
    requires k <= |s.Candidates(at, reverse)|
  {
    forall i :: 0 <= i < k ==> Relaxed(s, reverse, labels, key, s.Candidates(at, reverse)[i])
  }

  ghost predicate Relaxed(s: Snapshot, reverse: bool, labels: map<Location, Label>, key: nat, e: Transition) {
    Usable(s, reverse, e) ==>
      && Far(e, reverse) in labels
      && (key + e.cost < INFINITE ==> labels[Far(e, reverse)].cost <= key + e.cost)
  }

  // ------------------------------------------------------------------------------------------------
  // One lemma per kind of update

  lemma FiniteUpdate(labels: map<Location, Label>, x: Location, l: Label)
    ensures l.cost != INFINITE ==> Finite(labels[x := l]) == Finite(labels)[x := l.cost]
    ensures l.cost == INFINITE && x !in labels ==> Finite(labels[x := l]) == Finite(labels)
  {
  }

  /** A first or better finite label keeps all label invariants. */
  lemma Improve(s: Snapshot, reverse: bool, seeds: map<Location, nat>, labels: map<Location, Label>, rank: map<Location, nat>,
                frontier: multiset<Entry>, done: set<Location>, key: u64, e: Transition)
    requires Grounded(s, reverse, seeds, labels, rank) && Honest(SearchArcs(s, reverse), seeds, labels)
    requires Queued(labels, frontier, key) && Expanded(SearchArcs(s, reverse), seeds, labels, done, key)
    requires Far(e, reverse) !in done && Usable(s, reverse, e)
    requires Near(e, reverse) in rank && labels[Near(e, reverse)].cost == key && key + e.cost < INFINITE
    requires Far(e, reverse) in labels ==>
               !labels[Far(e, reverse)].settled && key + e.cost < labels[Far(e, reverse)].cost
    ensures var labels' := labels[Far(e, reverse) := Label(key + e.cost, Some(e), false)];
            && Grounded(s, reverse, seeds, labels', rank)
            && Honest(SearchArcs(s, reverse), seeds, labels')
            && Queued(labels', frontier + multiset{Entry(key + e.cost, Far(e, reverse))}, key)
            && Expanded(SearchArcs(s, reverse), seeds, labels', done, key)
  {
    hide Usable, Grounded, Honest, Queued, Expanded;
    UsableIsLegal(s, reverse, e);
    RankedIsFinite(s, reverse, seeds, labels, rank, Near(e, reverse));
    ImproveGrounded(s, reverse, seeds, labels, rank, key, e);
    var x, l := Far(e, reverse), Label(key + e.cost, Some(e), false);
    ImproveHonest(SearchArcs(s, reverse), seeds, labels, Arc(x, Near(e, reverse), e.cost), l);
    ImproveQueued(labels, frontier, key, x, l);
    ImproveExpanded(SearchArcs(s, reverse), seeds, labels, done, key, x, l);
  }

  lemma RankedIsFinite(s: Snapshot, reverse: bool, seeds: map<Location, nat>, labels: map<Location, Label>, rank: map<Location, nat>, x: Location)
    requires Grounded(s, reverse, seeds, labels, rank) && x in rank
    ensures x in labels && labels[x].cost != INFINITE && labels[x].settled
  {
  }

  lemma UsableIsLegal(s: Snapshot, reverse: bool, e: Transition)
    requires Usable(s, reverse, e)
    ensures LegalAt(s, Near(e, reverse)) && LegalAt(s, Far(e, reverse))
    ensures Arc(Far(e, reverse), Near(e, reverse), e.cost) in SearchArcs(s, reverse)
  {
  }

  lemma ImproveHonest(arcs: iset<Arc>, seeds: map<Location, nat>, labels: map<Location, Label>, a: Arc, l: Label)
    requires Honest(arcs, seeds, labels) && a in arcs && a.to in labels && labels[a.to].cost != INFINITE
    requires l.cost == INFINITE || l.cost == labels[a.to].cost + a.cost
    ensures Honest(arcs, seeds, labels[a.from := l])
  {
    ArcDistance(arcs, seeds, a);
  }

  lemma ImproveQueued(labels: map<Location, Label>, frontier: multiset<Entry>, key: nat, x: Location, l: Label)
    requires Queued(labels, frontier, key) && key <= l.cost < INFINITE && !l.settled
    requires x in labels ==> l.cost <= labels[x].cost
    ensures Queued(labels[x := l], frontier + multiset{Entry(l.cost, x)}, key)
  {
  }

  lemma SupportedStays(s: Snapshot, reverse: bool, seeds: map<Location, nat>, labels: map<Location, Label>,
                       labels': map<Location, Label>, rank: map<Location, nat>, x: Location)
    requires x in labels && Supported(s, reverse, seeds, labels, rank, x)
    requires x in labels' && labels'[x].cost == labels[x].cost && labels'[x].parent == labels[x].parent
    requires forall y :: y in rank ==> y in labels && y in labels' && labels'[y].cost == labels[y].cost
    ensures Supported(s, reverse, seeds, labels', rank, x)
  {
  }

  lemma NewIsSupported(s: Snapshot, reverse: bool, seeds: map<Location, nat>, labels: map<Location, Label>, rank: map<Location, nat>, e: Transition)
    requires Usable(s, reverse, e) && Far(e, reverse) in labels && Far(e, reverse) !in rank
    requires Near(e, reverse) in rank && Near(e, reverse) in labels
    requires labels[Far(e, reverse)].parent == Some(e)
    requires labels[Far(e, reverse)].cost == labels[Near(e, reverse)].cost + e.cost
    ensures Supported(s, reverse, seeds, labels, rank, Far(e, reverse))
  {
  }

  lemma ImproveGrounded(s: Snapshot, reverse: bool, seeds: map<Location, nat>, labels: map<Location, Label>, rank: map<Location, nat>,
                        key: u64, e: Transition)
    requires Grounded(s, reverse, seeds, labels, rank) && Usable(s, reverse, e)
    requires Near(e, reverse) in rank && labels[Near(e, reverse)].cost == key && key + e.cost < INFINITE
    requires Far(e, reverse) in labels ==> !labels[Far(e, reverse)].settled
    ensures Grounded(s, reverse, seeds, labels[Far(e, reverse) := Label(key + e.cost, Some(e), false)], rank)
  {
    hide Usable, Supported;
    var x := Far(e, reverse);
    var labels' := labels[x := Label(key + e.cost, Some(e), false)];
    UsableIsLegal(s, reverse, e);
    NewIsSupported(s, reverse, seeds, labels', rank, e);
    forall y | y in labels && y != x && labels[y].cost != INFINITE ensures Supported(s, reverse, seeds, labels', rank, y) {
      SupportedStays(s, reverse, seeds, labels, labels', rank, y);
    }
  }

  lemma ImproveExpanded(arcs: iset<Arc>, seeds: map<Location, nat>, labels: map<Location, Label>, done: set<Location>,
                        key: nat, x: Location, l: Label)
    requires Expanded(arcs, seeds, labels, done, key)
    requires x !in done && (x in labels ==> l.cost <= labels[x].cost) && key <= l.cost
    requires l.cost == INFINITE ==> x !in labels
    ensures Expanded(arcs, seeds, labels[x := l], done, key)
  {
    FiniteUpdate(labels, x, l);
    if l.cost != INFINITE {
      Relabel(arcs, seeds, INFINITE, Finite(labels), done, key, x, l.cost);
    }
  }

  /** Noting a location whose only known route overflows keeps all label invariants. */
  lemma NoteOverflow(s: Snapshot, reverse: bool, seeds: map<Location, nat>, labels: map<Location, Label>, rank: map<Location, nat>,
                     frontier: multiset<Entry>, done: set<Location>, key: u64, e: Transition)
    requires Grounded(s, reverse, seeds, labels, rank) && Honest(SearchArcs(s, reverse), seeds, labels)
    requires Queued(labels, frontier, key) && Expanded(SearchArcs(s, reverse), seeds, labels, done, key)
    requires Far(e, reverse) !in done && Usable(s, reverse, e) && key <= INFINITE
    requires Near(e, reverse) in rank && Far(e, reverse) !in labels
    ensures var labels' := labels[Far(e, reverse) := Label(INFINITE, None, false)];
            && Grounded(s, reverse, seeds, labels', rank)
            && Honest(SearchArcs(s, reverse), seeds, labels')
            && Queued(labels', frontier, key)
            && Expanded(SearchArcs(s, reverse), seeds, labels', done, key)
  {
    hide Usable, Grounded, Honest, Queued, Expanded;
    UsableIsLegal(s, reverse, e);
    RankedIsFinite(s, reverse, seeds, labels, rank, Near(e, reverse));
    var x, l := Far(e, reverse), Label(INFINITE, None, false);
    NoteGrounded(s, reverse, seeds, labels, rank, x);
    ImproveHonest(SearchArcs(s, reverse), seeds, labels, Arc(x, Near(e, reverse), e.cost), l);
    NoteQueued(labels, frontier, key, x);
    ImproveExpanded(SearchArcs(s, reverse), seeds, labels, done, key, x, l);
  }

  lemma NoteGrounded(s: Snapshot, reverse: bool, seeds: map<Location, nat>, labels: map<Location, Label>, rank: map<Location, nat>, x: Location)
    requires Grounded(s, reverse, seeds, labels, rank) && x !in labels && LegalAt(s, x)
    ensures Grounded(s, reverse, seeds, labels[x := Label(INFINITE, None, false)], rank)
  {
    hide Usable, Supported;
    var labels' := labels[x := Label(INFINITE, None, false)];
    forall y | y in labels && labels[y].cost != INFINITE ensures Supported(s, reverse, seeds, labels', rank, y) {
      SupportedStays(s, reverse, seeds, labels, labels', rank, y);
    }
  }

  lemma NoteQueued(labels: map<Location, Label>, frontier: multiset<Entry>, key: nat, x: Location)
    requires Queued(labels, frontier, key) && x !in labels
    ensures Queued(labels[x := Label(INFINITE, None, false)], frontier, key)
  {
  }

  /** Popping a current entry settles its location at its true distance. */
  lemma SettleTop(s: Snapshot, reverse: bool, seeds: map<Location, nat>, labels: map<Location, Label>, rank: map<Location, nat>,
                  frontier: multiset<Entry>, key: nat, top: Entry)
    requires Grounded(s, reverse, seeds, labels, rank) && Honest(SearchArcs(s, reverse), seeds, labels)
    requires Queued(labels, frontier, key) && Expanded(SearchArcs(s, reverse), seeds, labels, rank.Keys, key)
    requires top in frontier && forall e :: e in frontier ==> Precedes(top, e)
    requires top.at in labels && !labels[top.at].settled && labels[top.at].cost == top.cost
    ensures var labels' := labels[top.at := labels[top.at].(settled := true)];
            && Grounded(s, reverse, seeds, labels', rank[top.at := |rank|])
            && Honest(SearchArcs(s, reverse), seeds, labels')
            && Queued(labels', frontier - multiset{top}, top.cost)
            && Expanded(SearchArcs(s, reverse), seeds, labels', rank.Keys, top.cost)
    ensures Reaches(SearchArcs(s, reverse), seeds, top.at) && Distance(SearchArcs(s, reverse), seeds, top.at) == top.cost
    ensures top.at !in rank && top.cost < INFINITE
  {
    hide Usable, Supported, SearchArcs, Grounded, Queued, Expanded, Honest, Graph.Frontier, Reaches, Distance;
    var arcs, x := SearchArcs(s, reverse), top.at;
    TopIsUnranked(s, reverse, seeds, labels, rank, frontier, key, top);
    SettleGrounded(s, reverse, seeds, labels, rank, x);
    SettleHonest(arcs, seeds, labels, x);
    SettleQueued(labels, frontier, key, top);
    SettleExpanded(arcs, seeds, labels, rank, frontier, key, top);
    DistanceBound(arcs, seeds, INFINITE, Finite(labels), rank.Keys, top.cost, x);
  }

  lemma TopIsUnranked(s: Snapshot, reverse: bool, seeds: map<Location, nat>, labels: map<Location, Label>, rank: map<Location, nat>,
                      frontier: multiset<Entry>, key: nat, top: Entry)
    requires Grounded(s, reverse, seeds, labels, rank) && Queued(labels, frontier, key) && top in frontier
    requires top.at in labels && !labels[top.at].settled
    ensures top.at !in rank && top.cost < INFINITE
    ensures forall x :: x in labels ==> (labels[x].settled <==> x in rank)
  {
  }

  lemma SettleHonest(arcs: iset<Arc>, seeds: map<Location, nat>, labels: map<Location, Label>, x: Location)
    requires Honest(arcs, seeds, labels) && x in labels
    ensures Honest(arcs, seeds, labels[x := labels[x].(settled := true)])
    ensures Reaches(arcs, seeds, x) && (labels[x].cost != INFINITE ==> Distance(arcs, seeds, x) <= labels[x].cost)
  {
  }

  lemma SettleGrounded(s: Snapshot, reverse: bool, seeds: map<Location, nat>, labels: map<Location, Label>, rank: map<Location, nat>, x: Location)
    requires Grounded(s, reverse, seeds, labels, rank) && x in labels && labels[x].cost != INFINITE && x !in rank
    ensures Grounded(s, reverse, seeds, labels[x := labels[x].(settled := true)], rank[x := |rank|])
  {
    hide Usable, Supported;
    var labels', rank' := labels[x := labels[x].(settled := true)], rank[x := |rank|];
    assert |rank'| == |rank| + 1;
    forall y | y in labels && labels[y].cost != INFINITE ensures Supported(s, reverse, seeds, labels', rank', y) {
      SupportedSettles(s, reverse, seeds, labels, rank, x, y);
    }
  }

  lemma SupportedSettles(s: Snapshot, reverse: bool, seeds: map<Location, nat>, labels: map<Location, Label>,
                         rank: map<Location, nat>, x: Location, y: Location)
    requires y in labels && Supported(s, reverse, seeds, labels, rank, y)
    requires x in labels && x !in rank && forall z :: z in rank ==> rank[z] < |rank|
    ensures Supported(s, reverse, seeds, labels[x := labels[x].(settled := true)], rank[x := |rank|], y)
  {
  }

  lemma SettleQueued(labels: map<Location, Label>, frontier: multiset<Entry>, key: nat, top: Entry)
    requires Queued(labels, frontier, key) && top in frontier && forall e :: e in frontier ==> Precedes(top, e)
    requires top.at in labels
    ensures Queued(labels[top.at := labels[top.at].(settled := true)], frontier - multiset{top}, top.cost)
  {
  }

  lemma SettleExpanded(arcs: iset<Arc>, seeds: map<Location, nat>, labels: map<Location, Label>, rank: map<Location, nat>,
                       frontier: multiset<Entry>, key: nat, top: Entry)
    requires Queued(labels, frontier, key) && Expanded(arcs, seeds, labels, rank.Keys, key)
    requires top in frontier && forall e :: e in frontier ==> Precedes(top, e)
    requires top.at in labels && forall x :: x in labels ==> (labels[x].settled <==> x in rank)
    ensures Expanded(arcs, seeds, labels[top.at := labels[top.at].(settled := true)], rank.Keys, top.cost)
    ensures Graph.Frontier(arcs, seeds, INFINITE, Finite(labels), rank.Keys, top.cost)
  {
    var dist := Finite(labels);
    forall x | x in dist && x !in rank ensures top.cost <= dist[x] {
      assert Entry(labels[x].cost, x) in frontier;
    }
    assert Finite(labels[top.at := labels[top.at].(settled := true)]) == dist;
    RaiseKey(arcs, seeds, INFINITE, dist, rank.Keys, key, top.cost);
  }

  /** Popping a superseded entry changes nothing that matters. */
  lemma SkipTop(labels: map<Location, Label>, frontier: multiset<Entry>, key: nat, top: Entry)
    requires Queued(labels, frontier, key) && top in frontier && top.at in labels
    requires labels[top.at].settled || labels[top.at].cost != top.cost
    ensures Queued(labels, frontier - multiset{top}, key)
  {
  }

  /** With every candidate probed, the expanded location joins the others. */
  lemma FinishExpansion(s: Snapshot, reverse: bool, seeds: map<Location, nat>, labels: map<Location, Label>, done: set<Location>, at: Location, key: nat)
    requires Expanded(SearchArcs(s, reverse), seeds, labels, done, key)
    requires at in labels && labels[at].cost == key < INFINITE
    requires Probed(s, reverse, labels, at, key, |s.Candidates(at, reverse)|)
    ensures Expanded(SearchArcs(s, reverse), seeds, labels, done + {at}, key)
  {
    var arcs, dist := SearchArcs(s, reverse), Finite(labels);
    forall a | a in arcs && a.to == at
      ensures a.from in labels && (key + a.cost < INFINITE ==> a.from in dist && dist[a.from] <= key + a.cost)
    {
      var e: Transition :| Usable(s, reverse, e) && Arc(Far(e, reverse), Near(e, reverse), e.cost) == a;
      assert Relaxed(s, reverse, labels, key, e);
    }
    Settle(arcs, seeds, INFINITE, dist, done, key, at);
  }

  /** Probing one more candidate, given that it is now relaxed and labels only improved. */
  lemma ProbeOne(s: Snapshot, reverse: bool, labels: map<Location, Label>, labels': map<Location, Label>, at: Location, key: nat, k: nat)
    requires k < |s.Candidates(at, reverse)| && Probed(s, reverse, labels, at, key, k)
    requires forall x :: x in labels ==> x in labels' && labels'[x].cost <= labels[x].cost
    requires Relaxed(s, reverse, labels', key, s.Candidates(at, reverse)[k])
    ensures Probed(s, reverse, labels', at, key, k + 1)
  {
    hide Usable;
  }

  // ------------------------------------------------------------------------------------------------
  // What an exhausted search knows

  /** With the frontier empty, every location with a representable route is labelled with its distance. */
  lemma ExhaustedIsExact(arcs: iset<Arc>, seeds: map<Location, nat>, labels: map<Location, Label>, rank: map<Location, nat>, key: nat, x: Location)
    requires Honest(arcs, seeds, labels) && Queued(labels, multiset{}, key) && Expanded(arcs, seeds, labels, rank.Keys, key)
    requires forall y :: y in labels ==> (labels[y].settled <==> y in rank)
    ensures Reaches(arcs, seeds, x) && Distance(arcs, seeds, x) < INFINITE ==>
              x in labels && labels[x].cost == Distance(arcs, seeds, x)
    ensures x in labels && labels[x].cost == INFINITE ==> Reaches(arcs, seeds, x) && INFINITE <= Distance(arcs, seeds, x)
  {
    var dist := Finite(labels);
    forall y | y in dist ensures y in rank {
      assert labels[y].settled;
    }
    assert Graph.Frontier(arcs, seeds, INFINITE, dist, rank.Keys, INFINITE);
    if Reaches(arcs, seeds, x) && Distance(arcs, seeds, x) < INFINITE {
      DistanceBound(arcs, seeds, INFINITE, dist, rank.Keys, INFINITE, x);
    }
  }

  /** Without placeholders, every location with any route at all is labelled. */
  lemma {:induction false} AllRoutesLabelled(arcs: iset<Arc>, seeds: map<Location, nat>, labels: map<Location, Label>, rank: map<Location, nat>, key: nat,
                                             x: Location, w: Walk)
    requires Queued(labels, multiset{}, key) && Expanded(arcs, seeds, labels, rank.Keys, key)
    requires forall y :: y in labels ==> (labels[y].settled <==> y in rank) && labels[y].cost != INFINITE
    requires forall y :: y in seeds ==> seeds[y] < INFINITE
    requires Arrives(arcs, seeds, x, w)
    ensures x in labels
    decreases |w|
  {
    if w == [] {
      assert x in Finite(labels);
    } else {
      AllRoutesLabelled(arcs, seeds, labels, rank, key, w[0].to, w[1..]);
      assert labels[w[0].to].settled;
    }
  }
}
