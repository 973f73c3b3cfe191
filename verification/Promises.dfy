/** What a navigation query is asked, what each of its outcomes promises, and when it has to answer. */
module NavigationPromises {
  import opened Machine
  import opened Graph
  import opened NavigationSearch
  import opened Options

  datatype Outcome = Found | NoRoute | Indeterminate | InvalidInput | Overflowed | CapacityExceeded

  datatype Limits = Limits(maxNodes: nat, maxFrontier: nat, maxRouteSteps: nat)

  datatype Guidance = Guidance(cost: u64, next: Option<Transition>)

  datatype Result = Result(outcome: Outcome, exact: bool, cost: u64, route: seq<Transition>,
                           guidance: map<Location, Guidance>, snapshot: Snapshot, work: nat)

  datatype Phase = Init | Seed | Pop | Edges | Reconstruct | Swap | Export | Publish

  datatype QueryState = Pending | Ready | Cancelled | Superseded | Stale

  /** What is asked: guidance toward priced goals (`reverse`), or one route from `start` to `goal`. */
  datatype Task = Task(snapshot: Snapshot, start: Location, goal: Location, limits: Limits, goals: seq<Goal>, reverse: bool)
  {
    ghost predicate WellFormed() {
      !reverse ==> goals == [Goal(start, 0)]
    }

    ghost function Arcs(): iset<Arc> {
      SearchArcs(snapshot, reverse)
    }

    ghost function Seeds(): map<Location, nat> {
      Prices(snapshot, goals)
    }

    /** The location has a route to a destination. */
    ghost predicate Routed(x: Location) {
      Reaches(Arcs(), Seeds(), x)
    }

    ghost function OptimisticArcs(): iset<Arc> {
      NavigationSearch.OptimisticArcs(snapshot, reverse)
    }

    ghost function OptimisticSeeds(): map<Location, nat> {
      Cheapest(goals, OpenLocations(snapshot))
    }
  }

  // ------------------------------------------------------------------------------------------------
  // What each outcome promises

  /** Every location with a route, and no other, carries its distance and a next step that makes progress. */
  ghost predicate ExactField(t: Task, field: map<Location, Guidance>) {
    && (forall x :: x in field <==> Reaches(t.Arcs(), t.Seeds(), x))
    && (forall x :: x in field ==> field[x].cost == Distance(t.Arcs(), t.Seeds(), x) < INFINITE)
    && exists rank: map<Location, nat> :: Leads(t, field, rank)
  }

  /** Next steps are usable, account for the labels' difference, and lead to a location of smaller rank. */
  ghost predicate Leads(t: Task, field: map<Location, Guidance>, rank: map<Location, nat>) {
    && rank.Keys == field.Keys
    && forall x :: x in field ==> rank[x] < |field| && LeadsFrom(t, field, rank, x)
  }

  ghost predicate LeadsFrom(t: Task, field: map<Location, Guidance>, rank: map<Location, nat>, x: Location)
    requires x in field && rank.Keys == field.Keys
  {
    match field[x].next
    case None => x in t.Seeds() && field[x].cost == t.Seeds()[x]
    case Some(e) =>
      && Usable(t.snapshot, t.reverse, e) && Far(e, t.reverse) == x
      && Near(e, t.reverse) in field
      && field[x].cost == field[Near(e, t.reverse)].cost + e.cost
      && rank[Near(e, t.reverse)] < rank[x]
  }

  /** Consecutive usable transitions from `from` to `to`. */
  ghost predicate Chain(s: Snapshot, route: seq<Transition>, from: Location, to: Location)
    decreases |route|
  {
    if route == [] then from == to
    else Usable(s, false, route[0]) && route[0].from == from && Chain(s, route[1..], route[0].to, to)
  }

  ghost function RouteCost(route: seq<Transition>): nat {
    if route == [] then 0 else route[0].cost + RouteCost(route[1..])
  }

  ghost predicate BestRoute(t: Task, route: seq<Transition>, cost: nat) {
    && Chain(t.snapshot, route, t.start, t.goal)
    && RouteCost(route) == cost < INFINITE
    && IsDistance(t.Arcs(), t.Seeds(), t.goal, cost)
  }

  // ------------------------------------------------------------------------------------------------
  // What a query can run into

  /** The input survives the checks made before any search. */
  predicate Posed(t: Task) {
    && t.snapshot.valid && t.goals != []
    && (!t.reverse ==> t.start in t.snapshot.nodes && t.goal in t.snapshot.nodes)
  }

  /** A candidate shows its own availability and, when legal, that of the location it leads to. */
  predicate Shows(t: Task, e: Transition, a: Availability) {
    e.availability == a || (e.availability.Legal? && t.snapshot.AvailabilityAt(Far(e, t.reverse)) == a)
  }

  /** The candidate is listed at `x` between members, at a cost that can be told from the sentinel. */
  predicate Fits(t: Task, x: Location, e: Transition) {
    Near(e, t.reverse) == x && e.from in t.snapshot.nodes && e.to in t.snapshot.nodes && e.cost != INFINITE
  }

  /** The query's reach includes availability `a`: a destination has it, or a candidate met on the way shows it. */
  ghost predicate Met(t: Task, a: Availability) {
    || (exists g :: g in t.goals && t.snapshot.AvailabilityAt(g.location) == a)
    || (exists x, e :: MetAt(t, x, e) && Shows(t, e, a))
  }

  /** A candidate of a location that has a route. */
  ghost predicate MetAt(t: Task, x: Location, e: Transition) {
    t.Routed(x) && e in t.snapshot.Candidates(x, t.reverse)
  }

  ghost predicate Malformed(t: Task) {
    || !Posed(t) || Met(t, Invalid)
    || (exists g :: g in t.goals && g.cost == INFINITE)
    || (exists x, e :: MetAt(t, x, e) && !Fits(t, x, e))
  }

  /** Nothing within reach is malformed, and no provider reports an overflow. */
  ghost predicate Clean(t: Task) {
    !Malformed(t) && !Met(t, Overflow)
  }

  /** The answer could depend on something the snapshot does not say. */
  ghost predicate Doubtful(t: Task) {
    !t.snapshot.complete || Met(t, Unavailable)
  }

  /** The answer at `x` is the same if every unavailable part turns out legal. */
  ghost predicate Agrees(t: Task, x: Location) {
    && (Reaches(t.OptimisticArcs(), t.OptimisticSeeds(), x) <==> t.Routed(x))
    && (t.Routed(x) ==>
          Distance(t.OptimisticArcs(), t.OptimisticSeeds(), x) == Distance(t.Arcs(), t.Seeds(), x))
  }

  ghost predicate AllRouted(t: Task, xs: set<Location>) {
    forall x :: x in xs ==> t.Routed(x)
  }

  /** Candidates, each named by a location that has a route and a position in its list. */
  ghost predicate AllListed(t: Task, ps: set<(Location, nat)>) {
    forall p :: p in ps ==> t.Routed(p.0) && p.1 < |t.snapshot.Candidates(p.0, t.reverse)|
  }

  /** There are more locations, candidates or steps to deal with than the limits leave room for. */
  ghost predicate Cramped(t: Task) {
    || t.limits.maxNodes == 0 || t.limits.maxFrontier == 0
    || (exists xs :: AllRouted(t, xs) && (t.limits.maxNodes < |xs| || (!t.reverse && t.limits.maxRouteSteps + 1 < |xs|)))
    || (exists ps :: AllListed(t, ps) && t.limits.maxFrontier < |t.goals| + |ps|)
  }

  /** Some location's every route overflows; for a route query, so does every route to the goal. */
  ghost predicate TooDear(t: Task) {
    && (exists x :: t.Routed(x) && INFINITE <= Distance(t.Arcs(), t.Seeds(), x))
    && (!t.reverse && t.Routed(t.goal) ==> INFINITE <= Distance(t.Arcs(), t.Seeds(), t.goal))
  }

  /** These outcomes are given only after everything with a route was expanded. */
  predicate Exhaustive(t: Task, outcome: Outcome) {
    outcome.NoRoute? || outcome.Indeterminate? || (outcome.Found? && t.reverse)
  }

  ghost predicate Truthful(t: Task, outcome: Outcome, exact: bool, cost: nat, route: seq<Transition>, field: map<Location, Guidance>) {
    && (exact ==> t.snapshot.complete || outcome.InvalidInput?)
    && (!exact ==> Doubtful(t))
    && (Exhaustive(t, outcome) ==> Clean(t) && (exact ==> !Doubtful(t)))
    && match outcome
       case Found =>
         if t.reverse then field != map[] && ExactField(t, field)
         else BestRoute(t, route, cost) && (exact ==> Agrees(t, t.goal))
       case NoRoute => exact && Unreached(t)
       case Indeterminate => !exact && Unreached(t)
       case Overflowed => Met(t, Overflow) || TooDear(t)
       case CapacityExceeded => Cramped(t)
       case InvalidInput => Malformed(t)
  }

  ghost predicate Unreached(t: Task) {
    if t.reverse then forall x :: !t.Routed(x) else !t.Routed(t.goal)
  }

  // ------------------------------------------------------------------------------------------------
  // What exactness means: the answer does not depend on unavailable parts

  lemma OptimisticExtends(t: Task)
    ensures Extends(t.Arcs(), t.OptimisticArcs(), t.Seeds(), t.OptimisticSeeds())
  {
    hide Usable, Conceivable, SearchArcs, OptimisticArcs, Cheapest;
    UsableIsConceivable(t.snapshot, t.reverse);
    assert LegalLocations(t.snapshot) <= OpenLocations(t.snapshot);
    CheapestGrows(t.goals, LegalLocations(t.snapshot), OpenLocations(t.snapshot));
  }

  lemma RoutedIsLegal(t: Task, x: Location)
    requires t.Routed(x)
    ensures x in LegalLocations(t.snapshot)
  {
    hide Cheapest;
    CheapestAmong(t.goals, LegalLocations(t.snapshot));
    var w :| Arrives(t.Arcs(), t.Seeds(), x, w);
    if w != [] {
      var e: Transition :| Usable(t.snapshot, t.reverse, e) && Arc(Far(e, t.reverse), Near(e, t.reverse), e.cost) == w[0];
    }
  }

  /** Without doubt, a conceivable candidate of a location with a route is usable. */
  lemma UndoubtedArc(t: Task, a: Arc)
    requires !Doubtful(t) && a in t.OptimisticArcs() && t.Routed(a.to)
    ensures a in t.Arcs()
  {
    hide Task.Routed, Task.Arcs, Task.Seeds;
    var e: Transition :| Conceivable(t.snapshot, t.reverse, e) && Arc(Far(e, t.reverse), Near(e, t.reverse), e.cost) == a;
    assert MetAt(t, a.to, e) && !Shows(t, e, Unavailable);
    RoutedIsLegal(t, a.to);
    assert Usable(t.snapshot, t.reverse, e);
    ArcIsUsable(t, e);
  }

  lemma ArcIsUsable(t: Task, e: Transition)
    requires Usable(t.snapshot, t.reverse, e)
    ensures Arc(Far(e, t.reverse), Near(e, t.reverse), e.cost) in t.Arcs()
  {
  }

  lemma UndoubtedSeeds(t: Task)
    requires !Doubtful(t)
    ensures t.OptimisticSeeds() == t.Seeds()
  {
    hide Cheapest;
    forall g | g in t.goals ensures g.location in LegalLocations(t.snapshot) <==> g.location in OpenLocations(t.snapshot) {
      assert t.snapshot.AvailabilityAt(g.location) != Unavailable;
    }
    CheapestAgrees(t.goals, LegalLocations(t.snapshot), OpenLocations(t.snapshot));
  }

  lemma {:induction false} UndoubtedWalk(t: Task, x: Location, w: Walk)
    requires !Doubtful(t) && Arrives(t.OptimisticArcs(), t.Seeds(), x, w)
    ensures Arrives(t.Arcs(), t.Seeds(), x, w)
    decreases |w|
  {
    hide Doubtful, Task.OptimisticArcs, Task.Arcs, Task.Seeds;
    if w != [] {
      UndoubtedWalk(t, w[0].to, w[1..]);
      assert t.Routed(w[0].to);
      UndoubtedArc(t, w[0]);
    }
  }

  /** Where nothing met is unavailable, every answer is the optimistic one. */
  lemma UndoubtedAgrees(t: Task, x: Location)
    requires !Doubtful(t)
    ensures Agrees(t, x)
  {
    hide Doubtful, Task.OptimisticArcs, Task.Arcs, Task.Seeds, Task.OptimisticSeeds;
    UndoubtedSeeds(t);
    OptimisticExtends(t);
    if t.Routed(x) {
      ExtendedDistance(t.Arcs(), t.OptimisticArcs(), t.Seeds(), t.OptimisticSeeds(), x);
    }
    if Reaches(t.OptimisticArcs(), t.OptimisticSeeds(), x) {
      var w :| Arrives(t.OptimisticArcs(), t.Seeds(), x, w) && Total(t.Seeds(), x, w) == Distance(t.OptimisticArcs(), t.Seeds(), x);
      UndoubtedWalk(t, x, w);
    }
  }

  /** An unavailable part turns out legal or blocked; the others stay what they are. */
  predicate Settles(a: Availability, b: Availability) {
    if a.Unavailable? then b.Legal? || b.Blocked? else b == a
  }

  ghost predicate Resolves(s: Snapshot, u: Snapshot) {
    && u.nodes.Keys == s.nodes.Keys
    && (forall x :: x in s.nodes ==> Settles(s.nodes[x], u.nodes[x]))
    && forall x, reverse :: ResolvesList(s.Candidates(x, reverse), u.Candidates(x, reverse))
  }

  predicate ResolvesList(c: seq<Transition>, d: seq<Transition>) {
    && |c| == |d|
    && forall i :: 0 <= i < |c| ==> d[i] == c[i].(availability := d[i].availability) && Settles(c[i].availability, d[i].availability)
  }

  lemma ResolvedArcs(s: Snapshot, u: Snapshot, reverse: bool)
    requires Resolves(s, u)
    ensures SearchArcs(s, reverse) <= SearchArcs(u, reverse) <= OptimisticArcs(s, reverse)
  {
    forall a | a in SearchArcs(s, reverse) ensures a in SearchArcs(u, reverse) {
      var e: Transition :| Usable(s, reverse, e) && Arc(Far(e, reverse), Near(e, reverse), e.cost) == a;
      StaysUsable(s, u, reverse, e);
    }
    forall a | a in SearchArcs(u, reverse) ensures a in OptimisticArcs(s, reverse) {
      var e: Transition :| Usable(u, reverse, e) && Arc(Far(e, reverse), Near(e, reverse), e.cost) == a;
      var c := WasConceivable(s, u, reverse, e);
    }
  }

  lemma StaysUsable(s: Snapshot, u: Snapshot, reverse: bool, e: Transition)
    requires Resolves(s, u) && Usable(s, reverse, e)
    ensures Usable(u, reverse, e)
  {
    var x := Near(e, reverse);
    assert ResolvesList(s.Candidates(x, reverse), u.Candidates(x, reverse));
    var i :| 0 <= i < |s.Candidates(x, reverse)| && s.Candidates(x, reverse)[i] == e;
    assert u.Candidates(x, reverse)[i] == e;
  }

  lemma WasConceivable(s: Snapshot, u: Snapshot, reverse: bool, e: Transition) returns (c: Transition)
    requires Resolves(s, u) && Usable(u, reverse, e)
    ensures Conceivable(s, reverse, c) && c == e.(availability := c.availability)
  {
    var x := Near(e, reverse);
    assert ResolvesList(s.Candidates(x, reverse), u.Candidates(x, reverse));
    var i :| 0 <= i < |u.Candidates(x, reverse)| && u.Candidates(x, reverse)[i] == e;
    c := s.Candidates(x, reverse)[i];
  }

  /** An answer that agrees with the optimistic one is the answer however the unavailable parts turn out. */
  lemma ResolvedAnswer(t: Task, u: Snapshot, x: Location)
    requires Agrees(t, x) && Resolves(t.snapshot, u)
    ensures var r := t.(snapshot := u);
            (r.Routed(x) <==> t.Routed(x)) && (t.Routed(x) ==> Distance(r.Arcs(), r.Seeds(), x) == Distance(t.Arcs(), t.Seeds(), x))
  {
    hide Resolves, SearchArcs, OptimisticArcs, Cheapest, Reaches, Distance;
    var r := t.(snapshot := u);
    ResolvedArcs(t.snapshot, u, t.reverse);
    ResolvedLocations(t.snapshot, u);
    CheapestGrows(t.goals, LegalLocations(t.snapshot), LegalLocations(u));
    CheapestGrows(t.goals, LegalLocations(u), OpenLocations(t.snapshot));
    if t.Routed(x) {
      ExtendedDistance(t.Arcs(), r.Arcs(), t.Seeds(), r.Seeds(), x);
    }
    if r.Routed(x) {
      ExtendedDistance(r.Arcs(), t.OptimisticArcs(), r.Seeds(), t.OptimisticSeeds(), x);
    }
  }

  lemma ResolvedLocations(s: Snapshot, u: Snapshot)
    requires Resolves(s, u)
    ensures LegalLocations(s) <= LegalLocations(u) <= OpenLocations(s)
  {
  }

  /** The answers an exact outcome vouches for: the goal of a route query, every location of shared guidance. */
  predicate Answers(t: Task, x: Location) {
    t.reverse || x == t.goal
  }

  /** An exact route, field or refusal to route stands however the unavailable parts of the snapshot turn out. */
  lemma ExactAnswerStands(t: Task, outcome: Outcome, cost: nat, route: seq<Transition>, field: map<Location, Guidance>, u: Snapshot, x: Location)
    requires Truthful(t, outcome, true, cost, route, field) && (outcome.Found? || outcome.NoRoute?)
    requires Resolves(t.snapshot, u) && Answers(t, x)
    ensures var r := t.(snapshot := u);
            (r.Routed(x) <==> t.Routed(x)) && (t.Routed(x) ==> Distance(r.Arcs(), r.Seeds(), x) == Distance(t.Arcs(), t.Seeds(), x))
  {
    hide Clean, Doubtful, Agrees, ExactField, BestRoute, Unreached, Resolves;
    if Exhaustive(t, outcome) {
      UndoubtedAgrees(t, x);
    }
    ResolvedAnswer(t, u, x);
  }

  // ------------------------------------------------------------------------------------------------
  // When a query must answer

  /** Every candidate of every legal location, by position. */
  function Listed(t: Task): set<(Location, nat)> {
    set x, i: nat | x in LegalLocations(t.snapshot) && i < |t.snapshot.Candidates(x, t.reverse)| :: (x, i)
  }

  /** Room for every legal location, for every destination and candidate, and for a step per location. */
  predicate Roomy(t: Task) {
    && 0 < t.limits.maxNodes && |LegalLocations(t.snapshot)| <= t.limits.maxNodes
    && 0 < t.limits.maxFrontier && |t.goals| + |Listed(t)| <= t.limits.maxFrontier
    && (!t.reverse ==> |LegalLocations(t.snapshot)| <= t.limits.maxRouteSteps + 1)
  }

  /** Nothing in the snapshot is malformed or reported as overflowing, within reach or not. */
  ghost predicate WellPosed(t: Task) {
    && Posed(t)
    && (forall g :: g in t.goals ==> g.cost != INFINITE && t.snapshot.AvailabilityAt(g.location) !in {Invalid, Overflow})
    && forall x, e :: x in LegalLocations(t.snapshot) && e in t.snapshot.Candidates(x, t.reverse) ==>
         Fits(t, x, e) && !Shows(t, e, Invalid) && !Shows(t, e, Overflow)
  }

  lemma SubsetCardinality<T>(a: set<T>, b: set<T>)
    requires a <= b
    ensures |a| <= |b|
  {
    assert b == a + (b - a);
  }

  lemma RoomyIsNotCramped(t: Task)
    requires Roomy(t)
    ensures !Cramped(t)
  {
    hide Task.Routed;
    forall xs | AllRouted(t, xs) ensures |xs| <= |LegalLocations(t.snapshot)| {
      forall x | x in xs ensures x in LegalLocations(t.snapshot) {
        RoutedIsLegal(t, x);
      }
      SubsetCardinality(xs, LegalLocations(t.snapshot));
    }
    forall ps | AllListed(t, ps) ensures |ps| <= |Listed(t)| {
      forall p | p in ps ensures p in Listed(t) {
        RoutedIsLegal(t, p.0);
      }
      SubsetCardinality(ps, Listed(t));
    }
  }

  lemma WellPosedIsClean(t: Task)
    requires WellPosed(t)
    ensures Clean(t)
  {
    hide Task.Routed, Fits, Shows, Posed;
    forall x, e | MetAt(t, x, e) ensures Fits(t, x, e) && !Shows(t, e, Invalid) && !Shows(t, e, Overflow) {
      RoutedIsLegal(t, x);
    }
  }

  /** A representable answer exists: a route to the goal, or routes from somewhere and none that overflows. */
  ghost predicate Answerable(t: Task) {
    if t.reverse then (exists x :: t.Routed(x)) && forall x :: t.Routed(x) ==> Distance(t.Arcs(), t.Seeds(), x) < INFINITE
    else t.Routed(t.goal) && Distance(t.Arcs(), t.Seeds(), t.goal) < INFINITE
  }

  /** A query on sound input with room finds exactly what there is, and says exactly why it does not. */
  lemma RoomyQueryAnswers(t: Task, outcome: Outcome, exact: bool, cost: nat, route: seq<Transition>, field: map<Location, Guidance>)
    requires Truthful(t, outcome, exact, cost, route, field) && Roomy(t) && WellPosed(t)
    ensures outcome.Found? <==> Answerable(t)
    ensures outcome.NoRoute? || outcome.Indeterminate? ==> Unreached(t)
    ensures outcome.Overflowed? ==> TooDear(t)
    ensures !outcome.CapacityExceeded? && !outcome.InvalidInput?
  {
    hide Malformed, Met, Cramped, Roomy, WellPosed, Doubtful, Task.Routed, Distance, Agrees;
    RoomyIsNotCramped(t);
    WellPosedIsClean(t);
    if outcome.Found? {
      FoundIsAnswerable(t, exact, cost, route, field);
    }
  }

  lemma FoundIsAnswerable(t: Task, exact: bool, cost: nat, route: seq<Transition>, field: map<Location, Guidance>)
    requires Truthful(t, Found, exact, cost, route, field)
    ensures Answerable(t)
  {
    hide Malformed, Met, Doubtful, Agrees, Leads, Chain, Clean, IsDistance;
    if t.reverse {
      var x :| x in field;
      assert t.Routed(x);
    } else {
      DistanceUnique(t.Arcs(), t.Seeds(), t.goal, cost);
    }
  }

  /** The benchmark's bound on the items one refused query can spend. */
  function RefusalWorkBound(limits: Limits, goals: nat, maxDegree: nat): nat {
    3 + 2 * goals + limits.maxNodes * (2 * maxDegree + 1) + limits.maxRouteSteps
  }

  /** A bound for every query, exporting and reversing included. */
  function WorkBound(limits: Limits, goals: nat, maxDegree: nat): nat {
    RefusalWorkBound(limits, goals, maxDegree) + limits.maxNodes + limits.maxRouteSteps + 3
  }

  /** The most a search can have spent when it stops: its start, seeds, pops, probes and exits. */
  function SearchCost(t: Task, maxDegree: nat): nat {
    2 + 2 * |t.goals| + t.limits.maxNodes * (2 * maxDegree + 1)
  }

  lemma SearchCostCovers(t: Task, maxDegree: nat)
    ensures 2 + 2 * |t.goals| <= SearchCost(t, maxDegree)
    ensures RefusalWorkBound(t.limits, |t.goals|, maxDegree) == SearchCost(t, maxDegree) + 1 + t.limits.maxRouteSteps
  {
  }

  ghost predicate Affordable(t: Task, maxDegree: nat, outcome: Outcome, work: nat) {
    && work <= WorkBound(t.limits, |t.goals|, maxDegree)
    && (outcome.CapacityExceeded? ==> work <= RefusalWorkBound(t.limits, |t.goals|, maxDegree))
  }
}
