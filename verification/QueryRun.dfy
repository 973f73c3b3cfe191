/** The query object itself: phases, budgeted advancing, outcomes and the work it may spend. */
module NavigationQueries {
  import opened Machine
  import opened Graph
  import opened NavigationSearch
  import opened NavigationPromises
  import opened Options

  // ------------------------------------------------------------------------------------------------
  // Phase invariants, on values

  ghost predicate Seeding(t: Task, k: nat, labels: map<Location, Label>, frontier: multiset<Entry>)
    requires k <= |t.goals|
  {
    var seeds := Prices(t.snapshot, t.goals[..k]);
    && labels.Keys == seeds.Keys
    && (forall x :: x in labels ==> LegalAt(t.snapshot, x) && seeds[x] < INFINITE && labels[x] == Label(seeds[x], None, false)
                                    && Entry(seeds[x], x) in frontier)
    && (forall e :: e in frontier ==> e.at in labels && labels[e.at].cost <= e.cost < INFINITE)
    && |frontier| <= k && |frontier| <= t.limits.maxFrontier && |labels| <= t.limits.maxNodes
  }

  ghost predicate Searching(t: Task, labels: map<Location, Label>, rank: map<Location, nat>, frontier: multiset<Entry>,
                            done: set<Location>, key: nat, open: set<Location>)
  {
    && Grounded(t.snapshot, t.reverse, t.Seeds(), labels, rank)
    && Honest(t.Arcs(), t.Seeds(), labels)
    && Queued(labels, frontier, key)
    && Expanded(t.Arcs(), t.Seeds(), labels, done, key)
    && Placeholders(labels, open)
  }

  ghost predicate Bounded(t: Task, labels: map<Location, Label>, frontier: multiset<Entry>) {
    |frontier| <= t.limits.maxFrontier && |labels| <= t.limits.maxNodes
  }

  /** Items spent so far: start, seeds, pops, probes and enumeration exits; every pop was pushed before. */
  ghost predicate Accounts(goals: nat, maxDegree: nat, work: nat, pops: nat, probes: nat, exits: nat,
                           queued: nat, settled: nat, cursor: nat)
  {
    && work == 2 + goals + pops + probes + exits
    && pops + queued <= goals + probes
    && exits == settled && probes <= maxDegree * settled + cursor
  }

  lemma AccountsBound(goals: nat, maxDegree: nat, work: nat, pops: nat, probes: nat, exits: nat, queued: nat,
                      settled: nat, cursor: nat, maxNodes: nat)
    requires Accounts(goals, maxDegree, work, pops, probes, exits, queued, settled, cursor)
    ensures settled <= maxNodes && cursor == 0 ==> work + queued <= 2 + 2 * goals + maxNodes * (2 * maxDegree + 1)
    ensures settled < maxNodes ==>
              work + queued + 1 + 2 * maxDegree <= 2 + 2 * goals + maxNodes * (2 * maxDegree + 1) + 2 * cursor
  {
    var unit := 2 * maxDegree + 1;
    assert work + queued <= 2 + 2 * goals + settled * unit + 2 * cursor by {
      assert settled * unit == 2 * (maxDegree * settled) + settled;
    }
    if settled <= maxNodes {
      assert settled * unit <= maxNodes * unit;
    }
    if settled < maxNodes {
      assert (settled + 1) * unit <= maxNodes * unit;
      assert (settled + 1) * unit == settled * unit + unit;
    }
  }

  // ------------------------------------------------------------------------------------------------
  // Seeding

  lemma PricesStep(s: Snapshot, goals: seq<Goal>, k: nat)
    requires k < |goals|
    ensures goals[..k+1][..k] == goals[..k]
    ensures var rest, g := Prices(s, goals[..k]), goals[k];
            Prices(s, goals[..k+1]) ==
            if LegalAt(s, g.location) && (g.location !in rest || g.cost < rest[g.location])
            then rest[g.location := g.cost] else rest
  {
    assert goals[..k+1][..k] == goals[..k];
  }

  /** A legal destination that is new or cheaper is labelled and queued. */
  lemma SeedAccepted(t: Task, k: nat, labels: map<Location, Label>, frontier: multiset<Entry>)
    requires k < |t.goals| && Seeding(t, k, labels, frontier)
    requires var g := t.goals[k];
             LegalAt(t.snapshot, g.location) && g.cost < INFINITE &&
             (g.location in labels ==> g.cost < labels[g.location].cost) &&
             (g.location !in labels ==> |labels| < t.limits.maxNodes) && |frontier| < t.limits.maxFrontier
    ensures Seeding(t, k + 1, labels[t.goals[k].location := Label(t.goals[k].cost, None, false)],
                    frontier + multiset{Entry(t.goals[k].cost, t.goals[k].location)})
  {
    PricesStep(t.snapshot, t.goals, k);
  }

  lemma SeedIgnored(t: Task, k: nat, labels: map<Location, Label>, frontier: multiset<Entry>)
    requires k < |t.goals| && Seeding(t, k, labels, frontier)
    requires var g := t.goals[k];
             !LegalAt(t.snapshot, g.location) || (g.location in labels && labels[g.location].cost <= g.cost)
    ensures Seeding(t, k + 1, labels, frontier)
  {
    PricesStep(t.snapshot, t.goals, k);
  }

  lemma SeedingStarts(t: Task, labels: map<Location, Label>, frontier: multiset<Entry>)
    requires Seeding(t, |t.goals|, labels, frontier)
    ensures Searching(t, labels, map[], frontier, {}, 0, {})
    ensures forall x :: x in t.Seeds() ==> t.Seeds()[x] < INFINITE
  {
    hide Usable, Grounded, Honest, Expanded, Queued, Placeholders, Prices, SearchArcs;
    var seeds := t.Seeds();
    assert forall x :: x in labels <==> x in seeds by {
      assert t.goals[..|t.goals|] == t.goals;
    }
    assert forall x :: x in labels ==> LegalAt(t.snapshot, x) && labels[x] == Label(seeds[x], None, false) && seeds[x] < INFINITE by {
      assert t.goals[..|t.goals|] == t.goals;
    }
    SeedsAreGrounded(t.snapshot, t.reverse, seeds, labels);
    SeedsAreHonest(t.Arcs(), seeds, labels);
    SeedsAreExpanded(t.Arcs(), seeds, labels);
    SeedsAreQueued(t, labels, frontier);
  }

  lemma SeedsAreQueued(t: Task, labels: map<Location, Label>, frontier: multiset<Entry>)
    requires Seeding(t, |t.goals|, labels, frontier)
    ensures Queued(labels, frontier, 0) && Placeholders(labels, {})
  {
  }

  lemma SeedsAreGrounded(s: Snapshot, reverse: bool, seeds: map<Location, nat>, labels: map<Location, Label>)
    requires forall x :: x in labels ==> x in seeds && LegalAt(s, x) && labels[x].cost == seeds[x] && labels[x].parent.None? && !labels[x].settled
    ensures Grounded(s, reverse, seeds, labels, map[])
  {
  }

  lemma SeedsAreHonest(arcs: iset<Arc>, seeds: map<Location, nat>, labels: map<Location, Label>)
    requires forall x :: x in labels ==> x in seeds && labels[x].cost == seeds[x]
    ensures Honest(arcs, seeds, labels)
  {
    forall x | x in labels ensures Reaches(arcs, seeds, x) && Distance(arcs, seeds, x) <= labels[x].cost {
      assert Arrives(arcs, seeds, x, []) && Total(seeds, x, []) == seeds[x];
    }
  }

  lemma SeedsAreExpanded(arcs: iset<Arc>, seeds: map<Location, nat>, labels: map<Location, Label>)
    requires labels.Keys == seeds.Keys && forall x :: x in labels ==> labels[x].cost == seeds[x]
    ensures Expanded(arcs, seeds, labels, {}, 0)
  {
  }

  // ------------------------------------------------------------------------------------------------
  // Outcomes of an exhausted search

  function Exported(labels: map<Location, Label>, keys: set<Location>): map<Location, Guidance>
    requires keys <= labels.Keys
  {
    map x | x in keys :: Guidance(labels[x].cost, labels[x].parent)
  }

  lemma NothingUnlabelled(t: Task, labels: map<Location, Label>, rank: map<Location, nat>, key: nat, x: Location)
    requires Searching(t, labels, rank, multiset{}, rank.Keys, key, {})
    requires Reaches(t.Arcs(), t.Seeds(), x)
    requires forall y :: y in t.Seeds() ==> t.Seeds()[y] < INFINITE
    ensures x in labels
  {
    hide Supported, Usable, Honest, SearchArcs, Prices, IsWalk, End, Expanded, Queued;
    var w :| Arrives(t.Arcs(), t.Seeds(), x, w);
    AllRoutesLabelled(t.Arcs(), t.Seeds(), labels, rank, key, x, w);
  }

  lemma FieldIsExact(t: Task, labels: map<Location, Label>, rank: map<Location, nat>, key: nat)
    requires Searching(t, labels, rank, multiset{}, rank.Keys, key, {})
    requires forall y :: y in t.Seeds() ==> t.Seeds()[y] < INFINITE
    ensures ExactField(t, Exported(labels, labels.Keys))
  {
    hide Searching, Leads, SearchArcs, Prices, Distance, Reaches;
    var field, arcs, seeds := Exported(labels, labels.Keys), t.Arcs(), t.Seeds();
    forall x ensures x in field <==> Reaches(arcs, seeds, x) {
      if Reaches(arcs, seeds, x) {
        NothingUnlabelled(t, labels, rank, key, x);
      } else if x in labels {
        LabelIsExact(t, labels, rank, key, x);
      }
    }
    forall x | x in field ensures field[x].cost == Distance(arcs, seeds, x) < INFINITE {
      LabelIsExact(t, labels, rank, key, x);
    }
    FieldLeads(t, labels, rank, key);
  }

  lemma LabelIsExact(t: Task, labels: map<Location, Label>, rank: map<Location, nat>, key: nat, x: Location)
    requires Searching(t, labels, rank, multiset{}, rank.Keys, key, {})
    requires x in labels
    ensures Reaches(t.Arcs(), t.Seeds(), x) && labels[x].cost == Distance(t.Arcs(), t.Seeds(), x) < INFINITE
  {
    hide Supported, Usable;
    ExhaustedIsExact(t.Arcs(), t.Seeds(), labels, rank, key, x);
  }

  lemma SupportedLeads(t: Task, labels: map<Location, Label>, rank: map<Location, nat>, x: Location)
    requires Grounded(t.snapshot, t.reverse, t.Seeds(), labels, rank) && rank.Keys == labels.Keys && x in labels
    requires labels[x].cost != INFINITE
    ensures LeadsFrom(t, Exported(labels, labels.Keys), rank, x)
  {
    hide Usable, Task.Seeds;
    assert Supported(t.snapshot, t.reverse, t.Seeds(), labels, rank, x);
  }

  lemma FieldLeads(t: Task, labels: map<Location, Label>, rank: map<Location, nat>, key: nat)
    requires Searching(t, labels, rank, multiset{}, rank.Keys, key, {})
    ensures Leads(t, Exported(labels, labels.Keys), rank)
  {
    hide Usable, Honest, Expanded, SearchArcs, Prices, Supported, LeadsFrom, Queued, Placeholders;
    var field := Exported(labels, labels.Keys);
    LabelledAreRanked(t, labels, rank, key);
    assert rank.Keys == labels.Keys;
    CardinalityOfKeys(rank, field);
    forall x | x in field ensures LeadsFrom(t, field, rank, x) {
      SupportedLeads(t, labels, rank, x);
    }
  }

  lemma CardinalityOfKeys<T, U, V>(m: map<T, U>, n: map<T, V>)
    requires m.Keys == n.Keys
    ensures |m| == |n|
  {
    assert |m| == |m.Keys| && |n| == |n.Keys|;
  }

  /** A placeholder left over means a location whose every route overflows; an unsettled goal is no exception. */
  lemma LeftoverOverflows(t: Task, labels: map<Location, Label>, rank: map<Location, nat>, key: nat, open: set<Location>)
    requires Searching(t, labels, rank, multiset{}, rank.Keys, key, open) && open != {}
    requires !t.reverse ==> t.goal !in rank
    ensures TooDear(t)
  {
    hide Supported, Usable;
    var x :| x in open;
    ExhaustedIsExact(t.Arcs(), t.Seeds(), labels, rank, key, x);
    ExhaustedIsExact(t.Arcs(), t.Seeds(), labels, rank, key, t.goal);
  }

  // ------------------------------------------------------------------------------------------------
  // Route reconstruction

  function Reversed<T>(s: seq<T>): seq<T> {
    if s == [] then [] else [s[|s|-1]] + Reversed(s[..|s|-1])
  }

  lemma {:induction false} ReversedAt<T>(s: seq<T>, k: nat)
    requires k < |s|
    ensures |Reversed(s)| == |s| && Reversed(s)[k] == s[|s| - 1 - k]
  {
    if |s| > 1 {
      ReversedAt(s[..|s|-1], if k == 0 then 0 else k - 1);
    }
  }

  /** The steps collected so far lead, read backwards, from `at` to the goal and make up the cost. */
  ghost predicate Retraced(t: Task, labels: map<Location, Label>, rank: map<Location, nat>, route: seq<Transition>, at: Location, cost: nat) {
    && at in rank && at in labels
    && Chain(t.snapshot, Reversed(route), at, t.goal)
    && RouteCost(Reversed(route)) + labels[at].cost == cost
  }

  lemma Retrace(t: Task, labels: map<Location, Label>, rank: map<Location, nat>, route: seq<Transition>, at: Location, cost: nat)
    requires !t.reverse && Grounded(t.snapshot, t.reverse, t.Seeds(), labels, rank)
    requires Retraced(t, labels, rank, route, at, cost) && labels[at].parent.Some?
    ensures Retraced(t, labels, rank, route + [labels[at].parent.value], labels[at].parent.value.from, cost)
  {
    hide Usable;
    assert Supported(t.snapshot, t.reverse, t.Seeds(), labels, rank, at);
    var p := labels[at].parent.value;
    assert (route + [p])[..|route|] == route;
    assert Reversed(route + [p]) == [p] + Reversed(route);
    assert ([p] + Reversed(route))[1..] == Reversed(route);
  }

  // ------------------------------------------------------------------------------------------------
  // Steps of the search, on values

  lemma SearchImproves(t: Task, labels: map<Location, Label>, rank: map<Location, nat>, frontier: multiset<Entry>,
                       done: set<Location>, key: u64, open: set<Location>, e: Transition)
    requires Searching(t, labels, rank, frontier, done, key, open) && done <= rank.Keys
    requires Usable(t.snapshot, t.reverse, e) && Near(e, t.reverse) in rank && Near(e, t.reverse) in labels
    requires labels[Near(e, t.reverse)].cost == key && key + e.cost < INFINITE
    requires Far(e, t.reverse) in labels ==>
               !labels[Far(e, t.reverse)].settled && key + e.cost < labels[Far(e, t.reverse)].cost
    ensures Searching(t, labels[Far(e, t.reverse) := Label(key + e.cost, Some(e), false)], rank,
                      frontier + multiset{Entry(key + e.cost, Far(e, t.reverse))}, done, key, open - {Far(e, t.reverse)})
    ensures Relaxed(t.snapshot, t.reverse, labels[Far(e, t.reverse) := Label(key + e.cost, Some(e), false)], key, e)
  {
    hide Usable, Supported, Honest, Queued, Expanded, SearchArcs;
    assert Far(e, t.reverse) !in done;
    Improve(t.snapshot, t.reverse, t.Seeds(), labels, rank, frontier, done, key, e);
  }

  lemma SearchNotes(t: Task, labels: map<Location, Label>, rank: map<Location, nat>, frontier: multiset<Entry>,
                    done: set<Location>, key: u64, open: set<Location>, e: Transition)
    requires Searching(t, labels, rank, frontier, done, key, open) && done <= rank.Keys
    requires Usable(t.snapshot, t.reverse, e) && Near(e, t.reverse) in rank
    requires Far(e, t.reverse) !in labels && INFINITE <= key + e.cost
    ensures Searching(t, labels[Far(e, t.reverse) := Label(INFINITE, None, false)], rank, frontier, done, key,
                      open + {Far(e, t.reverse)})
    ensures Relaxed(t.snapshot, t.reverse, labels[Far(e, t.reverse) := Label(INFINITE, None, false)], key, e)
  {
    hide Usable, Supported, Honest, Queued, Expanded, SearchArcs;
    assert Far(e, t.reverse) !in done;
    NoteOverflow(t.snapshot, t.reverse, t.Seeds(), labels, rank, frontier, done, key, e);
  }

  /** A usable candidate whose far end is already as well labelled needs nothing. */
  lemma AlreadyRelaxed(t: Task, labels: map<Location, Label>, rank: map<Location, nat>, frontier: multiset<Entry>,
                       active: Location, key: nat, open: set<Location>, e: Transition)
    requires Searching(t, labels, rank, frontier, rank.Keys - {active}, key, open)
    requires active in labels && labels[active].cost == key
    requires Far(e, t.reverse) in labels
    requires key + e.cost < INFINITE ==>
               labels[Far(e, t.reverse)].settled || labels[Far(e, t.reverse)].cost <= key + e.cost
    ensures Relaxed(t.snapshot, t.reverse, labels, key, e)
  {
    hide Usable, Supported, Honest, SearchArcs;
    var x := Far(e, t.reverse);
    if labels[x].settled && x != active {
      assert x in Finite(labels);
    }
  }

  lemma SearchSettles(t: Task, labels: map<Location, Label>, rank: map<Location, nat>, frontier: multiset<Entry>,
                      key: nat, open: set<Location>, top: Entry)
    requires Searching(t, labels, rank, frontier, rank.Keys, key, open)
    requires top in frontier && forall e :: e in frontier ==> Precedes(top, e)
    requires top.at in labels && !labels[top.at].settled && labels[top.at].cost == top.cost
    ensures top.at !in rank && top.cost < INFINITE
    ensures rank[top.at := |rank|].Keys - {top.at} == rank.Keys && |rank[top.at := |rank|]| == |rank| + 1
    ensures Searching(t, labels[top.at := labels[top.at].(settled := true)], rank[top.at := |rank|],
                      frontier - multiset{top}, rank.Keys, top.cost, open)
    ensures IsDistance(t.Arcs(), t.Seeds(), top.at, top.cost)
  {
    hide Usable, Supported, Honest, Queued, Expanded, SearchArcs, Grounded;
    SettleTop(t.snapshot, t.reverse, t.Seeds(), labels, rank, frontier, key, top);
  }

  lemma EntryIsLabelled(t: Task, labels: map<Location, Label>, rank: map<Location, nat>, frontier: multiset<Entry>,
                        done: set<Location>, key: nat, open: set<Location>, e: Entry)
    requires Searching(t, labels, rank, frontier, done, key, open) && e in frontier
    ensures e.at in labels && labels[e.at].cost <= e.cost
  {
  }

  lemma SearchSkips(t: Task, labels: map<Location, Label>, rank: map<Location, nat>, frontier: multiset<Entry>,
                    key: nat, open: set<Location>, top: Entry)
    requires Searching(t, labels, rank, frontier, rank.Keys, key, open)
    requires top in frontier && top.at in labels && (labels[top.at].settled || labels[top.at].cost != top.cost)
    ensures Searching(t, labels, rank, frontier - multiset{top}, rank.Keys, key, open)
  {
    hide Usable, Supported, Honest, Queued, Expanded, SearchArcs, Grounded;
    SkipTop(labels, frontier, key, top);
  }

  lemma SearchFinishesExpansion(t: Task, labels: map<Location, Label>, rank: map<Location, nat>, frontier: multiset<Entry>,
                                active: Location, key: nat, open: set<Location>)
    requires Searching(t, labels, rank, frontier, rank.Keys - {active}, key, open)
    requires active in rank && active in labels && labels[active].cost == key < INFINITE
    requires Probed(t.snapshot, t.reverse, labels, active, key, |t.snapshot.Candidates(active, t.reverse)|)
    ensures Searching(t, labels, rank, frontier, rank.Keys, key, open)
  {
    hide Usable, Supported, Honest, Queued, Expanded, SearchArcs, Grounded, Probed;
    FinishExpansion(t.snapshot, t.reverse, t.Seeds(), labels, rank.Keys - {active}, active, key);
    assert rank.Keys - {active} + {active} == rank.Keys;
  }

  /** An exhausted forward search that never settled the goal proves there is no route. */
  lemma GoalUnreached(t: Task, labels: map<Location, Label>, rank: map<Location, nat>, key: nat)
    requires Searching(t, labels, rank, multiset{}, rank.Keys, key, {})
    requires forall y :: y in t.Seeds() ==> t.Seeds()[y] < INFINITE
    requires t.goal !in rank
    ensures !Reaches(t.Arcs(), t.Seeds(), t.goal)
  {
    hide Searching;
    LabelledAreRanked(t, labels, rank, key);
    if Reaches(t.Arcs(), t.Seeds(), t.goal) {
      NothingUnlabelled(t, labels, rank, key, t.goal);
    }
  }

  lemma LabelledAreRanked(t: Task, labels: map<Location, Label>, rank: map<Location, nat>, key: nat)
    requires Searching(t, labels, rank, multiset{}, rank.Keys, key, {})
    ensures forall x :: x in labels ==> x in rank && labels[x].cost != INFINITE && labels[x].settled
  {
    hide Usable, Supported, Honest, Expanded, SearchArcs;
    assert forall x :: x in labels ==> labels[x].settled;
  }

  lemma AllRoutedAreRanked(t: Task, labels: map<Location, Label>, rank: map<Location, nat>, key: nat)
    requires Searching(t, labels, rank, multiset{}, rank.Keys, key, {})
    requires forall y :: y in t.Seeds() ==> t.Seeds()[y] < INFINITE
    ensures forall x :: t.Routed(x) ==> x in rank
  {
    hide Searching;
    LabelledAreRanked(t, labels, rank, key);
    forall x | t.Routed(x) ensures x in rank {
      NothingUnlabelled(t, labels, rank, key, x);
    }
  }

  /** Everything ranked has a route. */
  lemma LabelledAreRouted(t: Task, labels: map<Location, Label>, rank: map<Location, nat>, frontier: multiset<Entry>,
                          done: set<Location>, key: nat, open: set<Location>)
    requires Searching(t, labels, rank, frontier, done, key, open)
    ensures AllRouted(t, labels.Keys) && AllRouted(t, rank.Keys)
  {
    hide Supported, Usable, Queued, Expanded, Placeholders;
  }

  lemma NoGoals(t: Task, labels: map<Location, Label>, rank: map<Location, nat>, key: nat)
    requires Searching(t, labels, rank, multiset{}, rank.Keys, key, {}) && labels == map[]
    requires forall y :: y in t.Seeds() ==> t.Seeds()[y] < INFINITE
    ensures forall x :: !Reaches(t.Arcs(), t.Seeds(), x)
  {
    forall x ensures !Reaches(t.Arcs(), t.Seeds(), x) {
      if Reaches(t.Arcs(), t.Seeds(), x) {
        NothingUnlabelled(t, labels, rank, key, x);
      }
    }
  }

  lemma NoSeeds(t: Task)
    ensures Seeding(t, 0, map[], multiset{})
  {
  }

  // ------------------------------------------------------------------------------------------------
  // The continuation between two items, and what is known about it in each phase

  datatype Run = Run(phase: Phase, outcome: Outcome, labels: map<Location, Label>, frontier: multiset<Entry>,
                     route: seq<Transition>, guidance: map<Location, Guidance>, exporting: set<Location>,
                     active: Location, reconstruction: Location, activeCost: u64, routeCost: u64, work: nat,
                     seed: nat, cursor: nat, swapped: nat, unresolved: nat, unknown: bool)

  /** Proof-only companions: settling order, frontier key, placeholders, item counts, the route as collected. */
  datatype Evidence = Evidence(rank: map<Location, nat>, key: nat, open: set<Location>,
                               pops: nat, probed: set<(Location, nat)>, exits: nat, collected: seq<Transition>)

  // ------------------------------------------------------------------------------------------------
  // What has been looked at so far

  /** The candidate is in order, and available unless doubt has been noted. */
  predicate Plain(t: Task, x: Location, e: Transition, unknown: bool) {
    Fits(t, x, e) && !Shows(t, e, Invalid) && !Shows(t, e, Overflow) && (unknown || !Shows(t, e, Unavailable))
  }

  predicate GoalPlain(t: Task, g: Goal, unknown: bool) {
    && g.cost != INFINITE && t.snapshot.AvailabilityAt(g.location) !in {Invalid, Overflow}
    && (unknown || t.snapshot.AvailabilityAt(g.location) != Unavailable)
  }

  predicate GoalsVetted(t: Task, k: nat, unknown: bool)
    requires k <= |t.goals|
  {
    forall i :: 0 <= i < k ==> GoalPlain(t, t.goals[i], unknown)
  }

  predicate Vetted(t: Task, x: Location, k: nat, unknown: bool)
    requires k <= |t.snapshot.Candidates(x, t.reverse)|
  {
    forall i :: 0 <= i < k ==> Plain(t, x, t.snapshot.Candidates(x, t.reverse)[i], unknown)
  }

  /** Every destination, and every candidate of the expanded locations, was plain. */
  ghost predicate Surveyed(t: Task, done: set<Location>, unknown: bool) {
    && GoalsVetted(t, |t.goals|, unknown)
    && forall x :: x in done ==> Vetted(t, x, |t.snapshot.Candidates(x, t.reverse)|, unknown)
  }

  /** Only candidates of expanded locations, and those before the cursor, have been probed. */
  ghost predicate Tallied(t: Task, probed: set<(Location, nat)>, done: set<Location>, active: Location, cursor: nat) {
    forall p :: p in probed ==>
      (p.0 in done && p.1 < |t.snapshot.Candidates(p.0, t.reverse)|) || (p.0 == active && p.1 < cursor)
  }

  lemma SurveyWeakens(t: Task, done: set<Location>, x: Location, k: nat, unknown: bool, more: bool)
    requires k <= |t.snapshot.Candidates(x, t.reverse)| && (unknown ==> more)
    requires Surveyed(t, done, unknown) && Vetted(t, x, k, unknown)
    ensures Surveyed(t, done, more) && Vetted(t, x, k, more)
  {
    hide Fits, Shows;
  }

  /** A survey of everything with a route leaves nothing unclean, and no doubt but the noted one. */
  lemma SurveyIsClean(t: Task, done: set<Location>, unknown: bool)
    requires Posed(t) && Surveyed(t, done, unknown) && (unknown || t.snapshot.complete)
    requires forall x :: t.Routed(x) ==> x in done
    ensures Clean(t) && (unknown || !Doubtful(t))
  {
    hide Posed, Fits, Shows, Task.Routed;
    forall x, e | MetAt(t, x, e) ensures Plain(t, x, e, unknown) {
      var i :| 0 <= i < |t.snapshot.Candidates(x, t.reverse)| && t.snapshot.Candidates(x, t.reverse)[i] == e;
      assert Vetted(t, x, |t.snapshot.Candidates(x, t.reverse)|, unknown);
    }
    forall g | g in t.goals ensures GoalPlain(t, g, unknown) {
      var i :| 0 <= i < |t.goals| && t.goals[i] == g;
    }
  }

  ghost predicate InitOk(t: Task, r: Run) {
    r.work == 0 && r.labels == map[] && r.frontier == multiset{} && r.seed == 0 && r.unresolved == 0 && !r.unknown
    && r.route == [] && r.guidance == map[]
  }

  ghost predicate SeedOk(t: Task, r: Run) {
    && r.seed <= |t.goals| && Seeding(t, r.seed, r.labels, r.frontier)
    && r.work == 1 + r.seed && r.unresolved == 0 && r.route == [] && r.guidance == map[]
    && GoalsVetted(t, r.seed, r.unknown)
  }

  ghost predicate SearchOk(t: Task, d: nat, r: Run, e: Evidence, done: set<Location>, settled: nat, at: nat) {
    && Searching(t, r.labels, e.rank, r.frontier, done, e.key, e.open)
    && Bounded(t, r.labels, r.frontier) && r.unresolved == |e.open|
    && Accounts(|t.goals|, d, r.work, e.pops, |e.probed|, e.exits, |r.frontier|, settled, at)
    && Surveyed(t, done, r.unknown) && Tallied(t, e.probed, done, r.active, at)
    && (!t.reverse ==> t.goal !in e.rank)
    && (forall x :: x in t.Seeds() ==> t.Seeds()[x] < INFINITE)
    && r.route == [] && r.guidance == map[]
  }

  ghost predicate PopOk(t: Task, d: nat, r: Run, e: Evidence) {
    SearchOk(t, d, r, e, e.rank.Keys, |e.rank|, 0)
  }

  ghost predicate EdgesOk(t: Task, d: nat, r: Run, e: Evidence) {
    && r.active in e.rank && r.active in r.labels && r.labels[r.active].cost == e.key == r.activeCost < INFINITE
    && r.cursor <= |t.snapshot.Candidates(r.active, t.reverse)|
    && Probed(t.snapshot, t.reverse, r.labels, r.active, e.key, r.cursor)
    && Vetted(t, r.active, r.cursor, r.unknown)
    && SearchOk(t, d, r, e, e.rank.Keys - {r.active}, |e.rank| - 1, r.cursor)
  }

  ghost predicate ReconstructOk(t: Task, d: nat, r: Run, e: Evidence) {
    && !t.reverse && r.guidance == map[]
    && IsDistance(t.Arcs(), t.Seeds(), t.goal, r.routeCost) && r.routeCost < INFINITE
    && Grounded(t.snapshot, t.reverse, t.Seeds(), r.labels, e.rank)
    && t.start in r.labels && r.labels[t.start].cost == 0
    && Retraced(t, r.labels, e.rank, r.route, r.reconstruction, r.routeCost)
    && (r.unknown || Agrees(t, t.goal))
    && AllRouted(t, e.rank.Keys) && e.rank[r.reconstruction] + |r.route| < |e.rank|
    && |r.route| <= t.limits.maxRouteSteps
    && r.work + 1 <= SearchCost(t, d) + |r.route|
  }

  ghost predicate SwapOk(t: Task, d: nat, r: Run, e: Evidence) {
    && !t.reverse && r.guidance == map[]
    && BestRoute(t, Reversed(e.collected), r.routeCost) && (r.unknown || Agrees(t, t.goal))
    && |r.route| == |e.collected| <= t.limits.maxRouteSteps && r.swapped <= |r.route| / 2
    && (forall i {:trigger r.route[i]} :: 0 <= i < |r.route| ==>
          r.route[i] == if i < r.swapped || i >= |r.route| - r.swapped then e.collected[|r.route| - 1 - i] else e.collected[i])
    && r.work <= SearchCost(t, d) + |r.route| + r.swapped
  }

  ghost predicate ExportOk(t: Task, d: nat, r: Run) {
    && t.reverse && r.route == [] && r.exporting <= r.labels.Keys
    && r.guidance == Exported(r.labels, r.labels.Keys - r.exporting)
    && ExactField(t, Exported(r.labels, r.labels.Keys)) && r.labels != map[]
    && Clean(t) && (r.unknown || !Doubtful(t))
    && |r.guidance| + |r.exporting| == |r.labels| <= t.limits.maxNodes
    && r.work <= SearchCost(t, d) + 1 + |r.guidance|
  }

  ghost predicate PublishOk(t: Task, d: nat, r: Run) {
    && Truthful(t, r.outcome, !r.unknown, r.routeCost, r.route, r.guidance)
    && Affordable(t, d, r.outcome, r.work + 1)
  }

  /** The search is under way: the input was posed well enough, and doubt is noted for a reason. */
  ghost predicate Started(t: Task, r: Run) {
    Posed(t) && (if r.unknown then Doubtful(t) else t.snapshot.complete)
  }

  ghost predicate RunOk(t: Task, d: nat, r: Run, e: Evidence) {
    && (r.phase.Init? || r.phase.Publish? || Started(t, r))
    && match r.phase
       case Init => InitOk(t, r)
       case Seed => SeedOk(t, r)
       case Pop => PopOk(t, d, r, e)
       case Edges => EdgesOk(t, d, r, e)
       case Reconstruct => ReconstructOk(t, d, r, e)
       case Swap => SwapOk(t, d, r, e)
       case Export => ExportOk(t, d, r)
       case Publish => PublishOk(t, d, r)
  }

  /** Something met on the way, or the lack of room, forces the outcome. */
  ghost predicate Forced(t: Task, outcome: Outcome) {
    match outcome
    case CapacityExceeded => Cramped(t)
    case InvalidInput => Malformed(t)
    case Overflowed => Met(t, Overflow)
    case _ => false
  }

  lemma StopsEarly(t: Task, d: nat, r: Run)
    requires Forced(t, r.outcome)
    requires if r.unknown then Doubtful(t) else t.snapshot.complete || r.outcome.InvalidInput?
    requires r.work <= SearchCost(t, d) + t.limits.maxRouteSteps
    ensures PublishOk(t, d, r)
  {
    hide Cramped, Malformed, Met, Doubtful;
    SearchCostCovers(t, d);
  }

  lemma SeedingBounded(t: Task, k: nat, labels: map<Location, Label>, frontier: multiset<Entry>)
    requires k <= |t.goals| && Seeding(t, k, labels, frontier)
    ensures Bounded(t, labels, frontier) && |frontier| <= k
  {
  }

  lemma SeedShape(t: Task, d: nat, r: Run)
    requires SeedOk(t, r)
    ensures r.seed <= |t.goals| && |r.frontier| <= t.limits.maxFrontier && |r.labels| <= t.limits.maxNodes
    ensures r.work + 1 <= SearchCost(t, d)
  {
    SeedingBounded(t, r.seed, r.labels, r.frontier);
    SearchCostCovers(t, d);
  }

  lemma SeedsDone(t: Task, d: nat, r: Run)
    requires SeedOk(t, r) && r.seed == |t.goals|
    ensures PopOk(t, d, r.(work := r.work + 1, phase := Pop), Evidence(map[], 0, {}, 0, {}, 0, []))
  {
    hide Seeding, Searching;
    SeedingBounded(t, r.seed, r.labels, r.frontier);
    SeedingStarts(t, r.labels, r.frontier);
  }

  /** Past an illegal or dearer destination, seeding goes on as it was. */
  lemma SeedPassed(t: Task, r: Run, unknown: bool)
    requires SeedOk(t, r) && r.seed < |t.goals| && (r.unknown ==> unknown) && GoalPlain(t, t.goals[r.seed], unknown)
    requires var g := t.goals[r.seed]; !LegalAt(t.snapshot, g.location) || (g.location in r.labels && r.labels[g.location].cost <= g.cost)
    ensures SeedOk(t, r.(work := r.work + 1, seed := r.seed + 1, unknown := unknown))
  {
    hide Seeding, LegalAt;
    SeedIgnored(t, r.seed, r.labels, r.frontier);
  }

  lemma SeedTaken(t: Task, r: Run)
    requires SeedOk(t, r) && r.seed < |t.goals| && |r.frontier| < t.limits.maxFrontier
    requires GoalPlain(t, t.goals[r.seed], r.unknown)
    requires var g := t.goals[r.seed];
             && LegalAt(t.snapshot, g.location) && g.cost < INFINITE && (g.location in r.labels ==> g.cost < r.labels[g.location].cost)
             && (g.location !in r.labels ==> |r.labels| < t.limits.maxNodes)
    ensures var g := t.goals[r.seed];
            SeedOk(t, r.(work := r.work + 1, seed := r.seed + 1, frontier := r.frontier + multiset{Entry(g.cost, g.location)},
                         labels := r.labels[g.location := Label(g.cost, None, false)]))
  {
    hide Seeding, LegalAt;
    SeedAccepted(t, r.seed, r.labels, r.frontier);
  }

  lemma SeedPhase(t: Task, d: nat, r: Run, e: Evidence)
    ensures r.phase.Seed? ==> (RunOk(t, d, r, e) <==> SeedOk(t, r) && Started(t, r))
    ensures r.phase.Pop? ==> (RunOk(t, d, r, e) <==> PopOk(t, d, r, e) && Started(t, r))
    ensures r.phase.Publish? && PublishOk(t, d, r) ==> RunOk(t, d, r, e)
  {
    hide SeedOk, PopOk, PublishOk;
  }

  lemma LegalIs(s: Snapshot, x: Location)
    ensures LegalAt(s, x) <==> x in s.nodes && s.AvailabilityAt(x).Legal?
  {
  }

  /** A destination that is not plain forces an outcome, or is a reason for doubt. */
  lemma GoalForces(t: Task, k: nat)
    requires k < |t.goals|
    ensures var g, a := t.goals[k], t.snapshot.AvailabilityAt(t.goals[k].location);
            && (g.location !in t.snapshot.nodes ==> a.Invalid?)
            && (g.location !in t.snapshot.nodes || g.cost == INFINITE || a.Invalid? ==> Forced(t, InvalidInput))
            && (a.Overflow? ==> Forced(t, Overflowed)) && (a.Unavailable? ==> Doubtful(t))
  {
    assert t.goals[k] in t.goals;
  }

  /** A new destination without room for it means too little room altogether. */
  lemma SeedCramped(t: Task, r: Run)
    requires SeedOk(t, r) && r.seed < |t.goals|
    requires var g := t.goals[r.seed];
             || (LegalAt(t.snapshot, g.location) && g.location !in r.labels && |r.labels| == t.limits.maxNodes)
             || |r.frontier| == t.limits.maxFrontier
    ensures Cramped(t)
  {
    hide Task.Routed, Seeding, Prices;
    SeedingBounded(t, r.seed, r.labels, r.frontier);
    if |r.frontier| == t.limits.maxFrontier {
      assert AllListed(t, {});
    } else {
      var xs := r.labels.Keys + {t.goals[r.seed].location};
      SeedsAreRouted(t, r);
      LegalGoalIsRouted(t, r.seed);
      assert |xs| == |r.labels| + 1 && AllRouted(t, xs);
    }
  }

  lemma LegalGoalIsRouted(t: Task, k: nat)
    requires k < |t.goals| && LegalAt(t.snapshot, t.goals[k].location)
    ensures t.Routed(t.goals[k].location)
  {
    hide Task.Arcs, Cheapest;
    CheapestAmong(t.goals, LegalLocations(t.snapshot));
    assert t.goals[k] in t.goals;
    assert Arrives(t.Arcs(), t.Seeds(), t.goals[k].location, []);
  }

  lemma SeedsAreRouted(t: Task, r: Run)
    requires SeedOk(t, r)
    ensures AllRouted(t, r.labels.Keys)
  {
    hide Task.Arcs, Cheapest, Task.Routed;
    CheapestAmong(t.goals[..r.seed], LegalLocations(t.snapshot));
    forall x | x in r.labels ensures t.Routed(x) {
      var i :| 0 <= i < r.seed && t.goals[..r.seed][i].location == x;
      LegalGoalIsRouted(t, i);
    }
  }

  /** A forward query from an illegal start has no destinations at all. */
  lemma StartIsIllegal(t: Task, d: nat, r: Run)
    requires t.WellFormed() && !t.reverse && !LegalAt(t.snapshot, t.start) && GoalPlain(t, t.goals[0], r.unknown)
    requires Started(t, r)
    requires r.outcome == if r.unknown then Indeterminate else NoRoute
    requires r.work <= SearchCost(t, d)
    ensures PublishOk(t, d, r)
  {
    hide Task.Arcs, Cheapest, GoalPlain, Clean, Doubtful, Posed;
    CheapestAmong(t.goals, LegalLocations(t.snapshot));
    assert t.Seeds() == map[];
    SurveyIsClean(t, {}, r.unknown);
    SearchCostCovers(t, d);
  }

  /** The search invariants imply the price of stopping here. */
  lemma PopCost(t: Task, d: nat, r: Run, e: Evidence)
    requires PopOk(t, d, r, e)
    ensures r.work + |r.frontier| <= SearchCost(t, d)
    ensures |e.rank| < t.limits.maxNodes ==> r.work + |r.frontier| + 2 * d + 1 <= SearchCost(t, d)
  {
    hide Searching;
    RankBounded(t, r.labels, e.rank, r.frontier, e.rank.Keys, e.key, e.open);
    AccountsBound(|t.goals|, d, r.work, e.pops, |e.probed|, e.exits, |r.frontier|, |e.rank|, 0, t.limits.maxNodes);
  }

  lemma EdgesCost(t: Task, d: nat, r: Run, e: Evidence)
    requires EdgesOk(t, d, r, e) && r.cursor < |t.snapshot.Candidates(r.active, t.reverse)| <= d
    ensures r.work + 1 <= SearchCost(t, d)
  {
    hide Searching, Probed;
    RankBounded(t, r.labels, e.rank, r.frontier, e.rank.Keys - {r.active}, e.key, e.open);
    AccountsBound(|t.goals|, d, r.work, e.pops, |e.probed|, e.exits, |r.frontier|, |e.rank| - 1, r.cursor, t.limits.maxNodes);
  }

  lemma RankBounded(t: Task, labels: map<Location, Label>, rank: map<Location, nat>, frontier: multiset<Entry>,
                    done: set<Location>, key: nat, open: set<Location>)
    requires Searching(t, labels, rank, frontier, done, key, open)
    ensures |rank| <= |labels|
  {
    hide Honest, Queued, Expanded, Supported;
    SubsetCardinality(rank.Keys, labels.Keys);
    assert |rank| == |rank.Keys| && |labels| == |labels.Keys|;
  }

  /** An empty frontier with a placeholder left over is an overflow. */
  lemma StopsOverflowed(t: Task, d: nat, r: Run, e: Evidence)
    requires PopOk(t, d, r, e) && r.frontier == multiset{} && r.unresolved != 0
    requires Started(t, r)
    ensures PublishOk(t, d, r.(work := r.work + 1, outcome := Overflowed, phase := Publish))
  {
    hide Searching, Accounts, SearchCost, RefusalWorkBound, Surveyed, Tallied, Posed, Doubtful, TooDear, Met;
    PopCost(t, d, r, e);
    SearchCostCovers(t, d);
    LeftoverOverflows(t, r.labels, e.rank, e.key, e.open);
  }

  /** An empty frontier without the goal, or without any destination, means there is no route. */
  lemma StopsUnreached(t: Task, d: nat, r: Run, e: Evidence)
    requires PopOk(t, d, r, e) && r.frontier == multiset{} && r.unresolved == 0
    requires Started(t, r)
    requires t.reverse ==> r.labels == map[]
    ensures PublishOk(t, d, r.(work := r.work + 1, outcome := if r.unknown then Indeterminate else NoRoute, phase := Publish))
  {
    hide Searching, Accounts, SearchCost, RefusalWorkBound, Surveyed, Tallied, Posed, Clean, Doubtful;
    PopCost(t, d, r, e);
    SearchCostCovers(t, d);
    assert e.open == {};
    AllRoutedAreRanked(t, r.labels, e.rank, e.key);
    SurveyIsClean(t, e.rank.Keys, r.unknown);
    if t.reverse {
      NoGoals(t, r.labels, e.rank, e.key);
    } else {
      GoalUnreached(t, r.labels, e.rank, e.key);
    }
  }

  lemma StartsExport(t: Task, d: nat, r: Run, e: Evidence)
    requires PopOk(t, d, r, e) && r.frontier == multiset{} && r.unresolved == 0 && t.reverse && r.labels != map[]
    requires Started(t, r)
    ensures ExportOk(t, d, r.(work := r.work + 1, exporting := r.labels.Keys, phase := Export))
  {
    hide Searching, Accounts, SearchCost, ExactField, Surveyed, Tallied, Posed, Clean, Doubtful, Task.Routed;
    PopCost(t, d, r, e);
    assert e.open == {};
    AllRoutedAreRanked(t, r.labels, e.rank, e.key);
    SurveyIsClean(t, e.rank.Keys, r.unknown);
    FieldIsExact(t, r.labels, e.rank, e.key);
    assert Exported(r.labels, r.labels.Keys - r.labels.Keys) == map[];
    assert |r.labels| == |r.labels.Keys|;
  }

  /** The run after popping an entry, and after settling its location in addition. */
  function Popped(r: Run, top: Entry): Run {
    r.(work := r.work + 1, frontier := r.frontier - multiset{top})
  }

  function SettledBy(r: Run, top: Entry): Run
    requires top.at in r.labels
  {
    Popped(r, top).(labels := r.labels[top.at := r.labels[top.at].(settled := true)], active := top.at, activeCost := top.cost)
  }

  function Ranked(e: Evidence, top: Entry): Evidence {
    e.(rank := e.rank[top.at := |e.rank|], key := top.cost, pops := e.pops + 1)
  }

  lemma Skips(t: Task, d: nat, r: Run, e: Evidence, top: Entry)
    requires top.at in r.labels && (r.labels[top.at].settled || r.labels[top.at].cost != top.cost)
    requires top in r.frontier && PopOk(t, d, r, e)
    ensures PopOk(t, d, Popped(r, top), e.(pops := e.pops + 1))
  {
    hide Searching, Surveyed;
    SearchSkips(t, r.labels, e.rank, r.frontier, e.key, e.open, top);
  }

  /** Settling a location other than a route's goal opens its expansion. */
  lemma Opens(t: Task, d: nat, r: Run, e: Evidence, top: Entry)
    requires top.at in r.labels && !r.labels[top.at].settled && r.labels[top.at].cost == top.cost
    requires top in r.frontier && forall x :: x in r.frontier ==> Precedes(top, x)
    requires t.reverse || top.at != t.goal
    requires PopOk(t, d, r, e)
    ensures EdgesOk(t, d, SettledBy(r, top).(cursor := 0, phase := Edges), Ranked(e, top))
    ensures IsDistance(t.Arcs(), t.Seeds(), top.at, top.cost)
  {
    hide Searching, Surveyed;
    SearchSettles(t, r.labels, e.rank, r.frontier, e.key, e.open, top);
  }

  /** Settling the goal of a route query ends the search at the true distance. */
  lemma ReachesGoal(t: Task, d: nat, r: Run, e: Evidence, top: Entry)
    requires t.WellFormed() && !t.reverse && PopOk(t, d, r, e) && Started(t, r)
    requires top in r.frontier && forall x :: x in r.frontier ==> Precedes(top, x)
    requires top.at in r.labels && !r.labels[top.at].settled && r.labels[top.at].cost == top.cost && top.at == t.goal
    ensures ReconstructOk(t, d, SettledBy(r, top).(routeCost := top.cost, reconstruction := t.goal, phase := Reconstruct), Ranked(e, top))
    ensures IsDistance(t.Arcs(), t.Seeds(), top.at, top.cost) && r.route == []
  {
    hide Searching, Accounts, SearchCost, Grounded, Surveyed, Tallied, Agrees, AllRouted, Posed, Doubtful;
    var labels', rank' := r.labels[top.at := r.labels[top.at].(settled := true)], e.rank[top.at := |e.rank|];
    SearchSettles(t, r.labels, e.rank, r.frontier, e.key, e.open, top);
    RankBounded(t, labels', rank', r.frontier - multiset{top}, e.rank.Keys, top.cost, e.open);
    PopCost(t, d, r, e);
    SearchedIsGrounded(t, labels', rank', r.frontier - multiset{top}, e.rank.Keys, top.cost, e.open);
    StartLabel(t, r.labels, e.rank, r.frontier, e.rank.Keys, e.key, e.open);
    LabelledAreRouted(t, labels', rank', r.frontier - multiset{top}, e.rank.Keys, top.cost, e.open);
    if !r.unknown {
      GoalAgrees(t, labels', rank', r.frontier - multiset{top}, e.rank.Keys, top.cost, e.open);
    }
    assert Reversed(r.route) == [];
  }

  /** The frontier holds over the optimistic arcs too when every expanded location was surveyed without doubt. */
  lemma SurveyedFrontier(t: Task, labels: map<Location, Label>, rank: map<Location, nat>, frontier: multiset<Entry>,
                         done: set<Location>, key: nat, open: set<Location>)
    requires Searching(t, labels, rank, frontier, done, key, open) && done <= rank.Keys && Surveyed(t, done, false)
    ensures Graph.Frontier(t.OptimisticArcs(), t.Seeds(), INFINITE, Finite(labels), done, key)
  {
    hide Supported, Honest, Queued, Placeholders, Usable, Conceivable, Cheapest, SearchArcs;
    forall a | a in t.OptimisticArcs() && a.to in done ensures a in t.Arcs() {
      assert LegalAt(t.snapshot, a.to);
      SurveyedArc(t, done, a);
    }
  }

  lemma SurveyedArc(t: Task, done: set<Location>, a: Arc)
    requires Surveyed(t, done, false) && a in t.OptimisticArcs() && a.to in done && LegalAt(t.snapshot, a.to)
    ensures a in t.Arcs()
  {
    var e: Transition :| Conceivable(t.snapshot, t.reverse, e) && Arc(Far(e, t.reverse), Near(e, t.reverse), e.cost) == a;
    var cs := t.snapshot.Candidates(a.to, t.reverse);
    var i :| 0 <= i < |cs| && cs[i] == e;
    assert Vetted(t, a.to, |cs|, false);
    assert Plain(t, a.to, cs[i], false);
    assert Usable(t.snapshot, t.reverse, e);
  }

  lemma SurveyedSeeds(t: Task, done: set<Location>)
    requires Surveyed(t, done, false)
    ensures t.OptimisticSeeds() == t.Seeds()
  {
    hide Cheapest, Vetted;
    forall g | g in t.goals ensures g.location in LegalLocations(t.snapshot) <==> g.location in OpenLocations(t.snapshot) {
      var i :| 0 <= i < |t.goals| && t.goals[i] == g;
      assert GoalPlain(t, t.goals[i], false);
    }
    CheapestAgrees(t.goals, LegalLocations(t.snapshot), OpenLocations(t.snapshot));
  }

  /** A goal settled without doubt cannot be reached more cheaply through anything unavailable. */
  lemma GoalAgrees(t: Task, labels: map<Location, Label>, rank: map<Location, nat>, frontier: multiset<Entry>,
                   done: set<Location>, key: nat, open: set<Location>)
    requires Searching(t, labels, rank, frontier, done, key, open) && done <= rank.Keys && Surveyed(t, done, false)
    requires t.goal !in done && IsDistance(t.Arcs(), t.Seeds(), t.goal, key) && key < INFINITE
    ensures Agrees(t, t.goal)
  {
    hide Searching, Surveyed, Graph.Frontier, Finite, IsDistance, Task.Arcs, Task.Seeds, Task.OptimisticArcs, Task.OptimisticSeeds;
    SurveyedFrontier(t, labels, rank, frontier, done, key, open);
    SurveyedSeeds(t, done);
    OptimisticExtends(t);
    DistanceUnique(t.Arcs(), t.Seeds(), t.goal, key);
    ExtendedDistance(t.Arcs(), t.OptimisticArcs(), t.Seeds(), t.OptimisticSeeds(), t.goal);
    DistanceBound(t.OptimisticArcs(), t.Seeds(), INFINITE, Finite(labels), done, key, t.goal);
  }

  lemma SearchedIsGrounded(t: Task, labels: map<Location, Label>, rank: map<Location, nat>, frontier: multiset<Entry>,
                           done: set<Location>, key: nat, open: set<Location>)
    requires Searching(t, labels, rank, frontier, done, key, open)
    ensures Grounded(t.snapshot, t.reverse, t.Seeds(), labels, rank)
  {
  }

  /** A forward search that labelled anything labelled its start with zero. */
  lemma StartLabel(t: Task, labels: map<Location, Label>, rank: map<Location, nat>, frontier: multiset<Entry>,
                   done: set<Location>, key: nat, open: set<Location>)
    requires t.WellFormed() && !t.reverse && Searching(t, labels, rank, frontier, done, key, open) && labels != map[]
    ensures t.start in labels && labels[t.start].cost == 0
  {
    assert t.goals[..0] == [] && t.goals[..1] == t.goals;
    PricesStep(t.snapshot, t.goals, 0);
    hide Supported, Queued, Prices;
    var x :| x in labels;
    assert Reaches(t.Arcs(), t.Seeds(), x);
    assert t.Seeds() != map[] by {
      var w :| Arrives(t.Arcs(), t.Seeds(), x, w);
    }
    assert t.start in t.Seeds() && t.Seeds()[t.start] == 0;
    assert t.start in Finite(labels);
  }

  /** The candidate under the cursor has been probed. */
  ghost function Counted(r: Run, e: Evidence): Evidence {
    e.(probed := e.probed + {(r.active, r.cursor)})
  }

  /** One candidate dealt with: the labels improved or stayed, and it is now relaxed. */
  lemma ProbeStep(t: Task, d: nat, r: Run, e: Evidence, labels: map<Location, Label>, frontier: multiset<Entry>, open: set<Location>)
    requires EdgesOk(t, d, r, e) && r.cursor < |t.snapshot.Candidates(r.active, t.reverse)|
    requires Searching(t, labels, e.rank, frontier, e.rank.Keys - {r.active}, e.key, open)
    requires Relaxed(t.snapshot, t.reverse, labels, e.key, t.snapshot.Candidates(r.active, t.reverse)[r.cursor])
    requires forall x :: x in r.labels ==> x in labels && labels[x].cost <= r.labels[x].cost
    requires labels[r.active].cost == e.key
    requires Bounded(t, labels, frontier) && |frontier| <= |r.frontier| + 1
    requires Plain(t, r.active, Current(t, r), r.unknown)
    ensures EdgesOk(t, d, r.(work := r.work + 1, cursor := r.cursor + 1, labels := labels, frontier := frontier, unresolved := |open|),
                    Counted(r, e).(open := open))
  {
    hide Searching, Usable, Relaxed, Probed, Surveyed, Plain;
    assert (r.active, r.cursor) !in e.probed;
    ProbeOne(t.snapshot, t.reverse, r.labels, labels, r.active, e.key, r.cursor);
  }

  lemma Closes(t: Task, d: nat, r: Run, e: Evidence)
    requires EdgesOk(t, d, r, e) && r.cursor == |t.snapshot.Candidates(r.active, t.reverse)| <= d
    ensures PopOk(t, d, r.(work := r.work + 1, phase := Pop), e.(exits := e.exits + 1))
  {
    hide Searching, Usable, Probed, Vetted;
    SearchFinishesExpansion(t, r.labels, e.rank, r.frontier, r.active, e.key, e.open);
    assert d * (|e.rank| - 1) + d == d * |e.rank|;
  }

  lemma PopIsLabelled(t: Task, d: nat, r: Run, e: Evidence, top: Entry)
    requires PopOk(t, d, r, e) && top in r.frontier
    ensures top.at in r.labels
  {
    hide Searching;
    EntryIsLabelled(t, r.labels, e.rank, r.frontier, e.rank.Keys, e.key, e.open, top);
  }

  lemma EdgesShape(t: Task, d: nat, r: Run, e: Evidence)
    requires EdgesOk(t, d, r, e)
    ensures r.active in r.labels && r.activeCost < INFINITE && r.cursor <= |t.snapshot.Candidates(r.active, t.reverse)|
    ensures r.unresolved == |e.open| && Bounded(t, r.labels, r.frontier)
    ensures forall x :: x in r.labels && r.labels[x].cost == INFINITE ==> r.unresolved > 0
  {
    hide Honest, Grounded, Expanded, Queued, Probed;
    forall x | x in r.labels && r.labels[x].cost == INFINITE ensures r.unresolved > 0 {
      assert x in e.open;
    }
  }

  /** The candidate under the cursor. */
  function Current(t: Task, r: Run): Transition
    requires r.cursor < |t.snapshot.Candidates(r.active, t.reverse)|
  {
    t.snapshot.Candidates(r.active, t.reverse)[r.cursor]
  }

  /** The outcome a malformed or overflowing candidate forces, if any. */
  function Fault(t: Task, at: Location, c: Transition): Option<Outcome> {
    if !Fits(t, at, c) || Shows(t, c, Invalid) then Some(InvalidInput)
    else if Shows(t, c, Overflow) then Some(Overflowed)
    else None
  }

  /** What the candidate under the cursor shows is within the query's reach. */
  lemma CurrentIsMet(t: Task, d: nat, r: Run, e: Evidence)
    requires EdgesOk(t, d, r, e) && r.cursor < |t.snapshot.Candidates(r.active, t.reverse)|
    ensures MetAt(t, r.active, Current(t, r))
    ensures Fault(t, r.active, Current(t, r)).Some? ==> Forced(t, Fault(t, r.active, Current(t, r)).value)
    ensures Shows(t, Current(t, r), Unavailable) ==> Doubtful(t)
  {
    hide Searching, Probed, Surveyed, Vetted, Tallied, Fits, Shows, Posed;
    LabelledAreRouted(t, r.labels, e.rank, r.frontier, e.rank.Keys - {r.active}, e.key, e.open);
  }

  lemma FaultStops(t: Task, d: nat, r: Run, e: Evidence)
    requires EdgesOk(t, d, r, e) && r.cursor < |t.snapshot.Candidates(r.active, t.reverse)| <= d
    requires Started(t, r)
    requires Fault(t, r.active, Current(t, r)).Some?
    ensures PublishOk(t, d, r.(work := r.work + 1, cursor := r.cursor + 1, outcome := Fault(t, r.active, Current(t, r)).value, phase := Publish))
  {
    hide EdgesOk, PublishOk, SearchCost, Forced, Doubtful, Fault, Posed;
    EdgesCost(t, d, r, e);
    CurrentIsMet(t, d, r, e);
    StopsEarly(t, d, r.(work := r.work + 1, cursor := r.cursor + 1, outcome := Fault(t, r.active, Current(t, r)).value, phase := Publish));
  }

  /** A further location without room for it, or a further entry, means too little room altogether. */
  lemma EdgesCramped(t: Task, d: nat, r: Run, e: Evidence)
    requires EdgesOk(t, d, r, e) && r.cursor < |t.snapshot.Candidates(r.active, t.reverse)|
    requires Usable(t.snapshot, t.reverse, Current(t, r)) && Near(Current(t, r), t.reverse) == r.active
    requires || (Far(Current(t, r), t.reverse) !in r.labels && |r.labels| == t.limits.maxNodes)
             || |r.frontier| == t.limits.maxFrontier
    ensures Cramped(t)
  {
    hide Searching, Probed, Surveyed, Vetted, Usable, Task.Arcs, Task.Seeds;
    LabelledAreRouted(t, r.labels, e.rank, r.frontier, e.rank.Keys - {r.active}, e.key, e.open);
    if |r.frontier| == t.limits.maxFrontier {
      var ps := e.probed + {(r.active, r.cursor)};
      assert (r.active, r.cursor) !in e.probed;
      assert AllListed(t, ps);
    } else {
      ArcIsUsable(t, Current(t, r));
      var next := Far(Current(t, r), t.reverse);
      ArcDistance(t.Arcs(), t.Seeds(), Arc(next, r.active, Current(t, r).cost));
      var xs := r.labels.Keys + {next};
      assert |xs| == |r.labels| + 1 && AllRouted(t, xs);
    }
  }

  lemma NotUsable(t: Task, d: nat, r: Run, e: Evidence, unknown: bool)
    requires EdgesOk(t, d, r, e) && r.cursor < |t.snapshot.Candidates(r.active, t.reverse)|
    requires !Current(t, r).availability.Legal? || !t.snapshot.AvailabilityAt(Far(Current(t, r), t.reverse)).Legal?
    requires (r.unknown ==> unknown) && Plain(t, r.active, Current(t, r), unknown)
    ensures EdgesOk(t, d, r.(work := r.work + 1, cursor := r.cursor + 1, unknown := unknown), Counted(r, e))
  {
    hide Searching, Probed, Plain, Surveyed, Vetted, Tallied;
    assert Relaxed(t.snapshot, t.reverse, r.labels, e.key, Current(t, r));
    SurveyWeakens(t, e.rank.Keys - {r.active}, r.active, r.cursor, r.unknown, unknown);
    ProbeStep(t, d, r.(unknown := unknown), e, r.labels, r.frontier, e.open);
  }

  lemma IsUsable(t: Task, d: nat, r: Run, e: Evidence)
    requires EdgesOk(t, d, r, e) && r.cursor < |t.snapshot.Candidates(r.active, t.reverse)|
    requires var c := Current(t, r);
             Near(c, t.reverse) == r.active && c.cost != INFINITE && c.availability.Legal? && LegalAt(t.snapshot, Far(c, t.reverse))
    ensures Usable(t.snapshot, t.reverse, Current(t, r))
  {
    hide Honest, Expanded, Queued, Probed, Supported;
    assert LegalAt(t.snapshot, r.active);
  }

  lemma Dominated(t: Task, d: nat, r: Run, e: Evidence)
    requires EdgesOk(t, d, r, e) && r.cursor < |t.snapshot.Candidates(r.active, t.reverse)|
    requires var c := Current(t, r);
             Far(c, t.reverse) in r.labels && (r.activeCost + c.cost < INFINITE ==>
               r.labels[Far(c, t.reverse)].settled || r.labels[Far(c, t.reverse)].cost <= r.activeCost + c.cost)
    requires Plain(t, r.active, Current(t, r), r.unknown)
    ensures EdgesOk(t, d, r.(work := r.work + 1, cursor := r.cursor + 1), Counted(r, e))
    ensures Relaxed(t.snapshot, t.reverse, r.labels, r.activeCost, Current(t, r))
  {
    hide Searching, Probed, Usable, Relaxed, Surveyed, Vetted, Tallied, Plain;
    AlreadyRelaxed(t, r.labels, e.rank, r.frontier, r.active, e.key, e.open, Current(t, r));
    ProbeStep(t, d, r, e, r.labels, r.frontier, e.open);
  }

  lemma Overflows(t: Task, d: nat, r: Run, e: Evidence)
    requires EdgesOk(t, d, r, e) && r.cursor < |t.snapshot.Candidates(r.active, t.reverse)|
    requires Usable(t.snapshot, t.reverse, Current(t, r)) && Near(Current(t, r), t.reverse) == r.active
    requires Far(Current(t, r), t.reverse) !in r.labels && INFINITE <= r.activeCost + Current(t, r).cost
    requires |r.labels| < t.limits.maxNodes && Plain(t, r.active, Current(t, r), r.unknown)
    ensures var next := Far(Current(t, r), t.reverse);
            EdgesOk(t, d, r.(work := r.work + 1, cursor := r.cursor + 1, labels := r.labels[next := Label(INFINITE, None, false)],
                             unresolved := r.unresolved + 1),
                    Counted(r, e).(open := e.open + {next}))
            && Relaxed(t.snapshot, t.reverse, r.labels[next := Label(INFINITE, None, false)], r.activeCost, Current(t, r))
  {
    hide Searching, Probed, Usable, Relaxed, Surveyed, Vetted, Tallied, Plain;
    var next := Far(Current(t, r), t.reverse);
    SearchNotes(t, r.labels, e.rank, r.frontier, e.rank.Keys - {r.active}, r.activeCost, e.open, Current(t, r));
    OpenIsLabelled(t, r.labels, e.rank, r.frontier, e.rank.Keys - {r.active}, e.key, e.open, next);
    ProbeStep(t, d, r, e, r.labels[next := Label(INFINITE, None, false)], r.frontier, e.open + {next});
  }

  lemma OpenIsLabelled(t: Task, labels: map<Location, Label>, rank: map<Location, nat>, frontier: multiset<Entry>,
                       done: set<Location>, key: nat, open: set<Location>, x: Location)
    requires Searching(t, labels, rank, frontier, done, key, open)
    ensures x in open <==> x in labels && labels[x].cost == INFINITE
  {
  }

  /** The run after a usable candidate gave its far end a first or better finite label. */
  function Improved(t: Task, r: Run): Run
    requires r.cursor < |t.snapshot.Candidates(r.active, t.reverse)|
    requires r.activeCost + Current(t, r).cost < INFINITE
  {
    var c := Current(t, r);
    var next, cost := Far(c, t.reverse), r.activeCost + c.cost;
    var resolves := next in r.labels && r.labels[next].cost == INFINITE && r.unresolved > 0;
    r.(work := r.work + 1, cursor := r.cursor + 1, labels := r.labels[next := Label(cost, Some(c), false)],
       unresolved := if resolves then r.unresolved - 1 else r.unresolved,
       frontier := r.frontier + multiset{Entry(cost, next)})
  }

  lemma EdgesParts(t: Task, d: nat, r: Run, e: Evidence)
    requires EdgesOk(t, d, r, e)
    ensures Searching(t, r.labels, e.rank, r.frontier, e.rank.Keys - {r.active}, e.key, e.open)
    ensures r.active in e.rank && r.active in r.labels && r.labels[r.active].cost == e.key == r.activeCost
    ensures r.unresolved == |e.open| && Bounded(t, r.labels, r.frontier)
  {
    hide Searching, Probed, Surveyed, Vetted, Tallied;
  }

  lemma Improves(t: Task, d: nat, r: Run, e: Evidence)
    requires EdgesOk(t, d, r, e) && r.cursor < |t.snapshot.Candidates(r.active, t.reverse)|
    requires Usable(t.snapshot, t.reverse, Current(t, r)) && Near(Current(t, r), t.reverse) == r.active
    requires r.activeCost + Current(t, r).cost < INFINITE
    requires var next := Far(Current(t, r), t.reverse);
             next in r.labels ==> !r.labels[next].settled && r.activeCost + Current(t, r).cost < r.labels[next].cost
    requires Far(Current(t, r), t.reverse) !in r.labels ==> |r.labels| < t.limits.maxNodes
    requires |r.frontier| < t.limits.maxFrontier && Plain(t, r.active, Current(t, r), r.unknown)
    ensures EdgesOk(t, d, Improved(t, r), Counted(r, e).(open := e.open - {Far(Current(t, r), t.reverse)}))
    ensures Relaxed(t.snapshot, t.reverse, Improved(t, r).labels, r.activeCost, Current(t, r))
  {
    hide EdgesOk, Searching, Usable, Relaxed, Plain;
    EdgesParts(t, d, r, e);
    var c := Current(t, r);
    var next, cost := Far(c, t.reverse), r.activeCost + c.cost;
    SearchImproves(t, r.labels, e.rank, r.frontier, e.rank.Keys - {r.active}, r.activeCost, e.open, c);
    OpenIsLabelled(t, r.labels, e.rank, r.frontier, e.rank.Keys - {r.active}, e.key, e.open, next);
    ActiveIsSettled(t, r.labels, e.rank, r.frontier, e.rank.Keys - {r.active}, e.key, e.open, r.active);
    ProbeStep(t, d, r, e, r.labels[next := Label(cost, Some(c), false)], r.frontier + multiset{Entry(cost, next)}, e.open - {next});
  }

  lemma ActiveIsSettled(t: Task, labels: map<Location, Label>, rank: map<Location, nat>, frontier: multiset<Entry>,
                        done: set<Location>, key: nat, open: set<Location>, x: Location)
    requires Searching(t, labels, rank, frontier, done, key, open) && x in rank
    ensures x in labels && labels[x].settled
  {
  }

  /** The retraced route is complete: it is the best one, to be reversed in place. */
  lemma Retraces(t: Task, d: nat, r: Run, e: Evidence)
    requires ReconstructOk(t, d, r, e) && r.reconstruction == t.start
    ensures SwapOk(t, d, r.(work := r.work + 1, swapped := 0, phase := Swap), e.(collected := r.route))
  {
    hide Grounded, IsDistance, Chain, SearchCost, Agrees, AllRouted;
  }

  lemma RetracesOneMore(t: Task, d: nat, r: Run, e: Evidence)
    requires ReconstructOk(t, d, r, e) && |r.route| < t.limits.maxRouteSteps
    requires r.reconstruction in r.labels && r.labels[r.reconstruction].parent.Some?
    ensures var p := r.labels[r.reconstruction].parent.value;
            ReconstructOk(t, d, r.(work := r.work + 1, route := r.route + [p], reconstruction := p.from), e)
  {
    hide Grounded, IsDistance, SearchCost, Retraced, Agrees, AllRouted;
    ReconstructShape(t, d, r, e);
    Retrace(t, r.labels, e.rank, r.route, r.reconstruction, r.routeCost);
    RetraceDescends(t, r.labels, e.rank, r.reconstruction);
  }

  /** Away from the start, a ranked location has a parent of smaller rank. */
  lemma RetraceDescends(t: Task, labels: map<Location, Label>, rank: map<Location, nat>, x: Location)
    requires !t.reverse && Grounded(t.snapshot, t.reverse, t.Seeds(), labels, rank) && x in rank && x in labels
    ensures labels[x].parent.Some? ==> labels[x].parent.value.from in rank && rank[labels[x].parent.value.from] < rank[x]
    ensures labels[x].parent.None? ==> x in t.Seeds()
  {
    hide Usable, Task.Seeds;
    assert Supported(t.snapshot, t.reverse, t.Seeds(), labels, rank, x);
  }

  lemma StartIsOnlySeed(t: Task, x: Location)
    requires t.WellFormed() && !t.reverse && x in t.Seeds()
    ensures x == t.start
  {
    hide Cheapest;
    CheapestAmong(t.goals, LegalLocations(t.snapshot));
  }

  /** Every location to retrace has a parent; a route that outgrows its limit needs more steps than are allowed. */
  lemma RetraceCramped(t: Task, d: nat, r: Run, e: Evidence)
    requires t.WellFormed() && ReconstructOk(t, d, r, e) && r.reconstruction != t.start
    ensures r.reconstruction in r.labels && r.labels[r.reconstruction].parent.Some?
    ensures |r.route| == t.limits.maxRouteSteps ==> Cramped(t)
  {
    hide Grounded, IsDistance, SearchCost, Agrees, AllRouted, Task.Seeds, Chain;
    RetraceDescends(t, r.labels, e.rank, r.reconstruction);
    if r.labels[r.reconstruction].parent.None? {
      StartIsOnlySeed(t, r.reconstruction);
    }
    assert |e.rank.Keys| == |e.rank|;
  }

  lemma ReconstructShape(t: Task, d: nat, r: Run, e: Evidence)
    requires ReconstructOk(t, d, r, e)
    ensures r.reconstruction in r.labels && r.reconstruction in e.rank && |r.route| <= t.limits.maxRouteSteps
    ensures r.work + 1 <= SearchCost(t, d) + |r.route|
  {
  }

  lemma SwapsOneMore(t: Task, d: nat, r: Run, e: Evidence)
    requires SwapOk(t, d, r, e) && r.swapped < |r.route| / 2
    ensures var i, j := r.swapped, |r.route| - 1 - r.swapped;
            SwapOk(t, d, r.(work := r.work + 1, route := r.route[i := r.route[j]][j := r.route[i]], swapped := i + 1), e)
  {
    hide BestRoute, SearchCost, Agrees;
    var n, i, j := |r.route|, r.swapped, |r.route| - 1 - r.swapped;
    var route' := r.route[i := r.route[j]][j := r.route[i]];
    forall k | 0 <= k < n
      ensures route'[k] == if k < i + 1 || k >= n - (i + 1) then e.collected[n - 1 - k] else e.collected[k]
    {
      assert i < j < n && r.route[j] == e.collected[j] && r.route[i] == e.collected[i];
      if k == j {
        assert n - 1 - k == i;
      } else if k == i {
        assert n - 1 - k == j;
      } else {
        assert route'[k] == r.route[k];
      }
    }
  }

  lemma SwapsDeliver(t: Task, d: nat, r: Run, e: Evidence)
    requires SwapOk(t, d, r, e) && r.swapped == |r.route| / 2
    requires Started(t, r)
    ensures PublishOk(t, d, r.(work := r.work + 1, outcome := Found, phase := Publish))
  {
    hide BestRoute, Agrees, Doubtful, Posed;
    SearchCostCovers(t, d);
    SwappedIsReversed(e.collected, r.route);
  }

  /** Exchanging the two halves element by element reverses the whole. */
  lemma SwappedIsReversed<T>(s: seq<T>, r: seq<T>)
    requires |r| == |s|
    requires forall i {:trigger r[i]} :: 0 <= i < |r| ==> r[i] == if i < |r| / 2 || i >= |r| - |r| / 2 then s[|r| - 1 - i] else s[i]
    ensures r == Reversed(s)
  {
    var n := |r|;
    if n == 0 {
    } else {
      ReversedAt(s, 0);
      forall k | 0 <= k < n ensures r[k] == Reversed(s)[k] {
        ReversedAt(s, k);
        if n / 2 <= k < n - n / 2 {
          assert n - 1 - k == k;
        }
      }
    }
  }

  lemma ExportsOneMore(t: Task, d: nat, r: Run, x: Location)
    requires ExportOk(t, d, r) && x in r.exporting
    ensures x in r.labels
    ensures ExportOk(t, d, r.(work := r.work + 1, exporting := r.exporting - {x},
                              guidance := r.guidance[x := Guidance(r.labels[x].cost, r.labels[x].parent)]))
  {
    hide ExactField, SearchCost, Clean, Doubtful;
    var guidance' := r.guidance[x := Guidance(r.labels[x].cost, r.labels[x].parent)];
    assert r.labels.Keys - (r.exporting - {x}) == (r.labels.Keys - r.exporting) + {x};
    assert guidance' == Exported(r.labels, r.labels.Keys - (r.exporting - {x}));
    assert x !in r.guidance;
    assert |guidance'| == |r.guidance| + 1;
  }

  lemma ExportDelivers(t: Task, d: nat, r: Run)
    requires ExportOk(t, d, r) && r.exporting == {}
    requires Started(t, r)
    ensures PublishOk(t, d, r.(work := r.work + 1, outcome := Found, phase := Publish))
  {
    hide ExactField, Clean, Doubtful, Posed;
    SearchCostCovers(t, d);
    assert r.labels.Keys - {} == r.labels.Keys;
    assert exists x :: x in r.labels && x in r.guidance;
  }

  /** However far a pending query got, it has not spent its whole bound. */
  lemma PendingIsAffordable(t: Task, d: nat, r: Run, e: Evidence)
    requires RunOk(t, d, r, e) && forall x :: |t.snapshot.Candidates(x, t.reverse)| <= d
    ensures r.work < WorkBound(t.limits, |t.goals|, d)
  {
    hide Searching, Truthful, Probed, BestRoute, ExactField, SearchCost, RefusalWorkBound, PopOk, EdgesOk, Agrees, AllRouted, Clean, Doubtful, Started;
    SearchCostCovers(t, d);
    if r.phase.Pop? {
      PopCost(t, d, r, e);
    } else if r.phase.Edges? {
      EdgesWithinCost(t, d, r, e);
    }
  }

  lemma EdgesWithinCost(t: Task, d: nat, r: Run, e: Evidence)
    requires EdgesOk(t, d, r, e) && |t.snapshot.Candidates(r.active, t.reverse)| <= d
    ensures r.work <= SearchCost(t, d)
  {
    hide Searching, Probed;
    RankBounded(t, r.labels, e.rank, r.frontier, e.rank.Keys - {r.active}, e.key, e.open);
    AccountsBound(|t.goals|, d, r.work, e.pops, |e.probed|, e.exits, |r.frontier|, |e.rank| - 1, r.cursor, t.limits.maxNodes);
  }

  // ------------------------------------------------------------------------------------------------
  // What one item of each phase does to the run

  ghost predicate Initialised(t: Task, r: Run) {
    if !Posed(t) then r.phase.Publish? && r.outcome.InvalidInput?
    else if t.limits.maxNodes == 0 || t.limits.maxFrontier == 0 then r.phase.Publish? && r.outcome.CapacityExceeded?
    else r.phase.Seed? && r.seed == 0 && r.labels == map[] && r.frontier == multiset{} && (r.unknown <==> !t.snapshot.complete)
  }

  /** The labels are the least prices stated so far for the legal destinations. */
  ghost predicate Priced(t: Task, r: Run) {
    && r.seed <= |t.goals|
    && var prices := Prices(t.snapshot, t.goals[..r.seed]);
      r.labels.Keys == prices.Keys && forall x :: x in prices ==> r.labels[x].cost == prices[x] && r.labels[x].parent.None?
  }

  /** One more destination is priced, or there is a reason to stop. */
  ghost predicate Seeds(t: Task, b: Run, r: Run)
    requires b.seed <= |t.goals|
  {
    if b.seed == |t.goals| then r == b.(work := b.work + 1, phase := Pop)
    else
      var g, a := t.goals[b.seed], t.snapshot.AvailabilityAt(t.goals[b.seed].location);
      match r.phase
      case Seed => r.seed == b.seed + 1 && Priced(t, r) && (r.unknown <==> b.unknown || a.Unavailable?)
      case Publish => (match r.outcome
        case InvalidInput => a.Invalid? || g.cost == INFINITE
        case Overflowed => a.Overflow?
        case CapacityExceeded =>
          a.Legal? && ((g.location !in b.labels && |b.labels| == t.limits.maxNodes) || |b.frontier| == t.limits.maxFrontier)
        case NoRoute => !t.reverse && a.Blocked? && !b.unknown
        case Indeterminate => !t.reverse && (a.Unavailable? || (a.Blocked? && b.unknown))
        case Found => false)
      case _ => false
  }

  /** The least entry: of least cost, and among those at the least location. */
  ghost predicate Least(frontier: multiset<Entry>, top: Entry) {
    && top in frontier
    && forall x :: x in frontier ==>
         top.cost < x.cost || (top.cost == x.cost && (top.at.domain < x.at.domain || (top.at.domain == x.at.domain && top.at.node <= x.at.node)))
  }

  lemma LeastIs(frontier: multiset<Entry>, top: Entry)
    requires top in frontier && forall x :: x in frontier ==> Precedes(top, x)
    ensures Least(frontier, top)
  {
  }

  /** A stale entry is dropped; a fresh one settles its location at its distance. */
  ghost predicate Takes(t: Task, b: Run, r: Run, top: Entry) {
    && top.at in b.labels && r.frontier == b.frontier - multiset{top}
    && if b.labels[top.at].settled || b.labels[top.at].cost != top.cost then
         r.phase.Pop? && r.labels == b.labels
       else
         && r.labels == b.labels[top.at := b.labels[top.at].(settled := true)]
         && IsDistance(t.Arcs(), t.Seeds(), top.at, top.cost)
         && if !t.reverse && top.at == t.goal then
              r.phase.Reconstruct? && r.reconstruction == t.goal && r.routeCost == top.cost && r.route == []
            else
              r.phase.Edges? && r.active == top.at && r.activeCost == top.cost && r.cursor == 0
  }

  /** An empty frontier ends the search, otherwise the least entry is taken. */
  ghost predicate Pops(t: Task, b: Run, r: Run) {
    if b.frontier != multiset{} then exists top :: Least(b.frontier, top) && Takes(t, b, r, top)
    else if b.unresolved == 0 && t.reverse && b.labels != map[] then r.phase.Export? && r.exporting == r.labels.Keys && r.labels == b.labels
    else r.phase.Publish? && r.outcome == if b.unresolved != 0 then Overflowed else if b.unknown then Indeterminate else NoRoute
  }

  /** Only the label of `x` may have changed, and not for the worse. */
  ghost predicate Improvement(before: map<Location, Label>, after: map<Location, Label>, x: Location) {
    && (forall y :: y in before ==> y in after && after[y].cost <= before[y].cost && (y != x ==> after[y] == before[y]))
    && (forall y :: y in after && y !in before ==> y == x)
  }

  /** A usable candidate is relaxed, or there is no room for it; an unavailable one is noted; a fault stops the search. */
  ghost predicate Probes(t: Task, b: Run, r: Run)
    requires b.cursor <= |t.snapshot.Candidates(b.active, t.reverse)|
  {
    if b.cursor == |t.snapshot.Candidates(b.active, t.reverse)| then r == b.(work := b.work + 1, phase := Pop)
    else
      var c := Current(t, b);
      var fault, next := Fault(t, b.active, c), Far(c, t.reverse);
      && r.cursor == b.cursor + 1 && r.active == b.active && r.activeCost == b.activeCost
      && if fault.Some? then r.phase.Publish? && r.outcome == fault.value
         else if !Usable(t.snapshot, t.reverse, c) then
           r.phase.Edges? && r.labels == b.labels && r.frontier == b.frontier && (r.unknown <==> b.unknown || Shows(t, c, Unavailable))
         else if r.phase.Publish? then
           r.outcome.CapacityExceeded? &&
           ((next !in b.labels && |b.labels| == t.limits.maxNodes) || |b.frontier| == t.limits.maxFrontier)
         else
           && r.phase.Edges? && (r.unknown <==> b.unknown)
           && Relaxed(t.snapshot, t.reverse, r.labels, b.activeCost, c) && Improvement(b.labels, r.labels, next)
  }

  /** One more step of the route, until the start is reached or the limit. */
  ghost predicate RetracesStep(t: Task, b: Run, r: Run) {
    if b.reconstruction == t.start then r.phase.Swap? && r.swapped == 0 && r.route == b.route
    else if |b.route| == t.limits.maxRouteSteps then r.phase.Publish? && r.outcome.CapacityExceeded?
    else
      && b.reconstruction in b.labels && b.labels[b.reconstruction].parent.Some?
      && var p := b.labels[b.reconstruction].parent.value;
        r.phase.Reconstruct? && r.route == b.route + [p] && r.reconstruction == p.from
  }

  /** Two steps change places, or the route is in order: the best one there is. */
  ghost predicate SwapsStep(t: Task, b: Run, r: Run) {
    if b.swapped < |b.route| / 2 then
      var i, j := b.swapped, |b.route| - 1 - b.swapped;
      r.phase.Swap? && r.swapped == i + 1 && r.route == b.route[i := b.route[j]][j := b.route[i]]
    else
      r.phase.Publish? && r.outcome.Found? && r.route == b.route && BestRoute(t, r.route, r.routeCost)
  }

  /** One more label is exported, or all are: the field is exact. */
  ghost predicate ExportsStep(t: Task, b: Run, r: Run) {
    if b.exporting == {} then
      r.phase.Publish? && r.outcome.Found? && r.guidance == b.guidance && ExactField(t, r.guidance)
    else
      && r.phase.Export?
      && exists x :: x in b.exporting && x in b.labels && r.exporting == b.exporting - {x} &&
           r.guidance == b.guidance[x := Guidance(b.labels[x].cost, b.labels[x].parent)]
  }

  lemma IncompleteIsDoubtful(t: Task)
    ensures !t.snapshot.complete ==> Doubtful(t)
  {
  }

  lemma NoRoomIsCramped(t: Task)
    ensures t.limits.maxNodes == 0 || t.limits.maxFrontier == 0 ==> Cramped(t)
  {
  }

  lemma StartedStays(t: Task, r: Run, q: Run)
    requires Started(t, r) && q.unknown == r.unknown
    ensures Started(t, q)
  {
  }

  lemma GoalIsPlain(t: Task, k: nat, unknown: bool)
    requires k < |t.goals|
    requires var g := t.goals[k];
             g.cost != INFINITE && t.snapshot.AvailabilityAt(g.location) !in {Invalid, Overflow} &&
             (t.snapshot.AvailabilityAt(g.location).Unavailable? ==> unknown)
    ensures GoalPlain(t, t.goals[k], unknown)
  {
  }

  lemma FaultlessIsPlain(t: Task, x: Location, c: Transition)
    requires Fault(t, x, c).None?
    ensures forall unknown :: (Shows(t, c, Unavailable) ==> unknown) ==> Plain(t, x, c, unknown)
    ensures Near(c, t.reverse) == x && c.cost != INFINITE
    ensures Shows(t, c, Unavailable) <==>
              c.availability.Unavailable? || (c.availability.Legal? && t.snapshot.AvailabilityAt(Far(c, t.reverse)).Unavailable?)
    ensures c.availability.Legal? && LegalAt(t.snapshot, Far(c, t.reverse)) ==> !Shows(t, c, Unavailable)
    ensures !c.availability.Legal? || !LegalAt(t.snapshot, Far(c, t.reverse)) ==> !Usable(t.snapshot, t.reverse, c)
  {
  }

  lemma SeedsFinish(t: Task, d: nat, b: Run)
    requires SeedOk(t, b) && Started(t, b) && b.seed == |t.goals|
    ensures var r := b.(work := b.work + 1, phase := Pop);
            RunOk(t, d, r, Evidence(map[], 0, {}, 0, {}, 0, [])) && Seeds(t, b, r)
  {
    hide SeedOk, PopOk;
    SeedsDone(t, d, b);
    StartedStays(t, b, b.(work := b.work + 1, phase := Pop));
  }

  /** Stopping at a destination, for one of the reasons there are. */
  lemma SeedStops(t: Task, d: nat, b: Run, e: Evidence, outcome: Outcome)
    requires SeedOk(t, b) && Started(t, b) && b.seed < |t.goals|
    requires var g, a := t.goals[b.seed], t.snapshot.AvailabilityAt(t.goals[b.seed].location);
             match outcome
             case InvalidInput => a.Invalid? || g.cost == INFINITE
             case Overflowed => a.Overflow?
             case CapacityExceeded =>
               a.Legal? && ((g.location !in b.labels && |b.labels| == t.limits.maxNodes) || |b.frontier| == t.limits.maxFrontier)
             case _ => false
    ensures var r := b.(work := b.work + 1, seed := b.seed + 1, outcome := outcome, phase := Publish);
            RunOk(t, d, r, e) && Seeds(t, b, r)
  {
    hide SeedOk, PublishOk, Seeding, Cramped, Malformed, Met, Doubtful, SearchCost, Posed;
    GoalForces(t, b.seed);
    LegalIs(t.snapshot, t.goals[b.seed].location);
    SeedShape(t, d, b);
    if outcome.CapacityExceeded? {
      SeedCramped(t, b);
    }
    StopsEarly(t, d, b.(work := b.work + 1, seed := b.seed + 1, outcome := outcome, phase := Publish));
  }

  /** A plain destination is passed or taken, and the next one's turn comes. */
  lemma SeedGoesOn(t: Task, d: nat, b: Run, r: Run, e: Evidence)
    requires SeedOk(t, r) && Started(t, b) && r.phase.Seed? && r.seed == b.seed + 1 <= |t.goals|
    requires r.unknown <==> b.unknown || t.snapshot.AvailabilityAt(t.goals[b.seed].location).Unavailable?
    ensures RunOk(t, d, r, e) && Seeds(t, b, r)
  {
    hide SeedOk, Doubtful, Posed, Seeding;
    GoalForces(t, b.seed);
    SeedLabels(t, r);
  }

  lemma SeedEnds(t: Task, d: nat, b: Run, r: Run, e: Evidence)
    requires t.WellFormed() && !t.reverse && b.seed < |t.goals|
    requires Started(t, b) && !LegalAt(t.snapshot, t.goals[b.seed].location) && GoalPlain(t, t.goals[b.seed], r.unknown)
    requires r.unknown <==> b.unknown || t.snapshot.AvailabilityAt(t.goals[b.seed].location).Unavailable?
    requires r.outcome == (if r.unknown then Indeterminate else NoRoute) && r.phase.Publish? && r.seed == b.seed + 1
    requires r.work <= SearchCost(t, d)
    ensures RunOk(t, d, r, e) && Seeds(t, b, r)
  {
    hide PublishOk, Doubtful, Posed, SearchCost;
    GoalForces(t, b.seed);
    StartIsIllegal(t, d, r);
  }

  // The same for one item of the enumeration, one lemma per case.

  lemma ProbesEnd(t: Task, d: nat, b: Run, e: Evidence)
    requires EdgesOk(t, d, b, e) && Started(t, b) && b.cursor == |t.snapshot.Candidates(b.active, t.reverse)| <= d
    ensures var r := b.(work := b.work + 1, phase := Pop);
            RunOk(t, d, r, e.(exits := e.exits + 1)) && Probes(t, b, r)
  {
    hide EdgesOk, PopOk;
    Closes(t, d, b, e);
    StartedStays(t, b, b.(work := b.work + 1, phase := Pop));
  }

  lemma ProbesFault(t: Task, d: nat, b: Run, e: Evidence)
    requires EdgesOk(t, d, b, e) && Started(t, b) && b.cursor < |t.snapshot.Candidates(b.active, t.reverse)| <= d
    requires Fault(t, b.active, Current(t, b)).Some?
    ensures var r := b.(work := b.work + 1, cursor := b.cursor + 1, outcome := Fault(t, b.active, Current(t, b)).value, phase := Publish);
            RunOk(t, d, r, e) && Probes(t, b, r)
  {
    hide EdgesOk, PublishOk, Fault, Started;
    FaultStops(t, d, b, e);
  }

  lemma ProbesPass(t: Task, d: nat, b: Run, e: Evidence, unknown: bool)
    requires EdgesOk(t, d, b, e) && Started(t, b) && b.phase.Edges? && b.cursor < |t.snapshot.Candidates(b.active, t.reverse)|
    requires Fault(t, b.active, Current(t, b)).None?
    requires var c := Current(t, b);
             && (!c.availability.Legal? || !LegalAt(t.snapshot, Far(c, t.reverse)))
             && (unknown <==> b.unknown || Shows(t, c, Unavailable))
    ensures var r := b.(work := b.work + 1, cursor := b.cursor + 1, unknown := unknown);
            RunOk(t, d, r, Counted(b, e)) && Probes(t, b, r)
  {
    hide EdgesOk, Usable, Fits, Shows, Posed, Doubtful, Plain, Fault, Relaxed;
    CurrentIsMet(t, d, b, e);
    FaultlessIsPlain(t, b.active, Current(t, b));
    NotUsable(t, d, b, e, unknown);
  }

  lemma ProbesRefuse(t: Task, d: nat, b: Run, e: Evidence)
    requires EdgesOk(t, d, b, e) && Started(t, b) && b.cursor < |t.snapshot.Candidates(b.active, t.reverse)| <= d
    requires Fault(t, b.active, Current(t, b)).None? && Usable(t.snapshot, t.reverse, Current(t, b))
    requires || (Far(Current(t, b), t.reverse) !in b.labels && |b.labels| == t.limits.maxNodes)
             || |b.frontier| == t.limits.maxFrontier
    ensures var r := b.(work := b.work + 1, cursor := b.cursor + 1, outcome := CapacityExceeded, phase := Publish);
            RunOk(t, d, r, e) && Probes(t, b, r)
  {
    hide EdgesOk, PublishOk, Usable, Fits, Shows, Posed, Doubtful, Cramped, Fault, SearchCost, Plain;
    FaultlessIsPlain(t, b.active, Current(t, b));
    EdgesCost(t, d, b, e);
    EdgesCramped(t, d, b, e);
    StopsEarly(t, d, b.(work := b.work + 1, cursor := b.cursor + 1, outcome := CapacityExceeded, phase := Publish));
  }

  lemma ProbesKeep(t: Task, d: nat, b: Run, e: Evidence)
    requires EdgesOk(t, d, b, e) && Started(t, b) && b.phase.Edges? && b.cursor < |t.snapshot.Candidates(b.active, t.reverse)|
    requires Fault(t, b.active, Current(t, b)).None? && Usable(t.snapshot, t.reverse, Current(t, b))
    requires var c := Current(t, b);
             Far(c, t.reverse) in b.labels && (b.activeCost + c.cost < INFINITE ==>
               b.labels[Far(c, t.reverse)].settled || b.labels[Far(c, t.reverse)].cost <= b.activeCost + c.cost)
    ensures var r := b.(work := b.work + 1, cursor := b.cursor + 1);
            RunOk(t, d, r, Counted(b, e)) && Probes(t, b, r)
  {
    hide EdgesOk, Fits, Shows, Posed, Doubtful, Plain, Fault, Relaxed;
    FaultlessIsPlain(t, b.active, Current(t, b));
    Dominated(t, d, b, e);
    OnlyOneChanged(b.labels, Far(Current(t, b), t.reverse), b.labels[Far(Current(t, b), t.reverse)]);
  }

  lemma ProbesNote(t: Task, d: nat, b: Run, e: Evidence)
    requires EdgesOk(t, d, b, e) && Started(t, b) && b.phase.Edges? && b.cursor < |t.snapshot.Candidates(b.active, t.reverse)|
    requires Fault(t, b.active, Current(t, b)).None? && Usable(t.snapshot, t.reverse, Current(t, b))
    requires Far(Current(t, b), t.reverse) !in b.labels && INFINITE <= b.activeCost + Current(t, b).cost
    requires |b.labels| < t.limits.maxNodes
    ensures var next := Far(Current(t, b), t.reverse);
            var r := b.(work := b.work + 1, cursor := b.cursor + 1, labels := b.labels[next := Label(INFINITE, None, false)],
                        unresolved := b.unresolved + 1);
            RunOk(t, d, r, Counted(b, e).(open := e.open + {next})) && Probes(t, b, r)
  {
    hide EdgesOk, Fits, Shows, Posed, Doubtful, Plain, Fault, Relaxed, Usable;
    FaultlessIsPlain(t, b.active, Current(t, b));
    Overflows(t, d, b, e);
    OnlyOneChanged(b.labels, Far(Current(t, b), t.reverse), Label(INFINITE, None, false));
  }

  lemma ProbesImprove(t: Task, d: nat, b: Run, e: Evidence)
    requires EdgesOk(t, d, b, e) && Started(t, b) && b.phase.Edges? && b.cursor < |t.snapshot.Candidates(b.active, t.reverse)|
    requires Fault(t, b.active, Current(t, b)).None? && Usable(t.snapshot, t.reverse, Current(t, b))
    requires b.activeCost + Current(t, b).cost < INFINITE
    requires var next := Far(Current(t, b), t.reverse);
             next in b.labels ==> !b.labels[next].settled && b.activeCost + Current(t, b).cost < b.labels[next].cost
    requires Far(Current(t, b), t.reverse) !in b.labels ==> |b.labels| < t.limits.maxNodes
    requires |b.frontier| < t.limits.maxFrontier
    ensures RunOk(t, d, Improved(t, b), Counted(b, e).(open := e.open - {Far(Current(t, b), t.reverse)}))
    ensures Probes(t, b, Improved(t, b))
  {
    hide EdgesOk, Fits, Shows, Posed, Doubtful, Plain, Fault, Relaxed, Usable, Improvement;
    FaultlessIsPlain(t, b.active, Current(t, b));
    Improves(t, d, b, e);
    OnlyOneChanged(b.labels, Far(Current(t, b), t.reverse), Label(b.activeCost + Current(t, b).cost, Some(Current(t, b)), false));
  }

  lemma EdgesPhase(t: Task, d: nat, r: Run, e: Evidence)
    ensures r.phase.Edges? ==> (RunOk(t, d, r, e) <==> EdgesOk(t, d, r, e) && Started(t, r))
  {
    hide EdgesOk;
  }

  lemma SeedLabels(t: Task, r: Run)
    requires SeedOk(t, r)
    ensures Priced(t, r)
  {
  }

  lemma DeliveredRoute(t: Task, d: nat, r: Run, e: Evidence)
    requires SwapOk(t, d, r, e) && r.swapped == |r.route| / 2
    ensures BestRoute(t, r.route, r.routeCost)
  {
    hide BestRoute, Agrees;
    SwappedIsReversed(e.collected, r.route);
  }

  lemma DeliveredField(t: Task, d: nat, r: Run)
    requires ExportOk(t, d, r) && r.exporting == {}
    ensures ExactField(t, r.guidance)
  {
    hide ExactField, Clean, Doubtful;
    assert r.labels.Keys - {} == r.labels.Keys;
  }

  lemma OnlyOneChanged(labels: map<Location, Label>, x: Location, l: Label)
    requires x in labels ==> l.cost <= labels[x].cost
    ensures Improvement(labels, labels[x := l], x) && Improvement(labels, labels, x)
  {
  }

  // ------------------------------------------------------------------------------------------------

  class NavigationQuery {
    const task: Task
    /** No location lists more candidates than this; only the work bounds speak of it. */
    ghost const maxDegree: nat

    var state: QueryState
    var run: Run
    var result: Option<Result>
    ghost var evidence: Evidence

    ghost predicate Valid()
      reads this
    {
      && task.WellFormed()
      && (forall x :: |task.snapshot.Candidates(x, task.reverse)| <= maxDegree)
      && (state.Pending? ==> RunOk(task, maxDegree, run, evidence))
      && (state.Ready? ==> Delivered())
    }

    /** A published result retains its input, keeps its promise, was paid for, and is empty unless something was found. */
    ghost predicate Delivered()
      reads this
    {
      && result.Some? && result.value.work == run.work && result.value.snapshot == task.snapshot
      && Truthful(task, result.value.outcome, result.value.exact, result.value.cost, result.value.route, result.value.guidance)
      && (!result.value.outcome.Found? ==> result.value.route == [] && result.value.guidance == map[])
      && Affordable(task, maxDegree, result.value.outcome, run.work)
    }

    constructor (task: Task, ghost maxDegree: nat)
      requires task.WellFormed()
      requires forall x :: |task.snapshot.Candidates(x, task.reverse)| <= maxDegree
      ensures Valid() && state == Pending && this.task == task && this.maxDegree == maxDegree && run.work == 0
    {
      this.task, this.maxDegree := task, maxDegree;
      state, result := Pending, None;
      run := Run(Init, InvalidInput, map[], multiset{}, [], map[], {}, Location(0, 0), Location(0, 0), 0, 0, 0, 0, 0, 0, 0, false);
      evidence := Evidence(map[], 0, {}, 0, {}, 0, []);
    }

    method StepInit()
      requires Valid() && state.Pending? && run.phase.Init?
      modifies this`run
      ensures Valid() && run.work == old(run.work) + 1
      ensures Initialised(task, run)
    {
      hide Seeding, Truthful, Doubtful, Cramped, Met;
      var s, r := task.snapshot, run.(work := run.work + 1);
      SearchCostCovers(task, maxDegree);
      if !s.valid || task.goals == [] || (!task.reverse && (task.start !in s.nodes || task.goal !in s.nodes)) {
        run := r.(outcome := InvalidInput, phase := Publish);
        StopsEarly(task, maxDegree, run);
        return;
      }
      r := r.(unknown := !s.complete);
      assert r.unknown ==> Doubtful(task) by {
        IncompleteIsDoubtful(task);
      }
      if task.limits.maxNodes == 0 || task.limits.maxFrontier == 0 {
        run := r.(outcome := CapacityExceeded, phase := Publish);
        NoRoomIsCramped(task);
        StopsEarly(task, maxDegree, run);
        return;
      }
      run := r.(phase := Seed);
      NoSeeds(task);
    }

    method StepSeed()
      requires Valid() && state.Pending? && run.phase.Seed?
      modifies this`run, this`evidence
      ensures Valid() && run.work == old(run.work) + 1
      ensures old(run).seed <= |task.goals| && Seeds(task, old(run), run)
    {
      hide RunOk, SeedOk, Seeds, Delivered, Snapshot.AvailabilityAt, Snapshot.Candidates, SearchCost, LegalAt, Started, GoalPlain, Forced, Doubtful, Task.WellFormed;
      var s, r := task.snapshot, run.(work := run.work + 1);
      SeedPhase(task, maxDegree, run, evidence);
      SeedShape(task, maxDegree, run);
      if r.seed == |task.goals| {
        SeedsFinish(task, maxDegree, run);
        run := r.(phase := Pop);
        evidence := Evidence(map[], 0, {}, 0, {}, 0, []);
        return;
      }
      var g := task.goals[r.seed];
      var availability := s.AvailabilityAt(g.location);
      GoalForces(task, r.seed);
      r := r.(seed := r.seed + 1);
      if g.location !in s.nodes || g.cost == INFINITE {
        SeedStops(task, maxDegree, run, evidence, InvalidInput);
        run := r.(outcome := InvalidInput, phase := Publish);
      } else if availability.Overflow? || availability.Invalid? {
        SeedStops(task, maxDegree, run, evidence, if availability.Overflow? then Overflowed else InvalidInput);
        run := r.(outcome := if availability.Overflow? then Overflowed else InvalidInput, phase := Publish);
      } else if availability.Legal? {
        PriceGoal(g);
      } else {
        PassGoal(g, availability.Unavailable?);
      }
    }

    /** The destination at hand is blocked or unavailable: shared guidance goes on, a route query ends. */
    method PassGoal(g: Goal, unavailable: bool)
      requires Valid() && state.Pending? && run.phase.Seed? && run.seed < |task.goals| && g == task.goals[run.seed]
      requires g.location in task.snapshot.nodes && g.cost != INFINITE
      requires task.snapshot.AvailabilityAt(g.location) in {Blocked, Unavailable}
      requires unavailable <==> task.snapshot.AvailabilityAt(g.location).Unavailable?
      modifies this`run
      ensures Valid() && run.work == old(run.work) + 1 && Seeds(task, old(run), run)
    {
      hide RunOk, SeedOk, Seeds, Delivered, Snapshot.AvailabilityAt, Snapshot.Candidates, SearchCost, LegalAt, Started, GoalPlain, Forced, Doubtful;
      SeedPhase(task, maxDegree, run, evidence);
      SeedShape(task, maxDegree, run);
      LegalIs(task.snapshot, g.location);
      ghost var before := run;
      var r := run.(work := run.work + 1, seed := run.seed + 1, unknown := run.unknown || unavailable);
      GoalIsPlain(task, before.seed, r.unknown);
      if task.reverse {
        SeedPassed(task, before, r.unknown);
        run := r;
        SeedGoesOn(task, maxDegree, before, run, evidence);
      } else {
        run := r.(outcome := if r.unknown then Indeterminate else NoRoute, phase := Publish);
        SeedEnds(task, maxDegree, before, run, evidence);
      }
    }

    /** The destination at hand is legal: its price is kept if it is the first or a better one. */
    method PriceGoal(g: Goal)
      requires Valid() && state.Pending? && run.phase.Seed? && run.seed < |task.goals| && g == task.goals[run.seed]
      requires g.location in task.snapshot.nodes && g.cost != INFINITE && task.snapshot.AvailabilityAt(g.location).Legal?
      modifies this`run
      ensures Valid() && run.work == old(run.work) + 1 && Seeds(task, old(run), run)
    {
      hide RunOk, SeedOk, Seeds, Delivered, Snapshot.AvailabilityAt, Snapshot.Candidates, SearchCost, LegalAt, Started, GoalPlain, Forced, Doubtful, Task.WellFormed;
      SeedPhase(task, maxDegree, run, evidence);
      SeedShape(task, maxDegree, run);
      LegalIs(task.snapshot, g.location);
      ghost var before := run;
      var r := run.(work := run.work + 1, seed := run.seed + 1);
      GoalIsPlain(task, before.seed, r.unknown);
      if g.location in r.labels && r.labels[g.location].cost <= g.cost {
        SeedPassed(task, before, r.unknown);
        run := r;
      } else if (g.location !in r.labels && |r.labels| == task.limits.maxNodes) || |r.frontier| == task.limits.maxFrontier {
        SeedStops(task, maxDegree, before, evidence, CapacityExceeded);
        run := r.(outcome := CapacityExceeded, phase := Publish);
        return;
      } else {
        SeedTaken(task, before);
        run := r.(frontier := r.frontier + multiset{Entry(g.cost, g.location)},
                  labels := r.labels[g.location := Label(g.cost, None, false)]);
      }
      SeedGoesOn(task, maxDegree, before, run, evidence);
    }

    method StepPop()
      requires Valid() && state.Pending? && run.phase.Pop?
      modifies this`run, this`evidence
      ensures Valid() && run.work == old(run.work) + 1
      ensures Pops(task, old(run), run)
    {
      hide PopOk, EdgesOk, ReconstructOk, ExportOk, PublishOk, SeedOk, InitOk, SwapOk, IsDistance, Posed, Doubtful, Delivered, Snapshot.Candidates, Task.Arcs, Task.Seeds;
      var r, top := run, Entry(0, Location(0, 0));
      ghost var e := evidence;
      if r.frontier == multiset{} {
        if r.unresolved != 0 {
          StopsOverflowed(task, maxDegree, r, e);
          run := r.(work := r.work + 1, outcome := Overflowed, phase := Publish);
        } else if task.reverse && r.labels != map[] {
          StartsExport(task, maxDegree, r, e);
          run := r.(work := r.work + 1, exporting := r.labels.Keys, phase := Export);
        } else {
          StopsUnreached(task, maxDegree, r, e);
          run := r.(work := r.work + 1, outcome := if r.unknown then Indeterminate else NoRoute, phase := Publish);
        }
        return;
      }
      ghost var _ := LeastEntryExists(r.frontier);
      top :| top in r.frontier && forall x :: x in r.frontier ==> Precedes(top, x);
      LeastIs(r.frontier, top);
      PopIsLabelled(task, maxDegree, r, e, top);
      var entry := r.labels[top.at];
      if entry.settled || entry.cost != top.cost {
        Skips(task, maxDegree, r, e, top);
        run := Popped(r, top);
        evidence := e.(pops := e.pops + 1);
        assert Takes(task, r, run, top);
        return;
      }
      evidence := Ranked(e, top);
      if !task.reverse && top.at == task.goal {
        ReachesGoal(task, maxDegree, r, e, top);
        run := SettledBy(r, top).(routeCost := top.cost, reconstruction := task.goal, phase := Reconstruct);
      } else {
        Opens(task, maxDegree, r, e, top);
        run := SettledBy(r, top).(cursor := 0, phase := Edges);
      }
      assert Takes(task, r, run, top);
    }

    method StepEdges()
      requires Valid() && state.Pending? && run.phase.Edges?
      modifies this`run, this`evidence
      ensures Valid() && run.work == old(run.work) + 1
      ensures old(run).cursor <= |task.snapshot.Candidates(old(run).active, task.reverse)| && Probes(task, old(run), run)
    {
      hide RunOk, Probes, EdgesOk, Started, Usable, Fits, Shows, Fault, Delivered;
      var s, r := task.snapshot, run;
      ghost var e := evidence;
      EdgesPhase(task, maxDegree, r, e);
      EdgesShape(task, maxDegree, r, e);
      var candidates := s.Candidates(r.active, task.reverse);
      if r.cursor == |candidates| {
        ProbesEnd(task, maxDegree, r, e);
        run := r.(work := r.work + 1, phase := Pop);
        evidence := e.(exits := e.exits + 1);
        return;
      }
      var c := candidates[r.cursor];
      var probed := r.(work := r.work + 1, cursor := r.cursor + 1);
      var fault := Fault(task, r.active, c);
      if fault.Some? {
        ProbesFault(task, maxDegree, r, e);
        run := probed.(outcome := fault.value, phase := Publish);
        return;
      }
      var next := Far(c, task.reverse);
      FaultlessIsPlain(task, r.active, c);
      if !c.availability.Legal? || !s.AvailabilityAt(next).Legal? {
        // Blocked candidates are skipped; unavailable ones leave the answer merely feasible.
        var unknown := r.unknown || c.availability.Unavailable? || (c.availability.Legal? && s.AvailabilityAt(next).Unavailable?);
        ProbesPass(task, maxDegree, r, e, unknown);
        run := probed.(unknown := unknown);
        evidence := Counted(r, e);
        return;
      }
      IsUsable(task, maxDegree, r, e);
      var known := next in r.labels;
      if r.activeCost + c.cost >= INFINITE {
        if known {
          ProbesKeep(task, maxDegree, r, e);
          run := probed;
          evidence := Counted(r, e);
        } else if |r.labels| == task.limits.maxNodes {
          ProbesRefuse(task, maxDegree, r, e);
          run := probed.(outcome := CapacityExceeded, phase := Publish);
        } else {
          ProbesNote(task, maxDegree, r, e);
          run := probed.(labels := r.labels[next := Label(INFINITE, None, false)], unresolved := r.unresolved + 1);
          evidence := Counted(r, e).(open := e.open + {next});
        }
        return;
      }
      var cost := r.activeCost + c.cost;
      if known && (r.labels[next].settled || r.labels[next].cost <= cost) {
        ProbesKeep(task, maxDegree, r, e);
        run := probed;
        evidence := Counted(r, e);
      } else if (!known && |r.labels| == task.limits.maxNodes) || |r.frontier| == task.limits.maxFrontier {
        ProbesRefuse(task, maxDegree, r, e);
        run := probed.(outcome := CapacityExceeded, phase := Publish);
      } else {
        ProbesImprove(task, maxDegree, r, e);
        run := Improved(task, r);
        evidence := Counted(r, e).(open := e.open - {next});
      }
    }

    method StepReconstruct()
      requires Valid() && state.Pending? && run.phase.Reconstruct?
      modifies this`run, this`evidence
      ensures Valid() && run.work == old(run.work) + 1
      ensures RetracesStep(task, old(run), run)
    {
      hide PopOk, EdgesOk, ReconstructOk, ExportOk, PublishOk, SeedOk, InitOk, SwapOk, Posed, Doubtful, Cramped;
      var r := run;
      ghost var e := evidence;
      ReconstructShape(task, maxDegree, r, e);
      if r.reconstruction == task.start {
        Retraces(task, maxDegree, r, e);
        run := r.(work := r.work + 1, swapped := 0, phase := Swap);
        evidence := e.(collected := r.route);
        return;
      }
      RetraceCramped(task, maxDegree, r, e);
      var parent := r.labels[r.reconstruction].parent;
      if parent.None? || |r.route| == task.limits.maxRouteSteps {
        run := r.(work := r.work + 1, outcome := CapacityExceeded, phase := Publish);
        StopsEarly(task, maxDegree, run);
        return;
      }
      RetracesOneMore(task, maxDegree, r, e);
      run := r.(work := r.work + 1, route := r.route + [parent.value], reconstruction := parent.value.from);
    }

    method StepSwap()
      requires Valid() && state.Pending? && run.phase.Swap?
      modifies this`run
      ensures Valid() && run.work == old(run.work) + 1
      ensures SwapsStep(task, old(run), run)
    {
      hide PopOk, EdgesOk, ReconstructOk, ExportOk, PublishOk, SeedOk, InitOk, BestRoute, Agrees, Posed, Doubtful;
      var r := run;
      if r.swapped < |r.route| / 2 {
        var i, j := r.swapped, |r.route| - 1 - r.swapped;
        SwapsOneMore(task, maxDegree, r, evidence);
        run := r.(work := r.work + 1, route := r.route[i := r.route[j]][j := r.route[i]], swapped := i + 1);
      } else {
        SwapsDeliver(task, maxDegree, r, evidence);
        DeliveredRoute(task, maxDegree, r, evidence);
        run := r.(work := r.work + 1, outcome := Found, phase := Publish);
      }
    }

    method StepExport()
      requires Valid() && state.Pending? && run.phase.Export?
      modifies this`run
      ensures Valid() && run.work == old(run.work) + 1
      ensures ExportsStep(task, old(run), run)
    {
      hide PopOk, EdgesOk, ReconstructOk, ExportOk, PublishOk, SeedOk, InitOk, SwapOk, ExactField, Posed, Doubtful;
      var r := run;
      if r.exporting == {} {
        ExportDelivers(task, maxDegree, r);
        DeliveredField(task, maxDegree, r);
        run := r.(work := r.work + 1, outcome := Found, phase := Publish);
      } else {
        var x :| x in r.exporting;
        ExportsOneMore(task, maxDegree, r, x);
        run := r.(work := r.work + 1, exporting := r.exporting - {x},
                  guidance := r.guidance[x := Guidance(r.labels[x].cost, r.labels[x].parent)]);
      }
    }

    /** Only a found outcome hands over route and guidance. */
    method StepPublish()
      requires Valid() && state.Pending? && run.phase.Publish?
      modifies this`run, this`state, this`result
      ensures Valid() && state.Ready? && run.work == old(run.work) + 1
      ensures result == Some(if run.outcome.Found?
                             then Result(Found, !run.unknown, run.routeCost, run.route, run.guidance, task.snapshot, run.work)
                             else Result(run.outcome, !run.unknown, 0, [], map[], task.snapshot, run.work))
      ensures run == old(run).(work := run.work)
    {
      hide ExactField, BestRoute, Unreached, WorkBound, RefusalWorkBound, PopOk, EdgesOk, ReconstructOk, ExportOk, Met, TooDear, Cramped, Malformed, Clean, Doubtful, Agrees;
      var r := run.(work := run.work + 1);
      var published := Result(r.outcome, !r.unknown, 0, [], map[], task.snapshot, r.work);
      if r.outcome.Found? {
        published := published.(cost := r.routeCost, route := r.route, guidance := r.guidance);
      }
      run, result, state := r, Some(published), Ready;
    }

    method Step()
      requires Valid() && state.Pending?
      modifies this`run, this`evidence, this`state, this`result
      ensures Valid() && (state.Pending? || state.Ready?) && run.work == old(run.work) + 1
    {
      hide RunOk, Delivered;
      match run.phase {
        case Init => StepInit();
        case Seed => StepSeed();
        case Pop => StepPop();
        case Edges => StepEdges();
        case Reconstruct => StepReconstruct();
        case Swap => StepSwap();
        case Export => StepExport();
        case Publish => StepPublish();
      }
    }

    /** Spend at most `items` items; less only when the query leaves the pending state. */
    method Advance(items: nat) returns (done: nat)
      requires Valid()
      modifies this`run, this`evidence, this`state, this`result
      ensures Valid() && done <= items && run.work == old(run.work) + done
      ensures done < items ==> !state.Pending?
      ensures !old(state).Pending? ==> state == old(state) && done == 0
      ensures old(state).Pending? ==> state.Pending? || state.Ready?
    {
      hide RunOk, Delivered;
      done := 0;
      while done < items && state.Pending?
        invariant Valid() && done <= items && run.work == old(run.work) + done
        invariant !old(state).Pending? ==> state == old(state) && done == 0
        invariant old(state).Pending? ==> state.Pending? || state.Ready?
      {
        Step();
        done := done + 1;
      }
    }

    method Cancel()
      requires Valid()
      modifies this`state
      ensures Valid() && state == if old(state).Pending? then Cancelled else old(state)
    {
      if state.Pending? {
        state := Cancelled;
      }
    }

    method Supersede()
      requires Valid()
      modifies this`state
      ensures Valid() && state == if old(state).Pending? then Superseded else old(state)
    {
      if state.Pending? {
        state := Superseded;
      }
    }

    /** The host replaced the snapshot: pending work and finished results are both stale. */
    method RequireSnapshot(current: Snapshot)
      requires Valid()
      modifies this`state
      ensures Valid()
      ensures state == if task.snapshot != current && (old(state).Pending? || old(state).Ready?) then Stale else old(state)
    {
      if task.snapshot != current && (state.Pending? || state.Ready?) {
        state := Stale;
      }
    }

    /**
     The synchronous driver: slices of `slice` items until the query is ready, which it always becomes. With
     room and sound input it answers, and finds exactly what there is.
     */
    method Complete(slice: nat)
      requires Valid() && state.Pending? && slice > 0
      modifies this`run, this`evidence, this`state, this`result
      ensures Valid() && state.Ready? && Delivered()
      ensures Roomy(task) && WellPosed(task) ==>
                !result.value.outcome.CapacityExceeded? && !result.value.outcome.InvalidInput? &&
                (result.value.outcome.Found? <==> Answerable(task))
    {
      hide RunOk, Truthful, Affordable, Roomy, WellPosed, Answerable;
      while state.Pending?
        invariant Valid() && (state.Pending? || state.Ready?)
        decreases WorkBound(task.limits, |task.goals|, maxDegree) - run.work, state.Pending?
      {
        PendingIsAffordable(task, maxDegree, run, evidence);
        var done := Advance(slice);
      }
      if Roomy(task) && WellPosed(task) {
        var r := result.value;
        RoomyQueryAnswers(task, r.outcome, r.exact, r.cost, r.route, r.guidance);
      }
    }
  }
}
