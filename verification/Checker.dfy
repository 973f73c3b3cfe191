/**
 The benchmark's un-timed checks of what the production query published, and the timed consumption they
 vouch for. A failed check aborts in the source; here it is a `false` result.
 */
module GuidanceChecker {
  import opened Machine
  import opened Graph
  import opened NavigationOracle
  import opened NavigationSearch
  import opened NavigationPromises
  import opened Options

  type Field = map<Location, Guidance>

  /** The identities of the domains of one fixture, by role, and the snapshot its queries run on. */
  datatype Fixture = Fixture(identity: seq<nat>, snapshot: Snapshot)
  {
    ghost predicate Valid() {
      forall i, j :: 0 <= i < j < |identity| ==> identity[i] != identity[j]
    }

    function Absolute(at: Location): Location {
      if at.domain < |identity| then Location(identity[at.domain], at.node) else at
    }

    /** The role of an identity; the source aborts on a foreign domain. */
    function RoleOf(id: nat, role: nat): Option<nat>
      requires role <= |identity|
      decreases |identity| - role
    {
      if role == |identity| then None else if identity[role] == id then Some(role) else RoleOf(id, role + 1)
    }

    function Relative(at: Location): Option<Location> {
      var role := RoleOf(at.domain, 0);
      if role.None? then None else Some(Location(role.value, at.node))
    }
  }

  lemma {:induction false} RoleFound(f: Fixture, role: nat, from: nat)
    requires f.Valid() && from <= role < |f.identity|
    ensures f.RoleOf(f.identity[role], from) == Some(role)
    decreases role - from
  {
    if from < role {
      RoleFound(f, role, from + 1);
    }
  }

  lemma {:induction false} RoleIsRight(f: Fixture, id: nat, from: nat)
    requires from <= |f.identity|
    ensures f.RoleOf(id, from).Some? ==> f.RoleOf(id, from).value < |f.identity| && f.identity[f.RoleOf(id, from).value] == id
    decreases |f.identity| - from
  {
    if from < |f.identity| && f.identity[from] != id {
      RoleIsRight(f, id, from + 1);
    }
  }

  // ------------------------------------------------------------------------------------------------
  // One transition

  /**
   The transition leaves the cursor, is legal, crosses domains exactly when it claims to, and equals an
   oracle edge between its endpoints in cost, identity and key; equal edges are identified exactly off the
   grids.
   */
  ghost predicate Accepted(f: Fixture, g: Network, road: nat, t: Transition, cursor: Location) {
    && t.from == cursor && t.availability.Legal? && (t.connection <==> t.from.domain != t.to.domain)
    && f.Relative(t.from).Some? && f.Relative(t.to).Some?
    && var from, to := f.Relative(t.from).value, f.Relative(t.to).value;
      && (exists e :: e in g.edges && e.from == from && e.to == to && e.cost == t.cost && e.id == t.id && e.key == t.key)
      && (forall e :: e in g.edges && e.from == from && e.to == to && e.cost == t.cost && e.id == t.id && e.key == t.key ==>
            (e.identified <==> t.connection || from.domain == road))
  }

  method CheckTransition(f: Fixture, g: Network, groups: Groups, road: nat, t: Transition, cursor: Location) returns (ok: bool)
    requires g.Indexed() && Grouped(g.edges, groups)
    ensures ok <==> Accepted(f, g, road, t, cursor)
  {
    if t.from != cursor || !t.availability.Legal? || t.connection != (t.from.domain != t.to.domain) {
      return false;
    }
    var source, target := f.Relative(t.from), f.Relative(t.to);
    if source.None? || target.None? {
      return false;
    }
    var from, to := source.value, target.value;
    if (from, to) !in groups {
      return false;
    }
    var found, matched := groups[(from, to)], false;
    for i := 0 to |found|
      invariant matched <==> exists k :: 0 <= k < i && g.edges[found[k]].cost == t.cost && g.edges[found[k]].id == t.id && g.edges[found[k]].key == t.key
      invariant forall k :: 0 <= k < i && g.edges[found[k]].cost == t.cost && g.edges[found[k]].id == t.id && g.edges[found[k]].key == t.key ==>
                  (g.edges[found[k]].identified <==> t.connection || from.domain == road)
    {
      var edge := g.edges[found[i]];
      if edge.cost == t.cost && edge.id == t.id && edge.key == t.key {
        if edge.identified != (t.connection || from.domain == road) {
          return false;
        }
        matched := true;
      }
    }
    GroupIsComplete(g, groups, from, to);
    return matched;
  }

  lemma GroupIsComplete(g: Network, groups: Groups, from: Location, to: Location)
    requires Grouped(g.edges, groups) && (from, to) in groups
    ensures forall e :: e in g.edges && e.from == from && e.to == to <==>
                        exists k :: 0 <= k < |groups[(from, to)]| && g.edges[groups[(from, to)][k]] == e
  {
  }

  // ------------------------------------------------------------------------------------------------
  // Following guidance

  /** Where the successors of a field lead from `start` in `i` steps, as long as they lead anywhere. */
  function After(field: Field, start: Location, i: nat): Option<Location> {
    if i == 0 then Some(start) else
      var at := After(field, start, i - 1);
      if at.Some? && at.value in field && field[at.value].next.Some? then Some(field[at.value].next.value.to) else None
  }

  /** The `i`-th transition taken. */
  function Taken(field: Field, start: Location, i: nat): Transition
    requires After(field, start, i + 1).Some?
  {
    field[After(field, start, i).value].next.value
  }

  /** The values mixed into the running hash, in order, with the step and cost counters. */
  datatype Fold = Fold(mixed: seq<nat>, steps: nat, cost: nat)
  {
    function Step(t: Transition): Fold {
      Fold(mixed + [t.from.domain, t.from.node, t.to.domain, t.to.node, t.id, t.cost], steps + 1, cost + t.cost)
    }

    function Finish(total: nat): Fold {
      this.(mixed := mixed + [total, 0xA5])
    }
  }

  ghost function Folded(field: Field, start: Location, i: nat, fold: Fold): Fold
    requires After(field, start, i).Some?
  {
    if i == 0 then fold else Folded(field, start, i - 1, fold).Step(Taken(field, start, i - 1))
  }

  /** What the parameters of one guidance check are. */
  datatype Request = Request(start: Location, goal: Location, expected: u64)

  /** Step `i` of the walk is an accepted transition and accounts for the difference of the two labels. */
  ghost predicate GoodStep(f: Fixture, g: Network, road: nat, field: Field, start: Location, i: nat) {
    var at := After(field, start, i);
    && at.Some? && at.value in field && field[at.value].next.Some?
    && var t := field[at.value].next.value;
      && Accepted(f, g, road, t, at.value)
      && t.to in field && field[at.value].cost == WrapAdd(t.cost, field[t.to].cost)
  }

  /** After exactly `n` good steps the walk stands on the goal, which has label zero and no successor. */
  ghost predicate Walks(f: Fixture, g: Network, road: nat, field: Field, r: Request, n: nat) {
    && n <= |g.states|
    && r.start in field && field[r.start].cost == r.expected
    && (forall i: nat :: i < n ==> GoodStep(f, g, road, field, r.start, i))
    && After(field, r.start, n) == Some(r.goal)
    && r.goal in field && field[r.goal].next.None? && field[r.goal].cost == 0
    && StepCosts(field, r.start, n) % TWO64 == r.expected
  }

  ghost function StepCosts(field: Field, start: Location, n: nat): nat {
    if n == 0 then 0
    else if After(field, start, n).None? then 0
    else StepCosts(field, start, n - 1) + Taken(field, start, n - 1).cost
  }

  /** A field found exact on the current snapshot, without a route, whose successors lead from the request's start to its goal in `n` steps. */
  ghost predicate GuidanceAccepted(f: Fixture, g: Network, road: nat, published: Result, r: Request, n: nat) {
    && published.outcome.Found? && published.exact && published.snapshot == f.snapshot
    && published.route == [] && Walks(f, g, road, published.guidance, r, n)
  }

  /** The check follows successors from the request's start, and aborts on the first thing out of order. */
  method CheckGuidance(f: Fixture, g: Network, groups: Groups, road: nat, published: Result, r: Request, fold: Fold)
    returns (ok: bool, checked: Fold, ghost n: nat)
    requires g.Indexed() && Grouped(g.edges, groups)
    ensures ok ==> GuidanceAccepted(f, g, road, published, r, n)
                   && var walked := Folded(published.guidance, r.start, n, fold);
                      checked == Fold(walked.mixed + [r.expected, 0xA5], walked.steps, walked.cost)
    ensures !ok ==> forall k: nat :: !GuidanceAccepted(f, g, road, published, r, k)
  {
    hide Accepted, After, Folded;
    var field := published.guidance;
    checked, n := fold, 0;
    if !published.outcome.Found? || !published.exact || published.snapshot != f.snapshot || published.route != [] {
      return false, checked, n;
    }
    if r.start !in field || field[r.start].cost != r.expected {
      return false, checked, n;
    }
    var at, cost: u64, steps: nat := r.start, 0, 0;
    AfterNone(field, r.start, fold);
    while field[at].next.Some?
      invariant n == steps <= |g.states| && at in field && After(field, r.start, n) == Some(at)
      invariant forall i: nat :: i < n ==> GoodStep(f, g, road, field, r.start, i)
      invariant checked == Folded(field, r.start, n, fold)
      invariant StepCosts(field, r.start, n) % TWO64 == cost
      decreases |g.states| - n
    {
      var next := field[at].next.value;
      AfterStep(field, r.start, n, fold, at);
      NotYet(f, g, road, field, r, n, at);
      steps := steps + 1;
      if steps > |g.states| {
        return false, checked, n;
      }
      var accepted := CheckTransition(f, g, groups, road, next, at);
      if !accepted || next.to !in field || field[at].cost != WrapAdd(next.cost, field[next.to].cost) {
        assert !GoodStep(f, g, road, field, r.start, n);
        return false, checked, n;
      }
      assert GoodStep(f, g, road, field, r.start, n);
      WrapAccumulates(StepCosts(field, r.start, n), cost, next.cost);
      cost := WrapAdd(cost, next.cost);
      checked := checked.Step(next);
      at := next.to;
      n := n + 1;
    }
    AtEnd(f, g, road, field, r, n, at);
    ok := at == r.goal && field[at].cost == 0 && cost == r.expected;
    checked := checked.Finish(r.expected);
  }

  lemma WrapAccumulates(sum: nat, cost: u64, more: u64)
    requires sum % TWO64 == cost
    ensures (sum + more) % TWO64 == WrapAdd(cost, more)
  {
  }

  lemma AfterNone(field: Field, start: Location, fold: Fold)
    ensures After(field, start, 0) == Some(start) && Folded(field, start, 0, fold) == fold
    ensures StepCosts(field, start, 0) == 0
  {
  }

  lemma AfterStep(field: Field, start: Location, n: nat, fold: Fold, at: Location)
    requires After(field, start, n) == Some(at) && at in field && field[at].next.Some?
    ensures After(field, start, n + 1) == Some(field[at].next.value.to) && Taken(field, start, n) == field[at].next.value
    ensures Folded(field, start, n + 1, fold) == Folded(field, start, n, fold).Step(field[at].next.value)
    ensures StepCosts(field, start, n + 1) == StepCosts(field, start, n) + field[at].next.value.cost
  {
  }

  lemma {:induction false} AfterStays(field: Field, start: Location, n: nat, m: nat)
    requires n <= m && After(field, start, m).Some?
    ensures After(field, start, n).Some?
    ensures n < m ==> After(field, start, n).value in field && field[After(field, start, n).value].next.Some?
    decreases m - n
  {
    if n < m {
      AfterStays(field, start, n, m - 1);
    }
  }

  /** A walk that can still continue has not arrived: its length exceeds the steps taken. */
  lemma NotYet(f: Fixture, g: Network, road: nat, field: Field, r: Request, n: nat, at: Location)
    requires After(field, r.start, n) == Some(at) && at in field && field[at].next.Some?
    ensures forall k: nat :: Walks(f, g, road, field, r, k) ==> n < k && GoodStep(f, g, road, field, r.start, n)
  {
    hide Accepted, After;
    forall k: nat | Walks(f, g, road, field, r, k) ensures n < k {
      if k < n {
        AfterStays(field, r.start, k, n);
      }
    }
  }

  /** A walk that cannot continue is over: no other length can be the right one. */
  lemma AtEnd(f: Fixture, g: Network, road: nat, field: Field, r: Request, n: nat, at: Location)
    requires After(field, r.start, n) == Some(at) && at in field && field[at].next.None?
    ensures forall k: nat :: Walks(f, g, road, field, r, k) ==> k == n
  {
    hide Accepted, After;
    forall k: nat | Walks(f, g, road, field, r, k) ensures k == n {
      if k < n {
        AfterStays(field, r.start, k, n);
      } else if n < k {
        AfterStays(field, r.start, n, k);
      }
    }
  }

  // ------------------------------------------------------------------------------------------------
  // The complete field, and the timed walk

  /** Exactly one label per state, each with the oracle's distance. */
  ghost predicate Complete(f: Fixture, g: Network, field: Field, distances: seq<u64>)
    requires g.Indexed() && |distances| == |g.states|
  {
    && |field| == |g.states|
    && forall i :: 0 <= i < |g.states| ==>
         f.Absolute(g.states[i]) in field && field[f.Absolute(g.states[i])].cost == distances[g.index[g.states[i]]]
  }

  method CheckCompleteField(f: Fixture, g: Network, field: Field, distances: seq<u64>) returns (ok: bool)
    requires g.Indexed() && |distances| == |g.states|
    ensures ok <==> Complete(f, g, field, distances)
  {
    if |field| != |g.states| {
      return false;
    }
    for i := 0 to |g.states|
      invariant forall k :: 0 <= k < i ==>
                  f.Absolute(g.states[k]) in field && field[f.Absolute(g.states[k])].cost == distances[g.index[g.states[k]]]
    {
      var at := f.Absolute(g.states[i]);
      if at !in field || field[at].cost != distances[g.index[g.states[i]]] {
        return false;
      }
    }
    return true;
  }

  /** Successors lead from a labelled start to the goal in `n` steps, and stop there. */
  ghost predicate LeadsTo(field: Field, start: Location, goal: Location, n: nat) {
    start in field && After(field, start, n) == Some(goal) && goal in field && field[goal].next.None?
  }

  /** The timed consumption: `None` where the source aborts. */
  method FollowGuidance(field: Field, start: Location, goal: Location, maxSteps: nat, fold: Fold) returns (r: Option<Fold>)
    ensures forall n: nat :: LeadsTo(field, start, goal, n) && n <= maxSteps ==>
              var walked := Folded(field, start, n, fold);
              r == Some(Fold(walked.mixed + [field[start].cost, 0xA5], walked.steps, walked.cost))
    ensures r.Some? ==> exists n: nat :: n <= maxSteps && LeadsTo(field, start, goal, n)
  {
    hide After, Folded;
    if start !in field {
      return None;
    }
    var at, folded, steps := start, fold, 0;
    AfterNone(field, start, fold);
    while field[at].next.Some?
      invariant at in field && steps <= maxSteps && After(field, start, steps) == Some(at)
      invariant folded == Folded(field, start, steps, fold)
      decreases maxSteps - steps
    {
      AfterStep(field, start, steps, fold, at);
      NotThereYet(field, start, goal, steps, at);
      if steps == maxSteps {
        return None;
      }
      folded := folded.Step(field[at].next.value);
      at := field[at].next.value.to;
      steps := steps + 1;
      if at !in field {
        LeftTheField(field, start, goal, steps, at);
        return None;
      }
    }
    ThereAtLast(field, start, goal, steps, at);
    if at != goal {
      return None;
    }
    r := Some(folded.Finish(field[start].cost));
  }

  lemma NotThereYet(field: Field, start: Location, goal: Location, n: nat, at: Location)
    requires After(field, start, n) == Some(at) && at in field && field[at].next.Some?
    ensures forall k: nat :: LeadsTo(field, start, goal, k) ==> n < k
  {
    hide After;
    forall k: nat | LeadsTo(field, start, goal, k) ensures n < k {
      if k < n {
        AfterStays(field, start, k, n);
      }
    }
  }

  lemma LeftTheField(field: Field, start: Location, goal: Location, n: nat, at: Location)
    requires After(field, start, n) == Some(at) && at !in field
    ensures forall k: nat :: !LeadsTo(field, start, goal, k)
  {
    hide After;
    forall k: nat ensures !LeadsTo(field, start, goal, k) {
      if LeadsTo(field, start, goal, k) {
        if k < n {
          AfterStays(field, start, k, n);
        } else if n < k {
          AfterStays(field, start, n, k);
        }
      }
    }
  }

  lemma ThereAtLast(field: Field, start: Location, goal: Location, n: nat, at: Location)
    requires After(field, start, n) == Some(at) && at in field && field[at].next.None?
    ensures forall k: nat :: LeadsTo(field, start, goal, k) ==> k == n
  {
    hide After;
    forall k: nat | LeadsTo(field, start, goal, k) ensures k == n {
      if k < n {
        AfterStays(field, start, k, n);
      } else if n < k {
        AfterStays(field, start, n, k);
      }
    }
  }

  // ------------------------------------------------------------------------------------------------
  // Extracted routes

  /** Where a route stands before its `i`-th transition. */
  function Cursor(route: seq<Transition>, start: Location, i: nat): Location
    requires i <= |route|
  {
    if i == 0 then start else route[i - 1].to
  }

  function RouteSum(route: seq<Transition>, n: nat): nat
    requires n <= |route|
  {
    if n == 0 then 0 else RouteSum(route, n - 1) + route[n - 1].cost
  }

  function RouteFold(route: seq<Transition>, n: nat, fold: Fold): Fold
    requires n <= |route|
  {
    if n == 0 then fold else RouteFold(route, n - 1, fold).Step(route[n - 1])
  }

  /** The values of a transition stand in `mixed` from `at` on. */
  predicate MixedAt(mixed: seq<nat>, at: nat, t: Transition) {
    && at + 6 <= |mixed|
    && mixed[at] == t.from.domain && mixed[at + 1] == t.from.node && mixed[at + 2] == t.to.domain && mixed[at + 3] == t.to.node
    && mixed[at + 4] == t.id && mixed[at + 5] == t.cost
  }

  function Mixed(t: Transition): seq<nat> {
    [t.from.domain, t.from.node, t.to.domain, t.to.node, t.id, t.cost]
  }

  lemma MixNext(mixed: seq<nat>, t: Transition)
    ensures MixedAt(mixed + Mixed(t), |mixed|, t)
  {
  }

  lemma MixStays(mixed: seq<nat>, t: Transition, at: nat, u: Transition)
    requires MixedAt(mixed, at, u)
    ensures MixedAt(mixed + Mixed(t), at, u)
  {
  }

  /** The hash runs over both ends, identity and cost of every transition of the route, in that order. */
  lemma {:induction false} RouteFoldIs(route: seq<Transition>, n: nat, fold: Fold)
    requires n <= |route|
    ensures var r := RouteFold(route, n, fold);
            && |r.mixed| == |fold.mixed| + 6 * n && r.mixed[..|fold.mixed|] == fold.mixed
            && r.steps == fold.steps + n && r.cost == fold.cost + RouteSum(route, n)
            && forall i: nat :: i < n ==> MixedAt(r.mixed, |fold.mixed| + 6 * i, route[i])
  {
    if n > 0 {
      RouteFoldIs(route, n - 1, fold);
      var before := RouteFold(route, n - 1, fold).mixed;
      var t := route[n - 1];
      MixNext(before, t);
      forall i: nat | i < n - 1 ensures MixedAt(before + Mixed(t), |fold.mixed| + 6 * i, route[i]) {
        MixStays(before, t, |fold.mixed| + 6 * i, route[i]);
      }
      assert (before + Mixed(t))[..|fold.mixed|] == before[..|fold.mixed|];
    }
  }

  /** The route a field spells out from a start. */
  ghost function Spelled(field: Field, start: Location, n: nat): (route: seq<Transition>)
    requires After(field, start, n).Some?
    ensures |route| == n
  {
    if n == 0 then [] else Spelled(field, start, n - 1) + [Taken(field, start, n - 1)]
  }

  lemma {:induction false} SameBeginning(route: seq<Transition>, t: Transition, n: nat, fold: Fold)
    requires n <= |route|
    ensures RouteFold(route + [t], n, fold) == RouteFold(route, n, fold) && RouteSum(route + [t], n) == RouteSum(route, n)
  {
    if n > 0 {
      SameBeginning(route, t, n - 1, fold);
      assert (route + [t])[n - 1] == route[n - 1];
    }
  }

  /** Following a field is following the route it spells out: the same places, the same sum, the same hash. */
  lemma {:induction false} FollowingIsRouting(field: Field, start: Location, n: nat, fold: Fold)
    requires After(field, start, n).Some?
    ensures var route := Spelled(field, start, n);
            && Folded(field, start, n, fold) == RouteFold(route, n, fold) && StepCosts(field, start, n) == RouteSum(route, n)
            && After(field, start, n) == Some(Cursor(route, start, n))
            && forall i :: 0 <= i < n ==> Cursor(route, start, i) in field && field[Cursor(route, start, i)].next == Some(route[i])
  {
    if n > 0 {
      FollowingIsRouting(field, start, n - 1, fold);
      var before, t := Spelled(field, start, n - 1), Taken(field, start, n - 1);
      SameBeginning(before, t, n - 1, fold);
      assert (before + [t])[n - 1] == t;
      forall i | 0 <= i < n ensures Cursor(before + [t], start, i) == Cursor(before, start, i) {
        assert i > 0 ==> (before + [t])[i - 1] == before[i - 1];
      }
    }
  }

  /** Every transition is accepted where the route stands, the route ends on the goal, and the costs add up to what was expected. */
  ghost predicate RouteAccepted(f: Fixture, g: Network, road: nat, route: seq<Transition>, r: Request) {
    && (forall i :: 0 <= i < |route| ==> Accepted(f, g, road, route[i], Cursor(route, r.start, i)))
    && Cursor(route, r.start, |route|) == r.goal && RouteSum(route, |route|) % TWO64 == r.expected
  }

  /** A route found exact on the current snapshot, of the expected cost, without guidance, accepted step by step. */
  ghost predicate PublishedRouteAccepted(f: Fixture, g: Network, road: nat, published: Result, r: Request) {
    && published.outcome.Found? && published.exact && published.snapshot == f.snapshot
    && published.guidance == map[] && published.cost == r.expected
    && RouteAccepted(f, g, road, published.route, r)
  }

  method CheckRoute(f: Fixture, g: Network, groups: Groups, road: nat, published: Result, r: Request, fold: Fold)
    returns (ok: bool, checked: Fold)
    requires g.Indexed() && Grouped(g.edges, groups)
    ensures ok <==> PublishedRouteAccepted(f, g, road, published, r)
    ensures ok ==> var walked := RouteFold(published.route, |published.route|, fold);
                   checked == Fold(walked.mixed + [published.cost, 0xA5], walked.steps, walked.cost)
  {
    hide Accepted;
    var route, cost := published.route, published.cost;
    checked := fold;
    if !published.outcome.Found? || !published.exact || published.snapshot != f.snapshot || cost != r.expected || published.guidance != map[] {
      return false, checked;
    }
    var cursor, sum: u64 := r.start, 0;
    for i := 0 to |route|
      invariant cursor == Cursor(route, r.start, i) && sum == RouteSum(route, i) % TWO64
      invariant checked == RouteFold(route, i, fold)
      invariant forall j :: 0 <= j < i ==> Accepted(f, g, road, route[j], Cursor(route, r.start, j))
    {
      var accepted := CheckTransition(f, g, groups, road, route[i], cursor);
      if !accepted {
        return false, checked;
      }
      WrapAccumulates(RouteSum(route, i), sum, route[i].cost);
      sum := WrapAdd(sum, route[i].cost);
      cursor := route[i].to;
      checked := checked.Step(route[i]);
    }
    ok := cursor == r.goal && sum == cost;
    checked := checked.Finish(cost);
  }

  lemma AcceptedEdge(f: Fixture, g: Network, road: nat, t: Transition, cursor: Location) returns (e: Edge)
    requires Accepted(f, g, road, t, cursor)
    ensures f.Relative(cursor).Some? && f.Relative(t.to).Some?
    ensures e in g.edges && e.AsArc() == Arc(f.Relative(cursor).value, f.Relative(t.to).value, t.cost) && e.id == t.id && e.key == t.key
    ensures e.AsArc() in g.Arcs()
  {
    hide Fixture.Relative;
    e :| e in g.edges && e.from == f.Relative(t.from).value && e.to == f.Relative(t.to).value &&
         e.cost == t.cost && e.id == t.id && e.key == t.key;
  }

  lemma {:induction false} RouteIsWalk(f: Fixture, g: Network, road: nat, route: seq<Transition>, start: Location, n: nat) returns (w: Walk)
    requires f.Valid() && n <= |route| && f.Relative(start).Some?
    requires forall i :: 0 <= i < |route| ==> Accepted(f, g, road, route[i], Cursor(route, start, i))
    ensures f.Relative(Cursor(route, start, n)).Some?
    ensures IsWalk(g.Arcs(), f.Relative(start).value, w) && End(f.Relative(start).value, w) == f.Relative(Cursor(route, start, n)).value
    ensures Cost(w) == RouteSum(route, n)
    decreases n
  {
    hide Fixture.Relative, Accepted, IsWalk, Network.Arcs;
    if n == 0 {
      w := [];
      assert IsWalk(g.Arcs(), f.Relative(start).value, w) by {
        EmptyWalk(g.Arcs(), f.Relative(start).value);
      }
    } else {
      var before := RouteIsWalk(f, g, road, route, start, n - 1);
      var t := route[n - 1];
      var e := AcceptedEdge(f, g, road, t, Cursor(route, start, n - 1));
      AppendArc(g.Arcs(), f.Relative(start).value, before, e.AsArc());
      w := before + [e.AsArc()];
    }
  }

  lemma EmptyWalk(arcs: iset<Arc>, x: Location)
    ensures IsWalk(arcs, x, [])
  {
  }

  lemma {:induction false} AppendArc(arcs: iset<Arc>, x: Location, w: Walk, a: Arc)
    requires IsWalk(arcs, x, w) && a in arcs && a.from == End(x, w)
    ensures IsWalk(arcs, x, w + [a]) && End(x, w + [a]) == a.to && Cost(w + [a]) == Cost(w) + a.cost
    decreases |w|
  {
    if w == [] {
      assert [] + [a] == [a] && [a][1..] == [];
    } else {
      AppendArc(arcs, w[0].to, w[1..], a);
      assert (w + [a])[1..] == w[1..] + [a] && (w + [a])[0] == w[0];
    }
  }

  /**
   An accepted route is a walk of the oracle graph from the request's start to its goal. The check adds up
   costs in 64 bits, so it costs what was expected, and no walk is cheaper, exactly if the true sum fits.
   */
  lemma AcceptedRouteIsShortest(f: Fixture, g: Network, road: nat, route: seq<Transition>, r: Request, goal: nat) returns (w: Walk)
    requires f.Valid() && g.Indexed() && g.Canonical(goal) && RouteAccepted(f, g, road, route, r)
    requires f.Relative(r.goal) == Some(g.states[goal]) && f.Relative(r.start).Some?
    requires IsDistance(g.Arcs(), Target(g, goal), f.Relative(r.start).value, r.expected)
    ensures Arrives(g.Arcs(), Target(g, goal), f.Relative(r.start).value, w) && Cost(w) == RouteSum(route, |route|)
    ensures IsDistance(g.Arcs(), Target(g, goal), f.Relative(r.start).value, Cost(w)) <==> RouteSum(route, |route|) < TWO64
  {
    hide Accepted, Fixture.Relative;
    w := RouteIsWalk(f, g, road, route, r.start, |route|);
    var x := f.Relative(r.start).value;
    assert Arrives(g.Arcs(), Target(g, goal), x, w);
    OneDistance(g.Arcs(), Target(g, goal), x, r.expected);
  }

  lemma OneDistance(arcs: iset<Arc>, seeds: map<Location, nat>, x: Location, d: nat)
    requires IsDistance(arcs, seeds, x, d)
    ensures forall e: nat :: IsDistance(arcs, seeds, x, e) ==> e == d
  {
  }

  // A route the check accepts although it is not a cheapest one: its sum wraps onto the true distance.

  const HALF: u64 := 0x8000_0000_0000_0000

  function Single(): Fixture {
    Fixture([0], Snapshot(true, true, map[], map[], map[]))
  }

  function Shortcut(): Network {
    Network([HOME, MIDDLE, FAR], map[HOME := 0, MIDDLE := 1, FAR := 2],
            [Edge(FAR, HOME, 0, 5, 0, false), Edge(FAR, MIDDLE, 1, HALF + 3, 0, false), Edge(MIDDLE, HOME, 2, HALF + 2, 0, false)],
            [[0, 2], [1], []])
  }

  function Detour(): seq<Transition> {
    [Transition(FAR, MIDDLE, 1, HALF + 3, 0, Legal, false), Transition(MIDDLE, HOME, 2, HALF + 2, 0, Legal, false)]
  }

  lemma DetourStep(t: Transition)
    requires t in Detour()
    ensures Accepted(Single(), Shortcut(), 1, t, t.from)
  {
    var g := Shortcut();
    assert Single().Relative(t.from) == Some(t.from) && Single().Relative(t.to) == Some(t.to);
    assert g.edges[1] in g.edges && g.edges[2] in g.edges;
    var e := if t.to == MIDDLE then g.edges[1] else g.edges[2];
    assert e in g.edges && e.from == t.from && e.to == t.to && e.cost == t.cost && e.id == t.id && e.key == t.key;
  }

  ghost function ShortcutArcs(): iset<Arc> {
    iset{Arc(FAR, HOME, 5), Arc(FAR, MIDDLE, HALF + 3), Arc(MIDDLE, HOME, HALF + 2)}
  }

  lemma ShortcutIsIndexed()
    ensures Shortcut().Indexed() && Shortcut().Canonical(0) && Shortcut().Arcs() == ShortcutArcs()
  {
    var g := Shortcut();
    assert g.edges[0] in g.edges && g.edges[1] in g.edges && g.edges[2] in g.edges;
  }

  function Depth(at: Location): nat {
    if at == FAR then 5 else if at == MIDDLE then HALF + 2 else 0
  }

  lemma ShortcutDescends(region: iset<Location>)
    requires region == iset{HOME, MIDDLE, FAR}
    ensures Descending(ShortcutArcs(), map[HOME := 0], Depth, Hops, region)
  {
    forall x | x in region && Hops(x) != 0
      ensures exists a :: a in ShortcutArcs() && a.from == x && a.to in region && Depth(x) == a.cost + Depth(a.to) && Hops(x) == 1 + Hops(a.to)
    {
      var a := Arc(x, HOME, Depth(x));
      assert a in ShortcutArcs();
    }
  }

  lemma ShortcutDistance(at: Location)
    requires at in {HOME, MIDDLE, FAR}
    ensures Reaches(ShortcutArcs(), map[HOME := 0], at) && Distance(ShortcutArcs(), map[HOME := 0], at) == Depth(at)
  {
    hide Descending, Reaches, Distance, Hops;
    assert Shallow(ShortcutArcs(), map[HOME := 0], Depth);
    ShortcutDescends(iset{HOME, MIDDLE, FAR});
    hide ShortcutArcs, Depth;
    PotentialIsDistance(ShortcutArcs(), map[HOME := 0], Depth, Hops, iset{HOME, MIDDLE, FAR}, at);
  }

  lemma ShortcutIsShort()
    ensures Shortcut().Indexed() && Shortcut().Canonical(0)
    ensures IsDistance(Shortcut().Arcs(), Target(Shortcut(), 0), FAR, 5)
    ensures Exact(Shortcut(), 0, [0, HALF + 2, 5])
  {
    hide Reaches, Network.Arcs, ShortcutArcs, IsDistance;
    ShortcutIsIndexed();
    ShortcutDistance(HOME);
    ShortcutDistance(MIDDLE);
    ShortcutDistance(FAR);
    assert Target(Shortcut(), 0) == map[HOME := 0];
  }

  /** All that the check asks for holds of the detour, and its true cost is 2^64 too much. */
  lemma DetourIsAccepted()
    ensures Single().Valid() && Shortcut().Indexed() && Shortcut().Canonical(0)
    ensures RouteAccepted(Single(), Shortcut(), 1, Detour(), Request(FAR, HOME, 5))
    ensures IsDistance(Shortcut().Arcs(), Target(Shortcut(), 0), FAR, 5) && RouteSum(Detour(), 2) == TWO64 + 5
  {
    hide Accepted, Network.Indexed, Network.Arcs, IsDistance, Shortcut;
    ShortcutIsShort();
    DetourStep(Detour()[0]);
    DetourStep(Detour()[1]);
    assert RouteSum(Detour(), 0) == 0 && RouteSum(Detour(), 1) == HALF + 3;
  }

  /** The same with guidance: exact labels whose successors take the detour. */
  function DetourField(): Field {
    map[FAR := Guidance(5, Some(Detour()[0])), MIDDLE := Guidance(HALF + 2, Some(Detour()[1])), HOME := Guidance(0, None)]
  }

  lemma DetourFieldIsComplete()
    ensures Shortcut().Indexed() && Complete(Single(), Shortcut(), DetourField(), [0, HALF + 2, 5])
  {
    hide Network.Arcs, IsDistance, Exact;
    ShortcutIsShort();
    var field := DetourField();
    assert field.Keys == {FAR, MIDDLE, HOME};
    assert |field| == |field.Keys|;
  }

  /** Both checks accept the field, and following it costs 2^64 more than its label. */
  lemma DetourIsWalked()
    ensures Shortcut().Indexed() && Walks(Single(), Shortcut(), 1, DetourField(), Request(FAR, HOME, 5), 2)
    ensures Complete(Single(), Shortcut(), DetourField(), [0, HALF + 2, 5]) && Exact(Shortcut(), 0, [0, HALF + 2, 5])
    ensures StepCosts(DetourField(), FAR, 2) == TWO64 + 5
  {
    hide Accepted, Network.Indexed, Network.Arcs, IsDistance, Exact, Complete, Folded, After, StepCosts;
    ShortcutIsShort();
    DetourFieldIsComplete();
    DetourStep(Detour()[0]);
    DetourStep(Detour()[1]);
    var field := DetourField();
    AfterNone(field, FAR, Fold([], 0, 0));
    AfterStep(field, FAR, 0, Fold([], 0, 0), FAR);
    AfterStep(field, FAR, 1, Fold([], 0, 0), MIDDLE);
    assert GoodStep(Single(), Shortcut(), 1, field, FAR, 0);
    assert GoodStep(Single(), Shortcut(), 1, field, FAR, 1);
  }

  // ------------------------------------------------------------------------------------------------
  // Soundness: what the two checks accept is optimal

  lemma RelativeOfAbsolute(f: Fixture, at: Location)
    requires f.Valid()
    ensures at.domain < |f.identity| ==> f.Relative(f.Absolute(at)) == Some(at)
    ensures f.Relative(at).Some? ==> f.Absolute(f.Relative(at).value) == at && f.Relative(at).value.domain < |f.identity|
  {
    if at.domain < |f.identity| {
      RoleFound(f, at.domain, 0);
    }
    RoleIsRight(f, at.domain, 0);
  }

  /** A complete field labels the absolute location of an indexed state with the oracle's distance. */
  lemma LabelOf(f: Fixture, g: Network, field: Field, distances: seq<u64>, at: Location)
    requires f.Valid() && g.Indexed() && |distances| == |g.states| && Complete(f, g, field, distances)
    requires f.Relative(at).Some? && f.Relative(at).value in g.index
    ensures at in field && field[at].cost == distances[g.index[f.Relative(at).value]]
  {
    RelativeOfAbsolute(f, at);
    var i := g.index[f.Relative(at).value];
    assert f.Absolute(g.states[i]) == at;
  }

  /** The first `i` steps of an accepted walk are a walk of the oracle graph, at the sum of their costs. */
  lemma {:induction false} AcceptedPrefix(f: Fixture, g: Network, road: nat, field: Field, start: Location, i: nat) returns (w: Walk)
    requires f.Relative(start).Some? && forall j: nat :: j < i ==> GoodStep(f, g, road, field, start, j)
    ensures After(field, start, i).Some? && f.Relative(After(field, start, i).value).Some?
    ensures IsWalk(g.Arcs(), f.Relative(start).value, w)
    ensures End(f.Relative(start).value, w) == f.Relative(After(field, start, i).value).value && Cost(w) == StepCosts(field, start, i)
    decreases i
  {
    hide Fixture.Relative, Accepted, IsWalk, Network.Arcs, After, StepCosts;
    AfterNone(field, start, Fold([], 0, 0));
    if i == 0 {
      w := [];
      EmptyWalk(g.Arcs(), f.Relative(start).value);
    } else {
      var before := AcceptedPrefix(f, g, road, field, start, i - 1);
      assert GoodStep(f, g, road, field, start, i - 1);
      var at := After(field, start, i - 1).value;
      AfterStep(field, start, i - 1, Fold([], 0, 0), at);
      var e := AcceptedEdge(f, g, road, field[at].next.value, at);
      AppendArc(g.Arcs(), f.Relative(start).value, before, e.AsArc());
      w := before + [e.AsArc()];
    }
  }

  /**
   If both checks accept, the successors form a walk of the oracle graph and the label of its start is the
   true distance. Both checks compare 64-bit sums, so the walk itself costs that much, and no walk is
   cheaper, exactly if the true sum of its steps fits.
   */
  lemma AcceptedWalkIsShortest(f: Fixture, g: Network, road: nat, field: Field, r: Request, n: nat, goal: nat, distances: seq<u64>)
    returns (w: Walk)
    requires f.Valid() && g.Indexed() && g.Canonical(goal) && |distances| == |g.states|
    requires Walks(f, g, road, field, r, n) && f.Relative(r.goal) == Some(g.states[goal])
    requires Complete(f, g, field, distances) && Exact(g, goal, distances)
    requires f.Relative(r.start).Some? && f.Relative(r.start).value in g.index
    ensures Arrives(g.Arcs(), Target(g, goal), f.Relative(r.start).value, w) && Cost(w) == StepCosts(field, r.start, n)
    ensures IsDistance(g.Arcs(), Target(g, goal), f.Relative(r.start).value, r.expected)
    ensures IsDistance(g.Arcs(), Target(g, goal), f.Relative(r.start).value, Cost(w)) <==> StepCosts(field, r.start, n) < TWO64
  {
    hide Complete, Exact, GoodStep, Fixture.Relative, After, StepCosts;
    var x := f.Relative(r.start).value;
    w := AcceptedPrefix(f, g, road, field, r.start, n);
    assert Arrives(g.Arcs(), Target(g, goal), x, w);
    LabelOf(f, g, field, distances, r.start);
    ExactAt(g, goal, distances, x);
    OneDistance(g.Arcs(), Target(g, goal), x, r.expected);
  }

  // ------------------------------------------------------------------------------------------------
  // Completeness: what the production query publishes passes both checks

  /**
   The query asks for the oracle's goal over the oracle's graph: its usable transitions are exactly the
   oracle's edges, with the same costs, identities and keys.
   */
  ghost predicate Mirrors(f: Fixture, g: Network, road: nat, t: Task, goal: nat)
    requires g.Indexed() && g.Canonical(goal)
  {
    && t.reverse && t.Seeds() == map[f.Absolute(g.states[goal]) := 0]
    && (forall at :: at in g.index ==> at.domain < |f.identity|)
    && (forall e :: Usable(t.snapshot, true, e) ==> Accepted(f, g, road, e, e.from))
    && (forall e :: e in g.edges ==> Arc(f.Absolute(e.from), f.Absolute(e.to), e.cost) in t.Arcs())
  }

  /** The relative location, or the location itself when its domain is foreign. */
  function Localised(f: Fixture, at: Location): Location {
    if f.Relative(at).Some? then f.Relative(at).value else at
  }

  lemma MirrorsRenames(f: Fixture, g: Network, road: nat, t: Task, goal: nat)
    requires f.Valid() && g.Indexed() && g.Canonical(goal) && Mirrors(f, g, road, t, goal)
    ensures Renames(g.Arcs(), t.Arcs(), Target(g, goal), t.Seeds(), at => f.Absolute(at))
  {
    hide Fixture.Absolute, Task.Arcs, Task.Seeds, Network.Arcs, Mirrors, Localised;
    EdgesAreArcs(f, g, road, t, goal);
  }

  lemma MirrorsRenamesBack(f: Fixture, g: Network, road: nat, t: Task, goal: nat)
    requires f.Valid() && g.Indexed() && g.Canonical(goal) && Mirrors(f, g, road, t, goal)
    ensures Renames(t.Arcs(), g.Arcs(), t.Seeds(), Target(g, goal), at => Localised(f, at))
  {
    hide Fixture.Absolute, Task.Arcs, Task.Seeds, Network.Arcs, Mirrors, Localised;
    EdgesAreArcs(f, g, road, t, goal);
    forall a | a in t.Arcs() ensures Arc(Localised(f, a.from), Localised(f, a.to), a.cost) in g.Arcs() {
      ArcIsEdge(f, g, road, t, goal, a);
    }
  }

  lemma EdgesAreArcs(f: Fixture, g: Network, road: nat, t: Task, goal: nat)
    requires f.Valid() && g.Indexed() && g.Canonical(goal) && Mirrors(f, g, road, t, goal)
    ensures t.Seeds() == map[f.Absolute(g.states[goal]) := 0] && Localised(f, f.Absolute(g.states[goal])) == g.states[goal]
    ensures forall a :: a in g.Arcs() ==> Arc(f.Absolute(a.from), f.Absolute(a.to), a.cost) in t.Arcs()
  {
    hide Usable, Accepted, Fixture.Relative, Fixture.Absolute, Prices, SearchArcs;
    RelativeOfAbsolute(f, g.states[goal]);
    assert g.states[goal] in g.index;
    forall a | a in g.Arcs() ensures Arc(f.Absolute(a.from), f.Absolute(a.to), a.cost) in t.Arcs() {
      var e :| e in g.edges && e.AsArc() == a;
    }
  }

  lemma ArcIsEdge(f: Fixture, g: Network, road: nat, t: Task, goal: nat, a: Arc)
    requires f.Valid() && g.Indexed() && g.Canonical(goal) && Mirrors(f, g, road, t, goal) && a in t.Arcs()
    ensures Arc(Localised(f, a.from), Localised(f, a.to), a.cost) in g.Arcs()
    ensures Localised(f, a.from) in g.index && f.Relative(a.from).Some?
  {
    hide Usable, Fixture.Relative;
    var e: Transition :| Usable(t.snapshot, true, e) && Arc(e.from, e.to, e.cost) == a;
    assert Accepted(f, g, road, e, e.from);
  }

  /** Production and oracle agree on every state's distance to the goal. */
  lemma MirroredDistance(f: Fixture, g: Network, road: nat, t: Task, goal: nat, at: Location)
    requires f.Valid() && g.Indexed() && g.Canonical(goal) && Mirrors(f, g, road, t, goal) && at in g.index
    ensures Reaches(g.Arcs(), Target(g, goal), at) <==> Reaches(t.Arcs(), t.Seeds(), f.Absolute(at))
    ensures Reaches(g.Arcs(), Target(g, goal), at) ==>
              Distance(g.Arcs(), Target(g, goal), at) == Distance(t.Arcs(), t.Seeds(), f.Absolute(at))
  {
    hide Fixture.Absolute, Fixture.Relative, Mirrors, Renames, Task.Arcs, Task.Seeds, Network.Arcs;
    MirrorsRenames(f, g, road, t, goal);
    MirrorsRenamesBack(f, g, road, t, goal);
    RelativeOfAbsolute(f, at);
    MirroredState(f, g, road, t, goal, at);
    RenamedDistance(g.Arcs(), t.Arcs(), Target(g, goal), t.Seeds(), at => f.Absolute(at), at => Localised(f, at), at);
  }

  lemma MirroredState(f: Fixture, g: Network, road: nat, t: Task, goal: nat, at: Location)
    requires g.Indexed() && g.Canonical(goal) && Mirrors(f, g, road, t, goal) && at in g.index
    ensures at.domain < |f.identity|
  {
  }

  /** Every location with a route in the production graph is the absolute location of a state. */
  lemma RoutedIsState(f: Fixture, g: Network, road: nat, t: Task, goal: nat, x: Location)
    requires f.Valid() && g.Indexed() && g.Canonical(goal) && Mirrors(f, g, road, t, goal)
    requires Reaches(t.Arcs(), t.Seeds(), x)
    ensures f.Relative(x).Some? && f.Relative(x).value in g.index && f.Absolute(f.Relative(x).value) == x
  {
    hide Usable;
    RelativeOfAbsolute(f, x);
    var w :| Arrives(t.Arcs(), t.Seeds(), x, w);
    if w == [] {
      RelativeOfAbsolute(f, g.states[goal]);
    } else {
      ArcIsEdge(f, g, road, t, goal, w[0]);
    }
  }

  lemma {:induction false} InjectionCardinality<T, U>(a: set<T>, b: set<U>, f: T -> U)
    requires forall x :: x in a ==> f(x) in b
    requires forall x, y :: x in a && y in a && f(x) == f(y) ==> x == y
    ensures |a| <= |b|
  {
    if a != {} {
      var x :| x in a;
      InjectionCardinality(a - {x}, b - {f(x)}, f);
    }
  }

  lemma {:induction false} InjectionBelow<T>(a: set<T>, f: T -> nat, n: nat)
    requires forall x :: x in a ==> f(x) < n
    requires forall x, y :: x in a && y in a && f(x) == f(y) ==> x == y
    ensures |a| <= n
  {
    if a != {} {
      if x :| x in a && f(x) == n - 1 {
        InjectionBelow(a - {x}, f, n - 1);
      } else {
        InjectionBelow(a, f, n - 1);
      }
    }
  }

  lemma FieldFits(f: Fixture, g: Network, road: nat, t: Task, goal: nat, field: Field)
    requires f.Valid() && g.Indexed() && g.Canonical(goal) && Mirrors(f, g, road, t, goal) && ExactField(t, field)
    ensures |field| <= |g.index| <= |g.states|
  {
    hide Mirrors, Leads;
    forall x | x in field ensures Localised(f, x) in g.index && f.Absolute(Localised(f, x)) == x {
      RoutedIsState(f, g, road, t, goal, x);
    }
    InjectionCardinality(field.Keys, g.index.Keys, x => Localised(f, x));
    InjectionBelow(g.index.Keys, at => if at in g.index then g.index[at] else 0, |g.states|);
  }

  /** One published successor is an accepted step of any walk that comes by. */
  lemma PublishedStep(f: Fixture, g: Network, road: nat, t: Task, goal: nat, field: Field, rank: map<Location, nat>,
                      start: Location, i: nat, x: Location)
    requires f.Valid() && g.Indexed() && g.Canonical(goal) && Mirrors(f, g, road, t, goal)
    requires Leads(t, field, rank) && x in field && After(field, start, i) == Some(x) && field[x].next.Some?
    ensures GoodStep(f, g, road, field, start, i)
    ensures var e := field[x].next.value;
            e.to in field && rank[e.to] < rank[x] && field[x].cost == field[e.to].cost + e.cost
  {
    hide Usable, Accepted, After;
    assert LeadsFrom(t, field, rank, x);
  }

  /** From wherever a walk stands, the ranks bring it to the goal. */
  lemma {:induction false} PublishedSuffix(f: Fixture, g: Network, road: nat, t: Task, goal: nat, field: Field, rank: map<Location, nat>,
                                           start: Location, i: nat, x: Location) returns (n: nat)
    requires f.Valid() && g.Indexed() && g.Canonical(goal) && Mirrors(f, g, road, t, goal)
    requires rank.Keys == field.Keys && Leads(t, field, rank)
    requires x in field && start in field && After(field, start, i) == Some(x)
    requires StepCosts(field, start, i) + field[x].cost == field[start].cost
    ensures i <= n <= i + rank[x] && LeadsTo(field, start, f.Absolute(g.states[goal]), n)
    ensures forall j: nat :: i <= j < n ==> GoodStep(f, g, road, field, start, j)
    ensures StepCosts(field, start, n) == field[start].cost && field[f.Absolute(g.states[goal])].cost == 0
    decreases rank[x]
  {
    hide GoodStep, After, StepCosts, Usable, Mirrors, Leads;
    if field[x].next.Some? {
      var e := field[x].next.value;
      PublishedStep(f, g, road, t, goal, field, rank, start, i, x);
      AfterStep(field, start, i, Fold([], 0, 0), x);
      n := PublishedSuffix(f, g, road, t, goal, field, rank, start, i + 1, e.to);
    } else {
      PublishedEnd(f, g, road, t, goal, field, rank, x);
      n := i;
    }
  }

  lemma PublishedEnd(f: Fixture, g: Network, road: nat, t: Task, goal: nat, field: Field, rank: map<Location, nat>, x: Location)
    requires g.Indexed() && g.Canonical(goal) && Mirrors(f, g, road, t, goal)
    requires Leads(t, field, rank) && x in field && field[x].next.None?
    ensures x == f.Absolute(g.states[goal]) && field[x].cost == 0
  {
    hide Usable, Accepted;
    assert LeadsFrom(t, field, rank, x);
  }

  /**
   Whenever the production query finds a field, the guidance check accepts it from every state with a
   route, expecting the oracle's distance, and the complete-field check accepts it exactly when the oracle
   lists no state twice and every state has a route.
   */
  lemma PublishedFieldIsAccepted(f: Fixture, g: Network, road: nat, t: Task, goal: nat, field: Field, distances: seq<u64>)
    requires f.Valid() && g.Indexed() && g.Canonical(goal) && Mirrors(f, g, road, t, goal)
    requires ExactField(t, field) && |distances| == |g.states| && Exact(g, goal, distances)
    ensures forall at :: at in g.index && Reaches(g.Arcs(), Target(g, goal), at) ==>
              exists n: nat :: Walks(f, g, road, field,
                                     Request(f.Absolute(at), f.Absolute(g.states[goal]), distances[g.index[at]]), n)
    ensures Complete(f, g, field, distances) <==>
              |g.index| == |g.states| && forall at :: at in g.index ==> Reaches(g.Arcs(), Target(g, goal), at)
  {
    forall at | at in g.index && Reaches(g.Arcs(), Target(g, goal), at)
      ensures exists n: nat :: Walks(f, g, road, field,
                                     Request(f.Absolute(at), f.Absolute(g.states[goal]), distances[g.index[at]]), n)
    {
      PublishedWalk(f, g, road, t, goal, field, distances, at);
    }
    PublishedIsComplete(f, g, road, t, goal, field, distances);
  }

  lemma PublishedWalk(f: Fixture, g: Network, road: nat, t: Task, goal: nat, field: Field, distances: seq<u64>, at: Location)
    requires f.Valid() && g.Indexed() && g.Canonical(goal) && Mirrors(f, g, road, t, goal)
    requires ExactField(t, field) && |distances| == |g.states| && Exact(g, goal, distances)
    requires at in g.index && Reaches(g.Arcs(), Target(g, goal), at)
    ensures exists n: nat :: Walks(f, g, road, field,
                                   Request(f.Absolute(at), f.Absolute(g.states[goal]), distances[g.index[at]]), n)
  {
    hide Mirrors, Leads, LeadsFrom, GoodStep, After, StepCosts, Exact, Reaches, Distance, Network.Arcs, Task.Arcs, Task.Seeds, Fixture.Absolute;
    var start := f.Absolute(at);
    MirroredDistance(f, g, road, t, goal, at);
    FieldFits(f, g, road, t, goal, field);
    ExactAt(g, goal, distances, at);
    AfterNone(field, start, Fold([], 0, 0));
    var rank :| Leads(t, field, rank);
    RankBelow(t, field, rank, start);
    assert rank.Keys == field.Keys;
    var n := PublishedSuffix(f, g, road, t, goal, field, rank, start, 0, start);
    assert Walks(f, g, road, field, Request(start, f.Absolute(g.states[goal]), distances[g.index[at]]), n);
  }

  lemma RankBelow(t: Task, field: Field, rank: map<Location, nat>, x: Location)
    requires Leads(t, field, rank) && x in field
    ensures rank.Keys == field.Keys && rank[x] < |field|
  {
  }

  lemma ExactAt(g: Network, goal: nat, distances: seq<u64>, at: Location)
    requires g.Indexed() && goal < |g.states| && |distances| == |g.states| && Exact(g, goal, distances) && at in g.index
    ensures Reaches(g.Arcs(), Target(g, goal), at) ==>
              distances[g.index[at]] == Distance(g.Arcs(), Target(g, goal), at) && distances[g.index[at]] < INFINITE
  {
  }

  lemma PublishedIsComplete(f: Fixture, g: Network, road: nat, t: Task, goal: nat, field: Field, distances: seq<u64>)
    requires f.Valid() && g.Indexed() && g.Canonical(goal) && Mirrors(f, g, road, t, goal)
    requires ExactField(t, field) && |distances| == |g.states| && Exact(g, goal, distances)
    ensures Complete(f, g, field, distances) <==>
              |g.index| == |g.states| && forall at :: at in g.index ==> Reaches(g.Arcs(), Target(g, goal), at)
  {
    hide Mirrors, Leads, Exact, Complete, Reaches, Distance, ExactField, Network.Arcs, Task.Arcs, Task.Seeds, Fixture.Absolute;
    if Complete(f, g, field, distances) {
      CompleteReaches(f, g, road, t, goal, field, distances);
    }
    if |g.index| == |g.states| && forall at :: at in g.index ==> Reaches(g.Arcs(), Target(g, goal), at) {
      ReachedIsComplete(f, g, road, t, goal, field, distances);
    }
  }

  lemma CompleteReaches(f: Fixture, g: Network, road: nat, t: Task, goal: nat, field: Field, distances: seq<u64>)
    requires f.Valid() && g.Indexed() && g.Canonical(goal) && Mirrors(f, g, road, t, goal)
    requires ExactField(t, field) && |distances| == |g.states| && Complete(f, g, field, distances)
    ensures |g.index| == |g.states| && forall at :: at in g.index ==> Reaches(g.Arcs(), Target(g, goal), at)
  {
    hide Mirrors, Leads, Reaches, Distance, Network.Arcs, Task.Arcs, Task.Seeds, Fixture.Absolute;
    FieldFits(f, g, road, t, goal, field);
    forall at | at in g.index ensures Reaches(g.Arcs(), Target(g, goal), at) {
      assert f.Absolute(g.states[g.index[at]]) in field;
      MirroredDistance(f, g, road, t, goal, at);
    }
  }

  lemma ReachedIsComplete(f: Fixture, g: Network, road: nat, t: Task, goal: nat, field: Field, distances: seq<u64>)
    requires f.Valid() && g.Indexed() && g.Canonical(goal) && Mirrors(f, g, road, t, goal)
    requires ExactField(t, field) && |distances| == |g.states| && Exact(g, goal, distances)
    requires |g.index| == |g.states| && forall at :: at in g.index ==> Reaches(g.Arcs(), Target(g, goal), at)
    ensures Complete(f, g, field, distances)
  {
    hide Mirrors, Leads, Exact, Reaches, Distance, Network.Arcs, Task.Arcs, Task.Seeds, Fixture.Absolute;
    FieldFits(f, g, road, t, goal, field);
    forall at | at in g.index ensures f.Absolute(at) in field && field[f.Absolute(at)].cost == distances[g.index[at]] {
      MirroredDistance(f, g, road, t, goal, at);
      ExactAt(g, goal, distances, at);
    }
    AbsoluteIsInjective(f, g, road, t, goal);
    InjectionCardinality(g.index.Keys, field.Keys, at => f.Absolute(at));
  }

  lemma AbsoluteIsInjective(f: Fixture, g: Network, road: nat, t: Task, goal: nat)
    requires f.Valid() && g.Indexed() && g.Canonical(goal) && Mirrors(f, g, road, t, goal)
    ensures forall x, y :: x in g.index && y in g.index && f.Absolute(x) == f.Absolute(y) ==> x == y
  {
    forall x, y | x in g.index && y in g.index && f.Absolute(x) == f.Absolute(y) ensures x == y {
      RelativeOfAbsolute(f, x);
      RelativeOfAbsolute(f, y);
    }
  }

  // ------------------------------------------------------------------------------------------------
  // Completeness for routes

  /** A route query over the oracle's graph. */
  ghost predicate MirrorsForward(f: Fixture, g: Network, road: nat, t: Task)
    requires g.Indexed()
  {
    && !t.reverse
    && (forall e :: Usable(t.snapshot, false, e) ==> Accepted(f, g, road, e, e.from))
    && (forall e :: e in g.edges ==> Arc(f.Absolute(e.to), f.Absolute(e.from), e.cost) in t.Arcs())
  }

  /** Turned around, a walk of the oracle graph is a walk of the forward search. */
  lemma {:induction false} TurnedWalk(f: Fixture, g: Network, road: nat, t: Task, x: Location, w: Walk) returns (v: Walk)
    requires g.Indexed() && MirrorsForward(f, g, road, t) && IsWalk(g.Arcs(), x, w)
    ensures IsWalk(t.Arcs(), f.Absolute(End(x, w)), v) && End(f.Absolute(End(x, w)), v) == f.Absolute(x) && Cost(v) == Cost(w)
    decreases |w|
  {
    hide Fixture.Absolute, Task.Arcs, Accepted, Usable;
    if w == [] {
      v := [];
      EmptyWalk(t.Arcs(), f.Absolute(x));
    } else {
      var rest := TurnedWalk(f, g, road, t, w[0].to, w[1..]);
      var e :| e in g.edges && e.AsArc() == w[0];
      var a := Arc(f.Absolute(e.to), f.Absolute(e.from), e.cost);
      AppendArc(t.Arcs(), f.Absolute(End(x, w)), rest, a);
      v := rest + [a];
    }
  }

  /** A chain's transitions leave where the route stands, and its costs add up from either end. */
  lemma {:induction false} ChainAt(s: Snapshot, route: seq<Transition>, from: Location, to: Location, i: nat)
    requires Chain(s, route, from, to) && i <= |route|
    ensures i < |route| ==> Usable(s, false, route[i]) && route[i].from == Cursor(route, from, i)
    ensures i == |route| ==> Cursor(route, from, i) == to
    decreases |route|
  {
    hide Usable;
    if i != 0 {
      ChainAt(s, route[1..], route[0].to, to, i - 1);
      assert i > 1 ==> route[1..][i - 2] == route[i - 1];
    }
  }

  lemma {:induction false} SumsAgree(route: seq<Transition>, k: nat)
    requires k <= |route|
    ensures RouteSum(route, k) + RouteCost(route[k..]) == RouteCost(route)
    decreases k
  {
    if k == 0 {
      assert route[0..] == route;
    } else {
      SumsAgree(route, k - 1);
      assert route[k - 1..][1..] == route[k..];
    }
  }

  /** Every transition the query strings together is accepted where the route stands. */
  lemma ChainIsAccepted(f: Fixture, g: Network, road: nat, t: Task, route: seq<Transition>)
    requires g.Indexed() && MirrorsForward(f, g, road, t) && Chain(t.snapshot, route, t.start, t.goal)
    ensures forall i :: 0 <= i < |route| ==> Accepted(f, g, road, route[i], Cursor(route, t.start, i))
    ensures Cursor(route, t.start, |route|) == t.goal && RouteSum(route, |route|) == RouteCost(route)
  {
    hide Accepted, Usable, Chain;
    forall i | 0 <= i < |route| ensures Accepted(f, g, road, route[i], Cursor(route, t.start, i)) {
      ChainAt(t.snapshot, route, t.start, t.goal, i);
    }
    ChainAt(t.snapshot, route, t.start, t.goal, |route|);
    SumsAgree(route, |route|);
    assert route[|route|..] == [];
  }

  /** The route's cost is the oracle's distance from the start to the goal. */
  lemma BestRouteIsOracles(f: Fixture, g: Network, road: nat, t: Task, route: seq<Transition>, cost: nat, goal: nat)
    requires f.Valid() && g.Indexed() && g.Canonical(goal) && MirrorsForward(f, g, road, t) && t.WellFormed()
    requires BestRoute(t, route, cost)
    requires f.Relative(t.goal) == Some(g.states[goal]) && f.Relative(t.start).Some?
    ensures IsDistance(g.Arcs(), Target(g, goal), f.Relative(t.start).value, cost)
  {
    hide Accepted, Usable, Chain, Fixture.Relative, Fixture.Absolute, Task.Arcs, Task.Seeds, Network.Arcs;
    var x, arcs, target := f.Relative(t.start).value, g.Arcs(), Target(g, goal);
    ChainIsAccepted(f, g, road, t, route);
    var w := RouteIsWalk(f, g, road, route, t.start, |route|);
    assert Arrives(arcs, target, x, w) && Total(target, x, w) == cost;
    RelativeOfAbsolute(f, t.start);
    RelativeOfAbsolute(f, t.goal);
    DistanceUnique(t.Arcs(), t.Seeds(), t.goal, cost);
    StartIsSeed(t);
    forall w | Arrives(arcs, target, x, w) ensures cost <= Total(target, x, w) {
      var v := TurnedWalk(f, g, road, t, x, w);
      assert f.Absolute(End(x, w)) == t.goal && f.Absolute(x) == t.start;
      assert Arrives(t.Arcs(), t.Seeds(), t.goal, v);
    }
  }

  /** A forward query that found anything prices its start at zero. */
  lemma StartIsSeed(t: Task)
    requires t.WellFormed() && !t.reverse && t.Routed(t.goal)
    ensures t.start in t.Seeds() && t.Seeds()[t.start] == 0
  {
    assert t.goals[..0] == [];
    assert Cheapest(t.goals[..0], LegalLocations(t.snapshot)) == map[];
  }

  /** Whenever the production query finds an exact route on the current snapshot, the route check accepts it. */
  lemma PublishedRouteIsAccepted(f: Fixture, g: Network, road: nat, t: Task, published: Result, goal: nat, distances: seq<u64>)
    requires f.Valid() && g.Indexed() && g.Canonical(goal) && MirrorsForward(f, g, road, t) && t.WellFormed()
    requires published.outcome.Found? && published.exact && published.snapshot == f.snapshot
    requires published.guidance == map[] && BestRoute(t, published.route, published.cost)
    requires f.Relative(t.goal) == Some(g.states[goal]) && f.Relative(t.start).Some? && f.Relative(t.start).value in g.index
    requires |distances| == |g.states| && Exact(g, goal, distances)
    ensures PublishedRouteAccepted(f, g, road, published, Request(t.start, t.goal, distances[g.index[f.Relative(t.start).value]]))
  {
    hide Accepted, Exact, MirrorsForward, Chain, Fixture.Relative;
    var x := f.Relative(t.start).value;
    ChainIsAccepted(f, g, road, t, published.route);
    BestRouteIsOracles(f, g, road, t, published.route, published.cost, goal);
    ExactAt(g, goal, distances, x);
    OneDistance(g.Arcs(), Target(g, goal), x, published.cost);
  }
}
