/**
 The benchmark's independent reference: states and legal edges materialised into vectors, a reversed
 edge index, and a lazy-deletion Dijkstra over it whose 64-bit sums wrap silently.
 */
module NavigationOracle {
  import opened Machine
  import opened Graph

  datatype Edge = Edge(from: Location, to: Location, id: u64, cost: u64, key: u64, identified: bool)
  {
    function AsArc(): Arc {
      Arc(from, to, cost)
    }
  }

  /** The oracle's tables, as one value. */
  datatype Network = Network(states: seq<Location>, index: map<Location, nat>, edges: seq<Edge>, reverse: seq<seq<nat>>)
  {
    /** Every state is indexed, by itself or by an earlier equal state, and edges join indexed states. */
    ghost predicate Indexed() {
      && (forall at :: at in index ==> index[at] < |states| && states[index[at]] == at)
      && (forall i :: 0 <= i < |states| ==> states[i] in index && index[states[i]] <= i)
      && (forall e :: e in edges ==> e.from in index && e.to in index)
    }

    /** Bucket `u` lists, in ascending order and without omission, the edges that end in state `u`. */
    ghost predicate Reversed()
      requires Indexed()
    {
      && |reverse| == |states|
      && (forall u, k :: 0 <= u < |reverse| && 0 <= k < |reverse[u]| ==>
            reverse[u][k] < |edges| && index[edges[reverse[u][k]].to] == u)
      && (forall u, k, l :: 0 <= u < |reverse| && 0 <= k < l < |reverse[u]| ==> reverse[u][k] < reverse[u][l])
      && (forall e :: 0 <= e < |edges| ==> e in reverse[index[edges[e].to]])
    }

    ghost predicate Valid() {
      Indexed() && Reversed()
    }

    ghost function Arcs(): iset<Arc> {
      iset e | e in edges :: e.AsArc()
    }

    /** The state an edge leaves, by number. */
    function Source(e: nat): nat
      requires Indexed() && e < |edges|
    {
      index[edges[e].from]
    }

    ghost predicate Canonical(u: nat)
      requires Indexed()
    {
      u < |states| && index[states[u]] == u
    }
  }

  type Item = (u64, nat)

  /** Lexicographic order of heap entries: smallest distance first, then smallest state number. */
  predicate NotAfter(a: Item, b: Item) {
    a.0 < b.0 || (a.0 == b.0 && a.1 <= b.1)
  }

  lemma {:induction false} TopExists(heap: multiset<Item>) returns (top: Item)
    requires heap != multiset{}
    ensures top in heap && forall it :: it in heap ==> NotAfter(top, it)
    decreases |heap|
  {
    top :| top in heap;
    var rest := heap - multiset{top};
    if rest != multiset{} {
      var t := TopExists(rest);
      assert forall it :: it in heap ==> it == top || it in rest;
      if !NotAfter(top, t) {
        top := t;
      }
    }
  }

  function Sum(s: seq<u64>): nat {
    if s == [] then 0 else s[0] + Sum(s[1..])
  }

  lemma {:induction false} SumUpdate(s: seq<u64>, i: nat, x: u64)
    requires i < |s|
    ensures Sum(s[i := x]) == Sum(s) - s[i] + x
  {
    if i == 0 {
      assert s[0 := x][1..] == s[1..];
    } else {
      assert s[i := x][1..] == s[1..][i-1 := x];
      SumUpdate(s[1..], i - 1, x);
    }
  }

  // ------------------------------------------------------------------------------------------------
  // What the search is for, and exactly when wrap-around cannot spoil it

  ghost function Target(g: Network, goal: nat): map<Location, nat>
    requires g.Indexed() && goal < |g.states|
  {
    map[g.states[goal] := 0]
  }

  /** Every reachable state carries its minimum cost, every other state the sentinel. */
  ghost predicate Exact(g: Network, goal: nat, dist: seq<u64>)
    requires g.Indexed() && goal < |g.states|
  {
    && |dist| == |g.states|
    && forall at :: at in g.index ==>
         if Reaches(g.Arcs(), Target(g, goal), at)
         then dist[g.index[at]] == Distance(g.Arcs(), Target(g, goal), at) && dist[g.index[at]] < INFINITE
         else dist[g.index[at]] == INFINITE
  }

  /**
   True distances fit below the sentinel, and no edge, added to the true distance of its target, wraps
   to something smaller than the true distance of its source.
   */
  ghost predicate Safe(g: Network, goal: nat)
    requires g.Indexed() && goal < |g.states|
  {
    && (forall at :: at in g.index && Reaches(g.Arcs(), Target(g, goal), at) ==>
          Distance(g.Arcs(), Target(g, goal), at) < INFINITE)
    && forall e :: e in g.edges && Reaches(g.Arcs(), Target(g, goal), e.to) ==>
         SafeEdge(g, goal, e)
  }

  ghost predicate SafeEdge(g: Network, goal: nat, e: Edge)
    requires g.Indexed() && goal < |g.states| && e in g.edges
    requires Reaches(g.Arcs(), Target(g, goal), e.to)
    requires Distance(g.Arcs(), Target(g, goal), e.to) < INFINITE
  {
    ArcDistance(g.Arcs(), Target(g, goal), e.AsArc());
    Distance(g.Arcs(), Target(g, goal), e.from) <= WrapAdd(Distance(g.Arcs(), Target(g, goal), e.to), e.cost)
  }

  /** No edge, added to the true distance of its target, exceeds what 64 bits represent. */
  ghost predicate Representable(g: Network, goal: nat)
    requires g.Indexed() && goal < |g.states|
  {
    forall e :: e in g.edges && Reaches(g.Arcs(), Target(g, goal), e.to) ==>
      Distance(g.Arcs(), Target(g, goal), e.to) + e.cost < INFINITE
  }

  lemma RepresentableIsSafe(g: Network, goal: nat)
    requires g.Valid() && g.Canonical(goal) && Representable(g, goal)
    requires forall at :: at in g.index && Reaches(g.Arcs(), Target(g, goal), at) ==> Distance(g.Arcs(), Target(g, goal), at) < INFINITE
    ensures Safe(g, goal)
  {
    forall e | e in g.edges && Reaches(g.Arcs(), Target(g, goal), e.to)
      ensures SafeEdge(g, goal, e)
    {
      ArcDistance(g.Arcs(), Target(g, goal), e.AsArc());
    }
  }

  /** A condition visible in the input: the number of states times the dearest edge stays below the sentinel. */
  lemma SmallCostsAreSafe(g: Network, goal: nat, m: nat)
    requires g.Valid() && g.Canonical(goal)
    requires forall e :: e in g.edges ==> e.cost <= m
    requires (|g.index| + 1) * m < INFINITE
    ensures Representable(g, goal) && Safe(g, goal)
  {
    var arcs, target, ceiling := g.Arcs(), Target(g, goal), |g.index| * m;
    assert ceiling + m < INFINITE;
    forall at | at in g.index && Reaches(arcs, target, at)
      ensures Distance(arcs, target, at) <= ceiling
    {
      DistanceCeiling(arcs, g.index.Keys, target, at, m);
    }
    RepresentableIsSafe(g, goal);
  }

  const HOME: Location := Location(0, 0)
  const MIDDLE: Location := Location(0, 1)
  const FAR: Location := Location(0, 2)

  /** A network on which the sums wrap: from `FAR` the detour over `MIDDLE` looks cheaper than the direct edge. */
  function Wrapping(): Network {
    Network([HOME, MIDDLE, FAR], map[HOME := 0, MIDDLE := 1, FAR := 2],
            [Edge(MIDDLE, HOME, 0, INFINITE - 1, 0, true), Edge(FAR, MIDDLE, 1, 10, 0, true), Edge(FAR, HOME, 2, 20, 0, true)],
            [[0, 2], [1], []])
  }

  lemma WrappingIsIndexed()
    ensures Wrapping().Indexed() && Wrapping().Canonical(0)
  {
  }

  lemma WrappingIsReversed()
    ensures Wrapping().Indexed() && Wrapping().Reversed()
  {
    hide Network.Indexed;
    WrappingIsIndexed();
    var g := Wrapping();
    assert g.reverse[0] == [0, 2] && g.reverse[1] == [1] && g.reverse[2] == [];
    assert 0 in g.reverse[0] && 2 in g.reverse[0] && 1 in g.reverse[1];
  }

  ghost function WrappingArcs(): iset<Arc> {
    iset{Arc(MIDDLE, HOME, INFINITE - 1), Arc(FAR, MIDDLE, 10), Arc(FAR, HOME, 20)}
  }

  lemma WrappingArcsAre()
    ensures Wrapping().Arcs() == WrappingArcs()
  {
    var g := Wrapping();
    assert g.edges[0] in g.edges && g.edges[1] in g.edges && g.edges[2] in g.edges;
  }

  function Height(at: Location): nat {
    if at == FAR then 20 else if at == MIDDLE then INFINITE - 1 else 0
  }

  function Hops(at: Location): nat {
    if at == HOME then 0 else 1
  }

  lemma WrappingDescends(region: iset<Location>)
    requires region == iset{HOME, MIDDLE, FAR}
    ensures Descending(WrappingArcs(), map[HOME := 0], Height, Hops, region)
  {
    forall x | x in region && Hops(x) != 0
      ensures exists a :: a in WrappingArcs() && a.from == x && a.to in region && Height(x) == a.cost + Height(a.to) && Hops(x) == 1 + Hops(a.to)
    {
      var a := Arc(x, HOME, Height(x));
      assert a in WrappingArcs();
    }
  }

  lemma WrappingDistances(at: Location)
    requires at in {HOME, MIDDLE, FAR}
    ensures Reaches(WrappingArcs(), map[HOME := 0], at) && Distance(WrappingArcs(), map[HOME := 0], at) == Height(at)
  {
    hide Descending, Reaches, Distance, Hops;
    assert Shallow(WrappingArcs(), map[HOME := 0], Height);
    WrappingDescends(iset{HOME, MIDDLE, FAR});
    hide WrappingArcs, Height;
    PotentialIsDistance(WrappingArcs(), map[HOME := 0], Height, Hops, iset{HOME, MIDDLE, FAR}, at);
  }

  /** The search over it goes wrong, although every distance is representable and so is every cost. */
  lemma WrappingIsUnsafe()
    ensures Wrapping().Valid() && Wrapping().Canonical(0) && !Safe(Wrapping(), 0)
    ensures forall at :: at in Wrapping().index ==>
              Reaches(Wrapping().Arcs(), Target(Wrapping(), 0), at) && Distance(Wrapping().Arcs(), Target(Wrapping(), 0), at) < INFINITE
  {
    hide Network.Reversed, Network.Arcs, Reaches, Distance, WrappingArcs;
    WrappingIsIndexed();
    WrappingIsReversed();
    WrappingArcsAre();
    WrappingDistances(HOME);
    WrappingDistances(MIDDLE);
    WrappingDistances(FAR);
    var g := Wrapping();
    assert Target(g, 0) == map[HOME := 0];
    assert g.edges[1] in g.edges;
    assert !SafeEdge(g, 0, g.edges[1]);
  }

  // ------------------------------------------------------------------------------------------------
  // Loop invariants, on values

  /** The first `k` edges into `u` have been relaxed against the label `d`. */
  ghost predicate Relaxed(g: Network, dist: seq<u64>, u: nat, d: u64, k: nat)
    requires g.Valid() && |dist| == |g.states| && u < |dist| && k <= |g.reverse[u]|
  {
    forall i :: 0 <= i < k ==> dist[g.Source(g.reverse[u][i])] <= WrapAdd(d, g.edges[g.reverse[u][i]].cost)
  }

  /**
   What holds whatever wraps: heap entries are distinct and never below their state's label, and every
   labelled state is either relaxed (`done`), queued under its current label, or being expanded.
   */
  ghost predicate Consistent(g: Network, dist: seq<u64>, heap: multiset<Item>, done: set<nat>, open: set<Item>)
    requires g.Valid()
  {
    && |dist| == |g.states|
    && (forall it :: it in heap ==> g.Canonical(it.1) && dist[it.1] <= it.0 < INFINITE && heap[it] == 1)
    && (forall u :: u in done ==> g.Canonical(u) && dist[u] < INFINITE && (dist[u], u) !in heap
                                  && Relaxed(g, dist, u, dist[u], |g.reverse[u]|))
    && (forall u :: 0 <= u < |dist| && dist[u] < INFINITE && u !in done ==> (dist[u], u) in heap || (dist[u], u) in open)
  }

  ghost function Labels(g: Network, dist: seq<u64>): map<Location, nat>
    requires g.Indexed() && |dist| == |g.states|
  {
    map at | at in g.index && dist[g.index[at]] < INFINITE :: dist[g.index[at]]
  }

  ghost function Places(g: Network, done: set<nat>): set<Location>
    requires g.Indexed()
  {
    set at | at in g.index && g.index[at] in done
  }

  lemma LabelsUpdate(g: Network, dist: seq<u64>, v: nat, c: u64)
    requires g.Indexed() && |dist| == |g.states| && g.Canonical(v) && c < INFINITE
    ensures Labels(g, dist[v := c]) == Labels(g, dist)[g.states[v] := c]
  {
    forall at | at in g.index ensures g.index[at] == v <==> at == g.states[v] {}
  }

  lemma PlacesUpdate(g: Network, done: set<nat>, u: nat)
    requires g.Indexed() && g.Canonical(u)
    ensures Places(g, done + {u}) == Places(g, done) + {g.states[u]}
  {
    forall at | at in g.index ensures g.index[at] == u <==> at == g.states[u] {}
  }

  /** What holds in addition on a safe network: the label-setting frontier, with labels never too small. */
  ghost predicate Settling(g: Network, goal: nat, dist: seq<u64>, heap: multiset<Item>, done: set<nat>, key: nat)
    requires g.Indexed() && g.Canonical(goal) && |dist| == |g.states|
  {
    && Frontier(g.Arcs(), Target(g, goal), INFINITE, Labels(g, dist), Places(g, done), key)
    && Faithful(g, goal, dist)
    && (forall it :: it in heap ==> key <= it.0)
  }

  /** No label undercuts the true distance. */
  ghost predicate Faithful(g: Network, goal: nat, dist: seq<u64>)
    requires g.Indexed() && g.Canonical(goal) && |dist| == |g.states|
  {
    forall at :: at in g.index && dist[g.index[at]] < INFINITE ==>
      Reaches(g.Arcs(), Target(g, goal), at) && Distance(g.Arcs(), Target(g, goal), at) <= dist[g.index[at]]
  }

  /** On a safe network a settled label is final, and an unsettled state lies at or beyond the key. */
  lemma SettledIsExact(g: Network, goal: nat, dist: seq<u64>, heap: multiset<Item>, done: set<nat>, key: nat, u: nat)
    requires g.Valid() && g.Canonical(goal) && Safe(g, goal) && |dist| == |g.states|
    requires Settling(g, goal, dist, heap, done, key)
    requires g.Canonical(u) && Reaches(g.Arcs(), Target(g, goal), g.states[u])
    ensures u in done ==> dist[u] == Distance(g.Arcs(), Target(g, goal), g.states[u])
    ensures u !in done ==> key <= Distance(g.Arcs(), Target(g, goal), g.states[u])
  {
    DistanceBound(g.Arcs(), Target(g, goal), INFINITE, Labels(g, dist), Places(g, done), key, g.states[u]);
  }

  /** The least heap entry, when current, carries its state's true distance and can raise the key. */
  lemma PopIsFinal(g: Network, goal: nat, dist: seq<u64>, heap: multiset<Item>, done: set<nat>, key: nat, top: Item)
    requires g.Valid() && g.Canonical(goal) && Safe(g, goal)
    requires Consistent(g, dist, heap, done, {}) && Settling(g, goal, dist, heap, done, key)
    requires top in heap && forall it :: it in heap ==> NotAfter(top, it)
    ensures Settling(g, goal, dist, heap - multiset{top}, done, top.0)
    ensures key <= top.0
    ensures top.0 == dist[top.1] ==>
              top.1 !in done && Reaches(g.Arcs(), Target(g, goal), g.states[top.1]) &&
              Distance(g.Arcs(), Target(g, goal), g.states[top.1]) == top.0
  {
    hide Safe, Relaxed, Network.Reversed, Network.Arcs, Reaches, Distance;
    forall x | x in Labels(g, dist) && x !in Places(g, done) ensures top.0 <= Labels(g, dist)[x] {
      assert (dist[g.index[x]], g.index[x]) in heap;
    }
    assert Settling(g, goal, dist, heap - multiset{top}, done, top.0);
    if top.0 == dist[top.1] {
      assert g.states[top.1] in g.index;
      SettledIsExact(g, goal, dist, heap - multiset{top}, done, top.0, top.1);
    }
  }

  /** On a safe network a relaxation that lowers a label neither wraps nor touches a settled state. */
  lemma RelaxationIsSafe(g: Network, goal: nat, dist: seq<u64>, heap: multiset<Item>, done: set<nat>, d: u64, e: Edge)
    requires g.Valid() && g.Canonical(goal) && Safe(g, goal) && |dist| == |g.states| && e in g.edges
    requires Settling(g, goal, dist, heap, done, d)
    requires Reaches(g.Arcs(), Target(g, goal), e.to)
    requires Distance(g.Arcs(), Target(g, goal), e.to) == d < INFINITE
    requires WrapAdd(d, e.cost) < dist[g.index[e.from]]
    ensures g.index[e.from] !in done && WrapAdd(d, e.cost) == d + e.cost
    ensures Reaches(g.Arcs(), Target(g, goal), e.from) && Distance(g.Arcs(), Target(g, goal), e.from) <= d + e.cost
  {
    assert SafeEdge(g, goal, e);
    ArcDistance(g.Arcs(), Target(g, goal), e.AsArc());
    SettledIsExact(g, goal, dist, heap, done, d, g.index[e.from]);
  }

  lemma RelaxationSettles(g: Network, goal: nat, dist: seq<u64>, heap: multiset<Item>, done: set<nat>, d: u64, v: nat, c: u64)
    requires g.Valid() && g.Canonical(goal) && |dist| == |g.states| && g.Canonical(v)
    requires Settling(g, goal, dist, heap, done, d) && v !in done && d <= c < dist[v]
    requires Reaches(g.Arcs(), Target(g, goal), g.states[v]) && Distance(g.Arcs(), Target(g, goal), g.states[v]) <= c
    ensures Settling(g, goal, dist[v := c], heap + multiset{(c, v)}, done, d)
  {
    FaithfulUpdate(g, goal, dist, v, c);
    LabelsUpdate(g, dist, v, c);
    Relabel(g.Arcs(), Target(g, goal), INFINITE, Labels(g, dist), Places(g, done), d, g.states[v], c);
  }

  lemma FaithfulUpdate(g: Network, goal: nat, dist: seq<u64>, v: nat, c: u64)
    requires g.Indexed() && g.Canonical(goal) && |dist| == |g.states| && g.Canonical(v)
    requires Faithful(g, goal, dist)
    requires Reaches(g.Arcs(), Target(g, goal), g.states[v]) && Distance(g.Arcs(), Target(g, goal), g.states[v]) <= c
    ensures Faithful(g, goal, dist[v := c])
  {
    assert forall at :: at in g.index && g.index[at] == v ==> at == g.states[v];
  }

  /** Once all its incoming edges are relaxed, the popped state joins the settled ones. */
  lemma ExpansionSettles(g: Network, goal: nat, dist: seq<u64>, heap: multiset<Item>, done: set<nat>, d: u64, u: nat)
    requires g.Valid() && g.Canonical(goal) && g.Canonical(u) && |dist| == |g.states|
    requires Settling(g, goal, dist, heap, done, d)
    requires dist[u] == d < INFINITE && Relaxed(g, dist, u, d, |g.reverse[u]|)
    ensures Settling(g, goal, dist, heap, done + {u}, d)
  {
    var lab := Labels(g, dist);
    PlacesUpdate(g, done, u);
    forall a | a in g.Arcs() && a.to == g.states[u] && d + a.cost < INFINITE
      ensures a.from in lab && lab[a.from] <= d + a.cost
    {
      var e :| e in g.edges && e.AsArc() == a;
      RelaxedEdge(g, dist, u, d, e);
    }
    Settle(g.Arcs(), Target(g, goal), INFINITE, lab, Places(g, done), d, g.states[u]);
  }

  lemma RelaxedEdge(g: Network, dist: seq<u64>, u: nat, d: u64, e: Edge)
    requires g.Valid() && |dist| == |g.states| && u < |dist| && e in g.edges && g.index[e.to] == u
    requires Relaxed(g, dist, u, d, |g.reverse[u]|)
    ensures dist[g.index[e.from]] <= WrapAdd(d, e.cost)
  {
    var k :| 0 <= k < |g.edges| && g.edges[k] == e;
    var i :| 0 <= i < |g.reverse[u]| && g.reverse[u][i] == k;
  }

  /** With nothing left to pop, the labels of a safe network are exact. */
  lemma SafeIsExact(g: Network, goal: nat, dist: seq<u64>, done: set<nat>, key: nat)
    requires g.Valid() && g.Canonical(goal) && Safe(g, goal)
    requires Consistent(g, dist, multiset{}, done, {}) && Settling(g, goal, dist, multiset{}, done, key)
    ensures Exact(g, goal, dist)
  {
    hide Network.Reversed, Distance, Reaches;
    AllSettled(g, goal, dist, done, key);
    forall at | at in g.index && Reaches(g.Arcs(), Target(g, goal), at)
      ensures dist[g.index[at]] == Distance(g.Arcs(), Target(g, goal), at)
    {
      SettledIsExact(g, goal, dist, multiset{}, done, INFINITE, g.index[at]);
    }
  }

  lemma AllSettled(g: Network, goal: nat, dist: seq<u64>, done: set<nat>, key: nat)
    requires g.Valid() && g.Canonical(goal)
    requires Consistent(g, dist, multiset{}, done, {}) && Settling(g, goal, dist, multiset{}, done, key)
    ensures Settling(g, goal, dist, multiset{}, done, INFINITE)
  {
    hide Network.Reversed, Distance, Reaches, Faithful, Relaxed;
    forall x | x in Labels(g, dist) ensures x in Places(g, done) {
      assert g.index[x] in done;
    }
  }

  /** And exact labels left by an exhausted search show that the network was safe. */
  lemma ExactIsSafe(g: Network, goal: nat, dist: seq<u64>, done: set<nat>)
    requires g.Valid() && g.Canonical(goal)
    requires Consistent(g, dist, multiset{}, done, {}) && Exact(g, goal, dist)
    ensures Safe(g, goal)
  {
    hide Network.Reversed, Distance, Reaches, Relaxed;
    forall e | e in g.edges && Reaches(g.Arcs(), Target(g, goal), e.to) ensures SafeEdge(g, goal, e) {
      ArcDistance(g.Arcs(), Target(g, goal), e.AsArc());
      RelaxedEdge(g, dist, g.index[e.to], dist[g.index[e.to]], e);
    }
  }

  /** Lowering a label and queueing it keeps the bookkeeping consistent; the state must be relaxed again. */
  lemma RelaxKeepsConsistent(g: Network, dist: seq<u64>, heap: multiset<Item>, done: set<nat>, open: Item, i: nat)
    requires g.Valid() && Consistent(g, dist, heap, done, {open}) && open.1 < |dist| && i < |g.reverse[open.1]|
    requires open !in heap && dist[open.1] <= open.0 && open.1 !in done && Relaxed(g, dist, open.1, open.0, i)
    ensures var e := g.edges[g.reverse[open.1][i]];
            var v, c := g.index[e.from], WrapAdd(open.0, e.cost);
            if c < dist[v] then
              && Consistent(g, dist[v := c], heap + multiset{(c, v)}, done - {v}, {open})
              && open !in heap + multiset{(c, v)} && Relaxed(g, dist[v := c], open.1, open.0, i + 1)
            else
              Relaxed(g, dist, open.1, open.0, i + 1)
  {
    var e := g.edges[g.reverse[open.1][i]];
    var v, c := g.index[e.from], WrapAdd(open.0, e.cost);
    if c < dist[v] {
      var dist' := dist[v := c];
      forall u | u in done && u != v ensures Relaxed(g, dist', u, dist'[u], |g.reverse[u]|) {
      }
    }
  }

  /** One relaxation on a safe network. */
  lemma SafeRelaxation(g: Network, goal: nat, dist: seq<u64>, heap: multiset<Item>, done: set<nat>, d: u64, u: nat, i: nat)
    requires g.Valid() && g.Canonical(goal) && Safe(g, goal) && |dist| == |g.states|
    requires g.Canonical(u) && u < |g.reverse| && i < |g.reverse[u]|
    requires Settling(g, goal, dist, heap, done, d) && dist[u] == d < INFINITE
    requires Reaches(g.Arcs(), Target(g, goal), g.states[u]) && Distance(g.Arcs(), Target(g, goal), g.states[u]) == d
    ensures var e := g.edges[g.reverse[u][i]];
            var v, c := g.index[e.from], WrapAdd(d, e.cost);
            c < dist[v] ==> v !in done && v != u && Settling(g, goal, dist[v := c], heap + multiset{(c, v)}, done, d)
  {
    var e := g.edges[g.reverse[u][i]];
    var v, c := g.index[e.from], WrapAdd(d, e.cost);
    if c < dist[v] {
      RelaxationIsSafe(g, goal, dist, heap, done, d, e);
      RelaxationSettles(g, goal, dist, heap, done, d, v, c);
    }
  }

  // ------------------------------------------------------------------------------------------------
  // What one search does, for accounting

  /** The keys popped, the states expanded, and the number of heap insertions. */
  datatype Log = Log(popped: seq<u64>, expanded: seq<nat>, pushes: nat)

  /** The edges examined once the states in `done` have been expanded. */
  ghost function Probed(g: Network, done: set<nat>): set<nat>
    requires g.Indexed()
  {
    set e: nat | e < |g.edges| && g.index[g.edges[e].to] in done
  }

  ghost predicate Orderly(g: Network, done: set<nat>, log: Log, key: nat)
    requires g.Indexed()
  {
    && (forall i, j :: 0 <= i < j < |log.popped| ==> log.popped[i] <= log.popped[j])
    && (forall i :: 0 <= i < |log.popped| ==> log.popped[i] <= key)
    && (forall i, j :: 0 <= i < j < |log.expanded| ==> log.expanded[i] != log.expanded[j])
    && (forall u :: u in done <==> u in log.expanded)
    && log.pushes <= 1 + |Probed(g, done)|
  }

  function Members(s: seq<nat>): set<nat> {
    if s == [] then {} else Members(s[..|s|-1]) + {s[|s|-1]}
  }

  lemma {:induction false} MembersAre(s: seq<nat>)
    ensures forall x :: x in Members(s) <==> x in s
  {
    if s != [] {
      MembersAre(s[..|s|-1]);
      assert s == s[..|s|-1] + [s[|s|-1]];
    }
  }

  lemma {:induction false} MembersOfAscending(s: seq<nat>)
    requires forall k, l :: 0 <= k < l < |s| ==> s[k] < s[l]
    ensures |Members(s)| == |s|
  {
    if s != [] {
      var t := s[..|s|-1];
      MembersOfAscending(t);
      assert s[|s|-1] !in Members(t) by {
        MembersAre(t);
      }
    }
  }

  lemma BucketContents(g: Network, u: nat)
    requires g.Valid() && u < |g.states|
    ensures forall e: nat :: e in Members(g.reverse[u]) <==> e < |g.edges| && g.index[g.edges[e].to] == u
  {
    MembersAre(g.reverse[u]);
  }

  lemma {:induction false} CardinalityBelow(s: set<nat>, n: nat)
    requires forall x :: x in s ==> x < n
    ensures |s| <= n
  {
    if n == 0 {
      assert s == {};
    } else {
      CardinalityBelow(s - {n - 1}, n - 1);
    }
  }

  lemma ProbedSplit(g: Network, done: set<nat>, u: nat, bucket: set<nat>)
    requires g.Indexed() && u !in done
    requires forall e: nat :: e in bucket <==> e < |g.edges| && g.index[g.edges[e].to] == u
    ensures |Probed(g, done + {u})| == |Probed(g, done)| + |bucket|
  {
    assert Probed(g, done + {u}) == Probed(g, done) + bucket;
    assert Probed(g, done) !! bucket;
  }

  /** Expanding a new state examines exactly the edges of its bucket, none of them examined before. */
  lemma ProbedStep(g: Network, done: set<nat>, u: nat)
    requires g.Valid() && u < |g.states| && u !in done
    ensures |Probed(g, done + {u})| == |Probed(g, done)| + |g.reverse[u]|
  {
    MembersOfAscending(g.reverse[u]);
    BucketContents(g, u);
    ProbedSplit(g, done, u, Members(g.reverse[u]));
  }

  // ------------------------------------------------------------------------------------------------

  /** The accounting a finished search can show. */
  ghost predicate InOrder(g: Network, dist: seq<u64>, log: Log)
    requires g.Indexed() && |dist| == |g.states|
  {
    && (forall i, j :: 0 <= i < j < |log.popped| ==> log.popped[i] <= log.popped[j])
    && (forall i, j :: 0 <= i < j < |log.expanded| ==> log.expanded[i] != log.expanded[j])
    && (forall u: nat :: u in log.expanded <==> g.Canonical(u) && dist[u] < INFINITE)
    && log.pushes <= 1 + |g.edges|
  }

  lemma ExpansionIsOrderly(g: Network, done: set<nat>, log: Log, key: nat, u: nat, pushes: nat)
    requires g.Valid() && u < |g.states| && u !in done && Orderly(g, done, log, key)
    requires pushes <= |g.reverse[u]|
    ensures Orderly(g, done + {u}, log.(expanded := log.expanded + [u], pushes := log.pushes + pushes), key)
  {
    ProbedStep(g, done, u);
  }

  lemma StartSettles(g: Network, goal: nat, dist: seq<u64>)
    requires g.Valid() && g.Canonical(goal) && |dist| == |g.states| && dist[goal] == 0
    requires forall u :: 0 <= u < |dist| && u != goal ==> dist[u] == INFINITE
    ensures Settling(g, goal, dist, multiset{(0, goal)}, {}, 0)
  {
    var at := g.states[goal];
    assert Arrives(g.Arcs(), Target(g, goal), at, []) && Total(Target(g, goal), at, []) == 0;
    assert Labels(g, dist) == map[at := 0];
  }

  lemma StartConsistent(g: Network, goal: nat, dist: seq<u64>)
    requires g.Valid() && g.Canonical(goal) && |dist| == |g.states| && dist[goal] == 0
    requires forall u :: 0 <= u < |dist| && u != goal ==> dist[u] == INFINITE
    ensures Consistent(g, dist, multiset{(0, goal)}, {}, {})
    ensures Orderly(g, {}, Log([], [], 1), 0)
  {
  }

  lemma PopConsistent(g: Network, dist: seq<u64>, heap: multiset<Item>, done: set<nat>, top: Item)
    requires g.Valid() && Consistent(g, dist, heap, done, {}) && top in heap
    ensures top !in heap - multiset{top} && g.Canonical(top.1) && top.0 < INFINITE && |dist| == |g.states|
    ensures Consistent(g, dist, heap - multiset{top}, done, if dist[top.1] == top.0 then {top} else {})
    ensures dist[top.1] == top.0 ==> top.1 !in done
  {
  }

  lemma PopOrderly(g: Network, done: set<nat>, log: Log, key: nat, d: u64)
    requires g.Indexed() && Orderly(g, done, log, key) && key <= d
    ensures Orderly(g, done, log.(popped := log.popped + [d]), d)
  {
  }

  /** Popping a current entry opens its state; the popped key is recorded in order. */
  lemma PopOpens(g: Network, goal: nat, dist: seq<u64>, heap: multiset<Item>, done: set<nat>, key: nat, log: Log, top: Item)
    requires g.Valid() && g.Canonical(goal) && Consistent(g, dist, heap, done, {})
    requires top in heap && forall it :: it in heap ==> NotAfter(top, it)
    requires Safe(g, goal) ==> Settling(g, goal, dist, heap, done, key) && Orderly(g, done, log, key)
    ensures top !in heap - multiset{top} && g.Canonical(top.1) && top.0 < INFINITE
    ensures Consistent(g, dist, heap - multiset{top}, done, if dist[top.1] == top.0 then {top} else {})
    ensures dist[top.1] == top.0 ==> top.1 !in done
    ensures Safe(g, goal) ==>
              && Settling(g, goal, dist, heap - multiset{top}, done, top.0)
              && Orderly(g, done, log.(popped := log.popped + [top.0]), top.0)
              && (dist[top.1] == top.0 ==>
                    Reaches(g.Arcs(), Target(g, goal), g.states[top.1]) &&
                    Distance(g.Arcs(), Target(g, goal), g.states[top.1]) == top.0)
  {
    PopConsistent(g, dist, heap, done, top);
    if Safe(g, goal) {
      hide Consistent, Settling, Orderly;
      PopIsFinal(g, goal, dist, heap, done, key, top);
      PopOrderly(g, done, log, key, top.0);
    }
  }

  /** An exhausted heap means the search has delivered. */
  lemma SearchDelivers(g: Network, goal: nat, dist: seq<u64>, done: set<nat>, key: nat, log: Log)
    requires g.Valid() && g.Canonical(goal) && Consistent(g, dist, multiset{}, done, {})
    requires Safe(g, goal) ==> Settling(g, goal, dist, multiset{}, done, key) && Orderly(g, done, log, key)
    ensures Exact(g, goal, dist) <==> Safe(g, goal)
    ensures Safe(g, goal) ==> InOrder(g, dist, log)
  {
    if Safe(g, goal) {
      SafeIsExact(g, goal, dist, done, key);
    }
    if Exact(g, goal, dist) {
      ExactIsSafe(g, goal, dist, done);
    }
    CardinalityBelow(Probed(g, done), |g.edges|);
  }

  lemma RelaxedNone(g: Network, dist: seq<u64>, u: nat, d: u64)
    requires g.Valid() && |dist| == |g.states| && u < |dist|
    ensures Relaxed(g, dist, u, d, 0)
  {
  }

  /** When the whole bucket is relaxed, a still current state becomes done. */
  lemma ClosePopped(g: Network, goal: nat, dist: seq<u64>, heap: multiset<Item>, done: set<nat>, d: u64, u: nat)
    requires g.Valid() && g.Canonical(goal) && g.Canonical(u) && |dist| == |g.states|
    requires Consistent(g, dist, heap, done, {(d, u)}) && (d, u) !in heap && dist[u] <= d < INFINITE
    requires Relaxed(g, dist, u, d, |g.reverse[u]|)
    requires Safe(g, goal) ==> Settling(g, goal, dist, heap, done, d) && dist[u] == d
    ensures Consistent(g, dist, heap, if dist[u] == d then done + {u} else done, {})
    ensures Safe(g, goal) ==> Settling(g, goal, dist, heap, done + {u}, d)
  {
    if Safe(g, goal) {
      ExpansionSettles(g, goal, dist, heap, done, d, u);
    }
  }

  /** The buckets of the first `e` edges. */
  ghost predicate Inverted(g: Network, buckets: seq<seq<nat>>, e: nat)
    requires g.Indexed() && e <= |g.edges|
  {
    && |buckets| == |g.states|
    && (forall u, k :: 0 <= u < |buckets| && 0 <= k < |buckets[u]| ==>
          buckets[u][k] < e && g.index[g.edges[buckets[u][k]].to] == u)
    && (forall u, k, l :: 0 <= u < |buckets| && 0 <= k < l < |buckets[u]| ==> buckets[u][k] < buckets[u][l])
    && (forall f :: 0 <= f < e ==> f in buckets[g.index[g.edges[f].to]])
  }

  lemma BucketGrows(g: Network, buckets: seq<seq<nat>>, e: nat)
    requires g.Indexed() && e < |g.edges| && Inverted(g, buckets, e)
    ensures var u := g.index[g.edges[e].to];
            u < |buckets| && Inverted(g, buckets[u := buckets[u] + [e]], e + 1)
  {
    var u := g.index[g.edges[e].to];
    var grown := buckets[u := buckets[u] + [e]];
    forall f | 0 <= f < e + 1 ensures f in grown[g.index[g.edges[f].to]] {
      if f == e {
        assert grown[u][|buckets[u]|] == e;
      } else if g.index[g.edges[f].to] == u {
        var k :| 0 <= k < |buckets[u]| && buckets[u][k] == f;
        assert grown[u][k] == f;
      }
    }
  }

  /** The edges joining each ordered pair of locations. */
  type Groups = map<(Location, Location), seq<nat>>

  ghost predicate Grouped(edges: seq<Edge>, groups: Groups) {
    && (forall p, k :: p in groups && 0 <= k < |groups[p]| ==>
          groups[p][k] < |edges| && (edges[groups[p][k]].from, edges[groups[p][k]].to) == p)
    && (forall e :: 0 <= e < |edges| ==>
          (edges[e].from, edges[e].to) in groups && e in groups[(edges[e].from, edges[e].to)])
  }

  function Grow(edges: seq<Edge>, groups: Groups, edge: Edge): Groups {
    var p := (edge.from, edge.to);
    groups[p := (if p in groups then groups[p] else []) + [|edges|]]
  }

  lemma GrowKeepsGrouped(edges: seq<Edge>, groups: Groups, edge: Edge)
    requires Grouped(edges, groups)
    ensures Grouped(edges + [edge], Grow(edges, groups, edge))
  {
    var grown, more, p := Grow(edges, groups, edge), edges + [edge], (edge.from, edge.to);
    forall e | 0 <= e < |more| ensures e in grown[(more[e].from, more[e].to)] {
      if e == |edges| {
        assert grown[p][|grown[p]| - 1] == e;
      } else if (edges[e].from, edges[e].to) == p {
        var k :| 0 <= k < |groups[p]| && groups[p][k] == e;
        assert grown[p][k] == e;
      }
    }
  }

  class Oracle {
    var tables: Network
    var byEndpoints: Groups

    ghost predicate Valid()
      reads this
    {
      tables.Indexed() && Grouped(tables.edges, byEndpoints)
    }

    constructor ()
      ensures Valid() && tables == Network([], map[], [], [])
    {
      tables, byEndpoints := Network([], map[], [], []), map[];
    }

    /** A repeated location keeps its first number. */
    method AddState(at: Location)
      requires Valid()
      modifies this`tables
      ensures Valid() && tables.states == old(tables.states) + [at]
      ensures tables.index == if at in old(tables.index) then old(tables.index)
                              else old(tables.index)[at := |old(tables.states)|]
      ensures tables.edges == old(tables.edges)
    {
      if at !in tables.index {
        tables := tables.(index := tables.index[at := |tables.states|]);
      }
      tables := tables.(states := tables.states + [at]);
    }

    /** An edge whose endpoints were not added is refused; the source aborts on it. */
    method AddEdge(edge: Edge) returns (ok: bool)
      requires Valid()
      modifies this
      ensures Valid() && (ok <==> edge.from in old(tables.index) && edge.to in old(tables.index))
      ensures ok ==> tables == old(tables).(edges := old(tables.edges) + [edge])
                     && byEndpoints == Grow(old(tables.edges), old(byEndpoints), edge)
      ensures !ok ==> tables == old(tables) && byEndpoints == old(byEndpoints)
    {
      if edge.from !in tables.index || edge.to !in tables.index {
        return false;
      }
      ok := true;
      GrowKeepsGrouped(tables.edges, byEndpoints, edge);
      byEndpoints := Grow(tables.edges, byEndpoints, edge);
      tables := tables.(edges := tables.edges + [edge]);
    }

    /** The last step of building: invert the edge list. */
    method Reverse()
      requires Valid()
      modifies this`tables
      ensures Valid() && tables.Valid() && tables == old(tables).(reverse := tables.reverse)
    {
      var g, buckets: seq<seq<nat>> := tables, seq(|tables.states|, _ => []);
      for e := 0 to |g.edges|
        invariant Inverted(g, buckets, e)
      {
        BucketGrows(g, buckets, e);
        var u := g.index[g.edges[e].to];
        buckets := buckets[u := buckets[u] + [e]];
      }
      tables := g.(reverse := buckets);
    }

    /** Relax every edge into the popped state. */
    method Expand(ghost goal: nat, before: seq<u64>, queued: multiset<Item>, d: u64, u: nat, ghost settled: set<nat>)
      returns (dist: seq<u64>, heap: multiset<Item>, ghost done: set<nat>, ghost pushes: nat)
      requires tables.Valid() && tables.Canonical(goal) && tables.Canonical(u)
      requires |before| == |tables.states| == |tables.reverse| && u < |before|
      requires Consistent(tables, before, queued, settled, {(d, u)})
      requires before[u] == d < INFINITE && (d, u) !in queued && u !in settled
      requires Safe(tables, goal) ==>
                 Settling(tables, goal, before, queued, settled, d) &&
                 Reaches(tables.Arcs(), Target(tables, goal), tables.states[u]) &&
                 Distance(tables.Arcs(), Target(tables, goal), tables.states[u]) == d
      ensures Consistent(tables, dist, heap, done, {})
      ensures Sum(dist) < Sum(before) || (dist == before && heap == queued)
      ensures |dist| == |before| && pushes <= |tables.reverse[u]|
      ensures Safe(tables, goal) ==> Settling(tables, goal, dist, heap, done, d) && done == settled + {u}
    {
      hide Consistent, Settling, Relaxed, Safe, Sum;
      var g := tables;
      dist, heap, done, pushes := before, queued, settled, 0;
      RelaxedNone(g, dist, u, d);
      for i := 0 to |g.reverse[u]|
        invariant |dist| == |g.states|
        invariant Consistent(g, dist, heap, done, {(d, u)})
        invariant (d, u) !in heap && dist[u] <= d && u !in done
        invariant Relaxed(g, dist, u, d, i)
        invariant Sum(dist) < Sum(before) || (dist == before && heap == queued)
        invariant pushes <= i
        invariant Safe(g, goal) ==> Settling(g, goal, dist, heap, done, d) && done == settled && dist[u] == d
      {
        var edge := g.edges[g.reverse[u][i]];
        var v := g.index[edge.from];
        var candidate := WrapAdd(d, edge.cost);
        if Safe(g, goal) {
          SafeRelaxation(g, goal, dist, heap, done, d, u, i);
        }
        RelaxKeepsConsistent(g, dist, heap, done, (d, u), i);
        if candidate < dist[v] {
          SumUpdate(dist, v, candidate);
          dist := dist[v := candidate];
          heap := heap + multiset{(candidate, v)};
          assert Safe(g, goal) ==> done - {v} == done;
          done := done - {v};
          pushes := pushes + 1;
        }
      }
      ClosePopped(g, goal, dist, heap, done, d, u);
      if dist[u] == d {
        done := done + {u};
      }
    }

    /**
     Distances of all states to `goal`. They are the true minimum costs, with the sentinel exactly at
     the states without a route, if and only if the network is safe against wrap-around; and then keys
     leave the heap in order, every state with a route is expanded once, and no edge queues twice.
     */
    method DistancesTo(goal: nat) returns (dist: seq<u64>, ghost log: Log)
      requires tables.Valid() && tables.Canonical(goal)
      ensures |dist| == |tables.states|
      ensures Exact(tables, goal, dist) <==> Safe(tables, goal)
      ensures Safe(tables, goal) ==> InOrder(tables, dist, log)
    {
      hide Consistent, Settling, Safe, Sum, Orderly, InOrder, Exact;
      var g := tables;
      dist := seq(|g.states|, _ => INFINITE);
      dist := dist[goal := 0];
      var heap: multiset<Item> := multiset{(0, goal)};
      log := Log([], [], 1);
      ghost var done: set<nat> := {};
      ghost var key: nat := 0;
      StartSettles(g, goal, dist);
      StartConsistent(g, goal, dist);
      while heap != multiset{}
        invariant |dist| == |g.states|
        invariant Consistent(g, dist, heap, done, {})
        invariant Safe(g, goal) ==> Settling(g, goal, dist, heap, done, key) && Orderly(g, done, log, key)
        decreases Sum(dist), |heap|
      {
        ghost var _ := TopExists(heap);
        var top :| top in heap && forall it :: it in heap ==> NotAfter(top, it);
        PopOpens(g, goal, dist, heap, done, key, log, top);
        var (d, u) := top;
        heap := heap - multiset{top};
        log := log.(popped := log.popped + [d]);
        key := d;
        if d == dist[u] {
          ghost var settled, pushes := done, 0;
          dist, heap, done, pushes := Expand(goal, dist, heap, d, u, done);
          if Safe(g, goal) {
            ExpansionIsOrderly(g, settled, log, key, u, pushes);
          }
          log := log.(expanded := log.expanded + [u], pushes := log.pushes + pushes);
        }
      }
      assert heap == multiset{};
      SearchDelivers(g, goal, dist, done, key, log);
    }
  }
  /** The reference search on the wrapping network. */
  method SearchWrapping(o: Oracle) returns (dist: seq<u64>)
    requires o.tables == Wrapping()
    ensures Wrapping().Valid() && !Exact(Wrapping(), 0, dist)
  {
    hide Wrapping, Safe, Exact;
    WrappingIsUnsafe();
    ghost var log;
    dist, log := o.DistancesTo(0);
  }
}
