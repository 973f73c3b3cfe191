/**
 Directed walks with non-negative (possibly zero) costs, shortest distances toward a set of priced
 destinations, and the one invariant every label-setting search of the repository rests on.
 */
module Graph {
  import opened Arithmetic

  /** A node of one navigation domain. */
  datatype Location = Location(domain: nat, node: nat)

  /** A directed step with its cost; parallel edges of equal cost are one arc. */
  datatype Arc = Arc(from: Location, to: Location, cost: nat)

  type Walk = seq<Arc>

  ghost predicate IsWalk(arcs: iset<Arc>, x: Location, w: Walk)
    decreases |w|
  {
    w == [] || (w[0] in arcs && w[0].from == x && IsWalk(arcs, w[0].to, w[1..]))
  }

  ghost function End(x: Location, w: Walk): Location
    decreases |w|
  {
    if w == [] then x else End(w[0].to, w[1..])
  }

  ghost function Cost(w: Walk): nat {
    if w == [] then 0 else w[0].cost + Cost(w[1..])
  }

  /** A walk from `x` to one of the destinations. */
  ghost predicate Arrives(arcs: iset<Arc>, seeds: map<Location, nat>, x: Location, w: Walk) {
    IsWalk(arcs, x, w) && End(x, w) in seeds
  }

  /** The walk's cost plus the price already known at the destination it ends at. */
  ghost function Total(seeds: map<Location, nat>, x: Location, w: Walk): nat
    requires End(x, w) in seeds
  {
    Cost(w) + seeds[End(x, w)]
  }

  ghost predicate Reaches(arcs: iset<Arc>, seeds: map<Location, nat>, x: Location) {
    exists w :: Arrives(arcs, seeds, x, w)
  }

  ghost predicate IsDistance(arcs: iset<Arc>, seeds: map<Location, nat>, x: Location, d: nat) {
    && (exists w :: Arrives(arcs, seeds, x, w) && Total(seeds, x, w) == d)
    && forall w :: Arrives(arcs, seeds, x, w) ==> d <= Total(seeds, x, w)
  }

  /** The minimum cost over all walks from `x`, whatever their length. */
  ghost function Distance(arcs: iset<Arc>, seeds: map<Location, nat>, x: Location): (d: nat)
    requires Reaches(arcs, seeds, x)
    ensures IsDistance(arcs, seeds, x, d)
  {
    var w :| Arrives(arcs, seeds, x, w);
    DistanceExists(arcs, seeds, x, w);
    var d :| IsDistance(arcs, seeds, x, d);
    d
  }

  lemma {:induction false} DistanceExists(arcs: iset<Arc>, seeds: map<Location, nat>, x: Location, w: Walk)
    requires Arrives(arcs, seeds, x, w)
    ensures exists d: nat :: IsDistance(arcs, seeds, x, d)
    decreases Total(seeds, x, w)
  {
    if v :| Arrives(arcs, seeds, x, v) && Total(seeds, x, v) < Total(seeds, x, w) {
      DistanceExists(arcs, seeds, x, v);
    } else {
      assert IsDistance(arcs, seeds, x, Total(seeds, x, w));
    }
  }

  lemma DistanceUnique(arcs: iset<Arc>, seeds: map<Location, nat>, x: Location, d: nat)
    requires IsDistance(arcs, seeds, x, d)
    ensures Reaches(arcs, seeds, x) && Distance(arcs, seeds, x) == d
  {
    var w :| Arrives(arcs, seeds, x, w) && Total(seeds, x, w) == d;
  }

  /** One more step in front of a walk. */
  lemma Prepend(arcs: iset<Arc>, seeds: map<Location, nat>, a: Arc, w: Walk)
    requires a in arcs && Arrives(arcs, seeds, a.to, w)
    ensures Arrives(arcs, seeds, a.from, [a] + w)
    ensures Total(seeds, a.from, [a] + w) == a.cost + Total(seeds, a.to, w)
  {
    assert ([a] + w)[1..] == w;
  }

  /** Distances obey the triangle inequality along every arc. */
  lemma ArcDistance(arcs: iset<Arc>, seeds: map<Location, nat>, a: Arc)
    requires a in arcs && Reaches(arcs, seeds, a.to)
    ensures Reaches(arcs, seeds, a.from)
    ensures Distance(arcs, seeds, a.from) <= a.cost + Distance(arcs, seeds, a.to)
  {
    var w :| Arrives(arcs, seeds, a.to, w) && Total(seeds, a.to, w) == Distance(arcs, seeds, a.to);
    Prepend(arcs, seeds, a, w);
  }

  /**
   The state of a label-setting search between two expansions: `settled` labels are at most `key`, the
   others at least `key`, and every arc into a settled location has been relaxed unless its sum reaches
   `limit`, the first cost the search cannot represent.
   */
  ghost predicate Frontier(arcs: iset<Arc>, seeds: map<Location, nat>, limit: nat,
                           dist: map<Location, nat>, settled: set<Location>, key: nat)
  {
    && settled <= dist.Keys
    && (forall s :: s in seeds && seeds[s] < limit ==> s in dist && dist[s] <= seeds[s])
    && (forall x :: x in settled ==> dist[x] <= key)
    && (forall x :: x in dist && x !in settled ==> key <= dist[x])
    && (forall a :: a in arcs && a.to in settled && dist[a.to] + a.cost < limit ==>
          a.from in dist && dist[a.from] <= dist[a.to] + a.cost)
  }

  /** Settled labels bound every representable walk from below; no unsettled walk undercuts the key. */
  lemma {:induction false} SettledBound(arcs: iset<Arc>, seeds: map<Location, nat>, limit: nat,
                                        dist: map<Location, nat>, settled: set<Location>, key: nat,
                                        x: Location, w: Walk)
    requires Frontier(arcs, seeds, limit, dist, settled, key)
    requires Arrives(arcs, seeds, x, w) && Total(seeds, x, w) < limit
    ensures x in settled ==> dist[x] <= Total(seeds, x, w)
    ensures x !in settled ==> key <= Total(seeds, x, w)
    decreases |w|
  {
    if w == [] {
    } else {
      SettledBound(arcs, seeds, limit, dist, settled, key, w[0].to, w[1..]);
    }
  }

  /** The key may rise to any lower bound of the unsettled labels. */
  lemma RaiseKey(arcs: iset<Arc>, seeds: map<Location, nat>, limit: nat,
                 dist: map<Location, nat>, settled: set<Location>, key: nat, higher: nat)
    requires Frontier(arcs, seeds, limit, dist, settled, key) && key <= higher
    requires forall x :: x in dist && x !in settled ==> higher <= dist[x]
    ensures Frontier(arcs, seeds, limit, dist, settled, higher)
  {
  }

  /** An unsettled location may receive a first or a smaller label that is not below the key. */
  lemma Relabel(arcs: iset<Arc>, seeds: map<Location, nat>, limit: nat,
                dist: map<Location, nat>, settled: set<Location>, key: nat, x: Location, c: nat)
    requires Frontier(arcs, seeds, limit, dist, settled, key)
    requires x !in settled && key <= c && (x in dist ==> c <= dist[x])
    ensures Frontier(arcs, seeds, limit, dist[x := c], settled, key)
  {
  }

  /** A location labelled with the key may be settled once all arcs into it are relaxed. */
  lemma Settle(arcs: iset<Arc>, seeds: map<Location, nat>, limit: nat,
               dist: map<Location, nat>, settled: set<Location>, key: nat, x: Location)
    requires Frontier(arcs, seeds, limit, dist, settled, key)
    requires x in dist && dist[x] == key
    requires forall a :: a in arcs && a.to == x && key + a.cost < limit ==>
               a.from in dist && dist[a.from] <= key + a.cost
    ensures Frontier(arcs, seeds, limit, dist, settled + {x}, key)
  {
  }

  /** On the frontier, a settled label is at most the distance, and an unsettled distance at least the key. */
  lemma DistanceBound(arcs: iset<Arc>, seeds: map<Location, nat>, limit: nat,
                      dist: map<Location, nat>, settled: set<Location>, key: nat, x: Location)
    requires Frontier(arcs, seeds, limit, dist, settled, key)
    requires Reaches(arcs, seeds, x) && Distance(arcs, seeds, x) < limit
    ensures if x in settled then dist[x] <= Distance(arcs, seeds, x) else key <= Distance(arcs, seeds, x)
  {
    var w :| Arrives(arcs, seeds, x, w) && Total(seeds, x, w) == Distance(arcs, seeds, x);
    SettledBound(arcs, seeds, limit, dist, settled, key, x, w);
  }

  // ------------------------------------------------------------------------------------------------
  // Walks need not be long: a cheapest walk can be taken without repeating a location.

  /** The locations a walk leaves, in order. */
  ghost function Departures(w: Walk): seq<Location> {
    seq(|w|, i requires 0 <= i < |w| => w[i].from)
  }

  lemma {:induction false} SplitWalk(arcs: iset<Arc>, x: Location, w: Walk, k: nat)
    requires IsWalk(arcs, x, w) && k < |w|
    ensures IsWalk(arcs, w[k].from, w[k..]) && End(w[k].from, w[k..]) == End(x, w)
    ensures Cost(w) == Cost(w[..k]) + Cost(w[k..])
    decreases k
  {
    if k == 0 {
      assert w[..0] == [] && w[0..] == w;
    } else {
      SplitWalk(arcs, w[0].to, w[1..], k - 1);
      assert w[1..][k-1..] == w[k..] && w[..k][1..] == w[1..][..k-1];
    }
  }

  lemma {:induction false} JoinWalk(arcs: iset<Arc>, x: Location, w: Walk, v: Walk)
    requires IsWalk(arcs, x, w) && IsWalk(arcs, End(x, w), v)
    ensures IsWalk(arcs, x, w + v) && End(x, w + v) == End(End(x, w), v)
    ensures Cost(w + v) == Cost(w) + Cost(v)
    decreases |w|
  {
    if w == [] {
      assert w + v == v;
    } else {
      JoinWalk(arcs, w[0].to, w[1..], v);
      assert (w + v)[1..] == w[1..] + v;
    }
  }

  lemma {:induction false} TakeWalk(arcs: iset<Arc>, x: Location, w: Walk, k: nat)
    requires IsWalk(arcs, x, w) && k < |w|
    ensures IsWalk(arcs, x, w[..k]) && End(x, w[..k]) == w[k].from
    decreases k
  {
    if k != 0 {
      TakeWalk(arcs, w[0].to, w[1..], k - 1);
      assert w[..k][1..] == w[1..][..k-1];
    }
  }

  /** Pigeonhole: a sequence longer than the set it draws from repeats an element. */
  lemma {:induction false} Repeats<T>(s: seq<T>, universe: set<T>)
    requires forall i :: 0 <= i < |s| ==> s[i] in universe
    requires |s| > |universe|
    ensures exists i, j :: 0 <= i < j < |s| && s[i] == s[j]
  {
    if i :| 0 <= i < |s| - 1 && s[i] == s[|s|-1] {
    } else {
      var t := s[..|s|-1];
      Repeats(t, universe - {s[|s|-1]});
      var i, j :| 0 <= i < j < |t| && t[i] == t[j];
      assert s[i] == s[j];
    }
  }

  /** Any walk can be shortened to fewer steps than there are locations, at no extra cost. */
  lemma {:induction false} ShortWalk(arcs: iset<Arc>, nodes: set<Location>, x: Location, w: Walk) returns (v: Walk)
    requires forall a :: a in arcs ==> a.from in nodes && a.to in nodes
    requires IsWalk(arcs, x, w)
    ensures IsWalk(arcs, x, v) && End(x, v) == End(x, w) && Cost(v) <= Cost(w) && |v| <= |nodes|
    decreases |w|
  {
    if |w| <= |nodes| {
      v := w;
    } else {
      var s := Departures(w);
      forall i | 0 <= i < |w| ensures s[i] in nodes {
        SplitWalk(arcs, x, w, i);
      }
      Repeats(s, nodes);
      var i, j :| 0 <= i < j < |s| && s[i] == s[j];
      TakeWalk(arcs, x, w, i);
      SplitWalk(arcs, x, w, i);
      SplitWalk(arcs, x, w, j);
      SplitWalk(arcs, w[i].from, w[i..], j - i);
      assert w[i..][j-i..] == w[j..];
      JoinWalk(arcs, x, w[..i], w[j..]);
      v := ShortWalk(arcs, nodes, x, w[..i] + w[j..]);
    }
  }

  lemma {:induction false} CostBound(arcs: iset<Arc>, x: Location, w: Walk, m: nat)
    requires IsWalk(arcs, x, w) && forall a :: a in arcs ==> a.cost <= m
    ensures Cost(w) <= |w| * m
    decreases |w|
  {
    if w == [] {
    } else {
      CostBound(arcs, w[0].to, w[1..], m);
      assert |w| * m == m + |w[1..]| * m;
    }
  }

  /** Distances to unpriced destinations never exceed the number of locations times the dearest arc. */
  lemma DistanceCeiling(arcs: iset<Arc>, nodes: set<Location>, seeds: map<Location, nat>, x: Location, m: nat)
    requires forall a :: a in arcs ==> a.from in nodes && a.to in nodes && a.cost <= m
    requires forall s :: s in seeds ==> seeds[s] == 0
    requires Reaches(arcs, seeds, x)
    ensures Distance(arcs, seeds, x) <= |nodes| * m
  {
    var w :| Arrives(arcs, seeds, x, w);
    var v := ShortWalk(arcs, nodes, x, w);
    CostBound(arcs, x, v, m);
    Monotone(|v|, |nodes|, m);
    assert Arrives(arcs, seeds, x, v);
  }

  // ------------------------------------------------------------------------------------------------
  // Renaming locations preserves distances

  ghost predicate Renames(a: iset<Arc>, b: iset<Arc>, p: map<Location, nat>, q: map<Location, nat>, f: Location -> Location) {
    && (forall e :: e in a ==> Arc(f(e.from), f(e.to), e.cost) in b)
    && (forall s :: s in p ==> f(s) in q && q[f(s)] == p[s])
  }

  lemma {:induction false} RenameWalk(a: iset<Arc>, b: iset<Arc>, p: map<Location, nat>, q: map<Location, nat>,
                                      f: Location -> Location, x: Location, w: Walk) returns (v: Walk)
    requires Renames(a, b, p, q, f) && Arrives(a, p, x, w)
    ensures Arrives(b, q, f(x), v) && Total(q, f(x), v) == Total(p, x, w)
    decreases |w|
  {
    if w == [] {
      v := [];
    } else {
      var rest := RenameWalk(a, b, p, q, f, w[0].to, w[1..]);
      var e := Arc(f(w[0].from), f(w[0].to), w[0].cost);
      Prepend(b, q, e, rest);
      v := [e] + rest;
    }
  }

  lemma RenamedBound(a: iset<Arc>, b: iset<Arc>, p: map<Location, nat>, q: map<Location, nat>, f: Location -> Location, x: Location)
    requires Renames(a, b, p, q, f) && Reaches(a, p, x)
    ensures Reaches(b, q, f(x)) && Distance(b, q, f(x)) <= Distance(a, p, x)
  {
    var w :| Arrives(a, p, x, w) && Total(p, x, w) == Distance(a, p, x);
    var v := RenameWalk(a, b, p, q, f, x, w);
  }

  /** Two graphs that rename into one another agree on reachability and distance. */
  lemma RenamedDistance(a: iset<Arc>, b: iset<Arc>, p: map<Location, nat>, q: map<Location, nat>,
                        f: Location -> Location, g: Location -> Location, x: Location)
    requires Renames(a, b, p, q, f) && Renames(b, a, q, p, g) && g(f(x)) == x
    ensures Reaches(a, p, x) <==> Reaches(b, q, f(x))
    ensures Reaches(a, p, x) ==> Distance(a, p, x) == Distance(b, q, f(x))
  {
    hide Renames, Reaches, Distance;
    if Reaches(a, p, x) {
      RenamedBound(a, b, p, q, f, x);
    }
    if Reaches(b, q, f(x)) {
      RenamedBound(b, a, q, p, g, f(x));
    }
  }

  // ------------------------------------------------------------------------------------------------
  // More arcs and cheaper destinations never make a distance longer

  ghost predicate NoDearer(p: map<Location, nat>, q: map<Location, nat>) {
    forall x :: x in p ==> x in q && q[x] <= p[x]
  }

  ghost predicate Extends(a: iset<Arc>, b: iset<Arc>, p: map<Location, nat>, q: map<Location, nat>) {
    a <= b && NoDearer(p, q)
  }

  lemma {:induction false} ExtendedWalk(a: iset<Arc>, b: iset<Arc>, x: Location, w: Walk)
    requires a <= b && IsWalk(a, x, w)
    ensures IsWalk(b, x, w)
    decreases |w|
  {
    if w != [] {
      ExtendedWalk(a, b, w[0].to, w[1..]);
    }
  }

  lemma ExtendedDistance(a: iset<Arc>, b: iset<Arc>, p: map<Location, nat>, q: map<Location, nat>, x: Location)
    requires Extends(a, b, p, q) && Reaches(a, p, x)
    ensures Reaches(b, q, x) && Distance(b, q, x) <= Distance(a, p, x)
  {
    var w :| Arrives(a, p, x, w) && Total(p, x, w) == Distance(a, p, x);
    ExtendedWalk(a, b, x, w);
    assert Arrives(b, q, x, w);
  }

  // ------------------------------------------------------------------------------------------------
  // Distances from a potential

  /** No arc descends faster than it costs, and no destination is priced below its height. */
  ghost predicate Shallow(arcs: iset<Arc>, seeds: map<Location, nat>, h: Location -> nat) {
    && (forall a :: a in arcs ==> h(a.from) <= a.cost + h(a.to))
    && (forall s :: s in seeds ==> h(s) <= seeds[s])
  }

  lemma {:induction false} PotentialBound(arcs: iset<Arc>, seeds: map<Location, nat>, h: Location -> nat, x: Location, w: Walk)
    requires Shallow(arcs, seeds, h) && Arrives(arcs, seeds, x, w)
    ensures h(x) <= Total(seeds, x, w)
    decreases |w|
  {
    if w != [] {
      PotentialBound(arcs, seeds, h, w[0].to, w[1..]);
    }
  }

  /** From everywhere in the region some arc descends exactly as much as it costs, and one step closer. */
  ghost predicate Descending(arcs: iset<Arc>, seeds: map<Location, nat>, h: Location -> nat, steps: Location -> nat, region: iset<Location>) {
    forall x :: x in region ==>
      if steps(x) == 0 then x in seeds && seeds[x] == h(x)
      else exists a :: a in arcs && a.from == x && a.to in region && h(x) == a.cost + h(a.to) && steps(x) == 1 + steps(a.to)
  }

  lemma {:induction false} Descend(arcs: iset<Arc>, seeds: map<Location, nat>, h: Location -> nat, steps: Location -> nat,
                                   region: iset<Location>, x: Location) returns (w: Walk)
    requires Descending(arcs, seeds, h, steps, region) && x in region
    ensures Arrives(arcs, seeds, x, w) && Total(seeds, x, w) == h(x) && |w| == steps(x)
    decreases steps(x)
  {
    if steps(x) == 0 {
      w := [];
    } else {
      var a :| a in arcs && a.from == x && a.to in region && h(x) == a.cost + h(a.to) && steps(x) == 1 + steps(a.to);
      var rest := Descend(arcs, seeds, h, steps, region, a.to);
      Prepend(arcs, seeds, a, rest);
      w := [a] + rest;
    }
  }

  lemma PotentialIsDistance(arcs: iset<Arc>, seeds: map<Location, nat>, h: Location -> nat, steps: Location -> nat,
                            region: iset<Location>, x: Location)
    requires Shallow(arcs, seeds, h) && Descending(arcs, seeds, h, steps, region) && x in region
    ensures Reaches(arcs, seeds, x) && Distance(arcs, seeds, x) == h(x)
  {
    var w := Descend(arcs, seeds, h, steps, region, x);
    forall v | Arrives(arcs, seeds, x, v) ensures h(x) <= Total(seeds, x, v) {
      PotentialBound(arcs, seeds, h, x, v);
    }
  }
}
