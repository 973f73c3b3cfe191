/**
 The closed-form references: Manhattan distances on an open grid of any size, and the composition of two
 such grids joined by a short road, whose every seam can also be crossed backwards.
 */
module GridOracles {
  import opened Arithmetic
  import opened Machine
  import opened Graph
  import opened NavigationOracle

  /** A square of cells and the one-to-one numbering of its cells as nodes. */
  datatype Square = Square(size: nat, key: (int, int) -> nat, column: nat -> int, row: nat -> int)
  {
    predicate Contains(x: int, y: int) {
      0 <= x < size && 0 <= y < size
    }

    ghost predicate Valid() {
      forall x, y :: Contains(x, y) ==> column(key(x, y)) == x && row(key(x, y)) == y
    }

    /** The cell of a grid role. */
    function Cell(role: nat, x: int, y: int): Location {
      Location(role, key(x, y))
    }
  }

  function Manhattan(x: int, y: int, gx: int, gy: int): nat {
    Abs(x - gx) + Abs(y - gy)
  }

  /** All steps between face neighbours of an open square, at one common cost. */
  ghost function OpenGrid(q: Square, role: nat, cost: nat): iset<Arc> {
    iset x, y, nx, ny | q.Contains(x, y) && q.Contains(nx, ny) && Manhattan(x, y, nx, ny) == 1 ::
      Arc(q.Cell(role, x, y), q.Cell(role, nx, ny), cost)
  }

  ghost function Cells(q: Square, role: nat): iset<Location> {
    iset x, y | q.Contains(x, y) :: q.Cell(role, x, y)
  }

  /** The neighbour one step closer to the target, columns first. */
  function Toward(x: int, y: int, gx: int, gy: int): (int, int) {
    if x < gx then (x + 1, y) else if x > gx then (x - 1, y) else if y < gy then (x, y + 1) else (x, y - 1)
  }

  lemma TowardIsCloser(q: Square, x: int, y: int, gx: int, gy: int)
    requires q.Contains(x, y) && q.Contains(gx, gy) && (x, y) != (gx, gy)
    ensures var (nx, ny) := Toward(x, y, gx, gy);
            q.Contains(nx, ny) && Manhattan(x, y, nx, ny) == 1 && Manhattan(x, y, gx, gy) == 1 + Manhattan(nx, ny, gx, gy)
  {
  }

  lemma TriangleInequality(x: int, y: int, nx: int, ny: int, gx: int, gy: int)
    ensures Manhattan(x, y, gx, gy) <= Manhattan(x, y, nx, ny) + Manhattan(nx, ny, gx, gy)
  {
  }

  /** How many steps a cell of the square is from the target. */
  function StepsAt(q: Square, gx: int, gy: int, at: Location): nat {
    Manhattan(q.column(at.node), q.row(at.node), gx, gy)
  }

  lemma GridArc(q: Square, role: nat, cost: nat, gx: int, gy: int, a: Arc)
    requires q.Valid() && a in OpenGrid(q, role, cost)
    ensures a.cost == cost && a.from in Cells(q, role) && a.to in Cells(q, role)
    ensures StepsAt(q, gx, gy, a.from) <= 1 + StepsAt(q, gx, gy, a.to)
  {
    var x, y, nx, ny :| q.Contains(x, y) && q.Contains(nx, ny) && Manhattan(x, y, nx, ny) == 1
      && a == Arc(q.Cell(role, x, y), q.Cell(role, nx, ny), cost);
    TriangleInequality(x, y, nx, ny, gx, gy);
  }

  lemma GridDescent(q: Square, role: nat, cost: nat, gx: int, gy: int, at: Location) returns (a: Arc)
    requires q.Valid() && q.Contains(gx, gy) && at in Cells(q, role) && StepsAt(q, gx, gy, at) != 0
    ensures a in OpenGrid(q, role, cost) && a.from == at && a.to in Cells(q, role) && a.cost == cost
    ensures StepsAt(q, gx, gy, at) == 1 + StepsAt(q, gx, gy, a.to)
  {
    var x, y :| q.Contains(x, y) && at == q.Cell(role, x, y);
    TowardIsCloser(q, x, y, gx, gy);
    var (nx, ny) := Toward(x, y, gx, gy);
    a := Arc(at, q.Cell(role, nx, ny), cost);
  }

  lemma GridTarget(q: Square, role: nat, gx: int, gy: int, at: Location)
    requires q.Valid() && q.Contains(gx, gy) && at in Cells(q, role)
    ensures StepsAt(q, gx, gy, at) == 0 <==> at == q.Cell(role, gx, gy)
  {
    var x, y :| q.Contains(x, y) && at == q.Cell(role, x, y);
  }

  /** On an open grid every distance is the step cost times the Manhattan distance. */
  lemma OpenGridDistance(q: Square, role: nat, cost: nat, x: int, y: int, gx: int, gy: int)
    requires q.Valid() && q.Contains(x, y) && q.Contains(gx, gy)
    ensures var seeds: map<Location, nat> := map[q.Cell(role, gx, gy) := 0];
            Reaches(OpenGrid(q, role, cost), seeds, q.Cell(role, x, y)) &&
            Distance(OpenGrid(q, role, cost), seeds, q.Cell(role, x, y)) == cost * Manhattan(x, y, gx, gy)
  {
    hide OpenGrid, Cells, Manhattan, StepsAt, Reaches, Distance;
    var seeds: map<Location, nat> := map[q.Cell(role, gx, gy) := 0];
    var steps := (at: Location) => StepsAt(q, gx, gy, at);
    var h := (at: Location) => cost * StepsAt(q, gx, gy, at);
    var arcs, region := OpenGrid(q, role, cost), Cells(q, role);
    CellIsThere(q, role, gx, gy, gx, gy);
    GridTarget(q, role, gx, gy, q.Cell(role, gx, gy));
    forall a | a in arcs ensures h(a.from) <= a.cost + h(a.to) {
      GridArc(q, role, cost, gx, gy, a);
      Monotone(cost, StepsAt(q, gx, gy, a.from), StepsAt(q, gx, gy, a.to));
    }
    assert Shallow(arcs, seeds, h);
    forall at | at in region
      ensures if steps(at) == 0 then at in seeds && seeds[at] == h(at)
              else exists a :: a in arcs && a.from == at && a.to in region && h(at) == a.cost + h(a.to) && steps(at) == 1 + steps(a.to)
    {
      GridTarget(q, role, gx, gy, at);
      if steps(at) != 0 {
        var a := GridDescent(q, role, cost, gx, gy, at);
        Monotone(cost, steps(at), steps(a.to));
      }
    }
    assert Descending(arcs, seeds, h, steps, region);
    CellIsThere(q, role, x, y, gx, gy);
    PotentialIsDistance(arcs, seeds, h, steps, region, q.Cell(role, x, y));
  }

  /** So the reference search over an open grid whose costs fit computes exactly that. */
  method OpenGridDistances(o: Oracle, q: Square, role: nat, cost: nat, gx: int, gy: int) returns (dist: seq<u64>)
    requires q.Valid() && q.Contains(gx, gy) && o.tables.Valid()
    requires o.tables.Arcs() == OpenGrid(q, role, cost) && q.Cell(role, gx, gy) in o.tables.index
    requires (|o.tables.index| + 1) * cost < INFINITE
    ensures |dist| == |o.tables.states|
    ensures forall x, y :: q.Contains(x, y) && q.Cell(role, x, y) in o.tables.index ==>
              dist[o.tables.index[q.Cell(role, x, y)]] == cost * Manhattan(x, y, gx, gy)
  {
    hide OpenGrid, Manhattan;
    var goal := o.tables.index[q.Cell(role, gx, gy)];
    ghost var log;
    dist, log := o.DistancesTo(goal);
    forall e | e in o.tables.edges ensures e.cost <= cost {
      GridArc(q, role, cost, gx, gy, e.AsArc());
    }
    SmallCostsAreSafe(o.tables, goal, cost);
    forall x, y | q.Contains(x, y) && q.Cell(role, x, y) in o.tables.index
      ensures dist[o.tables.index[q.Cell(role, x, y)]] == cost * Manhattan(x, y, gx, gy)
    {
      OpenGridDistance(q, role, cost, x, y, gx, gy);
    }
  }

  lemma CellIsThere(q: Square, role: nat, x: int, y: int, gx: int, gy: int)
    requires q.Valid() && q.Contains(x, y)
    ensures q.Cell(role, x, y) in Cells(q, role) && StepsAt(q, gx, gy, q.Cell(role, x, y)) == Manhattan(x, y, gx, gy)
  {
  }

  lemma Monotone(cost: nat, a: nat, b: nat)
    ensures a <= 1 + b ==> cost * a <= cost + cost * b
    ensures a == 1 + b ==> cost * a == cost + cost * b
  {
    assert cost * (1 + b) == cost + cost * b;
    if a <= 1 + b {
      assert cost * a <= cost * (1 + b);
    }
  }

  // ------------------------------------------------------------------------------------------------
  // The composition: origin grid (role 0), a two-node road (role 1), destination grid (role 2)

  const EXIT_ROLE: nat := 0
  const ROAD_ROLE: nat := 1
  const ENTRY_ROLE: nat := 2

  function RoadStart(): Location { Location(ROAD_ROLE, 0) }
  function RoadEnd(): Location { Location(ROAD_ROLE, 1) }

  /** The far corner of a square, where one leaves the origin and arrives in the destination. */
  function Corner(q: Square, role: nat): Location
    requires q.size > 0
  {
    q.Cell(role, q.size - 1, q.size - 1)
  }

  /** Unit steps, a road of cost 5 with a dearer way back, weight-2 steps, and free two-way seams. */
  ghost function Links(q: Square): iset<Arc>
    requires q.size > 0
  {
    var exit, entry := Corner(q, EXIT_ROLE), q.Cell(ENTRY_ROLE, 0, 0);
    iset{Arc(RoadStart(), RoadEnd(), 5), Arc(RoadEnd(), RoadStart(), 7),
         Arc(exit, RoadStart(), 0), Arc(RoadStart(), exit, 0), Arc(RoadEnd(), entry, 0), Arc(entry, RoadEnd(), 0)}
  }

  ghost function Composition(q: Square): iset<Arc>
    requires q.size > 0
  {
    OpenGrid(q, EXIT_ROLE, 1) + Links(q) + OpenGrid(q, ENTRY_ROLE, 2)
  }

  /** The height of a place: what remains to be paid when never turning back. */
  function Height(q: Square, at: Location): nat
    requires q.size > 0
  {
    var last := q.size - 1;
    if at.domain == EXIT_ROLE then StepsAt(q, last, last, at) + 5 + 4 * last
    else if at.domain == ENTRY_ROLE then 2 * StepsAt(q, last, last, at)
    else if at.node == 0 then 5 + 4 * last
    else 4 * last
  }

  /** How many transitions remain when never turning back. */
  function Remaining(q: Square, at: Location): nat
    requires q.size > 0
  {
    var last := q.size - 1;
    if at.domain == EXIT_ROLE then StepsAt(q, last, last, at) + 3 + 2 * last
    else if at.domain == ENTRY_ROLE then StepsAt(q, last, last, at)
    else if at.node == 0 then 2 + 2 * last
    else 1 + 2 * last
  }

  ghost function Places(q: Square): iset<Location> {
    Cells(q, EXIT_ROLE) + Cells(q, ENTRY_ROLE) + iset{RoadStart(), RoadEnd()}
  }

  lemma Corners(q: Square)
    requires q.Valid() && q.size > 0
    ensures var last := q.size - 1;
            StepsAt(q, last, last, Corner(q, EXIT_ROLE)) == 0 && StepsAt(q, last, last, q.Cell(ENTRY_ROLE, 0, 0)) == 2 * last
    ensures Corner(q, EXIT_ROLE) in Cells(q, EXIT_ROLE) && q.Cell(ENTRY_ROLE, 0, 0) in Cells(q, ENTRY_ROLE)
  {
    CellIsThere(q, EXIT_ROLE, q.size - 1, q.size - 1, q.size - 1, q.size - 1);
    CellIsThere(q, ENTRY_ROLE, 0, 0, q.size - 1, q.size - 1);
  }

  lemma CellRole(q: Square, role: nat, at: Location)
    requires at in Cells(q, role)
    ensures at.domain == role
  {
  }

  /** No transition of the composition, backward seams included, descends by more than it costs, or by more than one step. */
  lemma CompositionIsShallow(q: Square, a: Arc)
    requires q.Valid() && q.size > 0 && a in Composition(q)
    ensures Height(q, a.from) <= a.cost + Height(q, a.to) && Remaining(q, a.from) <= 1 + Remaining(q, a.to)
  {
    hide OpenGrid, Cells, StepsAt;
    var last := q.size - 1;
    Corners(q);
    if a in OpenGrid(q, EXIT_ROLE, 1) {
      GridArc(q, EXIT_ROLE, 1, last, last, a);
      CellRole(q, EXIT_ROLE, a.from);
      CellRole(q, EXIT_ROLE, a.to);
    } else if a in OpenGrid(q, ENTRY_ROLE, 2) {
      GridArc(q, ENTRY_ROLE, 2, last, last, a);
      CellRole(q, ENTRY_ROLE, a.from);
      CellRole(q, ENTRY_ROLE, a.to);
    }
  }

  /** From every place but the goal some transition descends exactly what it costs. */
  lemma CompositionDescends(q: Square, at: Location) returns (a: Arc)
    requires q.Valid() && q.size > 0 && at in Places(q) && at != Corner(q, ENTRY_ROLE)
    ensures a in Composition(q) && a.from == at && a.to in Places(q)
    ensures Height(q, at) == a.cost + Height(q, a.to) && Remaining(q, at) == 1 + Remaining(q, a.to)
  {
    hide OpenGrid, Cells, StepsAt;
    var last := q.size - 1;
    Corners(q);
    if at == RoadStart() {
      a := Arc(RoadStart(), RoadEnd(), 5);
    } else if at == RoadEnd() {
      a := Arc(RoadEnd(), q.Cell(ENTRY_ROLE, 0, 0), 0);
    } else if at == Corner(q, EXIT_ROLE) {
      a := Arc(at, RoadStart(), 0);
    } else if at in Cells(q, EXIT_ROLE) {
      GridTarget(q, EXIT_ROLE, last, last, at);
      a := GridDescent(q, EXIT_ROLE, 1, last, last, at);
      CellRole(q, EXIT_ROLE, at);
      CellRole(q, EXIT_ROLE, a.to);
    } else {
      GridTarget(q, ENTRY_ROLE, last, last, at);
      a := GridDescent(q, ENTRY_ROLE, 2, last, last, at);
      CellRole(q, ENTRY_ROLE, at);
      CellRole(q, ENTRY_ROLE, a.to);
    }
  }

  /** The benchmark's closed forms, for grids of any size and any starting cell of the origin. */
  function ComposedCost(size: nat, x: int, y: int): int {
    (2 * (size - 1) - x - y) + 5 + 4 * (size - 1)
  }

  function ComposedSteps(size: nat, x: int, y: int): int {
    (2 * (size - 1) - x - y) + 3 + 2 * (size - 1)
  }

  /**
   The composed distance is the closed form, a walk of exactly the stated number of transitions attains
   it, and no walk to the goal has fewer transitions: crossing a seam or the road backwards never helps.
   */
  lemma ComposedDistance(q: Square, x: int, y: int) returns (w: Walk)
    requires q.Valid() && q.Contains(x, y)
    ensures var seeds: map<Location, nat> := map[Corner(q, ENTRY_ROLE) := 0];
            var start := q.Cell(EXIT_ROLE, x, y);
            && Reaches(Composition(q), seeds, start)
            && Distance(Composition(q), seeds, start) == ComposedCost(q.size, x, y)
            && Arrives(Composition(q), seeds, start, w)
            && Cost(w) == ComposedCost(q.size, x, y) && |w| == ComposedSteps(q.size, x, y)
            && forall v :: Arrives(Composition(q), seeds, start, v) ==> ComposedSteps(q.size, x, y) <= |v|
  {
    hide Composition, OpenGrid, Cells, StepsAt, Places, Height, Remaining, Shallow, Descending, Reaches, Distance, IsWalk;
    var seeds: map<Location, nat> := map[Corner(q, ENTRY_ROLE) := 0];
    var start := q.Cell(EXIT_ROLE, x, y);
    var h, steps := (at: Location) => Height(q, at), (at: Location) => Remaining(q, at);
    HeightsFit(q, seeds, h, steps);
    HeightAt(q, x, y);
    PotentialIsDistance(Composition(q), seeds, h, steps, Places(q), start);
    w := Descend(Composition(q), seeds, h, steps, Places(q), start);
    forall v | Arrives(Composition(q), seeds, start, v) ensures steps(start) <= |v| {
      StepsBound(q, seeds, start, v);
    }
  }

  lemma HeightAt(q: Square, x: int, y: int)
    requires q.Valid() && q.Contains(x, y)
    ensures var start := q.Cell(EXIT_ROLE, x, y);
            start in Places(q) && Height(q, start) == ComposedCost(q.size, x, y) && Remaining(q, start) == ComposedSteps(q.size, x, y)
  {
    CellIsThere(q, EXIT_ROLE, x, y, q.size - 1, q.size - 1);
  }

  lemma HeightsFit(q: Square, seeds: map<Location, nat>, h: Location -> nat, steps: Location -> nat)
    requires q.Valid() && q.size > 0 && seeds == map[Corner(q, ENTRY_ROLE) := 0]
    requires forall at :: h(at) == Height(q, at) && steps(at) == Remaining(q, at)
    ensures Shallow(Composition(q), seeds, h) && Descending(Composition(q), seeds, h, steps, Places(q))
  {
    hide Composition, Places, Height, Remaining;
    GoalIsBottom(q);
    forall a | a in Composition(q) ensures h(a.from) <= a.cost + h(a.to) {
      CompositionIsShallow(q, a);
    }
    forall at | at in Places(q) && at != Corner(q, ENTRY_ROLE)
      ensures steps(at) != 0 && exists a :: a in Composition(q) && a.from == at && a.to in Places(q)
                                            && h(at) == a.cost + h(a.to) && steps(at) == 1 + steps(a.to)
    {
      var a := CompositionDescends(q, at);
    }
  }

  lemma GoalIsBottom(q: Square)
    requires q.Valid() && q.size > 0
    ensures Height(q, Corner(q, ENTRY_ROLE)) == 0 && Remaining(q, Corner(q, ENTRY_ROLE)) == 0
  {
    CellIsThere(q, ENTRY_ROLE, q.size - 1, q.size - 1, q.size - 1, q.size - 1);
  }

  lemma {:induction false} StepsBound(q: Square, seeds: map<Location, nat>, x: Location, w: Walk)
    requires q.Valid() && q.size > 0 && seeds == map[Corner(q, ENTRY_ROLE) := 0] && Arrives(Composition(q), seeds, x, w)
    ensures Remaining(q, x) <= |w|
    decreases |w|
  {
    hide Composition, Remaining;
    if w == [] {
      GoalIsBottom(q);
    } else {
      CompositionIsShallow(q, w[0]);
      StepsBound(q, seeds, w[0].to, w[1..]);
    }
  }

  // ------------------------------------------------------------------------------------------------
  // Candidate ordinals

  /** The candidate offsets in the order grids enumerate them: faces first, then diagonals. */
  function Offset(i: nat): (int, int)
    requires i < 8
  {
    [(1, 0), (-1, 0), (0, 1), (0, -1), (1, 1), (1, -1), (-1, 1), (-1, -1)][i]
  }

  /** Faces come before diagonals, along x before along y, and the positive direction first. */
  lemma OffsetsAre(i: nat, k: nat)
    requires i < 8 && k < 8
    ensures var (x, y) := Offset(i); Abs(x) <= 1 && Abs(y) <= 1 && (i < 4 <==> Abs(x) + Abs(y) == 1) && (i >= 4 <==> Abs(x) + Abs(y) == 2)
    ensures var (x, y) := Offset(i); var (u, v) := Offset(k);
            i < k <==> || Abs(x) + Abs(y) < Abs(u) + Abs(v)
                       || (Abs(x) + Abs(y) == Abs(u) + Abs(v) && (Abs(x) > Abs(u) || (Abs(x) == Abs(u) && (x > u || (x == u && y > v)))))
  {
  }

  predicate InWorld(x: int, y: int, size: nat, i: nat)
    requires i < 8
  {
    0 <= x + Offset(i).0 < size && 0 <= y + Offset(i).1 < size
  }

  /** How many of the first `i` candidates lie inside the world. */
  function CandidatesBefore(x: int, y: int, size: nat, i: nat): nat
    requires i <= 8
  {
    if i == 0 then 0 else CandidatesBefore(x, y, size, i - 1) + if InWorld(x, y, size, i - 1) then 1 else 0
  }

  /** The rank of a neighbour among the candidates inside the world; -1 where the source aborts. */
  method GridOrdinal(x: int, y: int, nx: int, ny: int, size: nat, diagonal: bool) returns (ordinal: int)
    ensures ordinal >= 0 ==>
              exists i: nat :: i < (if diagonal then 8 else 4) && (nx, ny) == (x + Offset(i).0, y + Offset(i).1)
                               && InWorld(x, y, size, i) && ordinal == CandidatesBefore(x, y, size, i)
    ensures ordinal < 0 <==>
              forall i: nat :: i < (if diagonal then 8 else 4) && InWorld(x, y, size, i) ==> (nx, ny) != (x + Offset(i).0, y + Offset(i).1)
  {
    ordinal := 0;
    for i := 0 to if diagonal then 8 else 4
      invariant ordinal == CandidatesBefore(x, y, size, i)
      invariant forall k: nat :: k < i && InWorld(x, y, size, k) ==> (nx, ny) != (x + Offset(k).0, y + Offset(k).1)
    {
      var tx, ty := x + Offset(i).0, y + Offset(i).1;
      if 0 <= tx < size && 0 <= ty < size {
        if (tx, ty) == (nx, ny) {
          return;
        }
        ordinal := ordinal + 1;
      }
    }
    ordinal := -1;
  }

  /** Ordinals identify: different candidates inside the world have different ordinals, all below the degree. */
  lemma {:induction false} OrdinalsDiffer(x: int, y: int, size: nat, i: nat, k: nat)
    requires i < k <= 8 && InWorld(x, y, size, i)
    ensures CandidatesBefore(x, y, size, i) < CandidatesBefore(x, y, size, k)
    decreases k
  {
    if i < k - 1 {
      OrdinalsDiffer(x, y, size, i, k - 1);
    }
  }
}
