/** Versioned delta frames: dirty bounds, the collector, a lossy consumer, and when its shadow is true. */
module Delta {
  import opened Arithmetic
  import opened Tiles
  import opened Options

  // ------------------------------------------------------------------------------------------------
  // Boxes

  datatype Box = Box(origin: Coord, extent: Extent)

  predicate Covers(b: Box, c: Coord) {
    && b.origin.x <= c.x < b.origin.x + b.extent.x
    && b.origin.y <= c.y < b.origin.y + b.extent.y
    && b.origin.z <= c.z < b.origin.z + b.extent.z
  }

  function Min(a: int, b: int): int {
    if a < b then a else b
  }

  function Max(a: int, b: int): int {
    if a < b then b else a
  }

  function Tile(c: Coord): (r: Box)
    ensures forall d :: Covers(r, d) <==> d == c
  {
    Box(c, Extent(1, 1, 1))
  }

  function Between(lo: Coord, hi: Coord): Box
    requires lo.x <= hi.x && lo.y <= hi.y && lo.z <= hi.z
  {
    Box(lo, Extent(hi.x - lo.x, hi.y - lo.y, hi.z - lo.z))
  }

  /** The smallest box around two boxes. */
  function Union(a: Box, b: Box): (r: Box)
    ensures forall c :: Covers(a, c) || Covers(b, c) ==> Covers(r, c)
  {
    Between(Coord(Min(a.origin.x, b.origin.x), Min(a.origin.y, b.origin.y), Min(a.origin.z, b.origin.z)),
            Coord(Max(a.origin.x + a.extent.x, b.origin.x + b.extent.x), Max(a.origin.y + a.extent.y, b.origin.y + b.extent.y),
                  Max(a.origin.z + a.extent.z, b.origin.z + b.extent.z)))
  }

  /** Nothing smaller covers both: a box covering two boxes covers their union. */
  lemma UnionIsLeast(a: Box, b: Box, d: Box)
    requires 0 < a.extent.x && 0 < a.extent.y && 0 < a.extent.z && 0 < b.extent.x && 0 < b.extent.y && 0 < b.extent.z
    requires forall c :: Covers(a, c) || Covers(b, c) ==> Covers(d, c)
    ensures forall c :: Covers(Union(a, b), c) ==> Covers(d, c)
  {
    CornersCovered(a);
    CornersCovered(b);
  }

  lemma CornersCovered(a: Box)
    requires 0 < a.extent.x && 0 < a.extent.y && 0 < a.extent.z
    ensures Covers(a, a.origin)
    ensures Covers(a, Coord(a.origin.x + a.extent.x - 1, a.origin.y + a.extent.y - 1, a.origin.z + a.extent.z - 1))
  {
  }

  function ChunkBox(s: Shape, key: nat): Box
    requires s.Valid()
  {
    Counts(s);
    var k := key % (s.Columns() * s.Rows());
    Box(Coord(k % s.Columns() * s.chunk.x, k / s.Columns() * s.chunk.y, key / (s.Columns() * s.Rows()) * s.chunk.z), s.chunk)
  }

  lemma ChunkBoxHolds(s: Shape, c: Coord)
    requires s.Valid() && s.Contains(c)
    ensures 0 <= s.ChunkKey(c) < s.ChunkCount() && Covers(ChunkBox(s, s.ChunkKey(c)), c)
  {
    Counts(s);
    Address(s, c);
    Quotient(c.x, s.size.x, s.chunk.x);
    Quotient(c.y, s.size.y, s.chunk.y);
    Quotient(c.z, s.size.z, s.chunk.z);
    Numbering(c.x / s.chunk.x, c.y / s.chunk.y, c.z / s.chunk.z, s.Columns(), s.Rows(), s.size.z / s.chunk.z);
  }

  lemma ChunkBoxInside(s: Shape, key: nat, c: Coord)
    requires s.Valid() && key < s.ChunkCount() && Covers(ChunkBox(s, key), c)
    ensures s.Contains(c)
  {
    Counts(s);
    Decoding(key, s.Columns(), s.Rows(), s.size.z / s.chunk.z);
    Whole(s.size.x, s.chunk.x);
    Whole(s.size.y, s.chunk.y);
    Whole(s.size.z, s.chunk.z);
    var k := key % (s.Columns() * s.Rows());
    Inside(c.x - k % s.Columns() * s.chunk.x, k % s.Columns(), s.chunk.x, s.Columns());
    Inside(c.y - k / s.Columns() * s.chunk.y, k / s.Columns(), s.chunk.y, s.Rows());
    Inside(c.z - key / (s.Columns() * s.Rows()) * s.chunk.z, key / (s.Columns() * s.Rows()), s.chunk.z, s.size.z / s.chunk.z);
  }

  /** Dirty bounds cut to the chunk, or the whole chunk if they miss it. */
  function Clip(chunk: Box, bounds: Box): (r: Box)
    ensures forall c :: Covers(chunk, c) && Covers(bounds, c) ==> Covers(r, c)
    ensures forall c :: Covers(r, c) ==> Covers(chunk, c)
    ensures if exists c :: Covers(chunk, c) && Covers(bounds, c) then forall c :: Covers(r, c) ==> Covers(bounds, c) else r == chunk
  {
    var begin := Coord(Max(bounds.origin.x, chunk.origin.x), Max(bounds.origin.y, chunk.origin.y), Max(bounds.origin.z, chunk.origin.z));
    var end := Coord(Min(bounds.origin.x + bounds.extent.x, chunk.origin.x + chunk.extent.x),
                     Min(bounds.origin.y + bounds.extent.y, chunk.origin.y + chunk.extent.y),
                     Min(bounds.origin.z + bounds.extent.z, chunk.origin.z + chunk.extent.z));
    if begin.x >= end.x || begin.y >= end.y || begin.z >= end.z then chunk
    else
      assert Covers(chunk, begin) && Covers(bounds, begin);
      Between(begin, end)
  }

  // ------------------------------------------------------------------------------------------------
  // World, collector, frames

  datatype ChunkMeta = ChunkMeta(dirty: bool, bounds: Box, contentVersion: nat)

  function Marked(m: ChunkMeta, b: Box): (r: ChunkMeta)
    ensures r.dirty && r.contentVersion - m.contentVersion == 1
    ensures forall c :: Covers(b, c) || (m.dirty && Covers(m.bounds, c)) ==> Covers(r.bounds, c)
  {
    ChunkMeta(true, if m.dirty then Union(m.bounds, b) else b, m.contentVersion + 1)
  }

  const EMPTY := Box(Coord(0, 0, 0), Extent(0, 0, 0))

  function Cleared(m: ChunkMeta): ChunkMeta {
    ChunkMeta(false, EMPTY, m.contentVersion)
  }

  /** One chunk of a frame: a box to repaint, or, if `count` is not zero, a slice of the frame's tiles. */
  datatype Record = Record(chunk: nat, bounds: Box, first: nat, count: nat)

  predicate Covered(r: Record, tiles: seq<Coord>, c: Coord)
    requires r.first + r.count <= |tiles|
  {
    if r.count != 0 then c in tiles[r.first..r.first + r.count] else Covers(r.bounds, c)
  }

  ghost predicate Repaints(records: seq<Record>, tiles: seq<Coord>, c: Coord) {
    exists r :: r in records && r.first + r.count <= |tiles| && Covered(r, tiles, c)
  }

  datatype Frame = Frame(from: nat, to: nat, baseline: bool, truncated: bool, chunks: seq<Record>, tiles: seq<Coord>, entities: seq<EntityDelta>)

  datatype CollectorOptions = CollectorOptions(chunkCapacity: nat, tileCapacity: nat, entityCapacity: nat, sparseTileThreshold: nat, coalesceMoves: bool)

  datatype Pending = Pending(chunks: seq<Record>, tiles: seq<Coord>, entities: seq<EntityDelta>, slots: map<nat, Slot>,
                             truncated: bool, baseline: bool)

  const NOTHING := Pending([], [], [], map[], false, false)

  predicate Applicable(f: Frame, version: nat) {
    if f.truncated then false
    else if f.baseline then true
    else version != 0 && version == f.from
  }

  // ------------------------------------------------------------------------------------------------
  // Entity records

  datatype Kind = Moved | Teleported | Spawned | Despawned | Parked | Placed

  datatype EntityDelta = EntityDelta(entity: nat, kind: Kind, from: Coord, to: Coord)

  /** The last record of an entity, if a further move may be folded into it. */
  datatype Slot = Last(index: nat) | Barrier

  function Present(markers: map<nat, Coord>, d: EntityDelta): map<nat, Coord> {
    if d.kind.Despawned? || d.kind.Parked? then markers - {d.entity} else markers[d.entity := d.to]
  }

  /** A despawned or parked entity shows no marker, any other record puts it where it went; nobody else is touched. */
  lemma PresentIs(markers: map<nat, Coord>, d: EntityDelta, entity: nat)
    ensures var r := Present(markers, d);
            if entity != d.entity then (entity in r <==> entity in markers) && (entity in markers ==> r[entity] == markers[entity])
            else if d.kind in {Despawned, Parked} then entity !in r
            else entity in r && r[entity] == d.to
  {
  }

  function PresentAll(markers: map<nat, Coord>, ds: seq<EntityDelta>): map<nat, Coord> {
    if ds == [] then markers else Present(PresentAll(markers, ds[..|ds|-1]), ds[|ds|-1])
  }

  function Append(o: CollectorOptions, p: Pending, d: EntityDelta, slot: Slot): Pending {
    if |p.entities| == o.entityCapacity then p.(truncated := true)
    else p.(entities := p.entities + [d], slots := if o.coalesceMoves then p.slots[d.entity := slot] else p.slots)
  }

  function RecordMove(o: CollectorOptions, p: Pending, entity: nat, from: Coord, to: Coord): Pending {
    if o.coalesceMoves && entity in p.slots && p.slots[entity].Last? && p.slots[entity].index < |p.entities| &&
       p.entities[p.slots[entity].index].to == from then
      var i := p.slots[entity].index;
      p.(entities := p.entities[i := p.entities[i].(to := to)])
    else Append(o, p, EntityDelta(entity, Moved, from, to), Last(|p.entities|))
  }

  function RecordBarrier(o: CollectorOptions, p: Pending, d: EntityDelta): Pending {
    Append(o, p, d, Barrier)
  }

  /** A slot points at its entity's last record, a move. */
  predicate Slotted(p: Pending) {
    forall e :: e in p.slots && p.slots[e].Last? ==>
      var i := p.slots[e].index;
      && i < |p.entities| && p.entities[i].entity == e && p.entities[i].kind == Moved
      && forall j :: i < j < |p.entities| ==> p.entities[j].entity != e
  }

  lemma RecordsStaySlotted(o: CollectorOptions, p: Pending, d: EntityDelta)
    requires Slotted(p) && (o.coalesceMoves || p.slots == map[])
    ensures d.kind == Moved ==> Slotted(RecordMove(o, p, d.entity, d.from, d.to))
    ensures d.kind != Moved ==> Slotted(RecordBarrier(o, p, d))
  {
  }

  /** Record `i` is the last one of its entity. */
  predicate IsLast(ds: seq<EntityDelta>, i: nat) {
    i < |ds| && forall j :: i < j < |ds| ==> ds[j].entity != ds[i].entity
  }

  /** With coalescing on, every entity's last record has its slot: a move one to fold into, anything else a barrier. */
  ghost predicate Traced(o: CollectorOptions, p: Pending) {
    o.coalesceMoves ==>
      forall i: nat :: IsLast(p.entities, i) ==>
        p.entities[i].entity in p.slots && p.slots[p.entities[i].entity] == if p.entities[i].kind == Moved then Last(i) else Barrier
  }

  lemma LastOfMore(ds: seq<EntityDelta>, d: EntityDelta, i: nat)
    ensures IsLast(ds + [d], i) <==> i == |ds| || (IsLast(ds, i) && ds[i].entity != d.entity)
  {
    assert i < |ds| ==> (ds + [d])[i] == ds[i];
    if IsLast(ds + [d], i) && i < |ds| {
      assert (ds + [d])[|ds|] == d;
      forall j | i < j < |ds| ensures ds[j].entity != ds[i].entity {
        assert (ds + [d])[j] == ds[j];
      }
    }
  }

  lemma AppendStaysTraced(o: CollectorOptions, p: Pending, d: EntityDelta, slot: Slot)
    requires Traced(o, p) && slot == if d.kind == Moved then Last(|p.entities|) else Barrier
    ensures Traced(o, Append(o, p, d, slot))
  {
    hide IsLast;
    var q := Append(o, p, d, slot);
    if |p.entities| != o.entityCapacity {
      forall i: nat | o.coalesceMoves && IsLast(q.entities, i)
        ensures i < |q.entities| && q.entities[i].entity in q.slots
        ensures q.slots[q.entities[i].entity] == if q.entities[i].kind == Moved then Last(i) else Barrier
      {
        LastOfMore(p.entities, d, i);
        LastInside(p.entities, i);
      }
    }
  }

  lemma LastInside(ds: seq<EntityDelta>, i: nat)
    ensures IsLast(ds, i) ==> i < |ds|
  {
  }

  lemma FoldStaysTraced(o: CollectorOptions, p: Pending, i: nat, to: Coord)
    requires Traced(o, p) && i < |p.entities|
    ensures Traced(o, p.(entities := p.entities[i := p.entities[i].(to := to)]))
  {
    var ds := p.entities[i := p.entities[i].(to := to)];
    SameEntities(ds, p.entities);
    SameEntities(p.entities, ds);
  }

  lemma SameEntities(ds: seq<EntityDelta>, es: seq<EntityDelta>)
    requires |ds| == |es| && forall k :: 0 <= k < |ds| ==> ds[k].entity == es[k].entity
    ensures forall j: nat :: IsLast(ds, j) ==> IsLast(es, j)
  {
    forall j: nat | IsLast(ds, j) ensures IsLast(es, j) {
      forall k | j < k < |es| ensures es[k].entity != es[j].entity {
        assert ds[k].entity != ds[j].entity;
      }
    }
  }

  lemma RecordsStayTraced(o: CollectorOptions, p: Pending, d: EntityDelta)
    requires Traced(o, p)
    ensures d.kind == Moved ==> Traced(o, RecordMove(o, p, d.entity, d.from, d.to))
    ensures d.kind != Moved ==> Traced(o, RecordBarrier(o, p, d))
  {
    hide Traced;
    AppendStaysTraced(o, p, EntityDelta(d.entity, Moved, d.from, d.to), Last(|p.entities|));
    if d.kind != Moved {
      AppendStaysTraced(o, p, d, Barrier);
    }
    if d.entity in p.slots && p.slots[d.entity].Last? && p.slots[d.entity].index < |p.entities| {
      FoldStaysTraced(o, p, p.slots[d.entity].index, d.to);
    }
  }

  /** The record can be folded into its entity's last one: both are moves, and it starts where that one ended. */
  ghost predicate Folds(o: CollectorOptions, ds: seq<EntityDelta>, d: EntityDelta, i: nat) {
    o.coalesceMoves && d.kind == Moved && IsLast(ds, i) && ds[i].entity == d.entity && ds[i].kind == Moved && ds[i].to == d.from
  }

  /**
   What recording does: a move that continues its entity's last move extends that record; anything else is
   appended while there is room, and otherwise lost and marked as a loss.
   */
  lemma RecordingIs(o: CollectorOptions, p: Pending, d: EntityDelta)
    requires Slotted(p) && Traced(o, p)
    ensures var q := if d.kind == Moved then RecordMove(o, p, d.entity, d.from, d.to) else RecordBarrier(o, p, d);
            if i: nat :| Folds(o, p.entities, d, i) then
              q.entities == p.entities[i := EntityDelta(d.entity, Moved, p.entities[i].from, d.to)] && q.truncated == p.truncated
            else if |p.entities| == o.entityCapacity then q.entities == p.entities && q.truncated
            else q.entities == p.entities + [d] && q.truncated == p.truncated
  {
    if i: nat :| Folds(o, p.entities, d, i) {
      assert p.slots[d.entity] == Last(i);
      OneLast(p.entities, d.entity);
    } else if o.coalesceMoves && d.entity in p.slots && p.slots[d.entity].Last? {
      var i := p.slots[d.entity].index;
      assert IsLast(p.entities, i);
      assert d.kind == Moved && p.entities[i].to == d.from ==> Folds(o, p.entities, d, i);
    }
  }

  lemma OneLast(ds: seq<EntityDelta>, entity: nat)
    ensures forall i: nat, j: nat :: IsLast(ds, i) && IsLast(ds, j) && ds[i].entity == entity == ds[j].entity ==> i == j
  {
  }

  lemma {:induction false} OtherEntitiesCommute(markers: map<nat, Coord>, ds: seq<EntityDelta>, e: nat)
    requires forall j :: 0 <= j < |ds| ==> ds[j].entity != e
    ensures e in PresentAll(markers, ds) <==> e in markers
    ensures e in markers ==> PresentAll(markers, ds)[e] == markers[e]
  {
    if ds != [] {
      OtherEntitiesCommute(markers, ds[..|ds|-1], e);
    }
  }

  lemma {:induction false} LaterPlace(markers: map<nat, Coord>, ds: seq<EntityDelta>, e: nat, to: Coord)
    requires forall j :: 0 <= j < |ds| ==> ds[j].entity != e
    ensures PresentAll(markers[e := to], ds) == PresentAll(markers, ds)[e := to]
  {
    if ds != [] {
      var d := ds[|ds|-1];
      LaterPlace(markers, ds[..|ds|-1], e, to);
      assert Present(PresentAll(markers, ds[..|ds|-1])[e := to], d) == Present(PresentAll(markers, ds[..|ds|-1]), d)[e := to];
    }
  }

  lemma {:induction false} PresentConcat(markers: map<nat, Coord>, a: seq<EntityDelta>, b: seq<EntityDelta>)
    ensures PresentAll(markers, a + b) == PresentAll(PresentAll(markers, a), b)
  {
    if b == [] {
      assert a + b == a;
    } else {
      PresentConcat(markers, a, b[..|b|-1]);
      assert (a + b)[..|a + b|-1] == a + b[..|b|-1] && (a + b)[|a + b|-1] == b[|b|-1];
    }
  }

  /** Folding a move into an earlier record presents the same markers as appending it. */
  lemma CoalescingPresentsTheSame(o: CollectorOptions, p: Pending, entity: nat, from: Coord, to: Coord, markers: map<nat, Coord>)
    requires Slotted(p) && !RecordMove(o, p, entity, from, to).truncated
    ensures PresentAll(markers, RecordMove(o, p, entity, from, to).entities) ==
            PresentAll(markers, p.entities + [EntityDelta(entity, Moved, from, to)])
  {
    var d := EntityDelta(entity, Moved, from, to);
    var es := p.entities;
    if o.coalesceMoves && entity in p.slots && p.slots[entity].Last? && es[p.slots[entity].index].to == from {
      var i := p.slots[entity].index;
      MoveFoldsIn(markers, es[..i], es[i], es[i + 1..], to);
      SplitAround(es, i, es[i].(to := to));
      PresentConcat(markers, es, [d]);
      OnePresent(PresentAll(markers, es), d);
    }
  }

  lemma SplitAround(es: seq<EntityDelta>, i: nat, d: EntityDelta)
    requires i < |es|
    ensures es == es[..i] + [es[i]] + es[i + 1..] && es[i := d] == es[..i] + [d] + es[i + 1..]
  {
  }

  lemma MoveFoldsIn(markers: map<nat, Coord>, head: seq<EntityDelta>, last: EntityDelta, tail: seq<EntityDelta>, to: Coord)
    requires last.kind == Moved && forall j :: 0 <= j < |tail| ==> tail[j].entity != last.entity
    ensures PresentAll(markers, head + [last.(to := to)] + tail) == PresentAll(markers, head + [last] + tail)[last.entity := to]
  {
    hide PresentAll;
    var m := PresentAll(markers, head);
    PresentConcat(markers, head, [last]);
    PresentConcat(markers, head, [last.(to := to)]);
    PresentConcat(markers, head + [last], tail);
    PresentConcat(markers, head + [last.(to := to)], tail);
    OnePresent(m, last);
    OnePresent(m, last.(to := to));
    LaterPlace(m, tail, last.entity, last.to);
    LaterPlace(m, tail, last.entity, to);
    assert PresentAll(m, tail)[last.entity := last.to][last.entity := to] == PresentAll(m, tail)[last.entity := to];
  }

  lemma OnePresent(markers: map<nat, Coord>, d: EntityDelta)
    ensures PresentAll(markers, [d]) == Present(markers, d)
  {
    assert [d][..0] == [];
    assert PresentAll(markers, [d][..0]) == markers;
  }

  // ------------------------------------------------------------------------------------------------
  // The world

  class RenderWorld {
    const shape: Shape
    var glyph: Pages<nat>
    var meta: seq<ChunkMeta>

    ghost predicate Valid()
      reads this
    {
      shape.Flat() && Paged(shape, glyph) && |meta| == shape.ChunkCount()
    }

    /** Writes a tile and marks it dirty in its chunk. */
    method Paint(c: Coord, g: nat)
      requires Valid() && shape.Contains(c)
      modifies `glyph, `meta
      ensures Valid() && glyph == Write(shape, old(glyph), c, g)
      ensures 0 <= shape.ChunkKey(c) < |meta|
      ensures meta == old(meta)[shape.ChunkKey(c) := Marked(old(meta)[shape.ChunkKey(c)], Tile(c))]
    {
      hide Write, Shape.ChunkKey, Shape.ChunkCount, Paged;
      Address(shape, c);
      glyph := Write(shape, glyph, c, g);
      var key := shape.ChunkKey(c);
      meta := meta[key := Marked(meta[key], Tile(c))];
    }
  }

  // ------------------------------------------------------------------------------------------------
  // The collector

  /** The box's coordinates before `(x, y, z)` in scan order. */
  predicate Scanned(b: Box, c: Coord, x: int, y: int, z: int) {
    Covers(b, c) && (c.z < z || (c.z == z && (c.y < y || (c.y == y && c.x < x))))
  }

  /**
   Appends the box's tiles, each once, while there is room. If they fit, they are all there; if not, the list
   is full and one of them is missing.
   */
  method ListTiles(box: Box, before: seq<Coord>, capacity: nat) returns (tiles: seq<Coord>, fits: bool)
    ensures before <= tiles && (|tiles| <= capacity || tiles == before)
    ensures forall c :: c in tiles[|before|..] ==> Covers(box, c)
    ensures forall i, j :: |before| <= i < j < |tiles| ==> tiles[i] != tiles[j]
    ensures fits ==> forall c :: Covers(box, c) ==> c in tiles[|before|..]
    ensures !fits ==> capacity <= |tiles| && exists c :: Covers(box, c) && c !in tiles[|before|..]
  {
    tiles := before;
    fits := true;
    ghost var listed: seq<Coord>, missing := [], box.origin;
    var endX, endY, endZ := box.origin.x + box.extent.x, box.origin.y + box.extent.y, box.origin.z + box.extent.z;
    var z := box.origin.z;
    while z < endZ && fits
      invariant box.origin.z <= z <= endZ && tiles == before + listed
      invariant Listing(box, before, listed, capacity)
      invariant if fits then forall c :: c in listed <==> Scanned(box, c, box.origin.x, box.origin.y, z) else Short(box, tiles, listed, capacity, missing)
      decreases endZ - z
    {
      var y := box.origin.y;
      while y < endY && fits
        invariant box.origin.y <= y <= endY && tiles == before + listed
        invariant Listing(box, before, listed, capacity)
        invariant if fits then forall c :: c in listed <==> Scanned(box, c, box.origin.x, y, z) else Short(box, tiles, listed, capacity, missing)
        decreases endY - y
      {
        var x := box.origin.x;
        while x < endX && fits
          invariant box.origin.x <= x <= endX && tiles == before + listed
          invariant Listing(box, before, listed, capacity)
          invariant if fits then forall c :: c in listed <==> Scanned(box, c, x, y, z) else Short(box, tiles, listed, capacity, missing)
          decreases endX - x
        {
          if |tiles| >= capacity {
            fits := false;
            missing := Coord(x, y, z);
          } else {
            NextScanned(box, x, y, z, listed);
            NextListed(box, before, listed, capacity, Coord(x, y, z));
            tiles := tiles + [Coord(x, y, z)];
            listed := listed + [Coord(x, y, z)];
          }
          x := x + 1;
        }
        y := y + 1;
      }
      z := z + 1;
    }
    assert tiles[|before|..] == listed;
    ListedIs(box, before, listed, capacity);
  }

  /** Tiles of the box listed so far, each once and within the capacity. */
  ghost predicate Listing(box: Box, before: seq<Coord>, listed: seq<Coord>, capacity: nat) {
    && (forall c :: c in listed ==> Covers(box, c))
    && (forall i, j :: 0 <= i < j < |listed| ==> listed[i] != listed[j])
    && (listed == [] || |before| + |listed| <= capacity)
  }

  ghost predicate Short(box: Box, tiles: seq<Coord>, listed: seq<Coord>, capacity: nat, missing: Coord) {
    capacity <= |tiles| && Covers(box, missing) && missing !in listed
  }

  lemma NextListed(box: Box, before: seq<Coord>, listed: seq<Coord>, capacity: nat, c: Coord)
    requires Listing(box, before, listed, capacity) && Covers(box, c) && c !in listed && |before| + |listed| < capacity
    ensures Listing(box, before, listed + [c], capacity)
  {
  }

  lemma ListedIs(box: Box, before: seq<Coord>, listed: seq<Coord>, capacity: nat)
    requires Listing(box, before, listed, capacity)
    ensures var tiles := before + listed;
            && (|tiles| <= capacity || tiles == before)
            && (forall i, j :: |before| <= i < j < |tiles| ==> tiles[i] != tiles[j])
  {
    var tiles := before + listed;
    forall i, j | |before| <= i < j < |tiles| ensures tiles[i] != tiles[j] {
      assert tiles[i] == listed[i - |before|] && tiles[j] == listed[j - |before|];
    }
  }

  lemma NextScanned(box: Box, x: int, y: int, z: int, listed: seq<Coord>)
    requires Covers(box, Coord(x, y, z)) && forall c :: c in listed <==> Scanned(box, c, x, y, z)
    ensures forall c :: c in listed + [Coord(x, y, z)] <==> Scanned(box, c, x + 1, y, z)
  {
  }

  /** The record of a dirty chunk repaints exactly its clipped bounds. */
  predicate RecordOf(s: Shape, meta: seq<ChunkMeta>, r: Record)
    requires s.Valid()
  {
    r.chunk < |meta| && meta[r.chunk].dirty && r.bounds == Clip(ChunkBox(s, r.chunk), meta[r.chunk].bounds)
  }

  ghost predicate Exact(r: Record, tiles: seq<Coord>) {
    r.first + r.count <= |tiles| && forall c :: Covered(r, tiles, c) <==> Covers(r.bounds, c)
  }

  /**
   What collecting the chunks before `k` has done: each dirty one has been recorded exactly and cleared, or,
   where there was no room, left dirty and the frame marked as truncated.
   */
  ghost predicate Collected(s: Shape, meta0: seq<ChunkMeta>, p0: Pending, meta: seq<ChunkMeta>, p: Pending, k: nat)
    requires s.Valid()
  {
    && |meta| == |meta0| && k <= |meta| && p0.chunks <= p.chunks && p0.tiles <= p.tiles
    && p.baseline == p0.baseline && p.entities == p0.entities && p.slots == p0.slots && (p0.truncated ==> p.truncated)
    && (forall r :: r in p.chunks[|p0.chunks|..] ==> r.chunk < k && RecordOf(s, meta0, r) && Exact(r, p.tiles))
    && (forall j :: k <= j < |meta| ==> meta[j] == meta0[j])
    && (forall j :: 0 <= j < k ==> Settled(meta0, p0, meta, p, j))
  }

  ghost predicate Settled(meta0: seq<ChunkMeta>, p0: Pending, meta: seq<ChunkMeta>, p: Pending, j: nat)
    requires j < |meta| == |meta0| && p0.chunks <= p.chunks
  {
    if !meta0[j].dirty then meta[j] == meta0[j]
    else if meta[j].dirty then meta[j] == meta0[j] && p.truncated
    else meta[j] == Cleared(meta0[j]) && exists r :: r in p.chunks[|p0.chunks|..] && r.chunk == j
  }

  /** How many chunks are dirty. */
  function DirtyChunks(meta: seq<ChunkMeta>): nat {
    if meta == [] then 0 else DirtyChunks(meta[..|meta|-1]) + if meta[|meta|-1].dirty then 1 else 0
  }

  /**
   Room for chunk records decides everything: there is one more record per dirty chunk up to the capacity,
   truncation is marked exactly if there are more dirty chunks than room, and only then does one stay dirty.
   */
  ghost predicate Roomed(capacity: nat, meta0: seq<ChunkMeta>, p0: Pending, meta: seq<ChunkMeta>, p: Pending, k: nat)
    requires k <= |meta0| == |meta|
  {
    var wanted := |p0.chunks| + DirtyChunks(meta0[..k]);
    && |p.chunks| == (if wanted <= capacity then wanted else capacity)
    && (p.truncated <==> p0.truncated || wanted > capacity)
    && forall j :: 0 <= j < k && meta[j].dirty ==> |p.chunks| == capacity
  }

  function Size(b: Box): nat {
    b.extent.x * b.extent.y * b.extent.z
  }

  /** A record lists its tiles exactly if the box is small enough for that and the list of tiles had the room. */
  ghost predicate Thrifty(o: CollectorOptions, records: seq<Record>, tiles: seq<Coord>) {
    forall r :: r in records ==>
      if r.count != 0 then Size(r.bounds) <= o.sparseTileThreshold
      else Size(r.bounds) > o.sparseTileThreshold || o.sparseTileThreshold == 0 || o.tileCapacity <= |tiles|
  }

  lemma ThriftyNext(o: CollectorOptions, p0: Pending, p: Pending, r: Record, tiles: seq<Coord>)
    requires p0.chunks <= p.chunks && Thrifty(o, p.chunks[|p0.chunks|..], p.tiles) && p.tiles <= tiles && Thrifty(o, [r], tiles)
    ensures Thrifty(o, p.chunks[|p0.chunks|..], tiles) && Thrifty(o, (p.chunks + [r])[|p0.chunks|..], tiles)
  {
    hide Size;
    assert (p.chunks + [r])[|p0.chunks|..] == p.chunks[|p0.chunks|..] + [r];
    assert r in [r];
  }

  lemma RecordIsThrifty(o: CollectorOptions, r: Record, tiles: seq<Coord>, size: nat)
    requires size == Size(r.bounds)
    requires if r.count != 0 then size <= o.sparseTileThreshold
             else size > o.sparseTileThreshold || o.sparseTileThreshold == 0 || o.tileCapacity <= |tiles|
    ensures Thrifty(o, [r], tiles)
  {
  }

  lemma ClipHolds(chunk: Box, bounds: Box)
    requires 0 < chunk.extent.x && 0 < chunk.extent.y && 0 < chunk.extent.z
    ensures Covers(Clip(chunk, bounds), Clip(chunk, bounds).origin)
  {
  }

  lemma ChunkBoxExtent(s: Shape, key: nat)
    requires s.Valid()
    ensures ChunkBox(s, key).extent == s.chunk && 0 < s.chunk.x && 0 < s.chunk.y && 0 < s.chunk.z
  {
  }

  lemma NothingRoomed(capacity: nat, meta: seq<ChunkMeta>, p: Pending)
    requires |p.chunks| <= capacity
    ensures Roomed(capacity, meta, p, meta, p, 0)
  {
  }

  lemma RoomedNext(capacity: nat, meta0: seq<ChunkMeta>, p0: Pending, meta: seq<ChunkMeta>, p: Pending, k: nat)
    requires k < |meta0| == |meta| && |p0.chunks| <= capacity && Roomed(capacity, meta0, p0, meta, p, k) && meta[k] == meta0[k]
    ensures !meta[k].dirty ==> Roomed(capacity, meta0, p0, meta, p, k + 1)
    ensures meta[k].dirty && |p.chunks| == capacity ==>
              forall q: Pending :: q.chunks == p.chunks && q.truncated ==> Roomed(capacity, meta0, p0, meta, q, k + 1)
    ensures meta[k].dirty && |p.chunks| != capacity ==>
              forall q: Pending, r :: q.chunks == p.chunks + [r] && q.truncated == p.truncated ==>
                Roomed(capacity, meta0, p0, meta[k := Cleared(meta[k])], q, k + 1)
  {
    assert meta0[..k + 1][..k] == meta0[..k];
  }

  lemma SkipChunk(s: Shape, meta0: seq<ChunkMeta>, p0: Pending, meta: seq<ChunkMeta>, p: Pending, k: nat)
    requires s.Valid() && Collected(s, meta0, p0, meta, p, k) && k < |meta|
    ensures !meta[k].dirty ==> Collected(s, meta0, p0, meta, p, k + 1)
    ensures meta[k].dirty ==> forall tiles :: p.tiles <= tiles ==> Collected(s, meta0, p0, meta, p.(tiles := tiles, truncated := true), k + 1)
  {
    hide RecordOf, Covered;
    forall tiles | p.tiles <= tiles && meta[k].dirty ensures Collected(s, meta0, p0, meta, p.(tiles := tiles, truncated := true), k + 1) {
      MoreTiles(p.chunks[|p0.chunks|..], p.tiles, tiles);
      var q := p.(tiles := tiles, truncated := true);
      forall j | 0 <= j < k + 1 ensures Settled(meta0, p0, meta, q, j) {
        assert j < k ==> Settled(meta0, p0, meta, p, j);
      }
    }
    if !meta[k].dirty {
      assert Settled(meta0, p0, meta, p, k);
    }
  }

  lemma MoreTiles(records: seq<Record>, tiles: seq<Coord>, more: seq<Coord>)
    requires tiles <= more
    ensures forall r :: r in records && Exact(r, tiles) ==> Exact(r, more)
  {
    forall r | r in records && Exact(r, tiles) ensures Exact(r, more) {
      TilesExtend(r, tiles, more);
    }
  }

  lemma TilesExtend(r: Record, tiles: seq<Coord>, more: seq<Coord>)
    requires tiles <= more && r.first + r.count <= |tiles|
    ensures forall c :: Covered(r, more, c) <==> Covered(r, tiles, c)
  {
    assert more[r.first..r.first + r.count] == tiles[r.first..r.first + r.count];
  }

  lemma RecordChunk(s: Shape, meta0: seq<ChunkMeta>, p0: Pending, meta: seq<ChunkMeta>, p: Pending, k: nat, r: Record, tiles: seq<Coord>)
    requires s.Valid() && Collected(s, meta0, p0, meta, p, k) && k < |meta| && meta[k].dirty && p.tiles <= tiles
    requires r.chunk == k && r.bounds == Clip(ChunkBox(s, k), meta[k].bounds) && Exact(r, tiles)
    ensures Collected(s, meta0, p0, meta[k := Cleared(meta[k])], p.(tiles := tiles, chunks := p.chunks + [r]), k + 1)
  {
    hide Covered, Exact;
    var q, after := p.(tiles := tiles, chunks := p.chunks + [r]), meta[k := Cleared(meta[k])];
    var n := |p0.chunks|;
    MoreTiles(p.chunks[n..], p.tiles, tiles);
    assert q.chunks[n..] == p.chunks[n..] + [r];
    assert meta[k] == meta0[k];
    forall j | 0 <= j < k + 1 ensures Settled(meta0, p0, after, q, j) {
      if j < k {
        assert Settled(meta0, p0, meta, p, j);
        if meta0[j].dirty && !meta[j].dirty {
          var t :| t in p.chunks[n..] && t.chunk == j;
          assert t in q.chunks[n..];
        }
      } else {
        assert r in q.chunks[n..];
      }
    }
  }

  /** The first `n` records of a baseline: one box per chunk. */
  function WholeChunks(s: Shape, n: nat): (r: seq<Record>)
    requires s.Valid()
    ensures |r| == n && forall k :: 0 <= k < n ==> r[k] == Record(k, ChunkBox(s, k), 0, 0)
  {
    if n == 0 then [] else WholeChunks(s, n - 1) + [Record(n - 1, ChunkBox(s, n - 1), 0, 0)]
  }

  function CapOf(n: nat, capacity: nat): nat {
    if n < capacity then n else capacity
  }

  /** Whether publishing carries state, and so advances the version. */
  predicate Carries(p: Pending, needsBaseline: bool) {
    p.chunks != [] || p.tiles != [] || p.entities != [] || p.baseline || p.truncated || needsBaseline
  }

  function FrameOf(p: Pending, version: nat, needsBaseline: bool): Frame {
    Frame(version, if Carries(p, needsBaseline) then version + 1 else version, p.baseline,
          p.truncated || (needsBaseline && !p.baseline), p.chunks, p.tiles, if p.baseline then [] else p.entities)
  }

  class DeltaCollector {
    const options: CollectorOptions
    var version: nat
    var pending: Pending
    var needsBaseline: bool

    constructor (options: CollectorOptions)
      ensures this.options == options && version == 1 && pending == NOTHING && !needsBaseline
    {
      this.options, version, pending, needsBaseline := options, 1, NOTHING, false;
    }

    /** Records every dirty chunk and clears what it recorded, while there is room for records. */
    method CollectTileDeltas(world: RenderWorld)
      requires world.Valid() && |pending.chunks| <= options.chunkCapacity
      modifies `pending, world`meta
      ensures world.Valid() && Collected(world.shape, old(world.meta), old(pending), world.meta, pending, |world.meta|)
      ensures Roomed(options.chunkCapacity, old(world.meta), old(pending), world.meta, pending, |world.meta|)
      ensures old(pending).chunks <= pending.chunks && Thrifty(options, pending.chunks[|old(pending).chunks|..], pending.tiles)
      ensures |pending.chunks| <= options.chunkCapacity
    {
      hide Collected, Paged, Shape.ChunkCount, Roomed;
      NothingCollected(world.shape, world.meta, pending);
      NothingRoomed(options.chunkCapacity, world.meta, pending);
      for key := 0 to |world.meta|
        invariant world.Valid() && |world.meta| == |old(world.meta)| && |pending.chunks| <= options.chunkCapacity
        invariant Collected(world.shape, old(world.meta), old(pending), world.meta, pending, key)
        invariant Roomed(options.chunkCapacity, old(world.meta), old(pending), world.meta, pending, key)
        invariant old(pending).chunks <= pending.chunks && Thrifty(options, pending.chunks[|old(pending).chunks|..], pending.tiles)
      {
        CollectChunk(world, key, old(world.meta), old(pending));
      }
    }

    /** A dirty chunk is recorded and cleared unless the records are at capacity. */
    method CollectChunk(world: RenderWorld, key: nat, ghost meta0: seq<ChunkMeta>, ghost p0: Pending)
      requires world.Valid() && key < |world.meta| && Collected(world.shape, meta0, p0, world.meta, pending, key)
      requires |p0.chunks| <= options.chunkCapacity && |pending.chunks| <= options.chunkCapacity
      requires |meta0| == |world.meta| && Roomed(options.chunkCapacity, meta0, p0, world.meta, pending, key)
      requires p0.chunks <= pending.chunks && Thrifty(options, pending.chunks[|p0.chunks|..], pending.tiles)
      modifies `pending, world`meta
      ensures world.Valid() && |world.meta| == |old(world.meta)| && |pending.chunks| <= options.chunkCapacity
      ensures Collected(world.shape, meta0, p0, world.meta, pending, key + 1)
      ensures Roomed(options.chunkCapacity, meta0, p0, world.meta, pending, key + 1)
      ensures p0.chunks <= pending.chunks && Thrifty(options, pending.chunks[|p0.chunks|..], pending.tiles)
    {
      hide Collected, Paged, Shape.ChunkCount, Clip, ChunkBox, Covers, Roomed, Thrifty;
      var observed := world.meta[key];
      SkipChunk(world.shape, meta0, p0, world.meta, pending, key);
      NotYetCollected(world.shape, meta0, p0, world.meta, pending, key);
      RoomedNext(options.chunkCapacity, meta0, p0, world.meta, pending, key);
      if !observed.dirty {
        return;
      }
      var clipped := Clip(ChunkBox(world.shape, key), observed.bounds);
      var count := clipped.extent.x * clipped.extent.y * clipped.extent.z;
      var record := Record(key, clipped, 0, 0);
      var tiles := pending.tiles;
      if options.sparseTileThreshold != 0 && count <= options.sparseTileThreshold {
        var fits;
        tiles, fits := ListTiles(clipped, pending.tiles, options.tileCapacity);
        if fits {
          record := Record(key, clipped, |pending.tiles|, |tiles| - |pending.tiles|);
        }
      }
      RecordIsExact(record, pending.tiles, tiles);
      ChunkBoxExtent(world.shape, key);
      ClipHolds(ChunkBox(world.shape, key), observed.bounds);
      RecordIsThrifty(options, record, tiles, count);
      ThriftyNext(options, p0, pending, record, tiles);
      if |pending.chunks| == options.chunkCapacity {
        pending := pending.(tiles := tiles, truncated := true);
        return;
      }
      RecordChunk(world.shape, meta0, p0, world.meta, pending, key, record, tiles);
      pending := pending.(tiles := tiles, chunks := pending.chunks + [record]);
      world.meta := world.meta[key := Cleared(world.meta[key])];
    }

    /** Replaces the pending tile records with one box per chunk and clears every chunk. */
    method CollectBaseline(world: RenderWorld)
      requires world.Valid()
      modifies `pending, world`meta
      ensures world.Valid() && |world.meta| == |old(world.meta)|
      ensures forall k :: 0 <= k < |world.meta| ==> world.meta[k] == Cleared(old(world.meta)[k])
      ensures pending == old(pending).(chunks := WholeChunks(world.shape, CapOf(|world.meta|, options.chunkCapacity)), tiles := [],
                                       truncated := options.chunkCapacity < |world.meta|, baseline := true)
    {
      hide Paged, Shape.ChunkCount, ChunkBox;
      pending := pending.(chunks := [], tiles := [], truncated := false);
      for key := 0 to |world.meta|
        invariant world.Valid() && |world.meta| == |old(world.meta)|
        invariant forall k :: 0 <= k < |world.meta| ==>
                    world.meta[k] == if k < key then Cleared(old(world.meta)[k]) else old(world.meta)[k]
        invariant pending == old(pending).(chunks := WholeChunks(world.shape, CapOf(key, options.chunkCapacity)), tiles := [],
                                           truncated := options.chunkCapacity < key)
      {
        if |pending.chunks| == options.chunkCapacity {
          pending := pending.(truncated := true);
        } else {
          pending := pending.(chunks := pending.chunks + [Record(key, ChunkBox(world.shape, key), 0, 0)]);
        }
        world.meta := world.meta[key := Cleared(world.meta[key])];
      }
      pending := pending.(baseline := true);
    }

    /** Seals the pending state into a frame. */
    method Publish() returns (frame: Frame)
      modifies `version, `pending, `needsBaseline
      ensures frame == FrameOf(old(pending), old(version), old(needsBaseline))
      ensures version == frame.to && pending == NOTHING
      ensures needsBaseline == (old(needsBaseline) && !frame.baseline)
    {
      if pending.baseline {
        pending := pending.(entities := []);
      }
      var carrying := pending.chunks != [] || pending.tiles != [] || pending.entities != [] || pending.baseline || pending.truncated || needsBaseline;
      var from := version;
      if carrying {
        version := version + 1;
      }
      var truncated := pending.truncated || (needsBaseline && !pending.baseline);
      frame := Frame(from, version, pending.baseline, truncated, pending.chunks, pending.tiles, pending.entities);
      if pending.baseline {
        needsBaseline := false;
      }
      pending := NOTHING;
    }

    /** A hard reset: what was pending is lost, and only a baseline may follow. */
    method Clear()
      modifies `pending, `needsBaseline
      ensures pending == NOTHING && needsBaseline
    {
      pending := NOTHING;
      needsBaseline := true;
    }

    /** Extends the entity's last move if this one continues it, or appends a record. */
    method Move(entity: nat, from: Coord, to: Coord)
      modifies `pending
      ensures pending == RecordMove(options, old(pending), entity, from, to)
    {
      if options.coalesceMoves && entity in pending.slots && pending.slots[entity].Last? {
        var index := pending.slots[entity].index;
        if index < |pending.entities| && pending.entities[index].to == from {
          pending := pending.(entities := pending.entities[index := pending.entities[index].(to := to)]);
          return;
        }
      }
      AppendEntity(EntityDelta(entity, Moved, from, to), Last(|pending.entities|));
    }

    method AppendEntity(d: EntityDelta, slot: Slot)
      modifies `pending
      ensures pending == Append(options, old(pending), d, slot)
    {
      if |pending.entities| == options.entityCapacity {
        pending := pending.(truncated := true);
        return;
      }
      pending := pending.(entities := pending.entities + [d]);
      if options.coalesceMoves {
        pending := pending.(slots := pending.slots[d.entity := slot]);
      }
    }

    method Note(d: EntityDelta)
      modifies `pending
      ensures pending == RecordBarrier(options, old(pending), d)
    {
      AppendEntity(d, Barrier);
    }
  }

  lemma NotYetCollected(s: Shape, meta0: seq<ChunkMeta>, p0: Pending, meta: seq<ChunkMeta>, p: Pending, k: nat)
    requires s.Valid() && Collected(s, meta0, p0, meta, p, k) && k < |meta|
    ensures |meta0| == |meta| && meta[k] == meta0[k]
  {
  }

  lemma NothingCollected(s: Shape, meta: seq<ChunkMeta>, p: Pending)
    requires s.Valid()
    ensures Collected(s, meta, p, meta, p, 0)
  {
  }

  lemma RecordIsExact(r: Record, before: seq<Coord>, tiles: seq<Coord>)
    requires before <= tiles
    requires (r.first == 0 && r.count == 0) ||
             (r.first == |before| && r.count == |tiles| - |before| && forall c :: c in tiles[|before|..] <==> Covers(r.bounds, c))
    ensures Exact(r, tiles)
  {
    assert tiles[|before|..|tiles|] == tiles[|before|..];
  }

  // ------------------------------------------------------------------------------------------------
  // The consumer

  const DOT := 46

  /** What the shadow shows for a tile's value. */
  function Shown(g: nat): (r: nat)
    ensures if g == 0 then r == '.' as int else r - g == 0
  {
    if g == 0 then DOT else g
  }

  /** The shadow shows the world on `painted`, and what it showed before elsewhere. */
  ghost predicate PaintedBy(s: Shape, shadow0: Pages<nat>, shadow: Pages<nat>, glyph: Pages<nat>, painted: iset<Coord>)
    requires s.Valid() && Paged(s, shadow0) && Paged(s, shadow) && Paged(s, glyph)
  {
    forall c :: s.Contains(c) ==> Read(s, shadow, c) == if c in painted then Shown(Read(s, glyph, c)) else Read(s, shadow0, c)
  }

  lemma PaintOne(s: Shape, shadow0: Pages<nat>, shadow: Pages<nat>, glyph: Pages<nat>, painted: iset<Coord>, c: Coord)
    requires s.Valid() && Paged(s, shadow0) && Paged(s, shadow) && Paged(s, glyph) && s.Contains(c)
    requires PaintedBy(s, shadow0, shadow, glyph, painted)
    ensures PaintedBy(s, shadow0, Write(s, shadow, c, Shown(Read(s, glyph, c))), glyph, painted + iset{c})
  {
    hide Read, Write, Paged, Shape.Contains;
    forall d | s.Contains(d)
      ensures Read(s, Write(s, shadow, c, Shown(Read(s, glyph, c))), d) ==
              if d in painted + iset{c} then Shown(Read(s, glyph, d)) else Read(s, shadow0, d)
    {
      ReadWrite(s, shadow, c, Shown(Read(s, glyph, c)), d);
    }
  }

  /** Records a consumer can follow: slices within the frame, boxes on the map's one level. */
  ghost predicate Sound(s: Shape, records: seq<Record>, tiles: seq<Coord>) {
    forall r :: r in records ==> SoundRecord(s, r, tiles)
  }

  ghost predicate SoundRecord(s: Shape, r: Record, tiles: seq<Coord>) {
    && r.first + r.count <= |tiles| && (forall c :: Covered(r, tiles, c) ==> s.Contains(c))
    && r.bounds.origin.z == 0 && r.bounds.extent.z == 1
  }

  predicate InSlice(tiles: seq<Coord>, first: nat, n: nat, c: Coord)
    requires first + n <= |tiles|
  {
    c in tiles[first..first + n]
  }

  ghost function Sliced(tiles: seq<Coord>, first: nat, n: nat): iset<Coord>
    requires first + n <= |tiles|
  {
    iset c | InSlice(tiles, first, n, c)
  }

  lemma SlicedOne(tiles: seq<Coord>, first: nat, n: nat)
    requires first + n < |tiles|
    ensures Sliced(tiles, first, n + 1) == Sliced(tiles, first, n) + iset{tiles[first + n]}
  {
    assert tiles[first..first + n + 1] == tiles[first..first + n] + [tiles[first + n]];
  }

  ghost function CoveredBy(r: Record, tiles: seq<Coord>): iset<Coord>
    requires r.first + r.count <= |tiles|
  {
    iset c | Covered(r, tiles, c)
  }

  ghost function Swept(box: Box, x: int, y: int): iset<Coord> {
    iset c | Scanned(box, c, x, y, 0)
  }

  lemma SlicedAll(r: Record, tiles: seq<Coord>)
    requires r.first + r.count <= |tiles| && r.count != 0
    ensures Sliced(tiles, r.first, r.count) == CoveredBy(r, tiles)
  {
  }

  lemma TileOnMap(s: Shape, r: Record, tiles: seq<Coord>, i: nat)
    requires SoundRecord(s, r, tiles) && i < r.count
    ensures s.Contains(tiles[r.first + i])
  {
    assert tiles[r.first..r.first + r.count][i] == tiles[r.first + i];
    assert Covered(r, tiles, tiles[r.first + i]);
  }

  lemma SpotOnMap(s: Shape, r: Record, tiles: seq<Coord>, x: int, y: int)
    requires SoundRecord(s, r, tiles) && r.count == 0
    requires r.bounds.origin.x <= x < r.bounds.origin.x + r.bounds.extent.x && r.bounds.origin.y <= y < r.bounds.origin.y + r.bounds.extent.y
    ensures s.Contains(Coord(x, y, 0))
  {
    assert Covered(r, tiles, Coord(x, y, 0));
  }

  lemma SweptAll(r: Record, tiles: seq<Coord>)
    requires r.first + r.count <= |tiles| && r.count == 0 && r.bounds.origin.z == 0 && r.bounds.extent.z == 1
    ensures var b := r.bounds;
            Swept(b, b.origin.x, b.origin.y) == iset{} && Swept(b, b.origin.x, b.origin.y + b.extent.y) == CoveredBy(r, tiles)
  {
  }

  lemma SweptRow(b: Box, y: int)
    requires b.origin.z == 0 && b.extent.z == 1
    ensures Swept(b, b.origin.x + b.extent.x, y) == Swept(b, b.origin.x, y + 1)
  {
  }

  ghost function Reach(records: seq<Record>, tiles: seq<Coord>): iset<Coord> {
    iset c | Repaints(records, tiles, c)
  }

  lemma ReachOne(records: seq<Record>, k: nat, tiles: seq<Coord>)
    requires k < |records| && records[k].first + records[k].count <= |tiles|
    ensures Reach(records[..k + 1], tiles) == Reach(records[..k], tiles) + CoveredBy(records[k], tiles)
  {
    assert records[..k + 1] == records[..k] + [records[k]];
    forall c ensures Repaints(records[..k + 1], tiles, c) <==> Repaints(records[..k], tiles, c) || Covered(records[k], tiles, c) {
      if Covered(records[k], tiles, c) {
        assert records[k] in records[..k + 1];
      }
      if Repaints(records[..k], tiles, c) {
        var r :| r in records[..k] && r.first + r.count <= |tiles| && Covered(r, tiles, c);
        assert r in records[..k + 1];
      }
    }
  }

  class Consumer {
    var shadow: Pages<nat>
    var markers: map<nat, Coord>
    var version: nat

    constructor (shape: Shape, shadow: Pages<nat>)
      requires shape.Valid() && Paged(shape, shadow)
      ensures this.shadow == shadow && markers == map[] && version == 0
    {
      this.shadow, markers, version := shadow, map[], 0;
    }

    method Repaint(world: RenderWorld, r: Record, tiles: seq<Coord>, ghost shadow0: Pages<nat>, ghost painted: iset<Coord>)
      requires world.Valid() && Paged(world.shape, shadow0) && Paged(world.shape, shadow) && SoundRecord(world.shape, r, tiles)
      requires PaintedBy(world.shape, shadow0, shadow, world.glyph, painted)
      modifies `shadow
      ensures Paged(world.shape, shadow)
      ensures r.first + r.count <= |tiles|
      ensures PaintedBy(world.shape, shadow0, shadow, world.glyph, painted + CoveredBy(r, tiles))
    {
      hide Read, Write, Paged, PaintedBy, Shape.Contains, Covered, Sliced, Swept, CoveredBy;
      var s := world.shape;
      ghost var done: iset<Coord> := iset{};
      assert painted + iset{} == painted;
      if r.count != 0 {
        SlicedAll(r, tiles);
        NothingSliced(tiles, r.first);
        for i := 0 to r.count
          invariant Paged(s, shadow) && PaintedBy(s, shadow0, shadow, world.glyph, painted + done)
          invariant done == Sliced(tiles, r.first, i)
        {
          var coord := tiles[r.first + i];
          TileOnMap(s, r, tiles, i);
          PaintOne(s, shadow0, shadow, world.glyph, painted + done, coord);
          shadow := Write(s, shadow, coord, Shown(Read(s, world.glyph, coord)));
          SlicedOne(tiles, r.first, i);
          assert painted + done + iset{coord} == painted + (done + iset{coord});
          done := done + iset{coord};
        }
      } else {
        var box := r.bounds;
        SweptAll(r, tiles);
        for y := box.origin.y to box.origin.y + box.extent.y
          invariant Paged(s, shadow) && PaintedBy(s, shadow0, shadow, world.glyph, painted + done)
          invariant done == Swept(box, box.origin.x, y)
        {
          for x := box.origin.x to box.origin.x + box.extent.x
            invariant Paged(s, shadow) && PaintedBy(s, shadow0, shadow, world.glyph, painted + done)
            invariant done == Swept(box, x, y)
          {
            var coord := Coord(x, y, 0);
            SpotOnMap(s, r, tiles, x, y);
            PaintOne(s, shadow0, shadow, world.glyph, painted + done, coord);
            shadow := Write(s, shadow, coord, Shown(Read(s, world.glyph, coord)));
            SweptOne(box, x, y);
            assert painted + done + iset{coord} == painted + (done + iset{coord});
            done := done + iset{coord};
          }
          SweptRow(box, y);
        }
      }
    }

    /** Applies a frame, re-reading what it covers from the world as it is now; refuses what does not chain. */
    method Apply(frame: Frame, world: RenderWorld) returns (ok: bool)
      requires world.Valid() && Paged(world.shape, shadow) && Sound(world.shape, frame.chunks, frame.tiles)
      modifies this
      ensures Paged(world.shape, shadow) && ok == Applicable(frame, old(version))
      ensures ok <==> !frame.truncated && (frame.baseline || (0 < old(version) && old(version) == frame.from))
      ensures !ok ==> shadow == old(shadow) && markers == old(markers) && version == old(version)
      ensures ok ==> version == frame.to && markers == PresentAll(if frame.baseline then map[] else old(markers), frame.entities)
      ensures ok ==> PaintedBy(world.shape, old(shadow), shadow, world.glyph, Reach(frame.chunks, frame.tiles))
    {
      hide Read, Write, Paged, PaintedBy, Reach, Present, SoundRecord, Covered;
      if !Applicable(frame, version) {
        return false;
      }
      if frame.baseline {
        markers := map[];
      }
      ghost var shadow0, cleared := shadow, markers;
      NothingPainted(world.shape, shadow, world.glyph, frame.chunks, frame.tiles);
      for k := 0 to |frame.chunks|
        invariant Paged(world.shape, shadow) && markers == cleared && version == old(version)
        invariant PaintedBy(world.shape, shadow0, shadow, world.glyph, Reach(frame.chunks[..k], frame.tiles))
      {
        SoundSlice(world.shape, frame.chunks[k], frame.tiles);
        ReachOne(frame.chunks, k, frame.tiles);
        Repaint(world, frame.chunks[k], frame.tiles, shadow0, Reach(frame.chunks[..k], frame.tiles));
      }
      assert frame.chunks[..|frame.chunks|] == frame.chunks;
      for k := 0 to |frame.entities|
        invariant markers == PresentAll(cleared, frame.entities[..k]) && Paged(world.shape, shadow)
        invariant PaintedBy(world.shape, shadow0, shadow, world.glyph, Reach(frame.chunks, frame.tiles))
      {
        assert frame.entities[..k + 1][..k] == frame.entities[..k];
        markers := Present(markers, frame.entities[k]);
      }
      assert frame.entities[..|frame.entities|] == frame.entities;
      version := frame.to;
      return true;
    }
  }

  lemma SweptOne(box: Box, x: int, y: int)
    requires Covers(box, Coord(x, y, 0)) && box.origin.z == 0 && box.extent.z == 1
    ensures Swept(box, x + 1, y) == Swept(box, x, y) + iset{Coord(x, y, 0)}
  {
  }

  lemma NothingSliced(tiles: seq<Coord>, first: nat)
    requires first <= |tiles|
    ensures Sliced(tiles, first, 0) == iset{}
  {
  }

  lemma NothingPainted(s: Shape, shadow: Pages<nat>, glyph: Pages<nat>, records: seq<Record>, tiles: seq<Coord>)
    requires s.Valid() && Paged(s, shadow) && Paged(s, glyph)
    ensures PaintedBy(s, shadow, shadow, glyph, Reach(records[..0], tiles))
  {
    hide Read, Paged;
  }

  lemma SoundSlice(s: Shape, r: Record, tiles: seq<Coord>)
    requires SoundRecord(s, r, tiles)
    ensures r.first + r.count <= |tiles|
  {
  }
}
