/** Permanent churn under a walking colony: placement, the pool of tiles to block, and one tick's edits. */
module MixedChurn {
  import opened Arithmetic
  import opened Tiles
  import opened Churn

  const CHURN_CHUNKS := 4

  // ------------------------------------------------------------------------------------------------
  // Selecting edits

  /** The coordinates nobody stands on, in order. */
  function Free(tiles: seq<Coord>, occupied: set<Coord>): (r: seq<Coord>)
    ensures forall c :: c in r <==> c in tiles && c !in occupied
  {
    if tiles == [] then []
    else
      var rest := Free(tiles[..|tiles|-1], occupied);
      if tiles[|tiles|-1] in occupied then rest else rest + [tiles[|tiles|-1]]
  }

  /** The first four tiles from `from` on that nobody stands on, or all there are; `to` is where the search ended. */
  ghost predicate NextEdits(pool: seq<Coord>, from: nat, to: nat, occupied: set<Coord>, edits: seq<Coord>) {
    && from <= to <= |pool| && edits == Free(pool[from..to], occupied)
    && (|edits| == 4 || (|edits| < 4 && to == |pool|))
    && (|edits| == 4 ==> from < to && pool[to - 1] !in occupied)
  }

  predicate Distinct(tiles: seq<Coord>) {
    forall i, j :: 0 <= i < j < |tiles| ==> tiles[i] != tiles[j]
  }

  lemma {:induction false} FreeIsDistinct(tiles: seq<Coord>, occupied: set<Coord>)
    requires Distinct(tiles)
    ensures Distinct(Free(tiles, occupied))
  {
    if tiles != [] {
      FreeIsDistinct(tiles[..|tiles|-1], occupied);
    }
  }

  // ------------------------------------------------------------------------------------------------
  // Blocking chunk by chunk

  predicate AllOnMap(s: Shape, edits: seq<Coord>) {
    forall i :: 0 <= i < |edits| ==> s.Contains(edits[i])
  }

  /** The terrain after the operation on chunk `key` went over the edits before `n`. */
  function BlockChunk(s: Shape, w: Terrain, edits: seq<Coord>, key: int, n: nat): (r: Terrain)
    requires s.Valid() && Paged(s, w) && AllOnMap(s, edits) && n <= |edits|
    ensures Paged(s, r)
  {
    if n == 0 then w
    else
      var before := BlockChunk(s, w, edits, key, n - 1);
      if s.ChunkKey(edits[n - 1]) == key then Write(s, before, edits[n - 1], Cell(0, 0)) else before
  }

  /** How many of the edits before `n` lie in a chunk of `keys`, counted once per key. */
  function Hits(s: Shape, edits: seq<Coord>, key: int, n: nat): nat
    requires s.Valid() && AllOnMap(s, edits) && n <= |edits|
  {
    if n == 0 then 0 else Hits(s, edits, key, n - 1) + if s.ChunkKey(edits[n - 1]) == key then 1 else 0
  }

  function BlockAll(s: Shape, w: Terrain, edits: seq<Coord>, keys: seq<int>): (r: Terrain)
    requires s.Valid() && Paged(s, w) && AllOnMap(s, edits)
    ensures Paged(s, r)
  {
    if keys == [] then w else BlockChunk(s, BlockAll(s, w, edits, keys[..|keys|-1]), edits, keys[|keys|-1], |edits|)
  }

  function AllHits(s: Shape, edits: seq<Coord>, keys: seq<int>, n: nat): nat
    requires s.Valid() && AllOnMap(s, edits) && n <= |edits|
  {
    if keys == [] then 0 else AllHits(s, edits, keys[..|keys|-1], n) + Hits(s, edits, keys[|keys|-1], n)
  }

  lemma {:induction false} BlockChunkReads(s: Shape, w: Terrain, edits: seq<Coord>, key: int, n: nat, c: Coord)
    requires s.Valid() && Paged(s, w) && AllOnMap(s, edits) && n <= |edits| && s.Contains(c)
    ensures Read(s, BlockChunk(s, w, edits, key, n), c) == if c in edits[..n] && s.ChunkKey(c) == key then Cell(0, 0) else Read(s, w, c)
  {
    hide Read, Write, Shape.ChunkKey, Paged, Shape.Contains;
    if n > 0 {
      BlockChunkReads(s, w, edits, key, n - 1, c);
      ReadWrite(s, BlockChunk(s, w, edits, key, n - 1), edits[n - 1], Cell(0, 0), c);
      assert edits[..n] == edits[..n - 1] + [edits[n - 1]];
    }
  }

  lemma {:induction false} BlockAllReads(s: Shape, w: Terrain, edits: seq<Coord>, keys: seq<int>, c: Coord)
    requires s.Valid() && Paged(s, w) && AllOnMap(s, edits) && s.Contains(c)
    ensures Read(s, BlockAll(s, w, edits, keys), c) == if c in edits && s.ChunkKey(c) in keys then Cell(0, 0) else Read(s, w, c)
  {
    hide Read, BlockChunk, Shape.ChunkKey, Paged, Shape.Contains;
    if keys != [] {
      var n := |keys| - 1;
      BlockAllReads(s, w, edits, keys[..n], c);
      BlockChunkReads(s, BlockAll(s, w, edits, keys[..n]), edits, keys[n], |edits|, c);
      assert keys == keys[..n] + [keys[n]] && edits[..|edits|] == edits;
    }
  }

  lemma {:induction false} HitsStep(s: Shape, edits: seq<Coord>, keys: seq<int>, n: nat)
    requires s.Valid() && AllOnMap(s, edits) && 0 < n <= |edits| && NoRepeats(keys)
    ensures AllHits(s, edits, keys, n) == AllHits(s, edits, keys, n - 1) + if s.ChunkKey(edits[n - 1]) in keys then 1 else 0
  {
    hide Shape.ChunkKey, Shape.Contains;
    if keys != [] {
      var m := |keys| - 1;
      HitsStep(s, edits, keys[..m], n);
      assert keys == keys[..m] + [keys[m]] && keys[m] !in keys[..m];
    }
  }

  lemma {:induction false} NoHits(s: Shape, edits: seq<Coord>, keys: seq<int>)
    requires s.Valid() && AllOnMap(s, edits)
    ensures AllHits(s, edits, keys, 0) == 0
  {
    if keys != [] {
      NoHits(s, edits, keys[..|keys|-1]);
    }
  }

  /** With each chunk named once, every edit is applied exactly once. */
  lemma {:induction false} EachEditOnce(s: Shape, edits: seq<Coord>, keys: seq<int>, n: nat)
    requires s.Valid() && AllOnMap(s, edits) && n <= |edits| && NoRepeats(keys)
    requires forall i :: 0 <= i < |edits| ==> s.ChunkKey(edits[i]) in keys
    ensures AllHits(s, edits, keys, n) == n
  {
    hide Shape.ChunkKey, AllHits;
    if n == 0 {
      NoHits(s, edits, keys);
    } else {
      EachEditOnce(s, edits, keys, n - 1);
      HitsStep(s, edits, keys, n);
    }
  }

  /** The chunks of some edits, each named once. */
  predicate KeysOf(s: Shape, edits: seq<Coord>, keys: seq<int>)
    requires s.Valid()
  {
    && NoRepeats(keys)
    && (forall i :: 0 <= i < |edits| ==> s.ChunkKey(edits[i]) in keys)
    && (forall k :: k in keys ==> exists i :: 0 <= i < |edits| && s.ChunkKey(edits[i]) == k)
  }

  /** Executing the deduplicated chunks in any order blocks exactly the edits, and acknowledges each once. */
  lemma ChunksBlockEdits(s: Shape, w: Terrain, edits: seq<Coord>, keys: seq<int>, order: seq<int>)
    requires s.Valid() && Paged(s, w) && AllOnMap(s, edits) && KeysOf(s, edits, keys) && multiset(order) == multiset(keys)
    ensures forall c :: s.Contains(c) ==> Read(s, BlockAll(s, w, edits, order), c) == if c in edits then Cell(0, 0) else Read(s, w, c)
    ensures AllHits(s, edits, order, |edits|) == |edits|
  {
    hide Shape.ChunkKey, Shape.Contains, Read, BlockAll, AllHits, Paged;
    SameKeys(order, keys);
    forall c | s.Contains(c)
      ensures Read(s, BlockAll(s, w, edits, order), c) == if c in edits then Cell(0, 0) else Read(s, w, c)
    {
      BlockAllReads(s, w, edits, order, c);
    }
    EachEditOnce(s, edits, order, |edits|);
  }

  // ------------------------------------------------------------------------------------------------
  // The colony under churn

  /** Terrain is as built, but for the tiles blocked so far. */
  ghost predicate BlockedBy(s: Shape, w: Terrain, base: Terrain, blocked: seq<Coord>)
    requires s.Valid() && Paged(s, w) && Paged(s, base)
  {
    forall c :: s.Contains(c) ==> Read(s, w, c) == if c in blocked then Cell(0, 0) else Read(s, base, c)
  }

  class MixedStack {
    const shape: Shape
    const pool: seq<Coord>
    /** Homes and goals. */
    const reserved: set<Coord>
    const period: nat
    var world: Terrain
    var churnCursor: nat
    var pendingEdits: seq<Coord>
    var realizedEdits: seq<Coord>
    ghost const base: Terrain

    /**
     Blocked tiles were drawn from the pool, each at most once and before the cursor; none is a home or a
     goal; and blocking them is all that ever happened to the terrain.
     */
    ghost predicate Valid()
      reads this
    {
      && shape.Valid() && Paged(shape, world) && Paged(shape, base)
      && Distinct(pool) && AllOnMap(shape, pool) && (forall c :: c in pool ==> c !in reserved)
      && churnCursor <= |pool|
      && Distinct(realizedEdits) && (forall c :: c in realizedEdits ==> c in pool[..churnCursor])
      && BlockedBy(shape, world, base, realizedEdits)
    }

    constructor (shape: Shape, world: Terrain, pool: seq<Coord>, reserved: set<Coord>, period: nat)
      requires shape.Valid() && Paged(shape, world) && Distinct(pool) && AllOnMap(shape, pool)
      requires forall c :: c in pool ==> c !in reserved
      ensures Valid() && this.shape == shape && this.pool == pool && this.reserved == reserved && this.period == period
      ensures base == world == this.world && churnCursor == 0 && realizedEdits == []
    {
      this.shape, this.world, this.pool, this.reserved, this.period, this.base := shape, world, pool, reserved, period, world;
      churnCursor, pendingEdits, realizedEdits := 0, [], [];
    }

    /** Takes the next unoccupied pool tiles, at most four; tiles passed over are not offered again. */
    method SelectEdits(occupied: set<Coord>)
      requires churnCursor <= |pool|
      modifies `churnCursor, `pendingEdits
      ensures old(churnCursor) <= churnCursor <= |pool|
      ensures pendingEdits == Free(pool[old(churnCursor)..churnCursor], occupied) && |pendingEdits| <= CHURN_CHUNKS
      ensures |pendingEdits| < CHURN_CHUNKS ==> churnCursor == |pool|
      ensures |pendingEdits| == CHURN_CHUNKS ==> old(churnCursor) < churnCursor && pool[churnCursor - 1] !in occupied
    {
      hide Free;
      pendingEdits := [];
      var taken := 0;
      NothingFree(pool[churnCursor..churnCursor], occupied);
      ghost var from := churnCursor;
      while taken < CHURN_CHUNKS && churnCursor < |pool|
        invariant from <= churnCursor <= |pool| && taken == |pendingEdits| <= CHURN_CHUNKS
        invariant pendingEdits == Free(pool[from..churnCursor], occupied)
        invariant taken == CHURN_CHUNKS ==> from < churnCursor && pool[churnCursor - 1] !in occupied
        decreases |pool| - churnCursor
      {
        var edit := pool[churnCursor];
        FreeNext(pool, from, churnCursor, occupied);
        if edit !in occupied {
          pendingEdits := pendingEdits + [edit];
          taken := taken + 1;
        }
        churnCursor := churnCursor + 1;
      }
    }

    method ChunksOfEdits() returns (keys: seq<int>)
      requires shape.Valid()
      ensures KeysOf(shape, pendingEdits, keys)
    {
      hide Shape.ChunkKey;
      keys := [];
      for e := 0 to |pendingEdits|
        invariant KeysOf(shape, pendingEdits[..e], keys)
      {
        var key := shape.ChunkKey(pendingEdits[e]);
        var found := false;
        for i := 0 to |keys|
          invariant found <==> key in keys[..i]
        {
          if keys[i] == key {
            found := true;
          }
          assert keys[..i + 1] == keys[..i] + [keys[i]];
        }
        assert keys[..|keys|] == keys;
        OneMoreKey(shape, pendingEdits, e, keys);
        if !found {
          keys := keys + [key];
        }
      }
      assert pendingEdits[..|pendingEdits|] == pendingEdits;
    }

    /** One chunk's operation: it touches its own page only. */
    method BlockOne(key: nat) returns (acks: nat)
      requires shape.Valid() && Paged(shape, world) && AllOnMap(shape, pendingEdits) && key < |world|
      modifies `world
      ensures Paged(shape, world) && world == BlockChunk(shape, old(world), pendingEdits, key, |pendingEdits|)
      ensures acks == Hits(shape, pendingEdits, key, |pendingEdits|)
      ensures forall other :: 0 <= other < |world| && other != key ==> world[other] == old(world)[other]
    {
      hide Shape.ChunkKey, Shape.LocalId, Shape.Contains, Shape.ChunkCount, Shape.LocalCount;
      acks := 0;
      for i := 0 to |pendingEdits|
        invariant Paged(shape, world) && |world| == |old(world)| && world == BlockChunk(shape, old(world), pendingEdits, key, i)
        invariant acks == Hits(shape, pendingEdits, key, i)
        invariant forall other :: 0 <= other < |world| && other != key ==> world[other] == old(world)[other]
      {
        var coord := pendingEdits[i];
        if shape.ChunkKey(coord) != key {
          continue;
        }
        Address(shape, coord);
        world := world[key := world[key][shape.LocalId(coord) := Cell(0, 0)]];
        acks := acks + 1;
      }
    }

    /** The queued operations, in whatever order the executor runs them. */
    method Execute(keys: seq<int>) returns (acks: nat)
      requires shape.Valid() && Paged(shape, world) && AllOnMap(shape, pendingEdits) && KeysOf(shape, pendingEdits, keys)
      modifies `world
      ensures Paged(shape, world) && acks == |pendingEdits|
      ensures forall c :: shape.Contains(c) ==> Read(shape, world, c) == if c in pendingEdits then Cell(0, 0) else Read(shape, old(world), c)
    {
      hide Shape.ChunkKey, Shape.Contains, Read, BlockChunk, Hits, Paged, AllOnMap, BlockAll, AllHits, KeysOf;
      var order: seq<int> :| multiset(order) == multiset(keys);
      ghost var before := world;
      ChunksBlockEdits(shape, world, pendingEdits, keys, order);
      OrderOnMap(shape, world, pendingEdits, keys, order);
      BlockNothing(shape, before, pendingEdits, order);
      acks := 0;
      for i := 0 to |order|
        invariant Paged(shape, world) && |world| == |before| && world == BlockAll(shape, before, pendingEdits, order[..i])
        invariant acks == AllHits(shape, pendingEdits, order[..i], |pendingEdits|)
      {
        BlockNext(shape, before, pendingEdits, order, i);
        var done := BlockOne(order[i]);
        SameSize(shape, before, world);
        acks := acks + done;
      }
      assert order[..|order|] == order;
    }

    /** The edits of a tick on which churn is due. */
    method Edit(occupied: set<Coord>) returns (acks: nat)
      requires Valid()
      modifies `world, `churnCursor, `pendingEdits, `realizedEdits
      ensures Valid() && old(churnCursor) <= churnCursor
      ensures realizedEdits == old(realizedEdits) + pendingEdits
      ensures acks == |pendingEdits| <= CHURN_CHUNKS
      ensures NextEdits(pool, old(churnCursor), churnCursor, occupied, pendingEdits)
      ensures forall c :: c in pendingEdits ==>
                c !in occupied && c !in reserved && c !in old(realizedEdits) && c in pool[old(churnCursor)..churnCursor]
      ensures forall c :: shape.Contains(c) ==> Read(shape, world, c) == if c in pendingEdits then Cell(0, 0) else Read(shape, old(world), c)
    {
      hide Shape.ChunkKey, Shape.Contains, Read, Paged, KeysOf, BlockedBy, Free, Distinct, AllOnMap;
      SelectEdits(occupied);
      EditsAreNew(pool, old(churnCursor), churnCursor, realizedEdits, occupied);
      EditsOnMap(shape, pool, old(churnCursor), churnCursor, pendingEdits);
      ghost var before := world;
      var keys := ChunksOfEdits();
      acks := Execute(keys);
      BlockMore(shape, before, world, base, realizedEdits, pendingEdits);
      realizedEdits := realizedEdits + pendingEdits;
    }

    /**
     The churn of one tick, given who stands where. It happens every `period` ticks; its edits are the next
     four tiles of the pool nobody stands on, or all that are left.
     */
    method TickBody(tick: nat, churnEnabled: bool, occupied: set<Coord>) returns (acks: nat)
      requires Valid() && 0 < tick
      modifies `world, `churnCursor, `pendingEdits, `realizedEdits
      ensures Valid() && old(churnCursor) <= churnCursor
      ensures realizedEdits == old(realizedEdits) + pendingEdits
      ensures acks == |pendingEdits| <= CHURN_CHUNKS
      ensures forall c :: c in pendingEdits ==>
                c !in occupied && c !in reserved && c !in old(realizedEdits) && c in pool[old(churnCursor)..churnCursor]
      ensures forall c :: shape.Contains(c) ==> Read(shape, world, c) == if c in pendingEdits then Cell(0, 0) else Read(shape, old(world), c)
      ensures churnEnabled && 0 < period && 1 < tick && (tick - 1) % period == 0 ==>
                NextEdits(pool, old(churnCursor), churnCursor, occupied, pendingEdits)
      ensures !churnEnabled || period == 0 || tick == 1 || (tick - 1) % period != 0 ==> pendingEdits == [] && churnCursor == old(churnCursor)
    {
      hide Shape.ChunkKey, Shape.Contains, Read, Paged, KeysOf, BlockedBy, Free, Distinct, AllOnMap;
      NothingFree(pool[churnCursor..churnCursor], occupied);
      pendingEdits := [];
      acks := 0;
      var index := tick - 1;
      if churnEnabled && period > 0 && index > 0 && index % period == 0 && churnCursor < |pool| {
        acks := Edit(occupied);
      } else {
        assert realizedEdits + [] == realizedEdits;
      }
    }
  }

  lemma OneMoreKey(s: Shape, edits: seq<Coord>, e: nat, keys: seq<int>)
    requires s.Valid() && e < |edits| && KeysOf(s, edits[..e], keys)
    ensures var key := s.ChunkKey(edits[e]); KeysOf(s, edits[..e + 1], if key in keys then keys else keys + [key])
  {
    hide Shape.ChunkKey;
    var key := s.ChunkKey(edits[e]);
    var more := if key in keys then keys else keys + [key];
    var es := edits[..e + 1];
    assert es == edits[..e] + [edits[e]];
    forall k | k in more ensures exists i :: 0 <= i < |es| && s.ChunkKey(es[i]) == k {
      if k in keys {
        var i :| 0 <= i < e && s.ChunkKey(edits[..e][i]) == k;
        assert es[i] == edits[..e][i];
      } else {
        assert es[e] == edits[e];
      }
    }
    forall i | 0 <= i < |es| ensures s.ChunkKey(es[i]) in more {
      if i < e {
        assert s.ChunkKey(edits[..e][i]) in keys;
      }
    }
  }

  lemma OrderOnMap(s: Shape, w: Terrain, edits: seq<Coord>, keys: seq<int>, order: seq<int>)
    requires s.Valid() && Paged(s, w) && AllOnMap(s, edits) && KeysOf(s, edits, keys) && multiset(order) == multiset(keys)
    ensures forall i :: 0 <= i < |order| ==> 0 <= order[i] < |w|
  {
    hide Shape.ChunkKey, Shape.Contains;
    forall i | 0 <= i < |order| ensures 0 <= order[i] < |w| {
      assert order[i] in multiset(order) && order[i] in multiset(keys) && order[i] in keys;
      var e :| 0 <= e < |edits| && s.ChunkKey(edits[e]) == order[i];
      Address(s, edits[e]);
    }
  }

  lemma BlockNothing(s: Shape, w: Terrain, edits: seq<Coord>, keys: seq<int>)
    requires s.Valid() && Paged(s, w) && AllOnMap(s, edits)
    ensures BlockAll(s, w, edits, keys[..0]) == w && AllHits(s, edits, keys[..0], |edits|) == 0
  {
  }

  lemma BlockNext(s: Shape, w: Terrain, edits: seq<Coord>, keys: seq<int>, i: nat)
    requires s.Valid() && Paged(s, w) && AllOnMap(s, edits) && i < |keys|
    ensures BlockAll(s, w, edits, keys[..i + 1]) == BlockChunk(s, BlockAll(s, w, edits, keys[..i]), edits, keys[i], |edits|)
    ensures AllHits(s, edits, keys[..i + 1], |edits|) == AllHits(s, edits, keys[..i], |edits|) + Hits(s, edits, keys[i], |edits|)
  {
    hide BlockChunk, Hits, Paged, AllOnMap;
    assert keys[..i + 1][..i] == keys[..i];
  }

  lemma EditsAreNew(pool: seq<Coord>, from: nat, to: nat, realized: seq<Coord>, occupied: set<Coord>)
    requires Distinct(pool) && from <= to <= |pool| && Distinct(realized) && forall c :: c in realized ==> c in pool[..from]
    ensures var edits := Free(pool[from..to], occupied);
            && (forall c :: c in edits ==> c in pool && c !in realized && c !in occupied && c in pool[from..to])
            && Distinct(realized + edits) && forall c :: c in realized + edits ==> c in pool[..to]
  {
    var edits := Free(pool[from..to], occupied);
    assert Distinct(pool[from..to]);
    FreeIsDistinct(pool[from..to], occupied);
    assert forall c :: c in pool[..from] ==> c !in pool[from..to];
    DistinctTogether(realized, edits);
    assert pool[..to] == pool[..from] + pool[from..to];
  }

  lemma NothingFree(tiles: seq<Coord>, occupied: set<Coord>)
    requires tiles == []
    ensures Free(tiles, occupied) == []
  {
  }

  lemma DistinctTogether(a: seq<Coord>, b: seq<Coord>)
    requires Distinct(a) && Distinct(b) && forall c :: c in a ==> c !in b
    ensures Distinct(a + b)
  {
    forall i, j | 0 <= i < j < |a + b| ensures (a + b)[i] != (a + b)[j] {
      assert i < |a| ==> a[i] in a;
      assert j >= |a| ==> b[j - |a|] in b;
    }
  }

  lemma FreeNext(pool: seq<Coord>, from: nat, k: nat, occupied: set<Coord>)
    requires from <= k < |pool|
    ensures Free(pool[from..k + 1], occupied) == Free(pool[from..k], occupied) + if pool[k] in occupied then [] else [pool[k]]
  {
    assert pool[from..k + 1][..k - from] == pool[from..k];
  }

  lemma EditsOnMap(s: Shape, pool: seq<Coord>, from: nat, to: nat, edits: seq<Coord>)
    requires AllOnMap(s, pool) && from <= to <= |pool| && forall c :: c in edits ==> c in pool
    ensures AllOnMap(s, edits)
  {
    forall i | 0 <= i < |edits| ensures s.Contains(edits[i]) {
      assert edits[i] in edits;
    }
  }

  lemma BlockMore(s: Shape, before: Terrain, after: Terrain, base: Terrain, realized: seq<Coord>, edits: seq<Coord>)
    requires s.Valid() && Paged(s, before) && Paged(s, after) && Paged(s, base) && BlockedBy(s, before, base, realized)
    requires forall c :: s.Contains(c) ==> Read(s, after, c) == if c in edits then Cell(0, 0) else Read(s, before, c)
    ensures BlockedBy(s, after, base, realized + edits)
  {
    hide Read, Paged, Shape.Contains;
  }

  // ------------------------------------------------------------------------------------------------
  // Placement and the pool

  predicate Open(s: Shape, w: Terrain, c: Coord)
    requires s.Valid() && Paged(s, w)
  {
    s.Contains(c) && Read(s, w, c).passable != 0
  }

  /** A start on the placement grid from which an agent can be sent: both ends are open ground. */
  predicate Slot(s: Shape, w: Terrain, stride: nat, distance: nat, c: Coord)
    requires s.Valid() && Paged(s, w) && 0 < stride
  {
    && c.z == 0 && 1 <= c.x && 1 <= c.y < s.size.y && c.x + distance < s.size.x
    && (c.x - 1) % (distance + 2) == 0 && (c.y - 1) % stride == 0
    && Open(s, w, c) && Open(s, w, c.(x := c.x + distance))
  }

  /** In scan order, row by row. */
  predicate Earlier(c: Coord, d: Coord) {
    c.y < d.y || (c.y == d.y && c.x < d.x)
  }

  lemma NextOnGrid(x: int, c: int, step: nat)
    requires 0 < step && x % step == 0 && c % step == 0
    ensures (x + step) % step == 0
    ensures x <= c < x + step ==> c == x
  {
    Division(x, step);
    Division(c, step);
    Digits(0, x / step + 1, step);
    Distribute(x / step, step);
    if x <= c < x + step {
      Unique(x / step, c - x, c / step, 0, step);
    }
  }

  /** Agents sit on slots in scan order, each with the goal at the fixed distance. */
  ghost predicate Seated(s: Shape, w: Terrain, stride: nat, distance: nat, homes: seq<Coord>, goals: seq<Coord>)
    requires s.Valid() && Paged(s, w) && 0 < stride
  {
    && |homes| == |goals|
    && (forall i :: 0 <= i < |homes| ==> Slot(s, w, stride, distance, homes[i]) && goals[i] == homes[i].(x := homes[i].x + distance))
    && forall i, j :: 0 <= i < j < |homes| ==> Earlier(homes[i], homes[j])
  }

  /** The slots before `at` are the homes. */
  ghost predicate Scanned(s: Shape, w: Terrain, stride: nat, distance: nat, homes: seq<Coord>, at: Coord)
    requires s.Valid() && Paged(s, w) && 0 < stride
  {
    && (forall i :: 0 <= i < |homes| ==> Earlier(homes[i], at))
    && forall c :: Slot(s, w, stride, distance, c) && Earlier(c, at) ==> c in homes
  }

  /** A slot is left free only when everybody is seated, and earlier. */
  ghost predicate Placed(s: Shape, w: Terrain, stride: nat, distance: nat, homes: seq<Coord>, population: nat)
    requires s.Valid() && Paged(s, w) && 0 < stride
  {
    forall c :: Slot(s, w, stride, distance, c) && c !in homes ==>
                  |homes| == population && forall i :: 0 <= i < |homes| ==> Earlier(homes[i], c)
  }

  /** Seats agents in scan order: one on every slot there is, until all are seated. */
  method PlaceAgents(s: Shape, w: Terrain, population: nat, stride: nat, distance: nat) returns (homes: seq<Coord>, goals: seq<Coord>)
    requires s.Valid() && Paged(s, w) && 0 < stride
    ensures |homes| <= population && Seated(s, w, stride, distance, homes, goals) && Placed(s, w, stride, distance, homes, population)
  {
    hide Read, Paged, Slot, Seated, Scanned, Placed;
    homes, goals := [], [];
    var occupied: set<Coord> := {};
    var y := 1;
    NothingSeated(s, w, stride, distance);
    while y < s.size.y && |homes| < population
      invariant 1 <= y && (y - 1) % stride == 0 && |homes| <= population && forall c :: c in homes <==> c in occupied
      invariant Seated(s, w, stride, distance, homes, goals)
      invariant Scanned(s, w, stride, distance, homes, Coord(1, y, 0)) || (|homes| == population && Placed(s, w, stride, distance, homes, population))
    {
      var x := 1;
      while x + distance < s.size.x && |homes| < population
        invariant 1 <= x && (x - 1) % (distance + 2) == 0 && |homes| <= population && forall c :: c in homes <==> c in occupied
        invariant Seated(s, w, stride, distance, homes, goals) && Scanned(s, w, stride, distance, homes, Coord(x, y, 0))
      {
        var start, goal := Coord(x, y, 0), Coord(x + distance, y, 0);
        SeatNext(s, w, stride, distance, homes, goals, x, y);
        NextOnGrid(x - 1, 0, distance + 2);
        x := x + distance + 2;
        if Read(s, w, start).passable == 0 || Read(s, w, goal).passable == 0 || start in occupied {
          continue;
        }
        occupied := occupied + {start};
        homes := homes + [start];
        goals := goals + [goal];
      }
      RowEnds(s, w, stride, distance, homes, population, x, y);
      NextOnGrid(y - 1, 0, stride);
      y := y + stride;
    }
    if Scanned(s, w, stride, distance, homes, Coord(1, y, 0)) {
      RowsEnd(s, w, stride, distance, homes, population, y);
    }
  }

  lemma NothingSeated(s: Shape, w: Terrain, stride: nat, distance: nat)
    requires s.Valid() && Paged(s, w) && 0 < stride
    ensures Seated(s, w, stride, distance, [], []) && Scanned(s, w, stride, distance, [], Coord(1, 1, 0))
    ensures 0 % stride == 0 && 0 % (distance + 2) == 0
  {
    hide Open, Paged;
  }

  /** Looking at one place of the grid: a slot becomes a home, anything else is passed over. */
  lemma SeatNext(s: Shape, w: Terrain, stride: nat, distance: nat, homes: seq<Coord>, goals: seq<Coord>, x: int, y: int)
    requires s.Valid() && Paged(s, w) && 0 < stride && 1 <= x && x + distance < s.size.x && 1 <= y < s.size.y
    requires (x - 1) % (distance + 2) == 0 && (y - 1) % stride == 0
    requires Seated(s, w, stride, distance, homes, goals) && Scanned(s, w, stride, distance, homes, Coord(x, y, 0))
    ensures s.Contains(Coord(x, y, 0)) && s.Contains(Coord(x + distance, y, 0)) && Coord(x, y, 0) !in homes
    ensures if Read(s, w, Coord(x, y, 0)).passable == 0 || Read(s, w, Coord(x + distance, y, 0)).passable == 0
            then Scanned(s, w, stride, distance, homes, Coord(x + distance + 2, y, 0))
            else && Seated(s, w, stride, distance, homes + [Coord(x, y, 0)], goals + [Coord(x + distance, y, 0)])
                 && Scanned(s, w, stride, distance, homes + [Coord(x, y, 0)], Coord(x + distance + 2, y, 0))
  {
    hide Read, Paged, Slot;
    var at := Coord(x, y, 0);
    SlotIs(s, w, stride, distance, x, y);
    forall c | Slot(s, w, stride, distance, c) && Earlier(c, Coord(x + distance + 2, y, 0)) ensures Earlier(c, at) || c == at {
      NextInRow(s, w, stride, distance, x, y, c);
    }
  }

  /** Nothing on the grid lies between a place and the next one in its row, nor between a row and the next. */
  lemma NextInRow(s: Shape, w: Terrain, stride: nat, distance: nat, x: int, y: int, c: Coord)
    requires s.Valid() && Paged(s, w) && 0 < stride && 1 <= x && (x - 1) % (distance + 2) == 0 && (y - 1) % stride == 0
    requires Slot(s, w, stride, distance, c)
    ensures Earlier(c, Coord(x + distance + 2, y, 0)) ==> Earlier(c, Coord(x, y, 0)) || c == Coord(x, y, 0)
    ensures c.y < y + stride ==> c.y <= y
    ensures 1 <= c.x && 1 <= c.y < s.size.y && c.x + distance < s.size.x
  {
    hide Open, Paged;
    NextOnGrid(x - 1, c.x - 1, distance + 2);
    NextOnGrid(y - 1, c.y - 1, stride);
  }

  lemma SlotIs(s: Shape, w: Terrain, stride: nat, distance: nat, x: int, y: int)
    requires s.Valid() && Paged(s, w) && 0 < stride && 1 <= x && x + distance < s.size.x && 1 <= y < s.size.y
    requires (x - 1) % (distance + 2) == 0 && (y - 1) % stride == 0
    ensures s.Contains(Coord(x, y, 0)) && s.Contains(Coord(x + distance, y, 0))
    ensures Slot(s, w, stride, distance, Coord(x, y, 0)) <==>
              Read(s, w, Coord(x, y, 0)).passable != 0 && Read(s, w, Coord(x + distance, y, 0)).passable != 0
  {
    hide Read, Paged;
  }

  lemma RowEnds(s: Shape, w: Terrain, stride: nat, distance: nat, homes: seq<Coord>, population: nat, x: int, y: int)
    requires s.Valid() && Paged(s, w) && 0 < stride && 1 <= x && (x - 1) % (distance + 2) == 0 && (y - 1) % stride == 0
    requires Scanned(s, w, stride, distance, homes, Coord(x, y, 0))
    ensures x + distance >= s.size.x ==> Scanned(s, w, stride, distance, homes, Coord(1, y + stride, 0))
    ensures |homes| == population ==> Placed(s, w, stride, distance, homes, population)
  {
    hide Slot, Paged;
    forall c | Slot(s, w, stride, distance, c) && Earlier(c, Coord(1, y + stride, 0)) && x + distance >= s.size.x ensures Earlier(c, Coord(x, y, 0)) {
      NextInRow(s, w, stride, distance, x, y, c);
    }
  }

  lemma RowsEnd(s: Shape, w: Terrain, stride: nat, distance: nat, homes: seq<Coord>, population: nat, y: int)
    requires s.Valid() && Paged(s, w) && 0 < stride && Scanned(s, w, stride, distance, homes, Coord(1, y, 0))
    ensures y >= s.size.y || |homes| == population ==> Placed(s, w, stride, distance, homes, population)
  {
    hide Open, Paged;
  }

  /** Draw `i` is passed over: its tile is a home or a goal, or was drawn before. */
  ghost predicate Reserved(homes: seq<Coord>, goals: seq<Coord>, draws: seq<Coord>, picked: seq<nat>, i: nat)
    requires i < |draws|
  {
    || (exists c :: c in homes && SameSpot(c, draws[i]))
    || (exists c :: c in goals && SameSpot(c, draws[i]))
    || exists k :: 0 <= k < |picked| && picked[k] < i && SameSpot(draws[picked[k]], draws[i])
  }

  /** Of the draws before `n`, those picked are distinct tiles no home or goal occupies, and the others were passed over. */
  ghost predicate PoolOf(homes: seq<Coord>, goals: seq<Coord>, draws: seq<Coord>, picked: seq<nat>, n: nat)
    requires n <= |draws|
  {
    && (forall k :: 0 <= k < |picked| ==> picked[k] < n && !Reserved(homes, goals, draws, picked, picked[k]))
    && (forall k, l :: 0 <= k < l < |picked| ==> picked[k] < picked[l])
    && forall i :: 0 <= i < n ==> i in picked || Reserved(homes, goals, draws, picked, i)
  }

  lemma PoolGrows(homes: seq<Coord>, goals: seq<Coord>, draws: seq<Coord>, picked: seq<nat>, n: nat)
    requires n < |draws| && PoolOf(homes, goals, draws, picked, n)
    ensures PoolOf(homes, goals, draws, if Reserved(homes, goals, draws, picked, n) then picked else picked + [n], n + 1)
  {
    hide Reserved;
    var more := picked + [n];
    forall i | 0 <= i <= n ensures Reserved(homes, goals, draws, more, i) <==> Reserved(homes, goals, draws, picked, i) {
      ReservedStays(homes, goals, draws, picked, n, i);
    }
    assert n in more && forall i :: i in picked ==> i in more;
  }

  lemma ReservedStays(homes: seq<Coord>, goals: seq<Coord>, draws: seq<Coord>, picked: seq<nat>, n: nat, i: nat)
    requires i <= n < |draws| && forall k :: 0 <= k < |picked| ==> picked[k] < n
    ensures Reserved(homes, goals, draws, picked + [n], i) <==> Reserved(homes, goals, draws, picked, i)
  {
    hide SameSpot;
    var more := picked + [n];
    if k :| 0 <= k < |picked| && picked[k] < i && SameSpot(draws[picked[k]], draws[i]) {
      assert more[k] == picked[k];
    }
  }

  /** The tiles a pool was told to keep away from, together with those it took. */
  lemma ReservedIs(homes: seq<Coord>, goals: seq<Coord>, draws: seq<Coord>, picked: seq<nat>, pool: seq<Coord>, n: nat)
    requires n < |draws| && |pool| == |picked| && forall k :: 0 <= k < |picked| ==> picked[k] < n && pool[k] == draws[picked[k]]
    ensures Reserved(homes, goals, draws, picked, n) <==> exists c :: c in homes + goals + pool && SameSpot(c, draws[n])
  {
    hide SameSpot;
    if c :| c in homes + goals + pool && SameSpot(c, draws[n]) {
      if c in pool {
        var k :| 0 <= k < |pool| && pool[k] == c;
        assert picked[k] < n && SameSpot(draws[picked[k]], draws[n]);
      }
    }
    if k :| 0 <= k < |picked| && picked[k] < n && SameSpot(draws[picked[k]], draws[n]) {
      assert pool[k] in homes + goals + pool;
    }
  }

  /**
   Draws candidate tiles to block: the first `wanted` distinct ones that are no home and no goal, or as
   many as the draws hold. `picked` tells which draws they are.
   */
  method BuildPool(s: Shape, homes: seq<Coord>, goals: seq<Coord>, draws: seq<Coord>, wanted: nat) returns (pool: seq<Coord>, ghost picked: seq<nat>)
    requires s.Valid() && AllOnMap(s, homes) && AllOnMap(s, goals) && AllOnMap(s, draws)
    ensures |pool| == |picked| <= wanted && forall k :: 0 <= k < |pool| ==> picked[k] < |draws| && pool[k] == draws[picked[k]]
    ensures exists n: nat :: n <= |draws| && (n == |draws| || |pool| == wanted) && PoolOf(homes, goals, draws, picked, n)
    ensures Distinct(pool) && AllOnMap(s, pool)
    ensures forall c :: c in pool ==> c in draws && c !in homes && c !in goals
    ensures |pool| < wanted ==> forall c :: c in draws ==> exists t :: t in homes + goals + pool && SameSpot(t, c)
  {
    hide Shape.Contains, SameSpot, Flagged, PoolOf, Reserved, LevelIndex;
    var reserved := new bool[s.size.x * s.size.y](_ => false);
    NothingFlagged(s, reserved[..]);
    for i := 0 to |homes|
      invariant Flagged(s, reserved[..], homes[..i])
    {
      FlagNext(s, reserved[..], homes[..i], homes[i]);
      reserved[LevelIndex(s, homes[i])] := true;
      assert homes[..i + 1] == homes[..i] + [homes[i]];
    }
    assert homes[..|homes|] == homes && goals[..0] == [] && homes + [] == homes;
    for i := 0 to |goals|
      invariant Flagged(s, reserved[..], homes + goals[..i])
    {
      FlagNext(s, reserved[..], homes + goals[..i], goals[i]);
      reserved[LevelIndex(s, goals[i])] := true;
      assert homes + goals[..i + 1] == homes + goals[..i] + [goals[i]];
    }
    assert goals[..|goals|] == goals;
    pool, picked := [], [];
    assert homes + goals + [] == homes + goals;
    NothingPicked(homes, goals, draws);
    var attempt := 0;
    while attempt < |draws| && |pool| < wanted
      invariant attempt <= |draws| && |pool| == |picked| <= wanted
      invariant forall k :: 0 <= k < |pool| ==> picked[k] < attempt && pool[k] == draws[picked[k]]
      invariant Flagged(s, reserved[..], homes + goals + pool) && PoolOf(homes, goals, draws, picked, attempt)
    {
      var coord := draws[attempt];
      ReservedIs(homes, goals, draws, picked, pool, attempt);
      PoolGrows(homes, goals, draws, picked, attempt);
      FlagNext(s, reserved[..], homes + goals + pool, coord);
      attempt := attempt + 1;
      if reserved[LevelIndex(s, coord)] {
        continue;
      }
      assert homes + goals + (pool + [coord]) == homes + goals + pool + [coord];
      reserved[LevelIndex(s, coord)] := true;
      pool, picked := pool + [coord], picked + [attempt - 1];
    }
    PoolIsDistinct(homes, goals, draws, picked, pool, attempt);
  }

  lemma NothingPicked(homes: seq<Coord>, goals: seq<Coord>, draws: seq<Coord>)
    ensures PoolOf(homes, goals, draws, [], 0)
  {
  }

  lemma PoolIsDistinct(homes: seq<Coord>, goals: seq<Coord>, draws: seq<Coord>, picked: seq<nat>, pool: seq<Coord>, n: nat)
    requires n <= |draws| && PoolOf(homes, goals, draws, picked, n)
    requires |pool| == |picked| && forall k :: 0 <= k < |pool| ==> picked[k] < |draws| && pool[k] == draws[picked[k]]
    ensures Distinct(pool) && forall c :: c in pool ==> c in draws && c !in homes && c !in goals
    ensures n == |draws| ==> forall c :: c in draws ==> exists t :: t in homes + goals + pool && SameSpot(t, c)
  {
    forall c | c in pool ensures c in draws && c !in homes && c !in goals {
      var k :| 0 <= k < |pool| && pool[k] == c;
      assert SameSpot(c, draws[picked[k]]) && !Reserved(homes, goals, draws, picked, picked[k]);
    }
    forall i, j | 0 <= i < j < |pool| ensures pool[i] != pool[j] {
      assert !Reserved(homes, goals, draws, picked, picked[j]);
      assert pool[i] == pool[j] ==> SameSpot(draws[picked[i]], draws[picked[j]]);
    }
    if n == |draws| {
      forall c | c in draws ensures exists t :: t in homes + goals + pool && SameSpot(t, c) {
        var i :| 0 <= i < |draws| && draws[i] == c;
        DrawnOrReserved(homes, goals, draws, picked, pool, i);
      }
    }
  }

  lemma DrawnOrReserved(homes: seq<Coord>, goals: seq<Coord>, draws: seq<Coord>, picked: seq<nat>, pool: seq<Coord>, i: nat)
    requires i < |draws| && PoolOf(homes, goals, draws, picked, |draws|)
    requires |pool| == |picked| && forall k :: 0 <= k < |pool| ==> picked[k] < |draws| && pool[k] == draws[picked[k]]
    ensures exists t :: t in homes + goals + pool && SameSpot(t, draws[i])
  {
    if i in picked {
      var k :| 0 <= k < |picked| && picked[k] == i;
      assert pool[k] in homes + goals + pool && SameSpot(pool[k], draws[i]);
    } else if k :| 0 <= k < |picked| && picked[k] < i && SameSpot(draws[picked[k]], draws[i]) {
      assert pool[k] in homes + goals + pool;
    } else {
      assert Reserved(homes, goals, draws, picked, i);
      var t :| (t in homes || t in goals) && SameSpot(t, draws[i]);
      assert t in homes + goals + pool;
    }
  }
}
