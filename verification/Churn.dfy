/** Toggling churn events: the direct application, the queued one chunk by chunk, and the event pool. */
module Churn {
  import opened Arithmetic
  import opened Tiles

  datatype Cell = Cell(passable: nat, cost: nat)

  type Terrain = Pages<Cell>

  datatype ChurnEvent = ChurnEvent(tiles: seq<Coord>, chunks: seq<int>, originalCost: seq<nat>)

  function Toggled(cell: Cell, original: nat): Cell {
    if cell.passable != 0 then Cell(0, 0) else Cell(1, original)
  }

  predicate OnMap(s: Shape, e: ChurnEvent)
    requires s.Valid()
  {
    && |e.tiles| == |e.chunks| == |e.originalCost|
    && forall i :: 0 <= i < |e.tiles| ==> s.Contains(e.tiles[i]) && e.chunks[i] == s.ChunkKey(e.tiles[i])
  }

  /** An event as the pool assembles it: tiles of the map, in chunks of their own. */
  predicate Assembled(s: Shape, e: ChurnEvent)
    requires s.Valid()
  {
    && OnMap(s, e)
    && forall i, j :: 0 <= i < j < |e.chunks| ==> e.chunks[i] != e.chunks[j]
  }

  // ------------------------------------------------------------------------------------------------
  // The two ways of applying an event

  function ToggleAt(s: Shape, w: Terrain, c: Coord, original: nat): (r: Terrain)
    requires s.Valid() && s.Contains(c) && Paged(s, w)
    ensures Paged(s, r)
  {
    Write(s, w, c, Toggled(Read(s, w, c), original))
  }

  /** The terrain after the event's tiles before `n` were toggled in order. */
  function Apply(s: Shape, w: Terrain, e: ChurnEvent, n: nat): (r: Terrain)
    requires s.Valid() && Paged(s, w) && OnMap(s, e) && n <= |e.tiles|
    ensures Paged(s, r)
  {
    if n == 0 then w else ToggleAt(s, Apply(s, w, e, n - 1), e.tiles[n - 1], e.originalCost[n - 1])
  }

  /** The terrain after the operation on chunk `key` went over the event's tiles before `n`. */
  function Build(s: Shape, w: Terrain, e: ChurnEvent, key: int, n: nat): (r: Terrain)
    requires s.Valid() && Paged(s, w) && OnMap(s, e) && n <= |e.tiles|
    ensures Paged(s, r)
  {
    if n == 0 then w
    else
      var before := Build(s, w, e, key, n - 1);
      if s.ChunkKey(e.tiles[n - 1]) == key then ToggleAt(s, before, e.tiles[n - 1], e.originalCost[n - 1]) else before
  }

  /** Its acknowledged tiles. */
  function Acks(s: Shape, e: ChurnEvent, key: int, n: nat): nat
    requires s.Valid() && OnMap(s, e) && n <= |e.tiles|
  {
    if n == 0 then 0 else Acks(s, e, key, n - 1) + if s.ChunkKey(e.tiles[n - 1]) == key then 1 else 0
  }

  /** The terrain after the operations on `keys` ran in that order. */
  function RunAll(s: Shape, w: Terrain, e: ChurnEvent, keys: seq<int>): (r: Terrain)
    requires s.Valid() && Paged(s, w) && OnMap(s, e)
    ensures Paged(s, r)
  {
    if keys == [] then w else Build(s, RunAll(s, w, e, keys[..|keys|-1]), e, keys[|keys|-1], |e.tiles|)
  }

  function AllAcks(s: Shape, e: ChurnEvent, keys: seq<int>): nat
    requires s.Valid() && OnMap(s, e)
  {
    if keys == [] then 0 else AllAcks(s, e, keys[..|keys|-1]) + Acks(s, e, keys[|keys|-1], |e.tiles|)
  }

  // ------------------------------------------------------------------------------------------------
  // What a coordinate reads afterwards

  lemma TilesDiffer(s: Shape, e: ChurnEvent, i: nat, j: nat)
    requires s.Valid() && Assembled(s, e) && i < |e.tiles| && j < |e.tiles| && e.tiles[i] == e.tiles[j]
    ensures i == j
  {
    hide Shape.ChunkKey;
    assert e.chunks[i] == e.chunks[j];
  }

  lemma {:induction false} ApplyReads(s: Shape, w: Terrain, e: ChurnEvent, n: nat, c: Coord)
    requires s.Valid() && Paged(s, w) && Assembled(s, e) && n <= |e.tiles| && s.Contains(c)
    ensures forall i :: 0 <= i < n && e.tiles[i] == c ==> Read(s, Apply(s, w, e, n), c) == Toggled(Read(s, w, c), e.originalCost[i])
    ensures (forall i :: 0 <= i < n ==> e.tiles[i] != c) ==> Read(s, Apply(s, w, e, n), c) == Read(s, w, c)
  {
    hide Read, Write, Shape.ChunkKey, Paged, Shape.Contains;
    if n > 0 {
      ApplyReads(s, w, e, n - 1, c);
      var before := Apply(s, w, e, n - 1);
      var t := e.tiles[n - 1];
      ReadWrite(s, before, t, Toggled(Read(s, before, t), e.originalCost[n - 1]), c);
      forall i | 0 <= i < n && e.tiles[i] == c ensures t == c ==> i == n - 1 {
        if t == c {
          TilesDiffer(s, e, i, n - 1);
        }
      }
    }
  }

  lemma {:induction false} BuildReads(s: Shape, w: Terrain, e: ChurnEvent, key: int, n: nat, c: Coord)
    requires s.Valid() && Paged(s, w) && Assembled(s, e) && n <= |e.tiles| && s.Contains(c)
    ensures forall i :: 0 <= i < n && e.tiles[i] == c && e.chunks[i] == key ==>
                          Read(s, Build(s, w, e, key, n), c) == Toggled(Read(s, w, c), e.originalCost[i])
    ensures (forall i :: 0 <= i < n && e.tiles[i] == c ==> e.chunks[i] != key) ==> Read(s, Build(s, w, e, key, n), c) == Read(s, w, c)
  {
    hide Read, Write, Shape.ChunkKey, Paged, Shape.Contains;
    if n > 0 {
      BuildReads(s, w, e, key, n - 1, c);
      var before := Build(s, w, e, key, n - 1);
      var t := e.tiles[n - 1];
      assert e.chunks[n - 1] == s.ChunkKey(t);
      ReadWrite(s, before, t, Toggled(Read(s, before, t), e.originalCost[n - 1]), c);
      forall i | 0 <= i < n && e.tiles[i] == c ensures t == c ==> i == n - 1 {
        if t == c {
          TilesDiffer(s, e, i, n - 1);
        }
      }
    }
  }

  predicate NoRepeats(keys: seq<int>) {
    forall i, j :: 0 <= i < j < |keys| ==> keys[i] != keys[j]
  }

  lemma {:induction false} RunReads(s: Shape, w: Terrain, e: ChurnEvent, keys: seq<int>, c: Coord)
    requires s.Valid() && Paged(s, w) && Assembled(s, e) && NoRepeats(keys) && s.Contains(c)
    ensures forall i :: 0 <= i < |e.tiles| && e.tiles[i] == c ==>
                          Read(s, RunAll(s, w, e, keys), c) == if e.chunks[i] in keys then Toggled(Read(s, w, c), e.originalCost[i]) else Read(s, w, c)
    ensures c !in e.tiles ==> Read(s, RunAll(s, w, e, keys), c) == Read(s, w, c)
  {
    hide Read, Build, Shape.ChunkKey, Paged, Shape.Contains, OnMap;
    if keys != [] {
      var n := |keys| - 1;
      var key := keys[n];
      RunReads(s, w, e, keys[..n], c);
      BuildReads(s, RunAll(s, w, e, keys[..n]), e, key, |e.tiles|, c);
      assert keys == keys[..n] + [key];
      Sized(s, e);
      forall i | 0 <= i < |e.tiles| && e.tiles[i] == c
        ensures Read(s, RunAll(s, w, e, keys), c) == if e.chunks[i] in keys then Toggled(Read(s, w, c), e.originalCost[i]) else Read(s, w, c)
      {
        forall j | 0 <= j < |e.tiles| && e.tiles[j] == c ensures j == i {
          TilesDiffer(s, e, i, j);
        }
        assert e.chunks[i] in keys <==> e.chunks[i] in keys[..n] || e.chunks[i] == key;
        assert key !in keys[..n];
      }
    }
  }

  lemma Sized(s: Shape, e: ChurnEvent)
    requires s.Valid() && OnMap(s, e)
    ensures |e.tiles| == |e.chunks| == |e.originalCost|
  {
  }

  /** Running the queued operations on the event's chunks, in any order, is applying the event. */
  lemma QueuedIsDirect(s: Shape, w: Terrain, e: ChurnEvent, keys: seq<int>)
    requires s.Valid() && Paged(s, w) && Assembled(s, e) && multiset(keys) == multiset(e.chunks)
    ensures RunAll(s, w, e, keys) == Apply(s, w, e, |e.tiles|)
    ensures AllAcks(s, e, keys) == |e.tiles|
  {
    hide Read, RunAll, Apply, Shape.ChunkKey, Paged, Shape.Contains, OnMap, AllAcks;
    Sized(s, e);
    SameKeys(keys, e.chunks);
    var a, b := RunAll(s, w, e, keys), Apply(s, w, e, |e.tiles|);
    forall c | s.Contains(c) ensures Read(s, a, c) == Read(s, b, c) {
      RunReads(s, w, e, keys, c);
      ApplyReads(s, w, e, |e.tiles|, c);
      if i :| 0 <= i < |e.tiles| && e.tiles[i] == c {
        assert e.chunks[i] in e.chunks;
      }
    }
    ReadsDecide(s, a, b);
    EachKeyAcksOnce(s, e, keys);
    assert |keys| == |multiset(keys)| == |multiset(e.chunks)| == |e.chunks|;
  }

  lemma SameKeys(keys: seq<int>, chunks: seq<int>)
    requires multiset(keys) == multiset(chunks) && NoRepeats(chunks)
    ensures NoRepeats(keys) && forall k :: k in keys <==> k in chunks
  {
    forall k ensures k in keys <==> k in chunks {
      assert k in multiset(keys) <==> k in multiset(chunks);
    }
    forall i, j | 0 <= i < j < |keys| ensures keys[i] != keys[j] {
      CountTwice(keys, i, j);
      CountOnce(chunks, keys[i]);
    }
  }

  lemma CountTwice(keys: seq<int>, i: nat, j: nat)
    requires i < j < |keys|
    ensures keys[i] == keys[j] ==> multiset(keys)[keys[i]] >= 2
  {
    assert keys == keys[..i] + [keys[i]] + keys[i + 1..j] + [keys[j]] + keys[j + 1..];
  }

  lemma {:induction false} CountOnce(keys: seq<int>, k: int)
    requires NoRepeats(keys)
    ensures multiset(keys)[k] <= 1
  {
    if keys != [] {
      var rest := keys[1..];
      CountOnce(rest, k);
      assert keys == [keys[0]] + rest;
      if keys[0] == k {
        assert k !in rest;
      }
    }
  }

  lemma {:induction false} AcksOne(s: Shape, e: ChurnEvent, key: int, n: nat)
    requires s.Valid() && Assembled(s, e) && n <= |e.tiles|
    ensures Acks(s, e, key, n) == if key in e.chunks[..n] then 1 else 0
  {
    hide Shape.ChunkKey, Shape.Contains;
    if n > 0 {
      AcksOne(s, e, key, n - 1);
      assert e.chunks[..n] == e.chunks[..n - 1] + [e.chunks[n - 1]];
      assert e.chunks[n - 1] !in e.chunks[..n - 1];
    }
  }

  lemma {:induction false} EachKeyAcksOnce(s: Shape, e: ChurnEvent, keys: seq<int>)
    requires s.Valid() && Assembled(s, e) && forall k :: k in keys ==> k in e.chunks
    ensures AllAcks(s, e, keys) == |keys|
  {
    hide Shape.ChunkKey, Shape.Contains, Acks;
    if keys != [] {
      EachKeyAcksOnce(s, e, keys[..|keys|-1]);
      AcksOne(s, e, keys[|keys|-1], |e.tiles|);
      assert e.chunks[..|e.tiles|] == e.chunks;
    }
  }

  // ------------------------------------------------------------------------------------------------
  // The event pool over a run

  predicate InPool(events: seq<ChurnEvent>, c: Coord) {
    exists i :: 0 <= i < |events| && c in events[i].tiles
  }

  /** A pool of assembled events no two of which share a tile. */
  predicate Pool(s: Shape, events: seq<ChurnEvent>)
    requires s.Valid()
  {
    && (forall i :: 0 <= i < |events| ==> Assembled(s, events[i]))
    && (forall i, j, c :: 0 <= i < j < |events| && c in events[i].tiles ==> c !in events[j].tiles)
  }

  /** Event tiles are open in the pristine terrain, at the cost the event remembers. */
  predicate Recorded(s: Shape, base: Terrain, events: seq<ChurnEvent>)
    requires s.Valid() && Paged(s, base) && Pool(s, events)
  {
    forall i :: 0 <= i < |events| ==> Remembered(s, base, events[i])
  }

  predicate Remembered(s: Shape, base: Terrain, e: ChurnEvent)
    requires s.Valid() && Paged(s, base) && OnMap(s, e)
  {
    forall p :: 0 <= p < |e.tiles| ==> Read(s, base, e.tiles[p]) == Cell(1, e.originalCost[p])
  }

  /** What a tile reads after its event was applied `times` times. */
  function AfterTimes(pristine: Cell, times: nat): Cell {
    if times % 2 == 1 then Cell(0, 0) else pristine
  }

  /** A tile is blocked exactly if its event was applied an odd number of times; all else is pristine. */
  ghost predicate Parity(s: Shape, w: Terrain, base: Terrain, events: seq<ChurnEvent>, applied: seq<nat>)
    requires s.Valid() && Paged(s, w) && Paged(s, base) && Pool(s, events) && |applied| == |events|
  {
    && (forall i, c :: 0 <= i < |events| && s.Contains(c) && c in events[i].tiles ==>
          Read(s, w, c) == AfterTimes(Read(s, base, c), applied[i]))
    && (forall c :: s.Contains(c) && !InPool(events, c) ==> Read(s, w, c) == Read(s, base, c))
  }

  lemma ApplyKeepsParity(s: Shape, w: Terrain, base: Terrain, events: seq<ChurnEvent>, applied: seq<nat>, k: nat)
    requires s.Valid() && Paged(s, w) && Paged(s, base) && Pool(s, events) && |applied| == |events| && k < |events|
    requires Recorded(s, base, events) && Parity(s, w, base, events, applied)
    ensures Parity(s, Apply(s, w, events[k], |events[k].tiles|), base, events, applied[k := applied[k] + 1])
  {
    hide Read, Shape.ChunkKey, Paged, Shape.Contains, Apply, OnMap;
    var e := events[k];
    Sized(s, e);
    var after, counts := Apply(s, w, e, |e.tiles|), applied[k := applied[k] + 1];
    forall c | s.Contains(c)
      ensures forall i :: 0 <= i < |events| && c in events[i].tiles ==> Read(s, after, c) == AfterTimes(Read(s, base, c), counts[i])
      ensures !InPool(events, c) ==> Read(s, after, c) == Read(s, base, c)
    {
      ApplyReads(s, w, e, |e.tiles|, c);
      forall i | 0 <= i < |events| && c in events[i].tiles ensures Read(s, after, c) == AfterTimes(Read(s, base, c), counts[i]) {
        if i == k {
          var p :| 0 <= p < |e.tiles| && e.tiles[p] == c;
          assert Remembered(s, base, e);
          ToggleParity(Read(s, base, c), e.originalCost[p], applied[k]);
        }
      }
    }
  }

  lemma ToggleParity(pristine: Cell, original: nat, times: nat)
    requires pristine == Cell(1, original)
    ensures Toggled(AfterTimes(pristine, times), original) == AfterTimes(pristine, times + 1)
  {
  }

  lemma PristineParity(s: Shape, base: Terrain, events: seq<ChurnEvent>, applied: seq<nat>)
    requires s.Valid() && Paged(s, base) && Pool(s, events) && |applied| == |events| && forall i :: 0 <= i < |applied| ==> applied[i] == 0
    ensures Parity(s, base, base, events, applied)
  {
    hide Read;
  }

  class ColonyTerrain {
    const shape: Shape
    const events: seq<ChurnEvent>
    var world: Terrain
    var nextEvent: nat
    /** The terrain as built. */
    ghost const base: Terrain
    /** How often each event was applied since the terrain was pristine. */
    ghost var applied: seq<nat>

    ghost predicate Ready()
    {
      shape.Valid() && Pool(shape, events) && Paged(shape, base) && Recorded(shape, base, events) && events != []
    }

    ghost predicate Valid()
      reads this
    {
      && Ready() && nextEvent < |events| && |applied| == |events|
      && Paged(shape, world) && Parity(shape, world, base, events, applied)
    }

    constructor (shape: Shape, world: Terrain, events: seq<ChurnEvent>)
      requires shape.Valid() && Pool(shape, events) && Paged(shape, world) && Recorded(shape, world, events) && events != []
      ensures Valid() && this.shape == shape && this.world == world && this.events == events && base == world && nextEvent == 0
      ensures forall i :: 0 <= i < |applied| ==> applied[i] == 0
    {
      hide Pool, Recorded, Parity, Paged;
      this.shape, this.world, this.events, this.base := shape, world, events, world;
      nextEvent := 0;
      var zeros := seq(|events|, i => 0);
      applied := zeros;
      PristineParity(shape, world, events, zeros);
    }

    /** Hands out the events in a cycle. */
    method TakeEvent() returns (k: nat)
      requires Valid()
      modifies `nextEvent
      ensures Valid() && k == old(nextEvent) && nextEvent == (k + 1) % |events|
    {
      hide Pool, Recorded, Parity, Paged;
      k := nextEvent;
      nextEvent := (nextEvent + 1) % |events|;
    }

    method ApplyEvent(k: nat)
      requires Valid() && k < |events|
      modifies `world, `applied
      ensures Valid() && world == Apply(shape, old(world), events[k], |events[k].tiles|)
      ensures applied == old(applied)[k := old(applied)[k] + 1]
    {
      hide Recorded, Parity, Paged, Shape.Contains, Shape.ChunkKey, Read, Write;
      ghost var before := world;
      ApplyKeepsParity(shape, world, base, events, applied, k);
      var event := events[k];
      for i := 0 to |event.tiles|
        invariant Paged(shape, world) && world == Apply(shape, before, event, i) && applied == old(applied)
      {
        var cell := Read(shape, world, event.tiles[i]);
        if cell.passable != 0 {
          world := Write(shape, world, event.tiles[i], Cell(0, 0));
        } else {
          world := Write(shape, world, event.tiles[i], Cell(1, event.originalCost[i]));
        }
      }
      applied := applied[k := applied[k] + 1];
    }

    /** One queued operation: it may only touch its own chunk's page, and toggles the event's tiles there. */
    method BuildChunk(event: ChurnEvent, key: nat) returns (acks: nat)
      requires shape.Valid() && Paged(shape, world) && OnMap(shape, event) && key < |world|
      modifies `world
      ensures Paged(shape, world) && world == Build(shape, old(world), event, key, |event.tiles|)
      ensures acks == Acks(shape, event, key, |event.tiles|)
      ensures forall other :: 0 <= other < |world| && other != key ==> world[other] == old(world)[other]
    {
      hide Shape.ChunkKey, Shape.LocalId, Shape.Contains, Shape.ChunkCount, Shape.LocalCount, Build, Acks;
      acks := 0;
      NothingBuilt(shape, world, event, key);
      for i := 0 to |event.tiles|
        invariant Paged(shape, world) && |world| == |old(world)| && world == Build(shape, old(world), event, key, i)
        invariant acks == Acks(shape, event, key, i)
        invariant forall other :: 0 <= other < |world| && other != key ==> world[other] == old(world)[other]
      {
        BuildNext(shape, old(world), event, key, i);
        var coord := event.tiles[i];
        if shape.ChunkKey(coord) != key {
          continue;
        }
        Address(shape, coord);
        var local := shape.LocalId(coord);
        var page := world[key];
        if page[local].passable != 0 {
          page := page[local := Cell(0, 0)];
        } else {
          page := page[local := Cell(1, event.originalCost[i])];
        }
        world := world[key := page];
        acks := acks + 1;
      }
    }

    /** The queued update of one event, its operations executed in whatever order the executor picks. */
    method RunEvent(k: nat, order: seq<nat>) returns (acks: nat)
      requires Valid() && k < |events| && multiset(order) == multiset(events[k].chunks)
      modifies `world, `applied
      ensures Valid() && world == Apply(shape, old(world), events[k], |events[k].tiles|)
      ensures applied == old(applied)[k := old(applied)[k] + 1]
      ensures acks == |events[k].tiles|
    {
      hide Recorded, Parity, Paged, Shape.Contains, Shape.ChunkKey, Pool, Assembled, OnMap, Apply, RunAll, AllAcks, Acks, Build;
      ghost var before := world;
      var event := events[k];
      PoolHas(shape, events, k);
      QueuedIsDirect(shape, world, event, order);
      ApplyKeepsParity(shape, world, base, events, applied, k);
      KeysOnMap(shape, world, event, order);
      RunNothing(shape, before, event, order);
      acks := 0;
      for i := 0 to |order|
        invariant Paged(shape, world) && |world| == |before| && world == RunAll(shape, before, event, order[..i])
        invariant acks == AllAcks(shape, event, order[..i]) && applied == old(applied)
      {
        RunNext(shape, before, event, order, i);
        var done := BuildChunk(event, order[i]);
        SameSize(shape, before, world);
        acks := acks + done;
      }
      assert order[..|order|] == order;
      applied := applied[k := applied[k] + 1];
    }

    /** Puts every event tile back as it was, from wherever a repetition left it. */
    method RestorePristine()
      requires Valid()
      modifies `world, `applied, `nextEvent
      ensures Valid() && world == base && nextEvent == 0
      ensures forall i :: 0 <= i < |applied| ==> applied[i] == 0
    {
      hide Parity, Read, Write, Shape.Contains, Shape.ChunkKey, Restored;
      NothingRestored(shape, world, base, events, applied);
      for i := 0 to |events|
        invariant Paged(shape, world) && Restored(shape, world, base, events, i, 0)
      {
        var event := events[i];
        for p := 0 to |event.tiles|
          invariant Paged(shape, world) && Restored(shape, world, base, events, i, p)
        {
          assert Remembered(shape, base, event);
          RestoreNext(shape, world, base, events, i, p);
          world := Write(shape, world, event.tiles[p], Cell(1, event.originalCost[p]));
        }
        RestoredEvent(shape, world, base, events, i);
      }
      AllRestored(shape, world, base, events);
      nextEvent := 0;
      applied := seq(|events|, i => 0);
      PristineParity(shape, base, events, applied);
    }
  }

  lemma PoolHas(s: Shape, events: seq<ChurnEvent>, k: nat)
    requires s.Valid() && Pool(s, events) && k < |events|
    ensures Assembled(s, events[k]) && OnMap(s, events[k])
  {
  }

  lemma NothingBuilt(s: Shape, w: Terrain, e: ChurnEvent, key: int)
    requires s.Valid() && Paged(s, w) && OnMap(s, e)
    ensures Build(s, w, e, key, 0) == w && Acks(s, e, key, 0) == 0
  {
  }

  lemma BuildNext(s: Shape, w: Terrain, e: ChurnEvent, key: int, i: nat)
    requires s.Valid() && Paged(s, w) && OnMap(s, e) && i < |e.tiles|
    ensures s.Contains(e.tiles[i])
    ensures var before := Build(s, w, e, key, i);
            Build(s, w, e, key, i + 1) ==
            if s.ChunkKey(e.tiles[i]) == key then ToggleAt(s, before, e.tiles[i], e.originalCost[i]) else before
    ensures Acks(s, e, key, i + 1) == Acks(s, e, key, i) + if s.ChunkKey(e.tiles[i]) == key then 1 else 0
  {
    hide Shape.ChunkKey, ToggleAt;
  }

  lemma KeysOnMap(s: Shape, w: Terrain, e: ChurnEvent, keys: seq<nat>)
    requires s.Valid() && Paged(s, w) && OnMap(s, e) && multiset(keys) == multiset(e.chunks)
    ensures forall i :: 0 <= i < |keys| ==> keys[i] < |w|
  {
    hide Shape.ChunkKey;
    forall i | 0 <= i < |keys| ensures keys[i] < |w| {
      assert keys[i] in multiset(keys) && keys[i] in multiset(e.chunks);
      var p :| 0 <= p < |e.chunks| && e.chunks[p] == keys[i];
      Address(s, e.tiles[p]);
    }
  }

  lemma RunNothing(s: Shape, w: Terrain, e: ChurnEvent, keys: seq<int>)
    requires s.Valid() && Paged(s, w) && OnMap(s, e)
    ensures RunAll(s, w, e, keys[..0]) == w && AllAcks(s, e, keys[..0]) == 0
  {
  }

  lemma RunNext(s: Shape, w: Terrain, e: ChurnEvent, keys: seq<int>, i: nat)
    requires s.Valid() && Paged(s, w) && OnMap(s, e) && i < |keys|
    ensures RunAll(s, w, e, keys[..i + 1]) == Build(s, RunAll(s, w, e, keys[..i]), e, keys[i], |e.tiles|)
    ensures AllAcks(s, e, keys[..i + 1]) == AllAcks(s, e, keys[..i]) + Acks(s, e, keys[i], |e.tiles|)
  {
    hide Build, Acks, Paged, OnMap;
    assert keys[..i + 1][..i] == keys[..i];
  }

  lemma SameSize(s: Shape, a: Terrain, b: Terrain)
    requires s.Valid() && Paged(s, a) && Paged(s, b)
    ensures |a| == |b|
  {
  }

  /** All tiles of the events before `i`, and those before `p` of event `i`, read as in `base`; so does all else. */
  ghost predicate Restored(s: Shape, w: Terrain, base: Terrain, events: seq<ChurnEvent>, i: nat, p: nat)
    requires s.Valid() && Paged(s, w) && Paged(s, base) && Pool(s, events)
  {
    forall c :: s.Contains(c) && Read(s, w, c) != Read(s, base, c) ==>
                  exists j, q :: i <= j < |events| && 0 <= q < |events[j].tiles| && (j == i ==> p <= q) && events[j].tiles[q] == c
  }

  lemma NothingRestored(s: Shape, w: Terrain, base: Terrain, events: seq<ChurnEvent>, applied: seq<nat>)
    requires s.Valid() && Paged(s, w) && Paged(s, base) && Pool(s, events) && |applied| == |events| && Parity(s, w, base, events, applied)
    ensures Restored(s, w, base, events, 0, 0)
  {
    hide Read, Pool;
    forall c | s.Contains(c) && Read(s, w, c) != Read(s, base, c)
      ensures exists j, q :: 0 <= j < |events| && 0 <= q < |events[j].tiles| && (j == 0 ==> 0 <= q) && events[j].tiles[q] == c
    {
      assert InPool(events, c);
      var j :| 0 <= j < |events| && c in events[j].tiles;
      var q :| 0 <= q < |events[j].tiles| && events[j].tiles[q] == c;
    }
  }

  lemma RestoreNext(s: Shape, w: Terrain, base: Terrain, events: seq<ChurnEvent>, i: nat, p: nat)
    requires s.Valid() && Paged(s, w) && Paged(s, base) && Pool(s, events) && i < |events| && p < |events[i].tiles|
    requires Restored(s, w, base, events, i, p) && Remembered(s, base, events[i])
    ensures s.Contains(events[i].tiles[p])
    ensures Restored(s, Write(s, w, events[i].tiles[p], Cell(1, events[i].originalCost[p])), base, events, i, p + 1)
  {
    hide Read, Write, Shape.ChunkKey;
    var t := events[i].tiles[p];
    var after := Write(s, w, t, Cell(1, events[i].originalCost[p]));
    forall c | s.Contains(c) && Read(s, after, c) != Read(s, base, c)
      ensures exists j, q :: i <= j < |events| && 0 <= q < |events[j].tiles| && (j == i ==> p + 1 <= q) && events[j].tiles[q] == c
    {
      ReadWrite(s, w, t, Cell(1, events[i].originalCost[p]), c);
      var j, q :| i <= j < |events| && 0 <= q < |events[j].tiles| && (j == i ==> p <= q) && events[j].tiles[q] == c;
    }
  }

  lemma RestoredEvent(s: Shape, w: Terrain, base: Terrain, events: seq<ChurnEvent>, i: nat)
    requires s.Valid() && Paged(s, w) && Paged(s, base) && Pool(s, events) && i < |events|
    requires Restored(s, w, base, events, i, |events[i].tiles|)
    ensures Restored(s, w, base, events, i + 1, 0)
  {
    hide Read, Pool;
    forall c | s.Contains(c) && Read(s, w, c) != Read(s, base, c)
      ensures exists j, q :: i + 1 <= j < |events| && 0 <= q < |events[j].tiles| && (j == i + 1 ==> 0 <= q) && events[j].tiles[q] == c
    {
      var j, q :| i <= j < |events| && 0 <= q < |events[j].tiles| && (j == i ==> |events[i].tiles| <= q) && events[j].tiles[q] == c;
      assert i + 1 <= j;
    }
  }

  lemma AllRestored(s: Shape, w: Terrain, base: Terrain, events: seq<ChurnEvent>)
    requires s.Valid() && Paged(s, w) && Paged(s, base) && Pool(s, events) && Restored(s, w, base, events, |events|, 0)
    ensures w == base
  {
    hide Read, Pool, Paged;
    ReadsDecide(s, w, base);
  }

  // ------------------------------------------------------------------------------------------------
  // Assembling the pool

  const TILES_PER_EVENT := 4

  /** The centre tile of a logical cell. */
  function Centre(cell: nat, width: nat, scale: nat): Coord
    requires 0 < width
  {
    Coord(cell % width * scale + scale / 2, cell / width * scale + scale / 2, 0)
  }

  /** The event under construction: its tiles lie on the map, in chunks of their own, and are remembered. */
  predicate Growing(s: Shape, w: Terrain, e: ChurnEvent)
    requires s.Valid() && Paged(s, w)
  {
    Assembled(s, e) && Remembered(s, w, e)
  }

  function Extended(s: Shape, w: Terrain, e: ChurnEvent, c: Coord): ChurnEvent
    requires s.Valid() && Paged(s, w) && s.Contains(c)
  {
    ChurnEvent(e.tiles + [c], e.chunks + [s.ChunkKey(c)], e.originalCost + [Read(s, w, c).cost])
  }

  lemma ExtendGrows(s: Shape, w: Terrain, e: ChurnEvent, c: Coord)
    requires s.Valid() && Paged(s, w) && Growing(s, w, e) && s.Contains(c)
    requires s.ChunkKey(c) !in e.chunks && Read(s, w, c).passable == 1
    ensures Growing(s, w, Extended(s, w, e, c))
  {
    hide Read, Shape.ChunkKey, Shape.Contains;
  }

  /** Every complete event is well formed, and no tile stands in two of them or in the one under construction. */
  predicate Drawn(s: Shape, w: Terrain, events: seq<ChurnEvent>, pending: ChurnEvent)
    requires s.Valid() && Paged(s, w)
  {
    && Pool(s, events) && Recorded(s, w, events) && Growing(s, w, pending)
    && (forall i :: 0 <= i < |events| ==> |events[i].tiles| == TILES_PER_EVENT)
    && (forall i, c :: 0 <= i < |events| && c in events[i].tiles ==> c !in pending.tiles)
  }

  lemma DrawTile(s: Shape, w: Terrain, events: seq<ChurnEvent>, pending: ChurnEvent, c: Coord)
    requires s.Valid() && Paged(s, w) && Drawn(s, w, events, pending) && s.Contains(c) && !InPool(events, c)
    requires s.ChunkKey(c) !in pending.chunks && Read(s, w, c).passable == 1
    ensures Drawn(s, w, events, Extended(s, w, pending, c))
  {
    hide Read, Shape.ChunkKey, Shape.Contains, Pool, Recorded, Growing;
    ExtendGrows(s, w, pending, c);
  }

  lemma CompleteEvent(s: Shape, w: Terrain, events: seq<ChurnEvent>, pending: ChurnEvent)
    requires s.Valid() && Paged(s, w) && Drawn(s, w, events, pending) && |pending.tiles| == TILES_PER_EVENT
    ensures Drawn(s, w, events + [pending], ChurnEvent([], [], []))
  {
    hide Read, Shape.ChunkKey, Shape.Contains;
    var more := events + [pending];
    assert forall i :: 0 <= i < |events| ==> more[i] == events[i];
    assert Pool(s, more);
    forall i | 0 <= i < |more| ensures Remembered(s, w, more[i]) {
      if i < |events| {
        assert Remembered(s, w, events[i]);
      }
    }
  }

  lemma NothingDrawn(s: Shape, w: Terrain)
    requires s.Valid() && Paged(s, w)
    ensures Drawn(s, w, [], ChurnEvent([], [], []))
  {
  }

  /** A cell's tile lies `scale / 2` into the square of tiles that stands for the cell. */
  lemma CentreIs(cell: nat, width: nat, scale: nat)
    requires 0 < width && 0 < scale
    ensures var c := Centre(cell, width, scale);
            && c.x / scale == cell % width && c.x % scale == scale / 2
            && c.y / scale == cell / width && c.y % scale == scale / 2 && c.z == 0
  {
    Digits(scale / 2, cell % width, scale);
    Digits(scale / 2, cell / width, scale);
  }

  function Centres(draws: seq<nat>, width: nat, scale: nat): (r: seq<Coord>)
    requires 0 < width
    ensures |r| == |draws| && forall i :: 0 <= i < |draws| ==> r[i] == Centre(draws[i], width, scale)
  {
    seq(|draws|, i requires 0 <= i < |draws| => Centre(draws[i], width, scale))
  }

  /** The `k`-th pick is the tile of draw `i`, or lies in its chunk and in an event not complete before that draw. */
  ghost predicate Bars(s: Shape, tiles: seq<Coord>, picked: seq<nat>, k: nat, i: nat)
    requires s.Valid() && i < |tiles| && k < |picked| && picked[k] < |tiles|
  {
    || tiles[picked[k]] == tiles[i]
    || (s.ChunkKey(tiles[picked[k]]) == s.ChunkKey(tiles[i]) && (k - k % 4 + 3 >= |picked| || i <= picked[k - k % 4 + 3]))
  }

  /** Draw `i` is passed over on account of an earlier pick. */
  ghost predicate PassedOver(s: Shape, tiles: seq<Coord>, picked: seq<nat>, i: nat)
    requires s.Valid() && i < |tiles|
  {
    exists k: nat :: k < |picked| && picked[k] < i && Bars(s, tiles, picked, k, i)
  }

  /** Of the draws before `n`, those not picked were passed over, and no others. */
  ghost predicate PickedFrom(s: Shape, tiles: seq<Coord>, picked: seq<nat>, n: nat)
    requires s.Valid() && n <= |tiles|
  {
    && (forall k :: 0 <= k < |picked| ==> picked[k] < n && !PassedOver(s, tiles, picked, picked[k]))
    && (forall k, l :: 0 <= k < l < |picked| ==> picked[k] < picked[l])
    && forall i :: 0 <= i < n ==> i in picked || PassedOver(s, tiles, picked, i)
  }

  lemma PickNext(s: Shape, tiles: seq<Coord>, picked: seq<nat>, n: nat)
    requires s.Valid() && n < |tiles| && PickedFrom(s, tiles, picked, n)
    ensures PickedFrom(s, tiles, if PassedOver(s, tiles, picked, n) then picked else picked + [n], n + 1)
  {
    hide PassedOver;
    var more := picked + [n];
    forall i | 0 <= i <= n ensures PassedOver(s, tiles, more, i) <==> PassedOver(s, tiles, picked, i) {
      PassedOverStays(s, tiles, picked, n, i);
    }
    assert n in more && forall i :: i in picked ==> i in more;
  }

  lemma PassedOverStays(s: Shape, tiles: seq<Coord>, picked: seq<nat>, n: nat, i: nat)
    requires s.Valid() && i <= n < |tiles| && forall k :: 0 <= k < |picked| ==> picked[k] < n
    ensures PassedOver(s, tiles, picked + [n], i) <==> PassedOver(s, tiles, picked, i)
  {
    hide Bars;
    forall k: nat | k < |picked| && picked[k] < i
      ensures (picked + [n])[k] == picked[k] && (Bars(s, tiles, picked + [n], k, i) <==> Bars(s, tiles, picked, k, i))
    {
      BarsStays(s, tiles, picked, n, k, i);
    }
    if k: nat :| k < |picked| && picked[k] < i && Bars(s, tiles, picked, k, i) {
      assert Bars(s, tiles, picked + [n], k, i);
    }
  }

  lemma BarsStays(s: Shape, tiles: seq<Coord>, picked: seq<nat>, n: nat, k: nat, i: nat)
    requires s.Valid() && i <= n < |tiles| && k < |picked| && picked[k] < |tiles|
    ensures (picked + [n])[k] == picked[k] && (Bars(s, tiles, picked + [n], k, i) <==> Bars(s, tiles, picked, k, i))
  {
    hide Shape.ChunkKey;
    var last := k - k % 4 + 3;
    assert last < |picked| ==> (picked + [n])[last] == picked[last];
  }

  /** The tiles picked so far, in order, fill the complete events four at a time and then the one under construction. */
  ghost predicate Dealt(tiles: seq<Coord>, picked: seq<nat>, events: seq<ChurnEvent>, pending: seq<Coord>) {
    && |picked| == 4 * |events| + |pending|
    && (forall k :: 0 <= k < |picked| ==> picked[k] < |tiles|)
    && (forall j :: 0 <= j < |events| ==> |events[j].tiles| == 4)
    && (forall j, q :: 0 <= j < |events| && 0 <= q < 4 ==> events[j].tiles[q] == tiles[picked[4 * j + q]])
    && forall q :: 0 <= q < |pending| ==> pending[q] == tiles[picked[4 * |events| + q]]
  }

  function Along(tiles: seq<Coord>, picked: seq<nat>): (r: seq<Coord>)
    requires forall k :: 0 <= k < |picked| ==> picked[k] < |tiles|
    ensures |r| == |picked| && forall k :: 0 <= k < |r| ==> r[k] == tiles[picked[k]]
  {
    seq(|picked|, k requires 0 <= k < |picked| => tiles[picked[k]])
  }

  lemma AlongNext(tiles: seq<Coord>, picked: seq<nat>, n: nat)
    requires n < |tiles| && forall k :: 0 <= k < |picked| ==> picked[k] < |tiles|
    ensures Along(tiles, picked + [n]) == Along(tiles, picked) + [tiles[n]]
  {
  }

  lemma DealTile(tiles: seq<Coord>, picked: seq<nat>, events: seq<ChurnEvent>, pending: seq<Coord>, n: nat)
    requires Dealt(tiles, picked, events, pending) && n < |tiles|
    ensures Dealt(tiles, picked + [n], events, pending + [tiles[n]])
  {
    var more := picked + [n];
    assert forall k :: 0 <= k < |picked| ==> more[k] == picked[k];
    forall j, q | 0 <= j < |events| && 0 <= q < 4 ensures events[j].tiles[q] == tiles[more[4 * j + q]] {
      assert 4 * j + q < |picked| && more[4 * j + q] == picked[4 * j + q];
    }
  }

  lemma DealEvent(tiles: seq<Coord>, picked: seq<nat>, events: seq<ChurnEvent>, pending: ChurnEvent)
    requires Dealt(tiles, picked, events, pending.tiles) && |pending.tiles| == 4
    ensures Dealt(tiles, picked, events + [pending], [])
  {
    var more := events + [pending];
    forall j, q | 0 <= j < |more| && 0 <= q < 4 ensures more[j].tiles[q] == tiles[picked[4 * j + q]] {
      assert j < |events| ==> more[j] == events[j];
    }
  }

  /** What the loop looks at: whether the tile was picked, and whether the event under construction has its chunk. */
  lemma PassedOverIs(s: Shape, tiles: seq<Coord>, picked: seq<nat>, events: seq<ChurnEvent>, pending: ChurnEvent, n: nat)
    requires s.Valid() && n < |tiles| && Dealt(tiles, picked, events, pending.tiles) && |pending.tiles| < 4 && OnMap(s, pending)
    requires forall k :: 0 <= k < |picked| ==> picked[k] < n
    ensures PassedOver(s, tiles, picked, n) <==> tiles[n] in Along(tiles, picked) || s.ChunkKey(tiles[n]) in pending.chunks
  {
    hide Shape.ChunkKey, Shape.Contains, Bars;
    var key := s.ChunkKey(tiles[n]);
    forall k: nat | k < |picked|
      ensures Bars(s, tiles, picked, k, n) <==>
              tiles[n] == Along(tiles, picked)[k] || (k >= 4 * |events| && pending.chunks[k - 4 * |events|] == key)
    {
      BarsIs(s, tiles, picked, events, pending, n, k);
    }
    if q :| 0 <= q < |pending.chunks| && pending.chunks[q] == key {
      assert Bars(s, tiles, picked, 4 * |events| + q, n);
    }
    if k :| 0 <= k < |picked| && Along(tiles, picked)[k] == tiles[n] {
      assert Bars(s, tiles, picked, k, n);
    }
  }

  lemma BarsIs(s: Shape, tiles: seq<Coord>, picked: seq<nat>, events: seq<ChurnEvent>, pending: ChurnEvent, n: nat, k: nat)
    requires s.Valid() && n < |tiles| && Dealt(tiles, picked, events, pending.tiles) && |pending.tiles| < 4 && OnMap(s, pending)
    requires k < |picked| && forall l :: 0 <= l < |picked| ==> picked[l] < n
    ensures Bars(s, tiles, picked, k, n) <==>
            tiles[n] == Along(tiles, picked)[k] || (k >= 4 * |events| && pending.chunks[k - 4 * |events|] == s.ChunkKey(tiles[n]))
  {
    hide Shape.ChunkKey, Shape.Contains;
    if k < 4 * |events| {
      assert k - k % 4 + 3 < 4 * |events|;
    } else {
      var q := k - 4 * |events|;
      assert k - k % 4 == 4 * |events| && pending.tiles[q] == tiles[picked[4 * |events| + q]];
    }
  }

  /** On a single level, tiles of one spot are the same. */
  lemma SpotIsTile(tiles: seq<Coord>, c: Coord)
    requires c.z == 0 && forall k :: 0 <= k < |tiles| ==> tiles[k].z == 0
    ensures (exists t :: t in tiles && SameSpot(t, c)) <==> c in tiles
  {
    if c in tiles {
      assert SameSpot(c, c);
    }
  }

  lemma NothingPicked(s: Shape, tiles: seq<Coord>)
    requires s.Valid()
    ensures PickedFrom(s, tiles, [], 0) && Dealt(tiles, [], [], []) && Along(tiles, []) == []
  {
  }

  /** Every tile of the pool, and of the event under construction, is one of those picked. */
  lemma DealtIs(tiles: seq<Coord>, picked: seq<nat>, events: seq<ChurnEvent>, pending: ChurnEvent, c: Coord)
    requires Dealt(tiles, picked, events, pending.tiles)
    ensures InPool(events, c) || c in pending.tiles ==> c in Along(tiles, picked)
  {
    if InPool(events, c) {
      var j :| 0 <= j < |events| && c in events[j].tiles;
      var q :| 0 <= q < 4 && events[j].tiles[q] == c;
      assert Along(tiles, picked)[4 * j + q] == c;
    } else if c in pending.tiles {
      var q :| 0 <= q < |pending.tiles| && pending.tiles[q] == c;
      assert Along(tiles, picked)[4 * |events| + q] == c;
    }
  }

  /**
   Draws logical cells and groups their centre tiles into events of four tiles in four chunks. A tile is
   drawn at most once overall; a tile in a chunk the event under construction already has is passed over,
   and so is nothing else. `picked` tells which draws the tiles are, those left over at the end included.
   */
  method AssembleEvents(s: Shape, w: Terrain, draws: seq<nat>, width: nat, scale: nat, eventCount: nat)
    returns (events: seq<ChurnEvent>, ghost picked: seq<nat>)
    requires s.Valid() && Paged(s, w) && 0 < width
    requires forall i :: 0 <= i < |draws| ==> s.Contains(Centre(draws[i], width, scale)) && Read(s, w, Centre(draws[i], width, scale)).passable == 1
    ensures Pool(s, events) && Recorded(s, w, events) && |events| <= eventCount
    ensures exists left :: |left| < 4 && Dealt(Centres(draws, width, scale), picked, events, left)
    ensures exists n: nat :: && n <= |draws| && (n == |draws| || |events| == eventCount)
                             && PickedFrom(s, Centres(draws, width, scale), picked, n)
  {
    hide Read, Shape.ChunkKey, Paged, Drawn, Centre, Centres, PickedFrom, PassedOver, Dealt, Flagged, Along;
    events, picked := [], [];
    var pending := ChurnEvent([], [], []);
    var used := new bool[s.size.x * s.size.y](_ => false);
    ghost var tiles := Centres(draws, width, scale);
    TilesAre(s, w, draws, width, scale);
    NothingDrawn(s, w);
    NothingPicked(s, tiles);
    NothingFlagged(s, used[..]);
    var attempt := 0;
    while attempt < |draws| && |events| < eventCount
      invariant attempt <= |draws| && |events| <= eventCount && |pending.tiles| < TILES_PER_EVENT
      invariant Drawn(s, w, events, pending) && Dealt(tiles, picked, events, pending.tiles) && PickedFrom(s, tiles, picked, attempt)
      invariant forall k :: 0 <= k < |picked| ==> picked[k] < |tiles|
      invariant Flagged(s, used[..], Along(tiles, picked))
    {
      var coord := Centre(draws[attempt], width, scale);
      ChooseTile(s, w, events, pending, tiles, picked, used[..], attempt);
      var flat := LevelIndex(s, coord);
      attempt := attempt + 1;
      if used[flat] {
        continue;
      }
      var key := s.ChunkKey(coord);
      var duplicateChunk := false;
      for i := 0 to |pending.chunks|
        invariant duplicateChunk <==> key in pending.chunks[..i]
      {
        if pending.chunks[i] == key {
          duplicateChunk := true;
          assert key in pending.chunks[..i + 1];
          assert pending.chunks[..|pending.chunks|] == pending.chunks;
          assert key in pending.chunks;
          break;
        }
        assert pending.chunks[..i + 1] == pending.chunks[..i] + [pending.chunks[i]];
      }
      assert pending.chunks[..|pending.chunks|] == pending.chunks;
      if duplicateChunk {
        continue;
      }
      used[flat] := true;
      pending := Extended(s, w, pending, coord);
      picked := picked + [attempt - 1];
      if |pending.tiles| == TILES_PER_EVENT {
        CompleteEvent(s, w, events, pending);
        DealEvent(tiles, picked, events, pending);
        events := events + [pending];
        pending := ChurnEvent([], [], []);
      }
    }
    DrawnIs(s, w, events, pending);
  }

  lemma TilesAre(s: Shape, w: Terrain, draws: seq<nat>, width: nat, scale: nat)
    requires s.Valid() && Paged(s, w) && 0 < width
    requires forall i :: 0 <= i < |draws| ==> s.Contains(Centre(draws[i], width, scale)) && Read(s, w, Centre(draws[i], width, scale)).passable == 1
    ensures OpenTiles(s, w, Centres(draws, width, scale)) && |Centres(draws, width, scale)| == |draws|
    ensures forall i :: 0 <= i < |draws| ==> Centres(draws, width, scale)[i] == Centre(draws[i], width, scale)
  {
    hide Read, Paged;
  }

  predicate OpenTiles(s: Shape, w: Terrain, tiles: seq<Coord>)
    requires s.Valid() && Paged(s, w)
  {
    forall i :: 0 <= i < |tiles| ==> s.Contains(tiles[i]) && tiles[i].z == 0 && Read(s, w, tiles[i]).passable == 1
  }

  /** One draw: what the table and the pending chunks say of it, and what follows from picking it. */
  lemma ChooseTile(s: Shape, w: Terrain, events: seq<ChurnEvent>, pending: ChurnEvent, tiles: seq<Coord>, picked: seq<nat>, used: seq<bool>, n: nat)
    requires s.Valid() && Paged(s, w) && n < |tiles| && OpenTiles(s, w, tiles) && Drawn(s, w, events, pending) && |pending.tiles| < 4
    requires Dealt(tiles, picked, events, pending.tiles) && PickedFrom(s, tiles, picked, n)
    requires (forall k :: 0 <= k < |picked| ==> picked[k] < |tiles|) && Flagged(s, used, Along(tiles, picked))
    ensures s.Contains(tiles[n]) && LevelIndex(s, tiles[n]) < |used|
    ensures used[LevelIndex(s, tiles[n])] || s.ChunkKey(tiles[n]) in pending.chunks ==> PickedFrom(s, tiles, picked, n + 1)
    ensures !used[LevelIndex(s, tiles[n])] && s.ChunkKey(tiles[n]) !in pending.chunks ==>
              && PickedFrom(s, tiles, picked + [n], n + 1) && Drawn(s, w, events, Extended(s, w, pending, tiles[n]))
              && Dealt(tiles, picked + [n], events, Extended(s, w, pending, tiles[n]).tiles)
              && Flagged(s, used[LevelIndex(s, tiles[n]) := true], Along(tiles, picked + [n]))
  {
    hide Read, Shape.ChunkKey, Shape.Contains, Paged, PassedOver, Dealt, Flagged, Along, LevelIndex, SameSpot, Drawn;
    var c := tiles[n];
    FlagNext(s, used, Along(tiles, picked), c);
    SpotIsTile(Along(tiles, picked), c);
    DrawnIs(s, w, events, pending);
    PassedOverIs(s, tiles, picked, events, pending, n);
    hide PickedFrom, OnMap;
    PickNext(s, tiles, picked, n);
    if c !in Along(tiles, picked) && s.ChunkKey(c) !in pending.chunks {
      DealtIs(tiles, picked, events, pending, c);
      DrawTile(s, w, events, pending, c);
      DealTile(tiles, picked, events, pending.tiles, n);
      AlongNext(tiles, picked, n);
    }
  }

  lemma DrawnIs(s: Shape, w: Terrain, events: seq<ChurnEvent>, pending: ChurnEvent)
    requires s.Valid() && Paged(s, w) && Drawn(s, w, events, pending)
    ensures Pool(s, events) && Recorded(s, w, events) && OnMap(s, pending)
  {
  }
}
