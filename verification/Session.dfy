/** World, collector and lossy consumer together: what holds after any interleaving of their steps. */
module DeltaSession {
  import opened Arithmetic
  import opened Tiles
  import opened Delta
  import opened Options

  /** Everything the protocol's promise depends on. */
  datatype View = View(glyph: Pages<nat>, meta: seq<ChunkMeta>, pending: Pending, version: nat, needsBaseline: bool,
                       live: Option<Frame>, shadow: Pages<nat>, seen: nat)

  ghost predicate Shaped(s: Shape, v: View) {
    && s.Flat() && Paged(s, v.glyph) && Paged(s, v.shadow) && |v.meta| == s.ChunkCount()
    && Sound(s, v.pending.chunks, v.pending.tiles)
    && (v.live.Some? ==> Sound(s, v.live.value.chunks, v.live.value.tiles))
  }

  ghost predicate Fresh(s: Shape, v: View, c: Coord)
    requires Shaped(s, v) && s.Contains(c)
  {
    Read(s, v.shadow, c) == Shown(Read(s, v.glyph, c))
  }

  ghost predicate Dirty(s: Shape, v: View, c: Coord)
    requires Shaped(s, v) && s.Contains(c)
  {
    0 <= s.ChunkKey(c) < |v.meta| && v.meta[s.ChunkKey(c)].dirty && Covers(v.meta[s.ChunkKey(c)].bounds, c)
  }

  /** Either the shadow is right about the tile, or the collector still knows that it is not. */
  ghost predicate Accounted(s: Shape, v: View, c: Coord)
    requires Shaped(s, v) && s.Contains(c)
  {
    Fresh(s, v, c) || Dirty(s, v, c) || Repaints(v.pending.chunks, v.pending.tiles, c)
  }

  /** Records have been dropped: the next frame will say so. */
  predicate Lossy(v: View) {
    v.needsBaseline || v.pending.truncated
  }

  predicate Chained(v: View) {
    && v.seen <= v.version && 1 <= v.version
    && (v.live.Some? ==>
          var f := v.live.value;
          f.to == v.version && f.from <= f.to && (f.from == f.to ==> f.chunks == [] && !f.baseline && !f.truncated))
  }

  ghost predicate CurrentIsAccounted(s: Shape, v: View)
    requires Shaped(s, v)
  {
    v.seen == v.version ==> Lossy(v) || forall c :: s.Contains(c) ==> Accounted(s, v, c)
  }

  /** The live frame is the one the consumer needs next. */
  predicate Due(v: View) {
    v.live.Some? && !v.live.value.truncated && !v.live.value.baseline && v.live.value.from < v.live.value.to && v.seen == v.live.value.from
  }

  ghost predicate DueIsAccounted(s: Shape, v: View)
    requires Shaped(s, v)
  {
    Due(v) ==> Lossy(v) || forall c :: s.Contains(c) ==> Accounted(s, v, c) || Repaints(v.live.value.chunks, v.live.value.tiles, c)
  }

  ghost predicate BaselinesAreWhole(s: Shape, v: View)
    requires Shaped(s, v)
  {
    && (v.pending.baseline && !v.pending.truncated ==> forall c :: s.Contains(c) ==> Repaints(v.pending.chunks, v.pending.tiles, c))
    && (v.live.Some? && v.live.value.baseline && !v.live.value.truncated ==>
          forall c :: s.Contains(c) ==> Repaints(v.live.value.chunks, v.live.value.tiles, c))
  }

  /** The invariant of the protocol. */
  ghost predicate Holds(s: Shape, v: View) {
    Shaped(s, v) && Chained(v) && CurrentIsAccounted(s, v) && DueIsAccounted(s, v) && BaselinesAreWhole(s, v)
  }

  /** The consumer missed a frame: nothing but a baseline can be applied. */
  predicate Behind(v: View) {
    v.seen < if v.live.Some? then v.live.value.from else v.version
  }

  /** Nothing is waiting to be collected, published or repaired. */
  ghost predicate Quiet(v: View) {
    (forall k :: 0 <= k < |v.meta| ==> !v.meta[k].dirty) && v.pending.chunks == [] && !Lossy(v)
  }

  /** A consumer at the collector's version, with nothing left to tell it, shows the world. */
  lemma CurrentShowsTheWorld(s: Shape, v: View)
    requires Holds(s, v) && v.seen == v.version && Quiet(v)
    ensures forall c :: s.Contains(c) ==> Read(s, v.shadow, c) == Shown(Read(s, v.glyph, c))
  {
    hide Read, Paged, Covers, Shape.ChunkKey, Sound, DueIsAccounted, BaselinesAreWhole;
    forall c | s.Contains(c) ensures Fresh(s, v, c) {
      assert Accounted(s, v, c);
    }
  }

  // ------------------------------------------------------------------------------------------------
  // Steps

  lemma PaintKeeps(s: Shape, v: View, c: Coord, g: nat)
    requires Holds(s, v) && s.Contains(c)
    ensures 0 <= s.ChunkKey(c) < |v.meta|
    ensures var key := s.ChunkKey(c);
            Holds(s, v.(glyph := Write(s, v.glyph, c, g), meta := v.meta[key := Marked(v.meta[key], Tile(c))]))
  {
    hide Read, Write, Paged, Sound, Repaints, Shape.ChunkKey, Shape.ChunkCount, Union;
    ChunkBoxHolds(s, c);
    var key := s.ChunkKey(c);
    var w := v.(glyph := Write(s, v.glyph, c, g), meta := v.meta[key := Marked(v.meta[key], Tile(c))]);
    assert Shaped(s, w);
    forall d | s.Contains(d) && Accounted(s, v, d) ensures Accounted(s, w, d) {
      ReadWrite(s, v.glyph, c, g, d);
    }
  }

  lemma SoundGrows(s: Shape, records: seq<Record>, tiles: seq<Coord>, more: seq<Coord>)
    requires Sound(s, records, tiles) && tiles <= more
    ensures Sound(s, records, more)
    ensures forall c :: Repaints(records, tiles, c) ==> Repaints(records, more, c)
  {
    hide Covered;
    forall r | r in records ensures SoundRecord(s, r, more) {
      assert SoundRecord(s, r, tiles);
      TilesExtend(r, tiles, more);
    }
    forall c | Repaints(records, tiles, c) ensures Repaints(records, more, c) {
      var r :| r in records && r.first + r.count <= |tiles| && Covered(r, tiles, c);
      TilesExtend(r, tiles, more);
    }
  }

  lemma OneLevel(s: Shape, key: nat)
    requires s.Flat() && key < s.ChunkCount()
    ensures ChunkBox(s, key).origin.z == 0 && ChunkBox(s, key).extent.z == 1
  {
    Counts(s);
    Decoding(key, s.Columns(), s.Rows(), s.size.z / s.chunk.z);
    Division(1, s.chunk.z);
    if s.chunk.z > 1 {
      Unique(1 / s.chunk.z, 1 % s.chunk.z, 0, 1, s.chunk.z);
    }
  }

  lemma ExactIsSound(s: Shape, meta: seq<ChunkMeta>, r: Record, tiles: seq<Coord>)
    requires s.Flat() && |meta| == s.ChunkCount() && RecordOf(s, meta, r) && Exact(r, tiles)
    ensures SoundRecord(s, r, tiles)
  {
    hide Covered, ChunkBox, Shape.ChunkCount, Shape.Contains;
    OneLevel(s, r.chunk);
    forall c | Covered(r, tiles, c) ensures s.Contains(c) {
      ChunkBoxInside(s, r.chunk, c);
    }
    ClipLevel(ChunkBox(s, r.chunk), meta[r.chunk].bounds);
  }

  lemma ClipLevel(chunk: Box, bounds: Box)
    requires chunk.origin.z == 0 && chunk.extent.z == 1
    ensures Clip(chunk, bounds).origin.z == 0 && Clip(chunk, bounds).extent.z == 1
  {
  }

  lemma CollectedIsSound(s: Shape, v: View, meta: seq<ChunkMeta>, p: Pending)
    requires Shaped(s, v) && Collected(s, v.meta, v.pending, meta, p, |v.meta|)
    ensures Sound(s, p.chunks, p.tiles)
    ensures forall c :: Repaints(v.pending.chunks, v.pending.tiles, c) ==> Repaints(p.chunks, p.tiles, c)
  {
    hide Covered, RecordOf, Exact, SoundRecord, Shape.ChunkCount, Paged;
    var p0 := v.pending;
    SoundGrows(s, p0.chunks, p0.tiles, p.tiles);
    var n := |p0.chunks|;
    assert p.chunks == p0.chunks + p.chunks[n..];
    forall r | r in p.chunks ensures SoundRecord(s, r, p.tiles) {
      if r in p.chunks[n..] {
        ExactIsSound(s, v.meta, r, p.tiles);
      }
    }
    forall c | Repaints(p0.chunks, p.tiles, c) ensures Repaints(p.chunks, p.tiles, c) {
      var r :| r in p0.chunks && r.first + r.count <= |p.tiles| && Covered(r, p.tiles, c);
      assert r in p.chunks;
    }
  }

  lemma CollectedCovers(s: Shape, v: View, meta: seq<ChunkMeta>, p: Pending, c: Coord)
    requires Shaped(s, v) && Collected(s, v.meta, v.pending, meta, p, |v.meta|) && s.Contains(c) && Dirty(s, v, c)
    ensures 0 <= s.ChunkKey(c) < |meta|
    ensures (meta[s.ChunkKey(c)] == v.meta[s.ChunkKey(c)] && p.truncated) || Repaints(p.chunks, p.tiles, c)
  {
    hide Shape.ChunkKey, Shape.ChunkCount, Paged, Covered, ChunkBox, Sound;
    var k, n := s.ChunkKey(c), |v.pending.chunks|;
    ChunkBoxHolds(s, c);
    assert Settled(v.meta, v.pending, meta, p, k);
    if !meta[k].dirty {
      var r :| r in p.chunks[n..] && r.chunk == k;
      assert RecordOf(s, v.meta, r) && Exact(r, p.tiles) && Covers(r.bounds, c);
      assert r in p.chunks;
    }
  }

  lemma CollectKeeps(s: Shape, v: View, meta: seq<ChunkMeta>, p: Pending)
    requires Holds(s, v) && Collected(s, v.meta, v.pending, meta, p, |v.meta|)
    ensures Holds(s, v.(meta := meta, pending := p))
    ensures !p.truncated ==> forall k :: 0 <= k < |meta| ==> !meta[k].dirty
  {
    hide Read, Paged, Sound, Repaints, Shape.ChunkKey, Shape.ChunkCount, RecordOf, Exact, Covers;
    CollectedIsSound(s, v, meta, p);
    var w := v.(meta := meta, pending := p);
    forall c | s.Contains(c) && Accounted(s, v, c) && !Lossy(w) ensures Accounted(s, w, c) {
      if Dirty(s, v, c) {
        CollectedCovers(s, v, meta, p, c);
      }
    }
    forall k | 0 <= k < |meta| && !p.truncated ensures !meta[k].dirty {
      assert Settled(v.meta, v.pending, meta, p, k);
    }
  }

  lemma BaselineCovers(s: Shape)
    requires s.Flat()
    ensures var whole := WholeChunks(s, s.ChunkCount());
            (forall c :: s.Contains(c) ==> Repaints(whole, [], c))
    ensures forall n: nat :: n <= s.ChunkCount() ==> Sound(s, WholeChunks(s, n), [])
  {
    hide Shape.ChunkKey, ChunkBox, Shape.Contains, Shape.ChunkCount;
    var whole := WholeChunks(s, s.ChunkCount());
    forall c | s.Contains(c) ensures Repaints(whole, [], c) {
      ChunkBoxHolds(s, c);
      var r := whole[s.ChunkKey(c)];
      assert r in whole && Covered(r, [], c);
    }
    forall n: nat | n <= s.ChunkCount() ensures Sound(s, WholeChunks(s, n), []) {
      forall r | r in WholeChunks(s, n) ensures SoundRecord(s, r, []) {
        var k :| 0 <= k < n && WholeChunks(s, n)[k] == r;
        OneLevel(s, k);
        forall c | Covered(r, [], c) ensures s.Contains(c) {
          ChunkBoxInside(s, k, c);
        }
      }
    }
  }

  lemma BaselineKeeps(s: Shape, v: View, meta: seq<ChunkMeta>, capacity: nat)
    requires Holds(s, v) && |meta| == |v.meta| && forall k :: 0 <= k < |meta| ==> !meta[k].dirty
    ensures var p := v.pending.(chunks := WholeChunks(s, CapOf(|meta|, capacity)), tiles := [], truncated := capacity < |meta|, baseline := true);
            Holds(s, v.(meta := meta, pending := p))
  {
    hide Read, Paged, Sound, Repaints, Shape.ChunkKey, WholeChunks, Covers;
    BaselineCovers(s);
    var p := v.pending.(chunks := WholeChunks(s, CapOf(|meta|, capacity)), tiles := [], truncated := capacity < |meta|, baseline := true);
    var w := v.(meta := meta, pending := p);
    assert Sound(s, p.chunks, p.tiles);
    forall c | s.Contains(c) && !p.truncated ensures Accounted(s, w, c) {
      assert Repaints(p.chunks, p.tiles, c);
    }
  }

  lemma PublishKeeps(s: Shape, v: View)
    requires Holds(s, v)
    ensures var f := FrameOf(v.pending, v.version, v.needsBaseline);
            var w := v.(pending := NOTHING, version := f.to, needsBaseline := v.needsBaseline && !f.baseline, live := Some(f));
            && Holds(s, w)
            && (v.seen < v.version ==> Behind(w))
            && ((forall k :: 0 <= k < |v.meta| ==> !v.meta[k].dirty) && !f.truncated ==> Quiet(w))
  {
    hide Read, Paged, Sound, Repaints, Shape.ChunkKey, Covers;
    var f := FrameOf(v.pending, v.version, v.needsBaseline);
    var w := v.(pending := NOTHING, version := f.to, needsBaseline := v.needsBaseline && !f.baseline, live := Some(f));
    NothingIsSound(s);
    assert Shaped(s, w);
    forall c | s.Contains(c) && Accounted(s, v, c) ensures Accounted(s, w, c) || Repaints(f.chunks, f.tiles, c) {
    }
    forall c | s.Contains(c) && Accounted(s, v, c) && v.pending.chunks == [] ensures Accounted(s, w, c) {
      NoChunksNoRepaint(v.pending.chunks, v.pending.tiles, c);
    }
  }

  lemma NothingIsSound(s: Shape)
    ensures Sound(s, [], [])
  {
  }

  lemma NoChunksNoRepaint(records: seq<Record>, tiles: seq<Coord>, c: Coord)
    requires records == []
    ensures !Repaints(records, tiles, c)
  {
  }

  lemma ApplyKeeps(s: Shape, v: View, shadow: Pages<nat>)
    requires Holds(s, v) && v.live.Some? && Applicable(v.live.value, v.seen) && Paged(s, shadow)
    requires PaintedBy(s, v.shadow, shadow, v.glyph, Reach(v.live.value.chunks, v.live.value.tiles))
    ensures Holds(s, v.(shadow := shadow, seen := v.live.value.to))
  {
    hide Read, Paged, Sound, Repaints, Shape.ChunkKey, Covers, Shape.ChunkCount;
    var f := v.live.value;
    var w := v.(shadow := shadow, seen := f.to);
    assert Shaped(s, w);
    forall c | s.Contains(c) && (Accounted(s, v, c) || Repaints(f.chunks, f.tiles, c)) ensures Accounted(s, w, c) {
      assert c in Reach(f.chunks, f.tiles) <==> Repaints(f.chunks, f.tiles, c);
    }
  }

  lemma ClearKeeps(s: Shape, v: View)
    requires Holds(s, v)
    ensures Holds(s, v.(pending := NOTHING, needsBaseline := true))
  {
    hide Read, Paged, Sound, Repaints, Shape.ChunkKey, Covers;
    NothingIsSound(s);
  }

  lemma EntitiesKeep(s: Shape, v: View, p: Pending)
    requires Holds(s, v) && p.chunks == v.pending.chunks && p.tiles == v.pending.tiles && p.baseline == v.pending.baseline
    requires v.pending.truncated ==> p.truncated
    ensures Holds(s, v.(pending := p))
  {
    hide Read, Paged, Sound, Repaints, Shape.ChunkKey, Covers;
    var w := v.(pending := p);
    assert Shaped(s, w);
    forall c | s.Contains(c) && Accounted(s, v, c) ensures Accounted(s, w, c) {
    }
  }

  // ------------------------------------------------------------------------------------------------
  // Entity markers

  /** What the markers' promise depends on; `log` is every entity record since the last published baseline. */
  datatype MarkerView = MarkerView(pending: Pending, version: nat, needsBaseline: bool, live: Option<Frame>, seen: nat,
                                   markers: map<nat, Coord>, log: seq<EntityDelta>)
  {
    predicate Lossy() {
      needsBaseline || pending.truncated
    }

    /** The frame to deliver starts from these markers. */
    predicate Delivers(start: map<nat, Coord>) {
      live.Some? && !live.value.truncated &&
      (live.value.baseline || (live.value.from < live.value.to && seen == live.value.from)) &&
      start == if live.value.baseline then map[] else markers
    }

    ghost predicate Chained() {
      && seen <= version
      && (live.Some? ==> live.value.to == version && live.value.from <= version)
      && (live.Some? && live.value.from == version ==>
            live.value.entities == [] && !live.value.baseline && !live.value.truncated)
    }

    /** With what is pending, these markers come to what the log says. */
    ghost predicate ComesTo(start: map<nat, Coord>) {
      PresentAll(start, pending.entities) == PresentAll(map[], log)
    }

    ghost predicate Holds() {
      && Chained()
      && (seen == version && !Lossy() ==> ComesTo(markers))
      && (forall start :: Delivers(start) && !Lossy() ==> ComesTo(PresentAll(start, live.value.entities)))
    }
  }

  lemma PublishPresents(m: MarkerView)
    requires m.Chained() && (m.Holds() || m.pending.baseline)
    ensures var f := FrameOf(m.pending, m.version, m.needsBaseline);
            m.(pending := NOTHING, version := f.to, needsBaseline := m.needsBaseline && !f.baseline, live := Some(f),
               log := if f.baseline then [] else m.log).Holds()
  {
    hide PresentAll;
    NothingPresents(m.markers);
    NothingPresents(map[]);
    var f := FrameOf(m.pending, m.version, m.needsBaseline);
    NothingPresents(PresentAll(m.markers, f.entities));
  }

  lemma NothingPresents(markers: map<nat, Coord>)
    ensures PresentAll(markers, []) == markers
  {
  }

  lemma ApplyPresents(m: MarkerView)
    requires m.Holds() && m.live.Some? && Applicable(m.live.value, m.seen)
    ensures m.(markers := PresentAll(if m.live.value.baseline then map[] else m.markers, m.live.value.entities),
               seen := m.live.value.to).Holds()
  {
    hide PresentAll;
    NothingPresents(m.markers);
    var start := if m.live.value.baseline then map[] else m.markers;
    var w := m.(markers := PresentAll(start, m.live.value.entities), seen := m.live.value.to);
    if m.live.value.baseline || m.live.value.from < m.live.value.to {
      assert m.Delivers(start);
    }
    forall s | w.Delivers(s) && !w.Lossy() ensures w.ComesTo(PresentAll(s, w.live.value.entities)) {
      assert m.Delivers(s);
    }
  }

  /** Other work of the collector may only add a loss. */
  lemma CollectPresents(m: MarkerView, p: Pending)
    requires m.Holds() && p.entities == m.pending.entities && (m.pending.truncated ==> p.truncated)
    ensures m.(pending := p).Holds()
  {
    hide PresentAll;
    var w := m.(pending := p);
    forall s | w.Delivers(s) && !w.Lossy() ensures w.ComesTo(PresentAll(s, w.live.value.entities)) {
      assert m.Delivers(s);
    }
  }

  lemma RecordPresents(m: MarkerView, p: Pending, d: EntityDelta)
    requires m.Holds() && (m.pending.truncated ==> p.truncated)
    requires !p.truncated ==> forall start :: PresentAll(start, p.entities) == PresentAll(start, m.pending.entities + [d])
    ensures m.(pending := p, log := m.log + [d]).Holds()
  {
    hide PresentAll;
    var w := m.(pending := p, log := m.log + [d]);
    if !w.Lossy() {
      forall s | m.ComesTo(s) ensures w.ComesTo(s) {
        PresentNext(s, m.pending.entities, d);
        PresentNext(map[], m.log, d);
      }
      forall s | w.Delivers(s) ensures w.ComesTo(PresentAll(s, w.live.value.entities)) {
        assert m.Delivers(s);
      }
    }
  }

  lemma PresentNext(markers: map<nat, Coord>, ds: seq<EntityDelta>, d: EntityDelta)
    ensures PresentAll(markers, ds + [d]) == Present(PresentAll(markers, ds), d)
  {
    assert (ds + [d])[..|ds|] == ds;
  }

  lemma ResetPresents(m: MarkerView)
    requires m.Holds()
    ensures m.(pending := NOTHING, needsBaseline := true).Holds()
  {
    hide PresentAll;
  }

  /** A consumer at the collector's version, with nothing lost or pending, shows what the log says. */
  lemma CurrentShowsTheEntities(m: MarkerView)
    requires m.Holds() && m.seen == m.version && !m.Lossy() && m.pending.entities == []
    ensures m.markers == PresentAll(map[], m.log)
  {
    hide PresentAll;
    NothingPresents(m.markers);
  }

  // ------------------------------------------------------------------------------------------------
  // Any interleaving

  class Session {
    const world: RenderWorld
    const collector: DeltaCollector
    const consumer: Consumer
    var live: Option<Frame>
    /** Every entity record since the last published baseline. */
    ghost var log: seq<EntityDelta>

    ghost function Entities(): MarkerView
      reads this, collector, consumer
    {
      MarkerView(collector.pending, collector.version, collector.needsBaseline, live, consumer.version, consumer.markers, log)
    }

    ghost function State(): View
      reads this, world, collector, consumer
    {
      View(world.glyph, world.meta, collector.pending, collector.version, collector.needsBaseline, live, consumer.shadow, consumer.version)
    }

    ghost predicate Valid()
      reads this, world, collector, consumer
    {
      && world.Valid() && Holds(world.shape, State()) && Entities().Holds()
      && Slotted(collector.pending) && Traced(collector.options, collector.pending) && (collector.options.coalesceMoves || collector.pending.slots == map[])
      && |collector.pending.chunks| <= collector.options.chunkCapacity
    }

    /** A clean world, a new collector and a consumer that never applied anything. */
    constructor (world: RenderWorld, collector: DeltaCollector, consumer: Consumer)
      requires world.Valid() && Paged(world.shape, consumer.shadow) && consumer.version == 0
      requires collector.version == 1 && collector.pending == NOTHING && !collector.needsBaseline
      ensures Valid() && this.world == world && this.collector == collector && this.consumer == consumer && live == None && log == []
    {
      hide Sound, Paged, Read, Traced;
      this.world, this.collector, this.consumer, live, log := world, collector, consumer, None, [];
      new;
      NothingIsSound(world.shape);
      NothingIsSlotted(collector.options);
    }

    method Paint(c: Coord, g: nat)
      requires Valid() && world.shape.Contains(c)
      modifies world`glyph, world`meta
      ensures Valid() && world.glyph == Write(world.shape, old(world.glyph), c, g)
      ensures Behind(State()) == Behind(old(State()))
    {
      hide Holds, MarkerView.Holds, Slotted, Traced, Write, Shape.ChunkKey, RenderWorld.Valid, Marked;
      PaintKeeps(world.shape, State(), c, g);
      world.Paint(c, g);
    }

    /** Collects and publishes, as every tick does. */
    method PublishDelta()
      requires Valid()
      modifies this`live, this`log, world`meta, collector`pending, collector`version, collector`needsBaseline
      ensures Valid() && live.Some?
      ensures live.value.from == old(collector.version) && (old(collector.pending.baseline) == live.value.baseline)
      ensures !live.value.truncated ==> Quiet(State())
      ensures old(consumer.version < collector.version) ==> Behind(State())
      ensures log == if live.value.baseline then [] else old(log)
      ensures !old(collector.pending.baseline) ==>
                (live.value.truncated <==>
                   old(Lossy(State()) || |collector.pending.chunks| + DirtyChunks(world.meta) > collector.options.chunkCapacity))
      ensures !live.value.truncated ==> collector.pending.entities == [] && !Lossy(State())
    {
      hide Holds, MarkerView.Holds, Collected, Slotted, Traced, Read, Paged, Shape.ChunkCount;
      CollectedKeepsEntities(collector.options, collector.pending);
      ghost var before, entities := State(), Entities();
      collector.CollectTileDeltas(world);
      assert before.meta[..|before.meta|] == before.meta;
      CollectKeeps(world.shape, before, world.meta, collector.pending);
      CollectedPending(world.shape, before.meta, before.pending, world.meta, collector.pending, |before.meta|);
      CollectPresents(entities, collector.pending);
      PublishKeeps(world.shape, State());
      HoldsIsChained(Entities());
      PublishPresents(Entities());
      var f := collector.Publish();
      live, log := Some(f), if f.baseline then [] else log;
      NothingIsSlotted(collector.options);
    }

    /** Collects a baseline and publishes it. */
    method PublishBaseline()
      requires Valid()
      modifies this`live, this`log, world`meta, collector`pending, collector`version, collector`needsBaseline
      ensures Valid() && live.Some? && live.value.baseline
      ensures live.value.truncated <==> collector.options.chunkCapacity < |world.meta|
      ensures !live.value.truncated ==> Quiet(State())
      ensures log == []
    {
      hide Holds, MarkerView.Holds, RenderWorld.Valid, Slotted, Traced, Read, WholeChunks;
      ghost var before := State();
      HoldsIsChained(Entities());
      collector.CollectBaseline(world);
      BaselineKeeps(world.shape, before, world.meta, collector.options.chunkCapacity);
      PublishKeeps(world.shape, State());
      PublishPresents(Entities());
      var f := collector.Publish();
      live, log := Some(f), [];
      NothingIsSlotted(collector.options);
    }

    /**
     The consumer gets the live frame. A consumer that missed a frame refuses it, unless it is a baseline; one
     that was handed everything accepts, and is then at the collector's version.
     */
    method Deliver() returns (ok: bool)
      requires Valid() && live.Some?
      modifies consumer
      ensures Valid() && ok == Applicable(live.value, old(consumer.version))
      ensures old(Behind(State())) && !live.value.baseline ==> !ok
      ensures !ok ==> State() == old(State())
      ensures ok ==> consumer.version == collector.version
      ensures ok && Quiet(State()) ==>
                forall c :: world.shape.Contains(c) ==> Read(world.shape, consumer.shadow, c) == Shown(Read(world.shape, world.glyph, c))
      ensures ok && !Lossy(State()) && collector.pending.entities == [] ==> consumer.markers == PresentAll(map[], log)
    {
      hide Slotted, Traced, Read, PaintedBy, Reach, CurrentIsAccounted, DueIsAccounted, BaselinesAreWhole, Sound, Paged, PresentAll, MarkerView.Holds;
      ghost var before, entities := State(), Entities();
      ok := consumer.Apply(live.value, world);
      if ok {
        ApplyPresents(entities);
        if !Lossy(State()) && collector.pending.entities == [] {
          CurrentShowsTheEntities(Entities());
        }
        ApplyKeeps(world.shape, before, consumer.shadow);
        if Quiet(State()) {
          CurrentShowsTheWorld(world.shape, State());
        }
      }
    }

    /**
     One frame of the loop: collect, publish, deliver. With room for the dirty chunks and nothing lost before,
     a consumer that was up to date stays so: it accepts, its shadow equals the world everywhere, and its
     markers are those of the entity records since the last baseline.
     */
    method Frame() returns (ok: bool)
      requires Valid() && !collector.pending.baseline
      modifies this`live, this`log, world`meta, collector`pending, collector`version, collector`needsBaseline, consumer
      ensures Valid() && live.Some?
      ensures old(!Lossy(State()) && |collector.pending.chunks| + DirtyChunks(world.meta) <= collector.options.chunkCapacity &&
                  consumer.version == collector.version) ==>
                ok && consumer.version == collector.version && consumer.markers == PresentAll(map[], log) &&
                forall c :: world.shape.Contains(c) ==> Read(world.shape, consumer.shadow, c) == Shown(Read(world.shape, world.glyph, c))
      ensures old(consumer.version < collector.version) ==> !ok
    {
      hide Holds, MarkerView.Holds, RenderWorld.Valid, Slotted, Traced, Read, PresentAll, Behind;
      VersionStarts(world.shape, State());
      BehindIs(State());
      PublishDelta();
      BehindIs(State());
      ok := Deliver();
    }

    /** The collector's pending state is thrown away. */
    method Reset()
      requires Valid()
      modifies collector`pending, collector`needsBaseline
      ensures Valid() && collector.needsBaseline
    {
      hide Holds, MarkerView.Holds, RenderWorld.Valid, Slotted, Traced;
      ClearKeeps(world.shape, State());
      ResetPresents(Entities());
      collector.Clear();
      NothingIsSlotted(collector.options);
    }

    /**
     An entity moves or changes state; what the pending records present does not depend on coalescing. A record
     is lost exactly if there is no room for it and it does not extend its entity's last move.
     */
    method Entity(d: EntityDelta)
      requires Valid()
      modifies collector`pending, this`log
      ensures Valid() && log == old(log) + [d]
      ensures !collector.pending.truncated ==>
                forall markers :: PresentAll(markers, collector.pending.entities) == PresentAll(markers, old(collector.pending.entities) + [d])
      ensures collector.pending.truncated <==>
                || old(collector.pending.truncated)
                || (old(|collector.pending.entities|) == collector.options.entityCapacity &&
                    forall i: nat :: !Folds(collector.options, old(collector.pending.entities), d, i))
    {
      hide Holds, MarkerView.Holds, RenderWorld.Valid, Slotted, Traced, Folds, PresentAll;
      ghost var before, entities := State(), Entities();
      RecordsStaySlotted(collector.options, collector.pending, d);
      RecordsStayTraced(collector.options, collector.pending, d);
      RecordingIs(collector.options, collector.pending, d);
      RecordedPending(collector.options, collector.pending, d);
      if d.kind == Moved {
        forall markers | !RecordMove(collector.options, collector.pending, d.entity, d.from, d.to).truncated
          ensures PresentAll(markers, RecordMove(collector.options, collector.pending, d.entity, d.from, d.to).entities) ==
                  PresentAll(markers, collector.pending.entities + [d])
        {
          CoalescingPresentsTheSame(collector.options, collector.pending, d.entity, d.from, d.to, markers);
        }
        collector.Move(d.entity, d.from, d.to);
      } else {
        collector.Note(d);
      }
      EntitiesKeep(world.shape, before, collector.pending);
      RecordPresents(entities, collector.pending, d);
      log := log + [d];
    }
  }

  lemma VersionStarts(s: Shape, v: View)
    requires Holds(s, v)
    ensures 1 <= v.version
  {
    hide Shaped, CurrentIsAccounted, DueIsAccounted, BaselinesAreWhole;
  }

  lemma BehindIs(v: View)
    ensures v.live.Some? ==> (Behind(v) <==> v.seen < v.live.value.from)
  {
  }

  lemma HoldsIsChained(m: MarkerView)
    requires m.Holds()
    ensures m.Chained()
  {
  }

  lemma CollectedKeepsEntities(o: CollectorOptions, p: Pending)
    ensures Slotted(p) ==> forall q: Pending :: q.entities == p.entities && q.slots == p.slots ==> Slotted(q)
    ensures Traced(o, p) ==> forall q: Pending :: q.entities == p.entities && q.slots == p.slots ==> Traced(o, q)
  {
  }

  lemma CollectedPending(s: Shape, meta0: seq<ChunkMeta>, p0: Pending, meta: seq<ChunkMeta>, p: Pending, k: nat)
    requires s.Valid() && Collected(s, meta0, p0, meta, p, k)
    ensures p.entities == p0.entities && p.slots == p0.slots && p.baseline == p0.baseline && (p0.truncated ==> p.truncated)
  {
  }

  lemma NothingIsSlotted(o: CollectorOptions)
    ensures Slotted(NOTHING) && Traced(o, NOTHING)
  {
  }

  lemma RecordedPending(o: CollectorOptions, p: Pending, d: EntityDelta)
    ensures var q := if d.kind == Moved then RecordMove(o, p, d.entity, d.from, d.to) else RecordBarrier(o, p, d);
            && q.chunks == p.chunks && q.tiles == p.tiles && q.baseline == p.baseline && (p.truncated ==> q.truncated)
            && (o.coalesceMoves || q.slots == p.slots)
            && (d.kind != Moved && !q.truncated ==> q.entities == p.entities + [d])
  {
  }
}
