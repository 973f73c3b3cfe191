/** Congestion pricing: heat with a cooling memory, a capped surcharge, and who must replan. */
module Congestion {
  import opened Arithmetic
  import opened Tiles

  const U16 := 0x1_0000
  const U32_MAX := 0xFFFF_FFFF
  const PRICE_CAP := 3

  datatype Phase = Idle | NeedsPath | Following | Blocked | Unreachable

  datatype Agent = Agent(position: Coord, hasGoal: bool, phase: Phase, pathIndex: nat)

  // ------------------------------------------------------------------------------------------------
  // Signal, heat, price

  /** The agent has a goal and stands on the tile or beside it. */
  predicate Crowds(a: Agent, c: Coord) {
    a.hasGoal && Abs(a.position.x - c.x) + Abs(a.position.y - c.y) <= 1
  }

  function Crowd(agents: seq<Agent>, c: Coord): nat {
    if agents == [] then 0 else Crowd(agents[..|agents|-1], c) + if Crowds(agents[|agents|-1], c) then 1 else 0
  }

  /** Floor halving and adding, in 16 bits. */
  function Cooled(heat: nat, signal: nat): nat {
    (heat / 2 + signal) % U16
  }

  function Price(heat: nat): (r: nat)
    ensures r <= heat && r <= 3 && (r == heat || r == 3)
  {
    if heat > PRICE_CAP then PRICE_CAP else heat
  }

  ghost predicate IsSignal(s: Shape, signal: seq<nat>, agents: seq<Agent>)
    requires s.Flat()
  {
    && |signal| == s.size.x * s.size.y
    && forall c :: s.Contains(c) ==> signal[LevelIndex(s, c)] == Crowd(agents, c) % U16
  }

  function Bump(s: Shape, signal: seq<nat>, x: int, y: int): (r: seq<nat>)
    requires s.Flat() && |signal| == s.size.x * s.size.y
    ensures |r| == |signal|
  {
    if x < 0 || y < 0 || x >= s.size.x || y >= s.size.y then signal
    else
      var at := LevelIndex(s, Coord(x, y, 0));
      signal[at := (signal[at] + 1) % U16]
  }

  lemma BumpReads(s: Shape, signal: seq<nat>, x: int, y: int, c: Coord)
    requires s.Flat() && |signal| == s.size.x * s.size.y && s.Contains(c)
    ensures Bump(s, signal, x, y)[LevelIndex(s, c)] ==
            if x == c.x && y == c.y then (signal[LevelIndex(s, c)] + 1) % U16 else signal[LevelIndex(s, c)]
  {
    hide LevelIndex;
    assert c == Coord(c.x, c.y, 0);
    if 0 <= x < s.size.x && 0 <= y < s.size.y && (x != c.x || y != c.y) {
      LevelIndexDiffers(s, Coord(x, y, 0), c);
    }
  }

  lemma CrowdSteps(s: Shape, signal: seq<nat>, agents: seq<Agent>, n: nat)
    requires s.Flat() && n < |agents| && IsSignal(s, signal, agents[..n])
    ensures !agents[n].hasGoal ==> IsSignal(s, signal, agents[..n + 1])
    ensures agents[n].hasGoal ==>
              var x, y := agents[n].position.x, agents[n].position.y;
              IsSignal(s, Bump(s, Bump(s, Bump(s, Bump(s, Bump(s, signal, x, y), x + 1, y), x - 1, y), x, y + 1), x, y - 1), agents[..n + 1])
  {
    hide LevelIndex, Bump, Shape.Flat;
    var a := agents[n];
    var x, y := a.position.x, a.position.y;
    assert agents[..n + 1][..n] == agents[..n];
    FlatIs(s);
    var b1 := Bump(s, signal, x, y);
    var b2 := Bump(s, b1, x + 1, y);
    var b3 := Bump(s, b2, x - 1, y);
    var b4 := Bump(s, b3, x, y + 1);
    var b5 := Bump(s, b4, x, y - 1);
    forall c | s.Contains(c)
      ensures a.hasGoal ==> b5[LevelIndex(s, c)] == Crowd(agents[..n + 1], c) % U16
      ensures !a.hasGoal ==> signal[LevelIndex(s, c)] == Crowd(agents[..n + 1], c) % U16
    {
      BumpReads(s, signal, x, y, c);
      BumpReads(s, b1, x + 1, y, c);
      BumpReads(s, b2, x - 1, y, c);
      BumpReads(s, b3, x, y + 1, c);
      BumpReads(s, b4, x, y - 1, c);
      Wraps(Crowd(agents[..n], c));
    }
  }

  lemma FlatIs(s: Shape)
    requires s.Flat()
    ensures s.Valid() && s.size.z == 1
  {
  }

  lemma Wraps(n: nat)
    ensures (n % U16 + 1) % U16 == (n + 1) % U16
  {
  }

  // ------------------------------------------------------------------------------------------------
  // One repricing

  /** All a repricing writes. */
  datatype Prices = Prices(heat: seq<nat>, increased: seq<bool>, changed: seq<bool>, price: Pages<nat>)

  predicate Fits(s: Shape, p: Prices)
    requires s.Flat()
  {
    |p.heat| == |p.increased| == s.size.x * s.size.y && |p.changed| == s.ChunkCount() && Paged(s, p.price)
  }

  /** The coordinate comes before row `y`, column `x` in scan order. */
  predicate Before(c: Coord, x: int, y: int) {
    c.y < y || (c.y == y && c.x < x)
  }

  /** The tiles scanned so far are repriced from `old`, the others are as they were with their flags cleared. */
  ghost predicate Repriced(s: Shape, old0: Prices, p: Prices, signal: seq<nat>, x: int, y: int)
    requires s.Flat() && Fits(s, old0) && Fits(s, p) && |signal| == s.size.x * s.size.y
  {
    && (forall c :: s.Contains(c) ==>
          var cooled := Cooled(old0.heat[LevelIndex(s, c)], signal[LevelIndex(s, c)]);
          && p.heat[LevelIndex(s, c)] == (if Before(c, x, y) then cooled else old0.heat[LevelIndex(s, c)])
          && Read(s, p.price, c) == (if Before(c, x, y) then Price(cooled) else Read(s, old0.price, c))
          && (p.increased[LevelIndex(s, c)] <==> Before(c, x, y) && Price(cooled) > Read(s, old0.price, c))
          && (Before(c, x, y) && Price(cooled) != Read(s, old0.price, c) ==> 0 <= s.ChunkKey(c) < |p.changed| && p.changed[s.ChunkKey(c)]))
    && (forall k :: 0 <= k < |p.changed| && p.changed[k] ==>
          exists c :: s.Contains(c) && s.ChunkKey(c) == k && Read(s, p.price, c) != Read(s, old0.price, c))
  }

  /** The scan's body at one tile. */
  function Scan(s: Shape, p: Prices, signal: seq<nat>, c: Coord): (r: Prices)
    requires s.Flat() && Fits(s, p) && |signal| == s.size.x * s.size.y && s.Contains(c)
    ensures Fits(s, r)
  {
    Address(s, c);
    var at := LevelIndex(s, c);
    var heat := p.heat[at := Cooled(p.heat[at], signal[at])];
    var surcharge := Price(heat[at]);
    if Read(s, p.price, c) == surcharge then p.(heat := heat)
    else
      Prices(heat, if surcharge > Read(s, p.price, c) then p.increased[at := true] else p.increased,
             p.changed[s.ChunkKey(c) := true], Write(s, p.price, c, surcharge))
  }

  lemma ScanReads(s: Shape, p: Prices, signal: seq<nat>, c: Coord, d: Coord)
    requires s.Flat() && Fits(s, p) && |signal| == s.size.x * s.size.y && s.Contains(c) && s.Contains(d)
    ensures var r := Scan(s, p, signal, c);
            var cooled := Cooled(p.heat[LevelIndex(s, c)], signal[LevelIndex(s, c)]);
            && r.heat[LevelIndex(s, d)] == (if c == d then cooled else p.heat[LevelIndex(s, d)])
            && Read(s, r.price, d) == (if c == d then Price(cooled) else Read(s, p.price, d))
            && (r.increased[LevelIndex(s, d)] <==> p.increased[LevelIndex(s, d)] || (c == d && Price(cooled) > Read(s, p.price, c)))
  {
    hide LevelIndex, Read, Write, Shape.ChunkKey, Cooled, Price;
    Address(s, c);
    if c != d {
      LevelIndexDiffers(s, c, d);
    }
    ReadWrite(s, p.price, c, Price(Cooled(p.heat[LevelIndex(s, c)], signal[LevelIndex(s, c)])), d);
  }

  lemma ScanMarks(s: Shape, p: Prices, signal: seq<nat>, c: Coord, k: nat)
    requires s.Flat() && Fits(s, p) && |signal| == s.size.x * s.size.y && s.Contains(c) && k < |p.changed|
    ensures |Scan(s, p, signal, c).changed| == |p.changed|
    ensures Scan(s, p, signal, c).changed[k] <==>
            p.changed[k] || (s.ChunkKey(c) == k && Price(Cooled(p.heat[LevelIndex(s, c)], signal[LevelIndex(s, c)])) != Read(s, p.price, c))
  {
    hide LevelIndex, Read, Write, Shape.ChunkKey, Cooled, Price;
    Address(s, c);
  }

  lemma ScanStep(s: Shape, old0: Prices, p: Prices, signal: seq<nat>, x: nat, y: nat)
    requires s.Flat() && Fits(s, old0) && Fits(s, p) && |signal| == s.size.x * s.size.y && x < s.size.x && y < s.size.y
    requires Repriced(s, old0, p, signal, x, y)
    ensures s.Contains(Coord(x, y, 0))
    ensures Repriced(s, old0, Scan(s, p, signal, Coord(x, y, 0)), signal, x + 1, y)
  {
    hide LevelIndex, Read, Shape.ChunkKey, Cooled, Price, Scan, Shape.ChunkCount, Paged;
    var c := Coord(x, y, 0);
    var r := Scan(s, p, signal, c);
    assert !Before(c, x, y);
    assert p.heat[LevelIndex(s, c)] == old0.heat[LevelIndex(s, c)];
    forall d | s.Contains(d)
      ensures var cooled := Cooled(old0.heat[LevelIndex(s, d)], signal[LevelIndex(s, d)]);
              && r.heat[LevelIndex(s, d)] == (if Before(d, x + 1, y) then cooled else old0.heat[LevelIndex(s, d)])
              && Read(s, r.price, d) == (if Before(d, x + 1, y) then Price(cooled) else Read(s, old0.price, d))
              && (r.increased[LevelIndex(s, d)] <==> Before(d, x + 1, y) && Price(cooled) > Read(s, old0.price, d))
              && (Before(d, x + 1, y) && Price(cooled) != Read(s, old0.price, d) ==> 0 <= s.ChunkKey(d) < |r.changed| && r.changed[s.ChunkKey(d)])
    {
      ScanReads(s, p, signal, c, d);
      assert Before(d, x + 1, y) <==> Before(d, x, y) || d == c;
      KeyFits(s, p, d);
      ScanMarks(s, p, signal, c, s.ChunkKey(d));
    }
    forall k | 0 <= k < |r.changed| && r.changed[k]
      ensures exists d :: s.Contains(d) && s.ChunkKey(d) == k && Read(s, r.price, d) != Read(s, old0.price, d)
    {
      SameMarks(s, p, signal, c);
      ScanMarks(s, p, signal, c, k);
      if p.changed[k] {
        var d :| s.Contains(d) && s.ChunkKey(d) == k && Read(s, p.price, d) != Read(s, old0.price, d);
        ScanReads(s, p, signal, c, d);
        assert d != c;
      } else {
        ScanReads(s, p, signal, c, c);
      }
    }
  }

  lemma SameMarks(s: Shape, p: Prices, signal: seq<nat>, c: Coord)
    requires s.Flat() && Fits(s, p) && |signal| == s.size.x * s.size.y && s.Contains(c)
    ensures |Scan(s, p, signal, c).changed| == |p.changed|
  {
  }

  lemma KeyFits(s: Shape, p: Prices, d: Coord)
    requires s.Flat() && Fits(s, p) && s.Contains(d)
    ensures 0 <= s.ChunkKey(d) < |p.changed|
  {
    Address(s, d);
  }

  lemma ScanStarts(s: Shape, old0: Prices, p: Prices, signal: seq<nat>)
    requires s.Flat() && Fits(s, old0) && Fits(s, p) && |signal| == s.size.x * s.size.y
    requires p.heat == old0.heat && p.price == old0.price
    requires (forall i :: 0 <= i < |p.increased| ==> !p.increased[i]) && forall k :: 0 <= k < |p.changed| ==> !p.changed[k]
    ensures Repriced(s, old0, p, signal, 0, 0)
  {
    hide LevelIndex, Read, Shape.ChunkKey, Cooled, Price;
  }

  lemma NextRow(s: Shape, old0: Prices, p: Prices, signal: seq<nat>, y: nat)
    requires s.Flat() && Fits(s, old0) && Fits(s, p) && |signal| == s.size.x * s.size.y
    requires Repriced(s, old0, p, signal, s.size.x, y)
    ensures Repriced(s, old0, p, signal, 0, y + 1)
  {
    hide LevelIndex, Read, Shape.ChunkKey, Cooled, Price, Fits;
    forall c | s.Contains(c) ensures Before(c, s.size.x, y) <==> Before(c, 0, y + 1) {
    }
  }

  // ------------------------------------------------------------------------------------------------
  // World and pricing state

  class World {
    const shape: Shape
    const passable: Pages<bool>
    var terrain: Pages<nat>
    var surcharge: Pages<nat>
    var contentVersion: seq<nat>

    ghost predicate Valid()
      reads this
    {
      && shape.Flat() && Paged(shape, passable) && Paged(shape, terrain) && Paged(shape, surcharge)
      && |contentVersion| == shape.ChunkCount()
    }

    /** What entering a tile costs: terrain plus surcharge, zero where terrain is zero, saturating. */
    function EntryCost(c: Coord): nat
      requires Valid() && shape.Contains(c)
      reads this
    {
      Overlay(Read(shape, terrain, c), Read(shape, surcharge, c))
    }

    predicate Enterable(c: Coord)
      requires Valid() && shape.Contains(c)
      reads this
      ensures Enterable(c) <==> Read(shape, passable, c) && EntryCost(c) > 0
    {
      Read(shape, passable, c) && Read(shape, terrain, c) != 0
    }
  }

  function Overlay(base: nat, overlay: nat): (r: nat)
    ensures r == 0 <==> base == 0
    ensures 0 < base && base + overlay <= U32_MAX ==> r - base == overlay
    ensures 0 < base && base + overlay >= U32_MAX ==> r == 0xFFFF_FFFF
  {
    if base == 0 then 0 else if base + overlay > U32_MAX then U32_MAX else base + overlay
  }

  class PricingState {
    var heat: seq<nat>
    var increased: seq<bool>
    var changedChunks: seq<bool>
  }

  /** What a repricing leaves behind, tile by tile and chunk by chunk. */
  ghost predicate IsRepriced(s: Shape, old0: Prices, p: Prices, agents: seq<Agent>)
    requires s.Flat() && Fits(s, old0) && Fits(s, p)
  {
    && (forall c :: s.Contains(c) ==>
          && p.heat[LevelIndex(s, c)] == Cooled(old0.heat[LevelIndex(s, c)], Crowd(agents, c) % U16)
          && Read(s, p.price, c) == Price(p.heat[LevelIndex(s, c)])
          && (p.increased[LevelIndex(s, c)] <==> Read(s, p.price, c) > Read(s, old0.price, c)))
    && (forall k :: 0 <= k < |p.changed| ==>
          (p.changed[k] <==> exists c :: s.Contains(c) && s.ChunkKey(c) == k && Read(s, p.price, c) != Read(s, old0.price, c)))
  }

  lemma ScanEnds(s: Shape, old0: Prices, p: Prices, signal: seq<nat>, agents: seq<Agent>)
    requires s.Flat() && Fits(s, old0) && Fits(s, p) && IsSignal(s, signal, agents)
    requires Repriced(s, old0, p, signal, 0, s.size.y)
    ensures IsRepriced(s, old0, p, agents)
  {
    hide LevelIndex, Read, Shape.ChunkKey, Shape.ChunkCount, Cooled, Price, Paged, Crowd, Crowds;
    forall c | s.Contains(c) ensures Before(c, 0, s.size.y) {
    }
    forall k, c | 0 <= k < |p.changed| && s.Contains(c) && s.ChunkKey(c) == k && Read(s, p.price, c) != Read(s, old0.price, c)
      ensures p.changed[k]
    {
      assert Before(c, 0, s.size.y);
    }
  }

  method Signal(s: Shape, agents: seq<Agent>) returns (signal: seq<nat>)
    requires s.Flat()
    ensures IsSignal(s, signal, agents)
  {
    hide LevelIndex, Crowds, IsSignal, Bump;
    signal := seq(s.size.x * s.size.y, i => 0);
    NoCrowd(s, signal, agents);
    for n := 0 to |agents|
      invariant IsSignal(s, signal, agents[..n])
    {
      SignalFits(s, signal, agents[..n]);
      CrowdSteps(s, signal, agents, n);
      if !agents[n].hasGoal {
        continue;
      }
      var x, y := agents[n].position.x, agents[n].position.y;
      signal := Bump(s, signal, x, y);
      signal := Bump(s, signal, x + 1, y);
      signal := Bump(s, signal, x - 1, y);
      signal := Bump(s, signal, x, y + 1);
      signal := Bump(s, signal, x, y - 1);
    }
    assert agents[..|agents|] == agents;
  }

  lemma NoCrowd(s: Shape, signal: seq<nat>, agents: seq<Agent>)
    requires s.Flat() && |signal| == s.size.x * s.size.y && forall i :: 0 <= i < |signal| ==> signal[i] == 0
    ensures IsSignal(s, signal, agents[..0])
  {
  }

  lemma SignalFits(s: Shape, signal: seq<nat>, agents: seq<Agent>)
    requires s.Flat() && IsSignal(s, signal, agents)
    ensures |signal| == s.size.x * s.size.y
  {
  }

  ghost function PricesOf(world: World, state: PricingState): Prices
    reads world, state
  {
    Prices(state.heat, state.increased, state.changedChunks, world.surcharge)
  }

  /** Reprices every tile, flags the rises, and marks exactly the chunks in which a price changed. */
  method Reprice(world: World, agents: seq<Agent>, state: PricingState)
    requires world.Valid() && Fits(world.shape, PricesOf(world, state))
    modifies world`surcharge, world`contentVersion, state
    ensures world.Valid() && Fits(world.shape, PricesOf(world, state))
    ensures IsRepriced(world.shape, old(PricesOf(world, state)), PricesOf(world, state), agents)
    ensures forall k :: 0 <= k < |world.contentVersion| ==>
              world.contentVersion[k] == old(world.contentVersion)[k] + if state.changedChunks[k] then 1 else 0
    ensures forall c :: world.shape.Contains(c) ==>
              (world.Enterable(c) <==> old(world.Enterable(c))) && (world.EntryCost(c) == 0 <==> old(world.EntryCost(c)) == 0)
  {
    hide Paged, Read, Write, LevelIndex, Shape.ChunkKey, Shape.ChunkCount, Cooled, Price, Repriced, IsRepriced, IsSignal;
    var s := world.shape;
    var signal := Signal(s, agents);
    SignalFits(s, signal, agents);
    ghost var before := PricesOf(world, state);
    state.increased := seq(|state.increased|, i => false);
    state.changedChunks := seq(|state.changedChunks|, k => false);
    ScanStarts(s, before, PricesOf(world, state), signal);
    for y := 0 to s.size.y
      invariant world.Valid() && Fits(s, PricesOf(world, state)) && world.contentVersion == old(world.contentVersion)
      invariant Repriced(s, before, PricesOf(world, state), signal, 0, y)
    {
      for x := 0 to s.size.x
        invariant world.Valid() && Fits(s, PricesOf(world, state)) && world.contentVersion == old(world.contentVersion)
        invariant Repriced(s, before, PricesOf(world, state), signal, x, y)
      {
        var coord := Coord(x, y, 0);
        ScanStep(s, before, PricesOf(world, state), signal, x, y);
        ghost var scanned := Scan(s, PricesOf(world, state), signal, coord);
        Address(s, coord);
        var at := LevelIndex(s, coord);
        state.heat := state.heat[at := Cooled(state.heat[at], signal[at])];
        var surcharge := Price(state.heat[at]);
        var priced := Read(s, world.surcharge, coord);
        if priced == surcharge {
          assert PricesOf(world, state) == scanned;
          continue;
        }
        if surcharge > priced {
          state.increased := state.increased[at := true];
        }
        world.surcharge := Write(s, world.surcharge, coord, surcharge);
        state.changedChunks := state.changedChunks[s.ChunkKey(coord) := true];
        assert PricesOf(world, state) == scanned;
      }
      NextRow(s, before, PricesOf(world, state), signal, y);
    }
    ScanEnds(s, before, PricesOf(world, state), signal, agents);
    MarkChanged(world, state.changedChunks);
  }

  method MarkChanged(world: World, changed: seq<bool>)
    requires world.Valid() && |changed| == |world.contentVersion|
    modifies world`contentVersion
    ensures world.Valid()
    ensures forall k :: 0 <= k < |world.contentVersion| ==>
              world.contentVersion[k] == old(world.contentVersion)[k] + if changed[k] then 1 else 0
  {
    hide Paged, Shape.ChunkCount;
    for k := 0 to |changed|
      invariant world.Valid() && |world.contentVersion| == |changed|
      invariant forall j :: 0 <= j < |changed| ==>
                  world.contentVersion[j] == old(world.contentVersion)[j] + if j < k && changed[j] then 1 else 0
    {
      if changed[k] {
        world.contentVersion := world.contentVersion[k := world.contentVersion[k] + 1];
      }
    }
  }

  // ------------------------------------------------------------------------------------------------
  // Turning pricing off

  /** The tiles scanned so far carry no surcharge; a chunk is marked if one of them did. */
  ghost predicate Cleared(s: Shape, price0: Pages<nat>, price: Pages<nat>, changed: seq<bool>, x: int, y: int)
    requires s.Valid() && Paged(s, price0) && Paged(s, price)
  {
    && (forall c :: s.Contains(c) ==> Read(s, price, c) == if Before(c, x, y) then 0 else Read(s, price0, c))
    && (forall k :: 0 <= k < |changed| ==>
          (changed[k] <==> exists c :: s.Contains(c) && s.ChunkKey(c) == k && Before(c, x, y) && Read(s, price0, c) != 0))
  }

  lemma ClearStep(s: Shape, price0: Pages<nat>, price: Pages<nat>, changed: seq<bool>, x: nat, y: nat)
    requires s.Flat() && Paged(s, price0) && Paged(s, price) && x < s.size.x && y < s.size.y && |changed| == s.ChunkCount()
    requires Cleared(s, price0, price, changed, x, y)
    ensures s.Contains(Coord(x, y, 0)) && 0 <= s.ChunkKey(Coord(x, y, 0)) < |changed|
    ensures var c := Coord(x, y, 0);
            if Read(s, price, c) == 0 then Cleared(s, price0, price, changed, x + 1, y)
            else Cleared(s, price0, Write(s, price, c, 0), changed[s.ChunkKey(c) := true], x + 1, y)
  {
    hide Read, Write, Shape.ChunkKey, Shape.ChunkCount, Paged;
    var c := Coord(x, y, 0);
    Address(s, c);
    forall d | s.Contains(d) ensures Read(s, Write(s, price, c, 0), d) == if d == c then 0 else Read(s, price, d) {
      ReadWrite(s, price, c, 0, d);
    }
    assert forall d :: s.Contains(d) ==> (Before(d, x + 1, y) <==> Before(d, x, y) || d == c);
    assert Read(s, price, c) == Read(s, price0, c);
    var key := s.ChunkKey(c);
    forall k | 0 <= k < |changed|
      ensures (exists d :: s.Contains(d) && s.ChunkKey(d) == k && Before(d, x + 1, y) && Read(s, price0, d) != 0) <==>
              changed[k] || (k == key && Read(s, price, c) != 0)
    {
      if changed[k] {
        var d :| s.Contains(d) && s.ChunkKey(d) == k && Before(d, x, y) && Read(s, price0, d) != 0;
        assert Before(d, x + 1, y);
      }
      if k == key && Read(s, price, c) != 0 {
        assert Before(c, x + 1, y);
      }
    }
  }

  lemma ClearRow(s: Shape, price0: Pages<nat>, price: Pages<nat>, changed: seq<bool>, y: nat)
    requires s.Flat() && Paged(s, price0) && Paged(s, price) && Cleared(s, price0, price, changed, s.size.x, y)
    ensures Cleared(s, price0, price, changed, 0, y + 1)
  {
    hide Read, Shape.ChunkKey, Paged;
    assert forall c :: s.Contains(c) ==> (Before(c, s.size.x, y) <==> Before(c, 0, y + 1));
  }

  /** Clears heat and surcharge, marks the chunks that carried one, and raises the pathing-dirty flag. */
  method Disarm(world: World, state: PricingState) returns (pathingDirty: bool)
    requires world.Valid() && Fits(world.shape, PricesOf(world, state))
    modifies world`surcharge, world`contentVersion, state
    ensures world.Valid() && Fits(world.shape, PricesOf(world, state)) && pathingDirty
    ensures forall i :: 0 <= i < |state.heat| ==> state.heat[i] == 0
    ensures forall c :: world.shape.Contains(c) ==> Read(world.shape, world.surcharge, c) == 0
    ensures forall k :: 0 <= k < |state.changedChunks| ==>
              (state.changedChunks[k] <==>
                 exists c :: world.shape.Contains(c) && world.shape.ChunkKey(c) == k && Read(world.shape, old(world.surcharge), c) != 0)
    ensures forall k :: 0 <= k < |world.contentVersion| ==>
              world.contentVersion[k] == old(world.contentVersion)[k] + if state.changedChunks[k] then 1 else 0
  {
    hide Paged, Read, Write, Shape.ChunkKey, Shape.ChunkCount, Cleared;
    var s := world.shape;
    ghost var price0 := world.surcharge;
    state.heat := seq(|state.heat|, i => 0);
    state.changedChunks := seq(|state.changedChunks|, k => false);
    NothingCleared(s, price0, state.changedChunks);
    for y := 0 to s.size.y
      invariant world.Valid() && Fits(s, PricesOf(world, state)) && world.contentVersion == old(world.contentVersion)
      invariant Cleared(s, price0, world.surcharge, state.changedChunks, 0, y)
      invariant forall i :: 0 <= i < |state.heat| ==> state.heat[i] == 0
    {
      for x := 0 to s.size.x
        invariant world.Valid() && Fits(s, PricesOf(world, state)) && world.contentVersion == old(world.contentVersion)
        invariant Cleared(s, price0, world.surcharge, state.changedChunks, x, y)
        invariant forall i :: 0 <= i < |state.heat| ==> state.heat[i] == 0
      {
        var coord := Coord(x, y, 0);
        ClearStep(s, price0, world.surcharge, state.changedChunks, x, y);
        if Read(s, world.surcharge, coord) != 0 {
          world.surcharge := Write(s, world.surcharge, coord, 0);
          state.changedChunks := state.changedChunks[s.ChunkKey(coord) := true];
        }
      }
      ClearRow(s, price0, world.surcharge, state.changedChunks, y);
    }
    AllCleared(s, price0, world.surcharge, state.changedChunks);
    MarkChanged(world, state.changedChunks);
    pathingDirty := true;
  }

  lemma NothingCleared(s: Shape, price: Pages<nat>, changed: seq<bool>)
    requires s.Valid() && Paged(s, price) && forall k :: 0 <= k < |changed| ==> !changed[k]
    ensures Cleared(s, price, price, changed, 0, 0)
  {
    hide Read, Shape.ChunkKey, Paged;
  }

  lemma AllCleared(s: Shape, price0: Pages<nat>, price: Pages<nat>, changed: seq<bool>)
    requires s.Flat() && Paged(s, price0) && Paged(s, price) && Cleared(s, price0, price, changed, 0, s.size.y)
    ensures forall c :: s.Contains(c) ==> Read(s, price, c) == 0
    ensures forall k :: 0 <= k < |changed| ==>
              (changed[k] <==> exists c :: s.Contains(c) && s.ChunkKey(c) == k && Read(s, price0, c) != 0)
  {
    hide Read, Shape.ChunkKey, Paged;
    assert forall c :: s.Contains(c) ==> Before(c, 0, s.size.y);
  }

  // ------------------------------------------------------------------------------------------------
  // Any number of repricings

  /** Consecutive states of a run: each is repriced from the one before by the agents of that time. */
  ghost predicate IsRun(s: Shape, states: seq<Prices>, run: seq<seq<Agent>>)
    requires s.Flat()
  {
    && |states| == |run| + 1 && (forall i :: 0 <= i < |states| ==> Fits(s, states[i]))
    && forall i :: 0 <= i < |run| ==> IsRepriced(s, states[i], states[i + 1], run[i])
  }

  /** Reprices once per element of the run. */
  method RepriceAll(world: World, run: seq<seq<Agent>>, state: PricingState) returns (ghost states: seq<Prices>)
    requires world.Valid() && Fits(world.shape, PricesOf(world, state))
    modifies world`surcharge, world`contentVersion, state
    ensures world.Valid() && IsRun(world.shape, states, run)
    ensures states[0] == old(PricesOf(world, state)) && states[|run|] == PricesOf(world, state)
  {
    hide Paged, IsRepriced, Shape.ChunkCount, Read, LevelIndex;
    states := [PricesOf(world, state)];
    for i := 0 to |run|
      invariant world.Valid() && Fits(world.shape, PricesOf(world, state))
      invariant IsRun(world.shape, states, run[..i])
      invariant states[0] == old(PricesOf(world, state)) && states[i] == PricesOf(world, state)
    {
      Reprice(world, run[i], state);
      states := states + [PricesOf(world, state)];
      assert run[..i + 1] == run[..i] + [run[i]];
    }
    assert run[..|run|] == run;
  }

  /** What a tile sees over a run. */
  function CrowdsAt(run: seq<seq<Agent>>, c: Coord): (r: seq<nat>)
    ensures |r| == |run|
  {
    if run == [] then [] else CrowdsAt(run[..|run|-1], c) + [Crowd(run[|run|-1], c)]
  }

  /** A tile's heat after repricings that saw these crowds, in 16 bits and without bound. */
  function HeatAfter(start: nat, crowds: seq<nat>): nat {
    if crowds == [] then start else Cooled(HeatAfter(start, crowds[..|crowds|-1]), crowds[|crowds|-1] % U16)
  }

  function TrueHeat(start: nat, crowds: seq<nat>): nat {
    if crowds == [] then start else TrueHeat(start, crowds[..|crowds|-1]) / 2 + crowds[|crowds|-1]
  }

  /** The heat array, and with it the price, is at every tile what the crowds there made of the heat at the start. */
  lemma {:induction false} RunHeat(s: Shape, states: seq<Prices>, run: seq<seq<Agent>>, c: Coord)
    requires s.Flat() && IsRun(s, states, run) && s.Contains(c)
    ensures |states| == |run| + 1 && LevelIndex(s, c) < |states[0].heat| == |states[|run|].heat|
    ensures states[|run|].heat[LevelIndex(s, c)] == HeatAfter(states[0].heat[LevelIndex(s, c)], CrowdsAt(run, c))
    ensures run != [] ==> Read(s, states[|run|].price, c) == Price(states[|run|].heat[LevelIndex(s, c)])
    decreases |run|
  {
    hide LevelIndex, Read, Cooled, Crowd, Price, Shape.ChunkKey, Shape.ChunkCount, Paged;
    LevelFits(s, states[0], c);
    LevelFits(s, states[|run|], c);
    if run != [] {
      var n := |run| - 1;
      RunHeat(s, states[..|run|], run[..n], c);
      assert IsRepriced(s, states[n], states[n + 1], run[n]);
      assert CrowdsAt(run, c)[..n] == CrowdsAt(run[..n], c);
    }
  }

  lemma LevelFits(s: Shape, p: Prices, c: Coord)
    requires s.Flat() && Fits(s, p) && s.Contains(c)
    ensures LevelIndex(s, c) < |p.heat| == s.size.x * s.size.y
  {
  }

  // The bound

  function GoalHolders(agents: seq<Agent>): nat {
    if agents == [] then 0 else GoalHolders(agents[..|agents|-1]) + if agents[|agents|-1].hasGoal then 1 else 0
  }

  lemma {:induction false} CrowdHoldsGoals(agents: seq<Agent>, c: Coord)
    ensures Crowd(agents, c) <= GoalHolders(agents)
  {
    if agents != [] {
      CrowdHoldsGoals(agents[..|agents|-1], c);
    }
  }

  /** At no time do more than `most` agents hold a goal. */
  predicate Moderate(run: seq<seq<Agent>>, most: nat) {
    forall i :: 0 <= i < |run| ==> GoalHolders(run[i]) <= most
  }

  predicate AtMostEach(crowds: seq<nat>, most: nat) {
    forall i :: 0 <= i < |crowds| ==> crowds[i] <= most
  }

  lemma {:induction false} ModerateCrowds(run: seq<seq<Agent>>, most: nat, c: Coord)
    requires Moderate(run, most)
    ensures AtMostEach(CrowdsAt(run, c), most)
  {
    if run != [] {
      ModerateCrowds(run[..|run|-1], most, c);
      CrowdHoldsGoals(run[|run|-1], c);
    }
  }

  lemma {:induction false} TrueHeatIsBounded(start: nat, crowds: seq<nat>, most: nat)
    requires 1 <= most && start <= 2 * most - 1 && AtMostEach(crowds, most)
    ensures TrueHeat(start, crowds) <= 2 * most - 1
    ensures HeatAfter(start, crowds) <= 2 * most - 1
    ensures most <= 0x8000 ==> HeatAfter(start, crowds) == TrueHeat(start, crowds)
  {
    if crowds != [] {
      TrueHeatIsBounded(start, crowds[..|crowds|-1], most);
    }
  }

  /**
   With at most `most` goal-holding agents at a time, no heat cell ever exceeds `2 * most - 1`, the surcharge
   is the heat capped at three, and up to 32768 agents the 16 bits hold the true heat.
   */
  lemma HeatIsBounded(s: Shape, states: seq<Prices>, run: seq<seq<Agent>>, most: nat, c: Coord)
    requires s.Flat() && IsRun(s, states, run) && s.Contains(c)
    requires 1 <= most && Moderate(run, most)
    requires LevelIndex(s, c) < |states[0].heat| && states[0].heat[LevelIndex(s, c)] <= 2 * most - 1
    ensures LevelIndex(s, c) < |states[|run|].heat|
    ensures var heat := states[|run|].heat[LevelIndex(s, c)];
            && heat <= 2 * most - 1
            && (run != [] ==> Read(s, states[|run|].price, c) == if heat > 3 then 3 else heat)
            && (most <= 0x8000 ==> heat == TrueHeat(states[0].heat[LevelIndex(s, c)], CrowdsAt(run, c)))
  {
    hide LevelIndex, Read, HeatAfter, TrueHeat, CrowdsAt, IsRun, AtMostEach, Moderate;
    RunHeat(s, states, run, c);
    ModerateCrowds(run, most, c);
    TrueHeatIsBounded(states[0].heat[LevelIndex(s, c)], CrowdsAt(run, c), most);
  }

  // A crowd of more than 32768 standing on a tile is too much for 16 bits.

  function Standing(n: nat, c: Coord): (agents: seq<Agent>)
    ensures |agents| == n
  {
    seq(n, i => Agent(c, true, Idle, 0))
  }

  lemma {:induction false} StandingCrowds(n: nat, c: Coord)
    ensures Crowd(Standing(n, c), c) == n && GoalHolders(Standing(n, c)) == n
  {
    if n > 0 {
      StandingCrowds(n - 1, c);
      assert Standing(n, c)[..n - 1] == Standing(n - 1, c);
    }
  }

  function Steady(n: nat, agents: seq<Agent>): (r: seq<seq<Agent>>)
    ensures |r| == n && forall i :: 0 <= i < n ==> r[i] == agents
  {
    seq(n, i => agents)
  }

  /** A standing crowd closes half the distance to the bound with every repricing. */
  lemma {:induction false} Approaches(n: nat, agents: seq<Agent>, c: Coord)
    requires 1 <= Crowd(agents, c)
    ensures var crowd, heat := Crowd(agents, c), TrueHeat(0, CrowdsAt(Steady(n, agents), c));
            heat <= 2 * crowd - 1 && 2 * crowd - 1 - heat <= if n < 2 * crowd then 2 * crowd - n else 0
  {
    hide Crowd;
    if n > 0 {
      Approaches(n - 1, agents, c);
      var crowds := CrowdsAt(Steady(n, agents), c);
      assert Steady(n, agents)[..n - 1] == Steady(n - 1, agents);
      assert crowds[..n - 1] == CrowdsAt(Steady(n - 1, agents), c);
    }
  }

  /**
   The 16-bit heat is the true heat over every run, from a cold start, of at most `most` goal-holding agents,
   exactly when `most` is at most 32768.
   */
  lemma SixteenBitsSuffice(most: nat, c: Coord)
    requires 1 <= most
    ensures (forall run :: Moderate(run, most) ==> HeatAfter(0, CrowdsAt(run, c)) == TrueHeat(0, CrowdsAt(run, c)))
            <==> most <= 0x8000
  {
    hide TrueHeat, HeatAfter, Crowd, CrowdsAt, GoalHolders;
    if most <= 0x8000 {
      forall run | Moderate(run, most) ensures HeatAfter(0, CrowdsAt(run, c)) == TrueHeat(0, CrowdsAt(run, c)) {
        ModerateCrowds(run, most, c);
        TrueHeatIsBounded(0, CrowdsAt(run, c), most);
      }
    } else {
      StandingCrowds(most, c);
      var run := Steady(2 * most, Standing(most, c));
      Approaches(2 * most, Standing(most, c), c);
      assert Moderate(run, most);
      HeatFits(CrowdsAt(run, c));
    }
  }

  lemma HeatFits(crowds: seq<nat>)
    ensures HeatAfter(0, crowds) < U16
  {
  }

  // Cooling off

  function Power2(k: nat): (p: nat)
    ensures p > 0
  {
    if k == 0 then 1 else 2 * Power2(k - 1)
  }

  lemma HalveAgain(heat: nat, p: nat)
    requires 0 < p
    ensures heat / p / 2 == heat / (2 * p)
  {
    var q, h := heat / p, heat / p / 2;
    var r := heat % p + q % 2 * p;
    Division(heat, p);
    Regroup(h, q % 2, p);
    Division(heat, 2 * p);
    Unique(heat / (2 * p), heat % (2 * p), h, r, 2 * p);
  }

  lemma Regroup(h: nat, b: nat, p: nat)
    requires b < 2
    ensures (h * 2 + b) * p == h * (2 * p) + b * p && 0 <= b * p <= p
  {
  }

  lemma {:induction false} QuietHeat(start: nat, crowds: seq<nat>)
    requires start < U16 && AtMostEach(crowds, 0)
    ensures HeatAfter(start, crowds) == start / Power2(|crowds|) <= start
  {
    if crowds != [] {
      QuietHeat(start, crowds[..|crowds|-1]);
      HalveAgain(start, Power2(|crowds| - 1));
    }
  }

  /** Repricings that see no crowd at a tile leave its heat divided by a power of two: it evaporates. */
  lemma QuietHalves(s: Shape, states: seq<Prices>, run: seq<seq<Agent>>, c: Coord)
    requires s.Flat() && IsRun(s, states, run) && s.Contains(c) && AtMostEach(CrowdsAt(run, c), 0)
    requires LevelIndex(s, c) < |states[0].heat| && states[0].heat[LevelIndex(s, c)] < U16
    ensures LevelIndex(s, c) < |states[|run|].heat|
    ensures states[|run|].heat[LevelIndex(s, c)] == states[0].heat[LevelIndex(s, c)] / Power2(|run|)
  {
    hide LevelIndex, Read, HeatAfter, CrowdsAt, IsRun, AtMostEach, Moderate, Power2;
    RunHeat(s, states, run, c);
    QuietHeat(states[0].heat[LevelIndex(s, c)], CrowdsAt(run, c));
  }

  // ------------------------------------------------------------------------------------------------
  // Who must replan

  predicate OnMap(s: Shape, route: seq<Coord>) {
    forall i :: 0 <= i < |route| ==> s.Contains(route[i])
  }

  /** The cost of the route's steps from `from` on, each charged on entering its tile. */
  function RouteCost(s: Shape, terrain: Pages<nat>, price: Pages<nat>, route: seq<Coord>, from: nat): nat
    requires s.Valid() && Paged(s, terrain) && Paged(s, price) && OnMap(s, route) && from <= |route|
    decreases |route| - from
  {
    if from == |route| then 0
    else Overlay(Read(s, terrain, route[from]), Read(s, price, route[from])) + RouteCost(s, terrain, price, route, from + 1)
  }

  /** A tile's entry cost rises exactly if it is flagged, enterable by its terrain, and not yet at the ceiling. */
  lemma FlagMeansDearer(s: Shape, terrain: Pages<nat>, old0: Prices, p: Prices, agents: seq<Agent>, c: Coord)
    requires s.Flat() && Fits(s, old0) && Fits(s, p) && Paged(s, terrain) && IsRepriced(s, old0, p, agents) && s.Contains(c)
    ensures var base := Read(s, terrain, c);
            Overlay(base, Read(s, p.price, c)) > Overlay(base, Read(s, old0.price, c)) <==>
            p.increased[LevelIndex(s, c)] && base != 0 && base + Read(s, old0.price, c) < U32_MAX
    ensures Overlay(Read(s, terrain, c), Read(s, p.price, c)) == 0 <==> Read(s, terrain, c) == 0
  {
    hide LevelIndex, Cooled, Price, Shape.ChunkKey, Overlay, IsRepriced;
    FlagIsRise(s, old0, p, agents, c);
    OverlayRises(Read(s, terrain, c), Read(s, old0.price, c), Read(s, p.price, c));
  }

  lemma FlagIsRise(s: Shape, old0: Prices, p: Prices, agents: seq<Agent>, c: Coord)
    requires s.Flat() && Fits(s, old0) && Fits(s, p) && IsRepriced(s, old0, p, agents) && s.Contains(c)
    ensures p.increased[LevelIndex(s, c)] <==> Read(s, p.price, c) > Read(s, old0.price, c)
  {
    hide Read, LevelIndex, Cooled, Price, Paged, Shape.ChunkKey;
  }

  lemma OverlayRises(base: nat, before: nat, after: nat)
    ensures Overlay(base, after) > Overlay(base, before) <==> after > before && base != 0 && base + before < U32_MAX
    ensures Overlay(base, after) == 0 <==> base == 0
  {
  }

  /** A route none of whose remaining tiles was flagged costs no more than before the repricing. */
  lemma {:induction false} UnflaggedCostsNoMore(s: Shape, terrain: Pages<nat>, old0: Prices, p: Prices, agents: seq<Agent>, route: seq<Coord>, from: nat)
    requires s.Flat() && Fits(s, old0) && Fits(s, p) && Paged(s, terrain) && IsRepriced(s, old0, p, agents)
    requires OnMap(s, route) && from <= |route|
    requires forall i :: from <= i < |route| ==> !p.increased[LevelIndex(s, route[i])]
    ensures RouteCost(s, terrain, p.price, route, from) <= RouteCost(s, terrain, old0.price, route, from)
    decreases |route| - from
  {
    hide Read, LevelIndex, Cooled, Price, Paged, Shape.ChunkKey, Overlay, IsRepriced;
    if from < |route| {
      UnflaggedCostsNoMore(s, terrain, old0, p, agents, route, from + 1);
      FlagMeansDearer(s, terrain, old0, p, agents, route[from]);
    }
  }

  /** Agents waiting to replan, each at most once. */
  class ReplanQueue {
    var indices: seq<nat>
    var head: nat
    var queued: seq<bool>

    ghost predicate Valid()
      reads this
    {
      && head <= |indices|
      && (forall k, l :: head <= k < l < |indices| ==> indices[k] != indices[l])
      && (forall i :: (0 <= i < |queued| && queued[i]) <==> i in indices[head..])
    }

    ghost function Waiting(): seq<nat>
      requires Valid()
      reads this
    {
      indices[head..]
    }

    predicate Contains(index: nat)
      requires Valid()
      reads this
      ensures Contains(index) <==> index in Waiting()
    {
      index < |queued| && queued[index]
    }

    method Request(index: nat, agent: Agent) returns (accepted: bool)
      requires Valid()
      modifies this
      ensures Valid()
      ensures accepted <==> agent.hasGoal && agent.phase != Unreachable && index !in old(Waiting())
      ensures Waiting() == old(Waiting()) + if accepted then [index] else []
    {
      if !agent.hasGoal || agent.phase == Unreachable {
        return false;
      }
      if |queued| <= index {
        queued := queued + seq(index + 1 - |queued|, i => false);
      }
      if queued[index] {
        return false;
      }
      if head != 0 && head >= |indices| / 2 {
        indices := indices[head..];
        head := 0;
      }
      assert indices[head..] == old(indices[head..]);
      assert index !in indices[head..];
      indices := indices + [index];
      queued := queued[index := true];
      assert indices[head..] == old(indices[head..]) + [index];
      return true;
    }

    method PopFront()
      requires Valid()
      modifies this
      ensures Valid()
      ensures Waiting() == if old(Waiting()) == [] then [] else old(Waiting())[1..]
    {
      if head == |indices| {
        return;
      }
      var index := indices[head];
      ghost var was := indices[head..];
      assert index in was && was[1..] == indices[head + 1..];
      queued := queued[index := false];
      head := head + 1;
      assert forall i :: i in was <==> i == index || i in indices[head..];
      if head == |indices| {
        indices := [];
        head := 0;
      }
    }
  }

  /** The agent has somewhere to go, a retained route with a step left, and a flagged tile ahead on it. */
  predicate Crosses(s: Shape, agent: Agent, route: seq<Coord>, increased: seq<bool>)
    requires s.Flat() && OnMap(s, route) && |increased| == s.size.x * s.size.y
  {
    && agent.hasGoal && agent.phase != Unreachable
    && exists step :: agent.pathIndex < step < |route| && increased[LevelIndex(s, route[step])]
  }

  /** Asks exactly the agents to replan whose remaining route crosses a rise. */
  method ScopeReplans(s: Shape, agents: seq<Agent>, routes: seq<seq<Coord>>, increased: seq<bool>, queue: ReplanQueue) returns (newly: nat)
    requires s.Flat() && |increased| == s.size.x * s.size.y && queue.Valid()
    requires forall i :: 0 <= i < |routes| ==> OnMap(s, routes[i])
    modifies queue
    ensures queue.Valid() && old(queue.Waiting()) <= queue.Waiting() && newly == |queue.Waiting()| - |old(queue.Waiting())|
    ensures forall i: nat :: i in queue.Waiting() <==>
                          i in old(queue.Waiting()) || (i < |agents| && i < |routes| && Crosses(s, agents[i], routes[i], increased))
  {
    hide LevelIndex, OnMap, Crosses;
    newly := 0;
    for i := 0 to |agents|
      invariant queue.Valid() && old(queue.Waiting()) <= queue.Waiting() && newly == |queue.Waiting()| - |old(queue.Waiting())|
      invariant forall j: nat :: j in queue.Waiting() <==>
                              j in old(queue.Waiting()) || (j < i && j < |routes| && Crosses(s, agents[j], routes[j], increased))
    {
      var agent := agents[i];
      if !agent.hasGoal || agent.phase == Unreachable || i >= |routes| {
        if i < |routes| {
          CrossesIs(s, agent, routes[i], increased);
        }
        continue;
      }
      CrossesIs(s, agent, routes[i], increased);
      if queue.Contains(i) {
        continue;
      }
      var route := routes[i];
      if |route| == 0 || agent.pathIndex >= |route| - 1 {
        continue;
      }
      var crosses := Scans(s, agent, route, increased);
      if crosses {
        var accepted := queue.Request(i, agent);
        if accepted {
          newly := newly + 1;
        }
      }
    }
  }

  lemma CrossesIs(s: Shape, agent: Agent, route: seq<Coord>, increased: seq<bool>)
    requires s.Flat() && OnMap(s, route) && |increased| == s.size.x * s.size.y
    ensures !agent.hasGoal || agent.phase == Unreachable || |route| == 0 || agent.pathIndex >= |route| - 1 ==> !Crosses(s, agent, route, increased)
  {
    hide LevelIndex;
  }

  method Scans(s: Shape, agent: Agent, route: seq<Coord>, increased: seq<bool>) returns (crosses: bool)
    requires s.Flat() && OnMap(s, route) && |increased| == s.size.x * s.size.y
    requires agent.hasGoal && agent.phase != Unreachable && agent.pathIndex + 1 < |route|
    ensures crosses <==> Crosses(s, agent, route, increased)
  {
    hide LevelIndex;
    for step := agent.pathIndex + 1 to |route|
      invariant forall k :: agent.pathIndex < k < step ==> !increased[LevelIndex(s, route[k])]
    {
      if increased[LevelIndex(s, route[step])] {
        return true;
      }
    }
    return false;
  }

  /**
   Leaving an agent unasked is sound: after a repricing and its scoping, an agent on its way whose route
   costs more than before is waiting to replan.
   */
  lemma UnaskedPayNoMore(s: Shape, terrain: Pages<nat>, old0: Prices, p: Prices, crowd: seq<Agent>,
                         agents: seq<Agent>, routes: seq<seq<Coord>>, waiting: seq<nat>, i: nat)
    requires s.Flat() && Fits(s, old0) && Fits(s, p) && Paged(s, terrain) && IsRepriced(s, old0, p, crowd)
    requires i < |agents| && i < |routes| && OnMap(s, routes[i]) && agents[i].pathIndex + 1 <= |routes[i]|
    requires agents[i].hasGoal && agents[i].phase != Unreachable
    requires Crosses(s, agents[i], routes[i], p.increased) ==> i in waiting
    ensures i in waiting || RouteCost(s, terrain, p.price, routes[i], agents[i].pathIndex + 1) <=
                            RouteCost(s, terrain, old0.price, routes[i], agents[i].pathIndex + 1)
  {
    hide LevelIndex, Read, IsRepriced, RouteCost, Paged;
    if i !in waiting {
      UnflaggedCostsNoMore(s, terrain, old0, p, crowd, routes[i], agents[i].pathIndex + 1);
    }
  }
}
