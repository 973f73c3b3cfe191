/** Tile coordinates, the chunks a world is cut into, and fields stored chunk by chunk. */
module Tiles {
  import opened Arithmetic

  datatype Coord = Coord(x: int, y: int, z: int)

  datatype Extent = Extent(x: nat, y: nat, z: nat)

  /** A world's size and the size of its chunks. */
  datatype Shape = Shape(size: Extent, chunk: Extent)
  {
    predicate Valid() {
      && 0 < chunk.x && 0 < chunk.y && 0 < chunk.z && 0 < size.x && 0 < size.y && 0 < size.z
      && size.x % chunk.x == 0 && size.y % chunk.y == 0 && size.z % chunk.z == 0
    }

    predicate Contains(c: Coord) {
      0 <= c.x < size.x && 0 <= c.y < size.y && 0 <= c.z < size.z
    }

    /** A world of one level. */
    predicate Flat() {
      Valid() && size.z == 1
    }

    function Columns(): nat
      requires Valid()
    {
      size.x / chunk.x
    }

    function Rows(): nat
      requires Valid()
    {
      size.y / chunk.y
    }

    function ChunkCount(): nat
      requires Valid()
    {
      Columns() * Rows() * (size.z / chunk.z)
    }

    function LocalCount(): nat {
      chunk.x * chunk.y * chunk.z
    }

    /** The row-major number of the chunk a coordinate lies in. */
    function ChunkKey(c: Coord): int
      requires Valid()
    {
      c.x / chunk.x + c.y / chunk.y * Columns() + c.z / chunk.z * (Columns() * Rows())
    }

    /** The row-major number of a coordinate within its chunk. */
    function LocalId(c: Coord): int
      requires Valid()
    {
      c.x % chunk.x + c.y % chunk.y * chunk.x + c.z % chunk.z * (chunk.x * chunk.y)
    }

    /** The coordinate at a chunk number and a number within it. */
    function CoordAt(key: nat, local: nat): Coord
      requires Valid() && 0 < Columns() * Rows() && 0 < Columns() && 0 < chunk.x * chunk.y
    {
      var k, l := key % (Columns() * Rows()), local % (chunk.x * chunk.y);
      Coord(k % Columns() * chunk.x + l % chunk.x,
            k / Columns() * chunk.y + l / chunk.x,
            key / (Columns() * Rows()) * chunk.z + local / (chunk.x * chunk.y))
    }
  }

  // ------------------------------------------------------------------------------------------------
  // Addresses

  lemma Whole(size: int, chunk: int)
    requires 0 < chunk && 0 < size && size % chunk == 0
    ensures 0 < size / chunk && size / chunk * chunk == size
  {
    Quotient(0, size, chunk);
  }

  lemma Counts(s: Shape)
    requires s.Valid()
    ensures 0 < s.Columns() && 0 < s.Rows() && 0 < s.size.z / s.chunk.z
    ensures 0 < s.Columns() * s.Rows() && 0 < s.chunk.x * s.chunk.y
  {
    Whole(s.size.x, s.chunk.x);
    Whole(s.size.y, s.chunk.y);
    Whole(s.size.z, s.chunk.z);
    Positive(s.Columns(), s.Rows());
    Positive(s.chunk.x, s.chunk.y);
  }

  /** Row-major numbers of a box: in range, and decoded by division. */
  lemma Numbering(x: int, y: int, z: int, nx: int, ny: int, nz: int)
    requires 0 <= x < nx && 0 <= y < ny && 0 <= z < nz
    ensures 0 < nx * ny && 0 <= x + y * nx + z * (nx * ny) < nx * ny * nz
    ensures var k := x + y * nx + z * (nx * ny);
            k % (nx * ny) % nx == x && k % (nx * ny) / nx == y && k / (nx * ny) == z
  {
    var row := x + y * nx;
    Positive(nx, ny);
    Bounded(x, y, nx, ny);
    Bounded(row, z, nx * ny, nz);
    Digits(row, z, nx * ny);
    Digits(x, y, nx);
  }

  /** Every coordinate of the world has an address, and the address leads back to it. */
  lemma Address(s: Shape, c: Coord)
    requires s.Valid() && s.Contains(c)
    ensures 0 <= s.ChunkKey(c) < s.ChunkCount() && 0 <= s.LocalId(c) < s.LocalCount()
    ensures 0 < s.Columns() * s.Rows() && 0 < s.Columns() && 0 < s.chunk.x * s.chunk.y
    ensures s.CoordAt(s.ChunkKey(c), s.LocalId(c)) == c
  {
    Counts(s);
    Quotient(c.x, s.size.x, s.chunk.x);
    Quotient(c.y, s.size.y, s.chunk.y);
    Quotient(c.z, s.size.z, s.chunk.z);
    Numbering(c.x / s.chunk.x, c.y / s.chunk.y, c.z / s.chunk.z, s.Columns(), s.Rows(), s.size.z / s.chunk.z);
    Numbering(c.x % s.chunk.x, c.y % s.chunk.y, c.z % s.chunk.z, s.chunk.x, s.chunk.y, s.chunk.z);
  }

  /** Division numbers a box the other way round. */
  lemma Decoding(k: int, nx: int, ny: int, nz: int)
    requires 0 < nx && 0 < ny && 0 <= k < nx * ny * nz
    ensures 0 < nx * ny && 0 <= k % (nx * ny) % nx < nx && 0 <= k % (nx * ny) / nx < ny && 0 <= k / (nx * ny) < nz
    ensures k == k % (nx * ny) % nx + k % (nx * ny) / nx * nx + k / (nx * ny) * (nx * ny)
  {
    Positive(nx, ny);
    var n := nx * ny;
    Division(k, n);
    assert n * nz == nz * n && k / n * n < nz * n;
    Cancel(k / n, nz, n);
    Distribute(k / n, n);
    Cancel(-1, k / n, n);
    var row := k % n;
    Division(row, nx);
    assert ny * nx == n;
    Cancel(row / nx, ny, nx);
    Distribute(row / nx, nx);
    Cancel(-1, row / nx, nx);
  }

  /** Every address is some coordinate's. */
  lemma AddressBack(s: Shape, key: nat, local: nat)
    requires s.Valid() && key < s.ChunkCount() && local < s.LocalCount()
    ensures 0 < s.Columns() * s.Rows() && 0 < s.Columns() && 0 < s.chunk.x * s.chunk.y
    ensures var c := s.CoordAt(key, local); s.Contains(c) && s.ChunkKey(c) == key && s.LocalId(c) == local
  {
    Counts(s);
    Decoding(key, s.Columns(), s.Rows(), s.size.z / s.chunk.z);
    Decoding(local, s.chunk.x, s.chunk.y, s.chunk.z);
    var k, l := key % (s.Columns() * s.Rows()), local % (s.chunk.x * s.chunk.y);
    Whole(s.size.x, s.chunk.x);
    Whole(s.size.y, s.chunk.y);
    Whole(s.size.z, s.chunk.z);
    Inside(l % s.chunk.x, k % s.Columns(), s.chunk.x, s.Columns());
    Inside(l / s.chunk.x, k / s.Columns(), s.chunk.y, s.Rows());
    Inside(local / (s.chunk.x * s.chunk.y), key / (s.Columns() * s.Rows()), s.chunk.z, s.size.z / s.chunk.z);
  }

  lemma Inside(l: int, k: int, chunk: int, count: int)
    requires 0 <= l < chunk && 0 <= k < count
    ensures 0 <= k * chunk + l < count * chunk && (k * chunk + l) / chunk == k && (k * chunk + l) % chunk == l
  {
    Digits(l, k, chunk);
    Bounded(l, k, chunk, count);
    assert chunk * count == count * chunk;
  }

  /** No two coordinates share an address. */
  lemma AddressesDiffer(s: Shape, c: Coord, d: Coord)
    requires s.Valid() && s.Contains(c) && s.Contains(d) && c != d
    ensures s.ChunkKey(c) != s.ChunkKey(d) || s.LocalId(c) != s.LocalId(d)
  {
    Address(s, c);
    Address(s, d);
  }

  /** The row-major number of a coordinate within its level. */
  function LevelIndex(s: Shape, c: Coord): (i: nat)
    requires s.Contains(c)
    ensures i < s.size.x * s.size.y
  {
    Bounded(c.x, c.y, s.size.x, s.size.y);
    c.y * s.size.x + c.x
  }

  lemma LevelIndexDiffers(s: Shape, c: Coord, d: Coord)
    requires s.Flat() && s.Contains(c) && s.Contains(d) && c != d
    ensures LevelIndex(s, c) != LevelIndex(s, d)
  {
    if LevelIndex(s, c) == LevelIndex(s, d) {
      Unique(c.y, c.x, d.y, d.x, s.size.x);
    }
  }

  /** In the same column of tiles, whatever the level. */
  predicate SameSpot(c: Coord, d: Coord) {
    c.x == d.x && c.y == d.y
  }

  /** Exactly the spots of `tiles` are marked, in a table with one flag per spot of a level. */
  ghost predicate Flagged(s: Shape, marks: seq<bool>, tiles: seq<Coord>) {
    && |marks| == s.size.x * s.size.y
    && forall c :: s.Contains(c) ==> (marks[LevelIndex(s, c)] <==> exists t :: t in tiles && SameSpot(t, c))
  }

  lemma NothingFlagged(s: Shape, marks: seq<bool>)
    requires |marks| == s.size.x * s.size.y && forall i :: 0 <= i < |marks| ==> !marks[i]
    ensures Flagged(s, marks, [])
  {
  }

  /** A table tells whether a spot is marked, and marking one more keeps it exact. */
  lemma FlagNext(s: Shape, marks: seq<bool>, tiles: seq<Coord>, t: Coord)
    requires Flagged(s, marks, tiles) && s.Contains(t)
    ensures LevelIndex(s, t) < |marks| && (marks[LevelIndex(s, t)] <==> exists u :: u in tiles && SameSpot(u, t))
    ensures Flagged(s, marks[LevelIndex(s, t) := true], tiles + [t])
  {
    hide LevelIndex;
    var more := marks[LevelIndex(s, t) := true];
    forall c | s.Contains(c) ensures more[LevelIndex(s, c)] <==> exists u :: u in tiles + [t] && SameSpot(u, c) {
      SpotIndex(s, c, t);
      assert t in tiles + [t] && forall u :: u in tiles ==> u in tiles + [t];
      if u :| u in tiles + [t] && SameSpot(u, c) {
        assert u in tiles || u == t;
      }
    }
  }

  lemma SpotIndex(s: Shape, c: Coord, d: Coord)
    requires s.Contains(c) && s.Contains(d)
    ensures LevelIndex(s, c) == LevelIndex(s, d) <==> SameSpot(c, d)
  {
    if LevelIndex(s, c) == LevelIndex(s, d) {
      Unique(c.y, c.x, d.y, d.x, s.size.x);
    }
  }

  // ------------------------------------------------------------------------------------------------
  // Fields

  /** One field of the world: a page of values per chunk. */
  type Pages<T> = seq<seq<T>>

  predicate Paged<T>(s: Shape, pages: Pages<T>)
    requires s.Valid()
  {
    |pages| == s.ChunkCount() && forall k :: 0 <= k < |pages| ==> |pages[k]| == s.LocalCount()
  }

  function Read<T>(s: Shape, pages: Pages<T>, c: Coord): T
    requires s.Valid() && s.Contains(c) && Paged(s, pages)
  {
    Address(s, c);
    pages[s.ChunkKey(c)][s.LocalId(c)]
  }

  function Write<T>(s: Shape, pages: Pages<T>, c: Coord, value: T): (r: Pages<T>)
    requires s.Valid() && s.Contains(c) && Paged(s, pages)
    ensures Paged(s, r)
  {
    Address(s, c);
    var k := s.ChunkKey(c);
    pages[k := pages[k][s.LocalId(c) := value]]
  }

  /** A write is seen where it was made and nowhere else. */
  lemma ReadWrite<T>(s: Shape, pages: Pages<T>, c: Coord, value: T, d: Coord)
    requires s.Valid() && s.Contains(c) && s.Contains(d) && Paged(s, pages)
    ensures Read(s, Write(s, pages, c, value), d) == if c == d then value else Read(s, pages, d)
  {
    hide Shape.ChunkKey, Shape.LocalId, Shape.ChunkCount, Shape.LocalCount, Shape.Columns, Shape.Rows, Shape.CoordAt;
    Address(s, c);
    Address(s, d);
    if c != d {
      AddressesDiffer(s, c, d);
    }
  }

  /** Fields that read alike everywhere are the same. */
  lemma ReadsDecide<T>(s: Shape, a: Pages<T>, b: Pages<T>)
    requires s.Valid() && Paged(s, a) && Paged(s, b)
    requires forall c :: s.Contains(c) ==> Read(s, a, c) == Read(s, b, c)
    ensures a == b
  {
    hide Shape.ChunkKey, Shape.LocalId, Shape.ChunkCount, Shape.LocalCount, Shape.Columns, Shape.Rows, Shape.CoordAt;
    forall k | 0 <= k < |a| ensures a[k] == b[k] {
      forall l | 0 <= l < |a[k]| ensures a[k][l] == b[k][l] {
        AddressBack(s, k, l);
        var c := s.CoordAt(k, l);
        assert Read(s, a, c) == Read(s, b, c);
      }
    }
  }
}
