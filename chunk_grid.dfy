/**
 * The decisions of ChunkManager.ts stated as functions: the camera chunk
 * clamp, which chunk keys are loaded and kept around a camera chunk, and the
 * list of world cells the remote subscription is scoped to.
 */
module ChunkGrid {
  import opened CoordinateMapper

  /** Side of the world, in cells (`maxWorldSize`). */
  const MAX_WORLD_SIZE: int := 1000

  /** Chebyshev radius of the chunks loaded around the camera (`chunkLoadDistance`). */
  const CHUNK_LOAD_DISTANCE: int := 1

  /** Chunks per world side, `maxWorldSize / chunkSize`; 1000 / 20 divides exactly. */
  const WORLD_CHUNKS: int := MAX_WORLD_SIZE / CHUNK_SIZE

  /** Side of the square of chunks around the camera chunk. */
  const SPAN: int := 2 * CHUNK_LOAD_DISTANCE + 1

  /** A chunk coordinate `(chunkX, chunkZ)`; the source's key string `"chunkX,chunkZ"`. */
  type ChunkKey = (int, int)

  function Abs(a: int): nat
  {
    if a < 0 then -a else a
  }

  function Max(a: int, b: int): int
  {
    if a < b then b else a
  }

  function Min(a: int, b: int): int
  {
    if a < b then a else b
  }

  /** `Math.max(Math.abs(a.0 - b.0), Math.abs(a.1 - b.1))`. */
  function Chebyshev(a: ChunkKey, b: ChunkKey): nat
  {
    Max(Abs(a.0 - b.0), Abs(a.1 - b.1))
  }

  /** The camera chunk coordinate clamped into the world: `Math.max(0, Math.min(c, maxWorldSize / chunkSize - 1))`. */
  function Clamp(c: int): (r: int)
    ensures 0 <= r <= WORLD_CHUNKS - 1
    ensures 0 <= c <= WORLD_CHUNKS - 1 ==> r == c
    ensures c < 0 ==> r == 0
    ensures c > WORLD_CHUNKS - 1 ==> r == WORLD_CHUNKS - 1
  {
    Max(0, Min(c, WORLD_CHUNKS - 1))
  }

  /** The world-size check of `loadUnloadChunks`. */
  predicate InBounds(k: ChunkKey)
  {
    0 <= k.0 < WORLD_CHUNKS && 0 <= k.1 < WORLD_CHUNKS
  }

  /** The keys the load loop visits around camera chunk `c` and passes the world-size check. */
  function NeighbourKeys(c: ChunkKey): set<ChunkKey>
  {
    set x, z | c.0 - CHUNK_LOAD_DISTANCE <= x <= c.0 + CHUNK_LOAD_DISTANCE
            && c.1 - CHUNK_LOAD_DISTANCE <= z <= c.1 + CHUNK_LOAD_DISTANCE
            && InBounds((x, z)) :: (x, z)
  }

  /** The load loop reaches exactly the in-bounds chunks within the load distance. */
  lemma NeighbourKeysAre(c: ChunkKey)
    ensures forall k :: k in NeighbourKeys(c) <==> InBounds(k) && Chebyshev(k, c) <= CHUNK_LOAD_DISTANCE
  {
    forall k | InBounds(k) && Chebyshev(k, c) <= CHUNK_LOAD_DISTANCE
      ensures k in NeighbourKeys(c)
    {
      var (x, z) := k;
      assert (x, z) in NeighbourKeys(c);
    }
  }

  /**
   * The keys loaded after `loadUnloadChunks(c)` when `loaded` were loaded
   * before: the neighbourhood is added, then everything farther than one ring
   * beyond the load distance is dropped.
   */
  function Retained(loaded: set<ChunkKey>, c: ChunkKey): set<ChunkKey>
  {
    set k | k in loaded + NeighbourKeys(c) && Chebyshev(k, c) <= CHUNK_LOAD_DISTANCE + 1
  }

  /**
   * What a load/unload step guarantees: every in-bounds chunk within the load
   * distance is loaded, nothing farther than the hysteresis ring stays,
   * nothing within it is dropped, and only in-bounds chunks are added.
   */
  lemma RetainedProperties(loaded: set<ChunkKey>, c: ChunkKey)
    ensures forall k :: InBounds(k) && Chebyshev(k, c) <= CHUNK_LOAD_DISTANCE ==> k in Retained(loaded, c)
    ensures forall k :: k in Retained(loaded, c) ==> Chebyshev(k, c) <= CHUNK_LOAD_DISTANCE + 1
    ensures forall k :: k in loaded && Chebyshev(k, c) <= CHUNK_LOAD_DISTANCE + 1 ==> k in Retained(loaded, c)
    ensures forall k :: k in Retained(loaded, c) && k !in loaded ==> InBounds(k) && Chebyshev(k, c) <= CHUNK_LOAD_DISTANCE
  {
    NeighbourKeysAre(c);
  }

  /** If only in-bounds chunks were loaded, only in-bounds chunks are loaded afterwards. */
  lemma RetainedInBounds(loaded: set<ChunkKey>, c: ChunkKey)
    requires forall k :: k in loaded ==> InBounds(k)
    ensures forall k :: k in Retained(loaded, c) ==> InBounds(k)
  {
    NeighbourKeysAre(c);
  }

  /** A second load/unload step around the same camera chunk changes nothing. */
  lemma RetainedIdempotent(loaded: set<ChunkKey>, c: ChunkKey)
    ensures Retained(Retained(loaded, c), c) == Retained(loaded, c)
  {
    NeighbourKeysAre(c);
  }

  /** The cells of one chunk in `addChunkCoordinates` order: x outer, z inner. */
  function ChunkCells(chunk: ChunkKey): (r: seq<Cell>)
    ensures |r| == CHUNK_SIZE * CHUNK_SIZE
    ensures forall x, z {:trigger r[TileIndex(x, z)]} :: 0 <= x < CHUNK_SIZE && 0 <= z < CHUNK_SIZE ==>
      r[TileIndex(x, z)] == (ToWorld(chunk.0, x), ToWorld(chunk.1, z))
  {
    seq(CHUNK_SIZE * CHUNK_SIZE, i => (ToWorld(chunk.0, i / CHUNK_SIZE), ToWorld(chunk.1, i % CHUNK_SIZE)))
  }

  /** The position of offset `(dx, dz)` in the dx-outer, dz-inner visiting order of the two offset loops. */
  function OffsetIndex(dx: int, dz: int): int
  {
    (dx + CHUNK_LOAD_DISTANCE) * SPAN + (dz + CHUNK_LOAD_DISTANCE)
  }

  /** The chunk the `i`-th turn of the two offset loops visits around `c`. */
  function NeighbourAt(c: ChunkKey, i: int): ChunkKey
  {
    (c.0 + i / SPAN - CHUNK_LOAD_DISTANCE, c.1 + i % SPAN - CHUNK_LOAD_DISTANCE)
  }

  /** The turn for offset `(dx, dz)`, turn `n` of the loops, visits chunk `(c.0 + dx, c.1 + dz)`. */
  lemma NeighbourAtOffset(c: ChunkKey, n: int, dx: int, dz: int)
    requires -CHUNK_LOAD_DISTANCE <= dx <= CHUNK_LOAD_DISTANCE && -CHUNK_LOAD_DISTANCE <= dz <= CHUNK_LOAD_DISTANCE
    requires n == OffsetIndex(dx, dz)
    ensures NeighbourAt(c, n) == (c.0 + dx, c.1 + dz)
  {
    assert n / SPAN == dx + CHUNK_LOAD_DISTANCE && n % SPAN == dz + CHUNK_LOAD_DISTANCE;
  }

  /** All chunks within the load distance of `c`, dx outer and dz inner, with no world-size check. */
  function NeighbourChunks(c: ChunkKey): (r: seq<ChunkKey>)
    ensures |r| == SPAN * SPAN
    ensures forall dx, dz :: -CHUNK_LOAD_DISTANCE <= dx <= CHUNK_LOAD_DISTANCE && -CHUNK_LOAD_DISTANCE <= dz <= CHUNK_LOAD_DISTANCE ==>
      0 <= OffsetIndex(dx, dz) < |r| && r[OffsetIndex(dx, dz)] == (c.0 + dx, c.1 + dz)
  {
    seq(SPAN * SPAN, i => NeighbourAt(c, i))
  }

  /** The cells of `chunks`, chunk after chunk. */
  function CellsOf(chunks: seq<ChunkKey>): seq<Cell>
  {
    if chunks == [] then [] else CellsOf(chunks[..|chunks| - 1]) + ChunkCells(chunks[|chunks| - 1])
  }

  /** The in-bounds chunks among those the first `n` turns of the offset loops visit around `c`. */
  function KeysUpTo(c: ChunkKey, n: nat): set<ChunkKey>
  {
    if n == 0 then {}
    else KeysUpTo(c, n - 1) + (if InBounds(NeighbourAt(c, n - 1)) then {NeighbourAt(c, n - 1)} else {})
  }

  /** One more turn adds the chunk that turn visits, when it is in bounds. */
  lemma KeysUpToStep(c: ChunkKey, n: nat)
    ensures KeysUpTo(c, n + 1) == KeysUpTo(c, n) + (if InBounds(NeighbourAt(c, n)) then {NeighbourAt(c, n)} else {})
  {
    assert n + 1 - 1 == n;
  }

  /**
   * If the loaded keys are `before` plus the first `n` turns' keys, loading the
   * chunk of offset `(dx, dz)`, turn `n`, makes them `before` plus the first `n + 1`.
   */
  lemma KeysStep(before: set<ChunkKey>, keys: set<ChunkKey>, after: set<ChunkKey>, c: ChunkKey, n: nat, dx: int, dz: int)
    requires -CHUNK_LOAD_DISTANCE <= dx <= CHUNK_LOAD_DISTANCE && -CHUNK_LOAD_DISTANCE <= dz <= CHUNK_LOAD_DISTANCE
    requires n == OffsetIndex(dx, dz)
    requires keys == before + KeysUpTo(c, n)
    requires after == keys + (if InBounds((c.0 + dx, c.1 + dz)) then {(c.0 + dx, c.1 + dz)} else {})
    ensures after == before + KeysUpTo(c, n + 1)
  {
    NeighbourAtOffset(c, n, dx, dz);
    KeysUpToStep(c, n);
  }

  /** After `n` turns the keys are the in-bounds chunks among the first `n` neighbours. */
  lemma {:induction false} KeysUpToAre(c: ChunkKey, n: nat)
    requires n <= SPAN * SPAN
    ensures forall k :: k in KeysUpTo(c, n) <==> InBounds(k) && k in NeighbourChunks(c)[..n]
  {
    if n > 0 {
      var chunks := NeighbourChunks(c);
      KeysUpToAre(c, n - 1);
      assert chunks[..n] == chunks[..n - 1] + [chunks[n - 1]];
    }
  }

  /** After all the turns the keys are exactly the neighbourhood the load loop reaches. */
  lemma KeysUpToAll(c: ChunkKey)
    ensures KeysUpTo(c, SPAN * SPAN) == NeighbourKeys(c)
  {
    var chunks := NeighbourChunks(c);
    KeysUpToAre(c, SPAN * SPAN);
    assert chunks[..SPAN * SPAN] == chunks;
    NeighbourKeysAre(c);
    forall k
      ensures k in KeysUpTo(c, SPAN * SPAN) <==> k in NeighbourKeys(c)
    {
      NeighbourChunksMembership(c, k);
    }
  }

  /** The cells the first `n` turns of the offset loops append around `c`. */
  function CellsUpTo(c: ChunkKey, n: nat): seq<Cell>
  {
    if n == 0 then [] else CellsUpTo(c, n - 1) + ChunkCells(NeighbourAt(c, n - 1))
  }

  /** One more turn appends the cells of the chunk that turn visits. */
  lemma CellsUpToStep(c: ChunkKey, n: nat)
    ensures CellsUpTo(c, n + 1) == CellsUpTo(c, n) + ChunkCells(NeighbourAt(c, n))
  {
    assert n + 1 - 1 == n;
  }

  /** After `n` turns the list holds the cells of the first `n` neighbour chunks. */
  lemma {:induction false} CellsUpToIsPrefix(c: ChunkKey, n: nat)
    requires n <= SPAN * SPAN
    ensures CellsUpTo(c, n) == CellsOf(NeighbourChunks(c)[..n])
  {
    if n > 0 {
      var chunks := NeighbourChunks(c);
      CellsUpToIsPrefix(c, n - 1);
      assert chunks[..n][..n - 1] == chunks[..n - 1];
    }
  }

  /** The coordinate list `updateCoordinates` builds for camera chunk `c`. */
  function VisibleCells(c: ChunkKey): seq<Cell>
  {
    CellsOf(NeighbourChunks(c))
  }

  /** `CellsOf` lists `chunkSize²` cells per chunk. */
  lemma {:induction false} CellsOfLength(chunks: seq<ChunkKey>)
    ensures |CellsOf(chunks)| == |chunks| * (CHUNK_SIZE * CHUNK_SIZE)
  {
    if chunks != [] {
      CellsOfLength(chunks[..|chunks| - 1]);
    }
  }

  /** Cell `t` of chunk `j` sits at position `j * chunkSize² + t` of `CellsOf(chunks)`. */
  lemma {:induction false} CellsOfAt(chunks: seq<ChunkKey>, j: int, t: int)
    requires 0 <= j < |chunks| && 0 <= t < CHUNK_SIZE * CHUNK_SIZE
    ensures |CellsOf(chunks)| == |chunks| * (CHUNK_SIZE * CHUNK_SIZE)
    ensures CellsOf(chunks)[j * (CHUNK_SIZE * CHUNK_SIZE) + t] == ChunkCells(chunks[j])[t]
  {
    var n := |chunks| - 1;
    var prefix := chunks[..n];
    CellsOfLength(chunks);
    CellsOfLength(prefix);
    if j < n {
      CellsOfAt(prefix, j, t);
    }
  }

  /** A cell is in a chunk's list exactly when its coordinates map back to that chunk. */
  lemma ChunkCellsMembership(chunk: ChunkKey, p: Cell)
    ensures p in ChunkCells(chunk) <==> (ToChunk(p.0), ToChunk(p.1)) == chunk
  {
    var cells := ChunkCells(chunk);
    if (ToChunk(p.0), ToChunk(p.1)) == chunk {
      assert cells[TileIndex(ToLocal(p.0), ToLocal(p.1))] == p;
    }
    if p in cells {
      var i :| 0 <= i < |cells| && cells[i] == p;
      var x, z := i / CHUNK_SIZE, i % CHUNK_SIZE;
      assert i == TileIndex(x, z);
      WorldRoundTrip(chunk.0, x);
      WorldRoundTrip(chunk.1, z);
    }
  }

  /** A cell is listed by `CellsOf(chunks)` exactly when its chunk is one of `chunks`. */
  lemma {:induction false} CellsOfMembership(chunks: seq<ChunkKey>, p: Cell)
    ensures p in CellsOf(chunks) <==> (ToChunk(p.0), ToChunk(p.1)) in chunks
  {
    if chunks != [] {
      var n := |chunks| - 1;
      CellsOfMembership(chunks[..n], p);
      ChunkCellsMembership(chunks[n], p);
      assert chunks == chunks[..n] + [chunks[n]];
    }
  }

  /** The neighbour list holds exactly the chunks within the load distance, in bounds or not. */
  lemma NeighbourChunksMembership(c: ChunkKey, k: ChunkKey)
    ensures k in NeighbourChunks(c) <==> Chebyshev(k, c) <= CHUNK_LOAD_DISTANCE
  {
    var r := NeighbourChunks(c);
    if Chebyshev(k, c) <= CHUNK_LOAD_DISTANCE {
      assert r[OffsetIndex(k.0 - c.0, k.1 - c.1)] == k;
    }
    if k in r {
      var i :| 0 <= i < |r| && r[i] == k;
      assert 0 <= i / SPAN < SPAN && 0 <= i % SPAN < SPAN;
    }
  }

  /**
   * `updateCoordinates` lists `(2d + 1)² · chunkSize²` cells; the cell for
   * chunk offset `(dx, dz)` and local cell `(x, z)` comes at the position of
   * the dx, dz, x, z loop nest and is `(chunkX * chunkSize + x + OFFSET, chunkZ * chunkSize + z + OFFSET)`.
   */
  lemma VisibleCellsAt(c: ChunkKey, dx: int, dz: int, x: int, z: int)
    requires -CHUNK_LOAD_DISTANCE <= dx <= CHUNK_LOAD_DISTANCE && -CHUNK_LOAD_DISTANCE <= dz <= CHUNK_LOAD_DISTANCE
    requires 0 <= x < CHUNK_SIZE && 0 <= z < CHUNK_SIZE
    ensures |VisibleCells(c)| == SPAN * SPAN * (CHUNK_SIZE * CHUNK_SIZE)
    ensures VisibleCells(c)[OffsetIndex(dx, dz) * (CHUNK_SIZE * CHUNK_SIZE) + TileIndex(x, z)]
         == (ToWorld(c.0 + dx, x), ToWorld(c.1 + dz, z))
  {
    var chunks := NeighbourChunks(c);
    var j, t := OffsetIndex(dx, dz), TileIndex(x, z);
    var cells := ChunkCells((c.0 + dx, c.1 + dz));
    assert chunks[j] == (c.0 + dx, c.1 + dz);
    assert cells[t] == (ToWorld(c.0 + dx, x), ToWorld(c.1 + dz, z));
    CellsOfAt(chunks, j, t);
    assert VisibleCells(c) == CellsOf(chunks);
    assert CellsOf(chunks)[j * (CHUNK_SIZE * CHUNK_SIZE) + t] == cells[t];
  }

  /**
   * A world cell is in the subscription list for camera chunk `c` exactly when
   * the chunk `TileSystem` maps it to is within the load distance of `c`.
   */
  lemma VisibleCellsMembership(c: ChunkKey, p: Cell)
    ensures p in VisibleCells(c) <==> Chebyshev((ToChunk(p.0), ToChunk(p.1)), c) <= CHUNK_LOAD_DISTANCE
  {
    CellsOfMembership(NeighbourChunks(c), p);
    NeighbourChunksMembership(c, (ToChunk(p.0), ToChunk(p.1)));
  }

  /** For a clamped camera chunk every listed coordinate is at least `OFFSET - chunkSize * d`, so positive. */
  lemma VisibleCellsPositive(c: ChunkKey, p: Cell)
    requires InBounds(c)
    requires p in VisibleCells(c)
    ensures p.0 >= OFFSET - CHUNK_SIZE * CHUNK_LOAD_DISTANCE && p.1 >= OFFSET - CHUNK_SIZE * CHUNK_LOAD_DISTANCE
    ensures p.0 > 0 && p.1 > 0
  {
    VisibleCellsMembership(c, p);
  }

  /**
   * Unlike loading, the subscription list has no world-size check: around
   * chunk (0, 0) it lists cell (4980, 4980) of chunk (-1, -1), which is never loaded.
   */
  lemma VisibleCellsUnfiltered()
    ensures (4980, 4980) in VisibleCells((0, 0))
    ensures !InBounds((ToChunk(4980), ToChunk(4980)))
    ensures (ToChunk(4980), ToChunk(4980)) !in NeighbourKeys((0, 0))
  {
    VisibleCellsMembership((0, 0), (4980, 4980));
    NeighbourKeysAre((0, 0));
  }
}
