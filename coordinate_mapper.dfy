/**
 * Integer arithmetic that links the three coordinate spaces of the world grid:
 * world cells (as stored remotely, shifted by OFFSET), chunks, and cells
 * inside a chunk.  The formulas are those of ChunkManager.ts (chunk to world),
 * TileSystem.ts (world to chunk and local cell) and Scene.ts (click to world).
 */
module CoordinateMapper {

  /** Added to every world coordinate sent to the remote store. */
  const OFFSET: int := 5000

  /** Side of a chunk, in cells (`ChunkManager.chunkSize`). */
  const CHUNK_SIZE: int := 20

  /** A world cell `(x, z)`, offset as the remote store keys it. */
  type Cell = (int, int)

  /**
   * JavaScript's `%` on integers: the remainder has the sign of the dividend
   * and a smaller magnitude than the divisor.
   */
  function TruncatedRemainder(a: int, n: int): (r: int)
    requires n > 0
    ensures a >= 0 ==> 0 <= r < n
    ensures a < 0 ==> -n < r <= 0
    ensures r == a - (if a >= 0 then a / n else -((-a) / n)) * n
  {
    if a >= 0 then a % n else -((-a) % n)
  }

  /**
   * The chunk holding world coordinate `w`: `Math.floor((w - OFFSET) / chunkSize)`.
   * For a positive divisor Dafny's division already rounds down.
   */
  function ToChunk(w: int): (c: int)
    ensures c * CHUNK_SIZE <= w - OFFSET < c * CHUNK_SIZE + CHUNK_SIZE
  {
    (w - OFFSET) / CHUNK_SIZE
  }

  /**
   * The cell of `w` inside its chunk: the truncated remainder, raised by
   * `chunkSize` when it is negative.
   */
  function ToLocal(w: int): (l: int)
    ensures 0 <= l < CHUNK_SIZE
    ensures ToChunk(w) * CHUNK_SIZE + l + OFFSET == w
  {
    var r := TruncatedRemainder(w - OFFSET, CHUNK_SIZE);
    if r < 0 then r + CHUNK_SIZE else r
  }

  /** The world coordinate of cell `local` of chunk `chunk`: `chunk * chunkSize + local + OFFSET`. */
  function ToWorld(chunk: int, local: int): int
  {
    chunk * CHUNK_SIZE + local + OFFSET
  }

  /** Index of the square for local cell `(localX, localZ)`: `localZ + localX * chunkSize`. */
  function TileIndex(localX: int, localZ: int): (i: int)
    requires 0 <= localX < CHUNK_SIZE && 0 <= localZ < CHUNK_SIZE
    ensures 0 <= i < CHUNK_SIZE * CHUNK_SIZE
  {
    localZ + localX * CHUNK_SIZE
  }

  /**
   * The local cell is the floor-mod of the offset coordinate: the correction
   * step turns JavaScript's remainder into Dafny's (Euclidean) one.
   */
  lemma LocalIsFloorMod(w: int)
    ensures ToLocal(w) == (w - OFFSET) % CHUNK_SIZE
    ensures ToChunk(w) == (w - OFFSET) / CHUNK_SIZE
  {
  }

  /** Chunk and local cell recover the world coordinate they were computed from, and conversely. */
  lemma WorldRoundTrip(chunk: int, local: int)
    requires 0 <= local < CHUNK_SIZE
    ensures ToChunk(ToWorld(chunk, local)) == chunk
    ensures ToLocal(ToWorld(chunk, local)) == local
  {
  }

  /** Distinct local cells have distinct square indices; the index decodes back to the cell. */
  lemma TileIndexDecodes(localX: int, localZ: int)
    requires 0 <= localX < CHUNK_SIZE && 0 <= localZ < CHUNK_SIZE
    ensures TileIndex(localX, localZ) / CHUNK_SIZE == localX
    ensures TileIndex(localX, localZ) % CHUNK_SIZE == localZ
  {
  }

  /** Worked cells: 5003 is cell 3 of chunk 0, 5007 cell 7 of chunk 0, 4997 cell 17 of chunk -1, 0 cell 0 of chunk -250. */
  lemma ExampleCells()
    ensures ToChunk(5003) == 0 && ToLocal(5003) == 3
    ensures ToChunk(5007) == 0 && ToLocal(5007) == 7
    ensures ToChunk(4997) == -1 && ToLocal(4997) == 17
    ensures ToChunk(0) == -250 && ToLocal(0) == 0
  {
  }
}
