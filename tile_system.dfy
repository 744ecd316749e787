/**
 * TileSystem.ts: applying a remote tile update to the square it addresses.
 * The arithmetic is in `CoordinateMapper`; here a world cell becomes a
 * `Slot` of the chunk manager, and the update changes that square's
 * material and nothing else.
 */
module TileUpdates {
  import opened Wrappers
  import opened CoordinateMapper
  import opened SceneGraph
  import opened ChunkGrid
  import opened ChunkStream

  /** The opacity `updateTile` gives a painted square. */
  const PAINTED_OPACITY: real := 0.5

  /** The chunk key `updateTile` looks up for world cell `(x, y)`. */
  function ChunkKeyOf(x: int, y: int): ChunkKey
  {
    (ToChunk(x), ToChunk(y))
  }

  /** The square `updateTile` addresses for world cell `(x, y)`. */
  function SlotOf(x: int, y: int): (s: Slot)
    ensures s.chunk == ChunkKeyOf(x, y)
    ensures 0 <= s.x < CHUNK_SIZE && 0 <= s.z < CHUNK_SIZE
    ensures ToWorld(s.chunk.0, s.x) == x && ToWorld(s.chunk.1, s.z) == y
  {
    Slot(ChunkKeyOf(x, y), ToLocal(x), ToLocal(y))
  }

  /**
   * The square materials after painting square `s` with `color`: its colour
   * and opacity change, its texture stays, every other square is untouched,
   * and a square that is not loaded is not created.
   */
  function Paint(tiles: map<Slot, Material>, s: Slot, color: Color): (r: map<Slot, Material>)
    ensures r.Keys == tiles.Keys
    ensures forall u :: u in tiles && u != s ==> r[u] == tiles[u]
    ensures s in tiles ==> r[s].color == color && r[s].opacity == PAINTED_OPACITY && r[s].texture == tiles[s].texture
  {
    if s in tiles then tiles[s := tiles[s].(color := color, opacity := PAINTED_OPACITY)] else tiles
  }

  /** Applying the same update twice leaves the same tiles as applying it once. */
  lemma PaintIdempotent(tiles: map<Slot, Material>, s: Slot, color: Color)
    ensures Paint(Paint(tiles, s, color), s, color) == Paint(tiles, s, color)
  {
    var once := Paint(tiles, s, color);
    var twice := Paint(once, s, color);
    assert forall u :: u in twice ==> twice[u] == once[u];
  }

  /** Of two updates to the same square, the later one decides its material. */
  lemma PaintLastWins(tiles: map<Slot, Material>, s: Slot, first: Color, second: Color)
    ensures Paint(Paint(tiles, s, first), s, second) == Paint(tiles, s, second)
  {
    var a := Paint(Paint(tiles, s, first), s, second);
    var b := Paint(tiles, s, second);
    assert forall u :: u in a ==> a[u] == b[u];
  }

  /** Updates to different squares may arrive in either order. */
  lemma PaintCommutes(tiles: map<Slot, Material>, s: Slot, t: Slot, cs: Color, ct: Color)
    requires s != t
    ensures Paint(Paint(tiles, s, cs), t, ct) == Paint(Paint(tiles, t, ct), s, cs)
  {
    var a := Paint(Paint(tiles, s, cs), t, ct);
    var b := Paint(Paint(tiles, t, ct), s, cs);
    assert forall u :: u in a ==> a[u] == b[u];
  }

  /**
   * The child index `updateTile` computes for a cell of a chunk laid out by
   * `createChunk` is inside the children, holds a square and not a grid
   * line, and that square is the one made for the cell's local coordinate.
   */
  lemma TileIndexSelectsSquare(chunk: Chunk, x: int, y: int)
    requires ChunkLayout(ChunkKeyOf(x, y), chunk)
    ensures 0 <= TileIndex(ToLocal(x), ToLocal(y)) < CHUNK_SIZE * CHUNK_SIZE < |chunk.children|
    ensures chunk.children[TileIndex(ToLocal(x), ToLocal(y))].Square?
    ensures chunk.children[TileIndex(ToLocal(x), ToLocal(y))].mesh.x == ToLocal(x)
    ensures chunk.children[TileIndex(ToLocal(x), ToLocal(y))].mesh.z == ToLocal(y)
  {
    assert SquareAt(chunk.children, ChunkKeyOf(x, y), ToLocal(x), ToLocal(y));
  }

  /** A `Tile` component value as the update callback reads it: the cell and the colour's text. */
  datatype TileRecord = TileRecord(x: int, y: int, color: string)

  /** The arguments `setupTileSystem` passes to `updateTile`; a missing value gives `(0, 0, "")`. */
  function TileArgs(value: Option<TileRecord>): (int, int, string)
  {
    match value
    case None => (0, 0, "")
    case Some(r) => (r.x, r.y, r.color)
  }

  /**
   * A missing value addresses chunk `(-250, -250)`, which the bounds check
   * of the load loop keeps out of every chunk map it builds, so such an update
   * is always dropped.
   */
  lemma DefaultUpdateDropped(loaded: map<ChunkKey, Chunk>)
    requires forall k :: k in loaded ==> InBounds(k)
    ensures ChunkKeyOf(TileArgs(None).0, TileArgs(None).1) == (-250, -250)
    ensures ChunkKeyOf(TileArgs(None).0, TileArgs(None).1) !in loaded
  {
    ExampleCells();
  }

  class TileSystem {
    const chunkManager: ChunkManager
    /** `parseInt(shortString.decodeShortString(value))`, the integer a value names, before `setHex` masks it. */
    const decodeColor: string -> int

    constructor (chunkManager: ChunkManager, decodeColor: string -> int)
      ensures this.chunkManager == chunkManager && this.decodeColor == decodeColor
    {
      this.chunkManager := chunkManager;
      this.decodeColor := decodeColor;
    }

    /** The mesh an update of cell `(x, y)` may change: the addressed square if its chunk is loaded. */
    ghost function Target(x: int, y: int): set<Mesh>
      requires chunkManager.Valid()
      reads chunkManager`loadedChunks, chunkManager`scene
    {
      if chunkManager.IsSlot(SlotOf(x, y)) then {chunkManager.MeshAt(SlotOf(x, y))} else {}
    }

    /**
     * `updateTile`: find the chunk of cell `(x, y)`; when it is loaded, set
     * the colour and opacity of the square at the cell's child index; when
     * it is not, drop the update.  No chunk and no other square changes.
     */
    method UpdateTile(x: int, y: int, value: string)
      requires chunkManager.Valid()
      modifies Target(x, y)
      ensures chunkManager.Valid()
      ensures chunkManager.Tiles() == Paint(old(chunkManager.Tiles()), SlotOf(x, y), SetHex(decodeColor(value)))
      ensures ChunkKeyOf(x, y) !in chunkManager.loadedChunks ==> chunkManager.Tiles() == old(chunkManager.Tiles())
    {
      var chunkX := ToChunk(x);
      var chunkZ := ToChunk(y);
      var chunkKey := (chunkX, chunkZ);
      if chunkKey in chunkManager.loadedChunks {
        var chunk := chunkManager.loadedChunks[chunkKey];
        var localX := TruncatedRemainder(x - OFFSET, CHUNK_SIZE);
        var localZ := TruncatedRemainder(y - OFFSET, CHUNK_SIZE);
        if localX < 0 {
          localX := localX + CHUNK_SIZE;
        }
        if localZ < 0 {
          localZ := localZ + CHUNK_SIZE;
        }
        assert localX == ToLocal(x) && localZ == ToLocal(y);
        var tileIndex := localZ + localX * CHUNK_SIZE;
        TileIndexSelectsSquare(chunk, x, y);
        if tileIndex < |chunk.children| && chunk.children[tileIndex].Square? {
          var tile := chunk.children[tileIndex].mesh;
          ghost var s := SlotOf(x, y);
          assert tile == chunkManager.MeshAt(s);
          ghost var before := old(chunkManager.Tiles());
          tile.material := tile.material.(color := SetHex(decodeColor(value)), opacity := PAINTED_OPACITY);
          forall u | u in chunkManager.Slots()
            ensures chunkManager.Tiles()[u] == Paint(before, s, SetHex(decodeColor(value)))[u]
          {
            if u != s {
              assert chunkManager.MeshAt(u) != tile;
            }
          }
        } else {
          assert false;
        }
      }
    }

    /** The callback `setupTileSystem` registers: apply the record, or the `(0, 0, "")` default. */
    method OnTileComponentUpdate(value: Option<TileRecord>)
      requires chunkManager.Valid()
      modifies Target(TileArgs(value).0, TileArgs(value).1)
      ensures chunkManager.Valid()
      ensures var (x, y, text) := TileArgs(value);
        chunkManager.Tiles() == Paint(old(chunkManager.Tiles()), SlotOf(x, y), SetHex(decodeColor(text)))
      ensures value.None? ==> chunkManager.Tiles() == old(chunkManager.Tiles())
    {
      var (x, y, text) := TileArgs(value);
      DefaultUpdateDropped(chunkManager.loadedChunks);
      UpdateTile(x, y, text);
    }
  }
}
