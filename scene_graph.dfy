/**
 * The three.js objects the chunk grid builds and the tile and hover code
 * change: square meshes with a material, grid lines, and the group that
 * holds one chunk's children in creation order.
 */
module SceneGraph {
  import opened Wrappers
  import opened CoordinateMapper

  /** A colour as the 24-bit value `0xRRGGBB` a material stores. */
  type Color = int

  const WHITE: Color := 0xffffff

  /** Colours per 24-bit wrap: `Color.setHex` keeps only the low 24 bits of its argument. */
  const HEX_RANGE: int := 0x1000000

  /**
   * The colour `Color.setHex(hex)` stores for an integer `hex`: the bytes
   * `hex >> 16 & 255`, `hex >> 8 & 255` and `hex & 255`, that is the value
   * modulo 2^24 (two's complement, so negative values wrap as well).
   */
  function SetHex(hex: int): (c: Color)
    ensures 0 <= c < HEX_RANGE
    ensures (hex - c) % HEX_RANGE == 0
    ensures 0 <= hex < HEX_RANGE ==> c == hex
  {
    hex % HEX_RANGE
  }

  /** Values that differ only above bit 23 set the same colour. */
  lemma SetHexIgnoresHighBits(hex: int, k: int)
    ensures SetHex(hex + k * HEX_RANGE) == SetHex(hex)
  {
    assert (hex + k * HEX_RANGE) % HEX_RANGE == hex % HEX_RANGE by {
      var q := hex / HEX_RANGE;
      var r := hex % HEX_RANGE;
      assert hex + k * HEX_RANGE == (q + k) * HEX_RANGE + r;
    }
  }

  /**
   * A mesh material: colour, opacity and (for the hover material) the path of
   * the texture it maps.  Every square gets its own clone, so materials are
   * modelled as values.
   */
  datatype Material = Material(color: Color, opacity: real, texture: Option<string>)

  /** The material every square is created with: white and fully transparent. */
  const BLANK: Material := Material(WHITE, 0.0, None)

  /** A square of the grid. `chunk` is the chunk of its parent group; it sits at `(x + 0.5, 0, z + 0.5)` in it. */
  class Mesh {
    var material: Material
    const chunk: (int, int)
    const x: int
    const z: int

    constructor (chunk: (int, int), x: int, z: int, material: Material)
      ensures this.chunk == chunk && this.x == x && this.z == z
      ensures this.material == material
    {
      this.chunk, this.x, this.z := chunk, x, z;
      this.material := material;
    }
  }

  /** A child of a chunk group: a square mesh, or a grid line from `(x0, 0, z0)` to `(x1, 0, z1)`. */
  datatype Child = Square(mesh: Mesh) | GridLine(x0: int, z0: int, x1: int, z1: int)

  /** A chunk group: its position in the scene and its children, in the order they were added. */
  datatype Chunk = Chunk(position: (int, int), children: seq<Child>)

  /** Child `x * chunkSize + z` of `children` is the square for local cell `(x, z)` of chunk `key`. */
  ghost predicate SquareAt(children: seq<Child>, key: (int, int), x: int, z: int)
  {
    && 0 <= x * CHUNK_SIZE + z < |children|
    && children[x * CHUNK_SIZE + z].Square?
    && children[x * CHUNK_SIZE + z].mesh.chunk == key
    && children[x * CHUNK_SIZE + z].mesh.x == x
    && children[x * CHUNK_SIZE + z].mesh.z == z
  }

  /** Appending children keeps the squares already placed. */
  lemma SquareAtAppend(children: seq<Child>, more: seq<Child>, key: (int, int), x: int, z: int)
    requires SquareAt(children, key, x, z)
    ensures SquareAt(children + more, key, x, z)
  {
    assert (children + more)[x * CHUNK_SIZE + z] == children[x * CHUNK_SIZE + z];
  }

  /** Children `base + 2i` and `base + 2i + 1` are the two grid lines at offset `i`. */
  ghost predicate LinesAt(children: seq<Child>, base: int, i: int)
  {
    && 0 <= base + 2 * i && base + 2 * i + 1 < |children|
    && children[base + 2 * i] == GridLine(i, 0, i, CHUNK_SIZE)
    && children[base + 2 * i + 1] == GridLine(0, i, CHUNK_SIZE, i)
  }

  /** Appending children keeps the grid lines already placed. */
  lemma LinesAtAppend(children: seq<Child>, more: seq<Child>, base: int, i: int)
    requires LinesAt(children, base, i)
    ensures LinesAt(children + more, base, i)
  {
    assert (children + more)[base + 2 * i] == children[base + 2 * i];
    assert (children + more)[base + 2 * i + 1] == children[base + 2 * i + 1];
  }

  /**
   * The layout `createChunk` gives a chunk: placed at `key * chunkSize`, the
   * `chunkSize²` squares first in x-outer, z-inner order, then `2 * (chunkSize + 1)`
   * grid lines.
   */
  ghost predicate ChunkLayout(key: (int, int), chunk: Chunk)
  {
    && chunk.position == (key.0 * CHUNK_SIZE, key.1 * CHUNK_SIZE)
    && |chunk.children| == CHUNK_SIZE * CHUNK_SIZE + 2 * (CHUNK_SIZE + 1)
    && (forall x, z :: 0 <= x < CHUNK_SIZE && 0 <= z < CHUNK_SIZE ==> SquareAt(chunk.children, key, x, z))
    && (forall i :: 0 <= i <= CHUNK_SIZE ==> LinesAt(chunk.children, CHUNK_SIZE * CHUNK_SIZE, i))
  }

  /** The square meshes among a chunk's children. */
  function SquareMeshes(chunk: Chunk): set<Mesh>
  {
    set i | 0 <= i < |chunk.children| && chunk.children[i].Square? :: chunk.children[i].mesh
  }

  /** Every square of `chunk` still has the material it was created with. */
  ghost predicate BlankSquares(chunk: Chunk)
    reads SquareMeshes(chunk)
  {
    forall i :: 0 <= i < |chunk.children| && chunk.children[i].Square? ==> chunk.children[i].mesh.material == BLANK
  }
}
