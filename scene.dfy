/**
 * The parts of Scene.ts that are not rendering: the world cell a click
 * selects, the hover highlight kept in `hoveredMesh` and `originalMaterial`,
 * and the hover texture chosen from the player's faction.
 */
module SceneInput {
  import opened Wrappers
  import opened CoordinateMapper
  import opened SceneGraph
  import opened ChunkGrid
  import opened ChunkStream
  import opened TileUpdates

  const ROCK_TEXTURE: string := "/textures/rock.png"
  const PAPER_TEXTURE: string := "/textures/paper.png"
  const SCISSORS_TEXTURE: string := "/textures/scissors.png"

  /** The opacity of the hover material. */
  const HOVER_OPACITY: real := 0.7

  /** The three hover textures are distinct paths. */
  lemma TexturesDistinct()
    ensures ROCK_TEXTURE != PAPER_TEXTURE && ROCK_TEXTURE != SCISSORS_TEXTURE && PAPER_TEXTURE != SCISSORS_TEXTURE
  {
    assert ROCK_TEXTURE[10] != PAPER_TEXTURE[10];
    assert ROCK_TEXTURE[10] != SCISSORS_TEXTURE[10];
    assert PAPER_TEXTURE[10] != SCISSORS_TEXTURE[10];
  }

  /** The fresh material a hovered square is given. */
  function HoverMaterial(texture: string): (m: Material)
    ensures m.texture == Some(texture) && m.opacity == HOVER_OPACITY
  {
    Material(WHITE, HOVER_OPACITY, Some(texture))
  }

  /**
   * The world cell `onMouseClick` sends to `paint` for a hit at local
   * offset `(localX, localZ)` in the chunk whose group sits at
   * `chunkPosition`: the chunk index is the floor of the position divided by
   * `chunkSize`.
   */
  function ClickedCell(chunkPosition: (int, int), localX: int, localZ: int): (w: Cell)
    ensures 0 <= localX < CHUNK_SIZE && 0 <= localZ < CHUNK_SIZE ==>
      && ToChunk(w.0) == chunkPosition.0 / CHUNK_SIZE && ToLocal(w.0) == localX
      && ToChunk(w.1) == chunkPosition.1 / CHUNK_SIZE && ToLocal(w.1) == localZ
  {
    var chunkX := chunkPosition.0 / CHUNK_SIZE;
    var chunkZ := chunkPosition.1 / CHUNK_SIZE;
    var w := (chunkX * CHUNK_SIZE + localX + OFFSET, chunkZ * CHUNK_SIZE + localZ + OFFSET);
    assert 0 <= localX < CHUNK_SIZE && 0 <= localZ < CHUNK_SIZE ==>
      ToChunk(w.0) == chunkX && ToLocal(w.0) == localX && ToChunk(w.1) == chunkZ && ToLocal(w.1) == localZ
    by {
      if 0 <= localX < CHUNK_SIZE && 0 <= localZ < CHUNK_SIZE {
        WorldRoundTrip(chunkX, localX);
        WorldRoundTrip(chunkZ, localZ);
      }
    }
    w
  }

  /**
   * A chunk group is placed at `chunkX * chunkSize`, so the floor division
   * recovers its chunk index, and the clicked cell is the one whose
   * `updateTile` addresses the same chunk key and local cell.
   */
  lemma ClickInvertsTileAddress(key: ChunkKey, localX: int, localZ: int)
    requires 0 <= localX < CHUNK_SIZE && 0 <= localZ < CHUNK_SIZE
    ensures (key.0 * CHUNK_SIZE) / CHUNK_SIZE == key.0 && (key.1 * CHUNK_SIZE) / CHUNK_SIZE == key.1
    ensures var w := ClickedCell((key.0 * CHUNK_SIZE, key.1 * CHUNK_SIZE), localX, localZ);
      SlotOf(w.0, w.1) == Slot(key, localX, localZ)
  {
    var w := ClickedCell((key.0 * CHUNK_SIZE, key.1 * CHUNK_SIZE), localX, localZ);
    assert (key.0 * CHUNK_SIZE) / CHUNK_SIZE == key.0;
    assert (key.1 * CHUNK_SIZE) / CHUNK_SIZE == key.1;
    assert SlotOf(w.0, w.1).chunk == key;
  }

  /**
   * Clicking square `s` of a loaded chunk paints, through the remote tile
   * update, the very mesh that was clicked.
   */
  lemma ClickPaintsClickedSquare(m: ChunkManager, s: Slot)
    requires m.Valid() && m.IsSlot(s)
    ensures var w := ClickedCell(m.loadedChunks[s.chunk].position, s.x, s.z);
      SlotOf(w.0, w.1) == s && m.MeshAt(SlotOf(w.0, w.1)) == m.MeshAt(s)
  {
    ClickInvertsTileAddress(s.chunk, s.x, s.z);
  }

  class Scene {
    var hoveredMesh: Mesh?
    /** The material the hovered square had before it was highlighted. */
    var originalMaterial: Option<Material>
    var selectedFaction: int

    /** A remembered material exists exactly while a square is hovered. */
    ghost predicate HoverValid()
      reads this`hoveredMesh, this`originalMaterial
    {
      (hoveredMesh == null) == originalMaterial.None?
    }

    constructor ()
      ensures hoveredMesh == null && originalMaterial == None && selectedFaction == 1
      ensures HoverValid()
    {
      hoveredMesh, originalMaterial, selectedFaction := null, None, 1;
    }

    /** `getSelectedTexture`: the hover texture of the current faction; `state` plays no part. */
    function GetSelectedTexture(state: int): (t: string)
      reads this`selectedFaction
      ensures t == ROCK_TEXTURE || t == PAPER_TEXTURE || t == SCISSORS_TEXTURE
    {
      match selectedFaction
      case 1 => ROCK_TEXTURE
      case 2 => PAPER_TEXTURE
      case 3 => SCISSORS_TEXTURE
      case _ => PAPER_TEXTURE
    }

    /**
     * Rock is chosen exactly for faction 1 and scissors exactly for faction 3;
     * faction 2 and every unknown faction get paper, whatever `state` is.
     */
    lemma SelectedTextureByFaction(state: int)
      ensures GetSelectedTexture(state) == ROCK_TEXTURE <==> selectedFaction == 1
      ensures GetSelectedTexture(state) == SCISSORS_TEXTURE <==> selectedFaction == 3
      ensures GetSelectedTexture(state) == PAPER_TEXTURE <==> selectedFaction != 1 && selectedFaction != 3
    {
      TexturesDistinct();
    }

    /** The argument of `getSelectedTexture` does not change its answer. */
    lemma SelectedTextureIgnoresState(a: int, b: int)
      ensures GetSelectedTexture(a) == GetSelectedTexture(b)
    {
    }

    /**
     * The setupPlayerSystem callback: the faction of the player record
     * becomes the selected one.  The callback reads the record without a
     * null check, so for a removed record (`None`) it throws before the
     * assignment and the faction stays as it was.
     */
    method OnPlayerUpdate(faction: Option<int>)
      modifies this`selectedFaction
      ensures faction.Some? ==> selectedFaction == faction.value
      ensures faction.None? ==> selectedFaction == old(selectedFaction)
    {
      if faction.Some? {
        selectedFaction := faction.value;
      }
    }

    /** The meshes a hover event may change: the hovered one and the one under the pointer. */
    ghost function HoverFrame(hit: Mesh?): set<Mesh>
      reads this`hoveredMesh
    {
      (if hoveredMesh != null then {hoveredMesh} else {}) + (if hit != null then {hit} else {})
    }

    /**
     * `onMouseHover` with `hit` the first mesh under the pointer.  The same
     * mesh as before changes nothing.  Otherwise the previous mesh gets its
     * remembered material back, and then either `hit` is remembered with its
     * material and shows the hover material, or nothing is hovered.
     */
    method OnMouseHover(hit: Mesh?)
      requires HoverValid()
      modifies this`hoveredMesh, this`originalMaterial, HoverFrame(hit)
      ensures HoverValid()
      ensures hit == old(hoveredMesh) ==>
        hoveredMesh == old(hoveredMesh) && originalMaterial == old(originalMaterial) && unchanged(HoverFrame(hit))
      ensures hit != old(hoveredMesh) && old(hoveredMesh) != null ==>
        old(hoveredMesh).material == old(originalMaterial).value
      ensures hit != old(hoveredMesh) && hit != null ==>
        && hoveredMesh == hit
        && originalMaterial == Some(old(hit.material))
        && hit.material == HoverMaterial(GetSelectedTexture(selectedFaction))
      ensures hit != old(hoveredMesh) && hit == null ==> hoveredMesh == null && originalMaterial == None
    {
      if hit != hoveredMesh {
        if hoveredMesh != null && originalMaterial.Some? {
          hoveredMesh.material := originalMaterial.value;
        }
        if hit != null {
          hoveredMesh := hit;
          originalMaterial := Some(hit.material);
          var hoverTexture := GetSelectedTexture(selectedFaction);
          hit.material := HoverMaterial(hoverTexture);
        } else {
          hoveredMesh := null;
          originalMaterial := None;
        }
      }
    }
  }

  /**
   * A tile update that arrives while its square is hovered paints the hover
   * material, and moving the pointer off restores the material remembered
   * before the update: the square ends with the material it had before the
   * hover, without the paint.
   */
  method PaintWhileHovered(scene: Scene, tiles: TileSystem, x: int, y: int, value: string)
    requires scene.HoverValid() && scene.hoveredMesh == null
    requires tiles.chunkManager.Valid() && tiles.chunkManager.IsSlot(SlotOf(x, y))
    modifies scene, tiles.Target(x, y)
    ensures tiles.chunkManager.Valid()
    ensures tiles.chunkManager.Tiles()[SlotOf(x, y)] == old(tiles.chunkManager.Tiles()[SlotOf(x, y)])
    ensures scene.hoveredMesh == null
  {
    var chunk := tiles.chunkManager.loadedChunks[ChunkKeyOf(x, y)];
    TileIndexSelectsSquare(chunk, x, y);
    var m := chunk.children[TileIndex(ToLocal(x), ToLocal(y))].mesh;
    assert m == tiles.chunkManager.MeshAt(SlotOf(x, y));
    ghost var cm := tiles.chunkManager;
    ghost var original := m.material;
    scene.OnMouseHover(m);
    assert scene.hoveredMesh == m && scene.originalMaterial == Some(original);
    tiles.UpdateTile(x, y, value);
    assert scene.hoveredMesh == m && scene.originalMaterial == Some(original);
    assert cm.Valid() && unchanged(cm);
    scene.OnMouseHover(null);
    assert m.material == original;
  }
}
