# Chunk streaming and tile addressing of the infinite-paint client

This project models the chunk engine of the three.js client of
infinite-paint, a shared canvas of world cells, and proves properties of
that model in Dafny.

- **Chunk grid.** `ChunkManager` cuts the world into 20×20 chunks. It keeps
  loaded every in-bounds chunk within one chunk of the camera chunk. It
  unloads chunks only when they are more than two chunks away.
- **Remote subscription.** `ChunkManager` rebuilds the list of world cells
  that the remote subscription is scoped to. It pushes that list through a
  debounced subject, and it re-subscribes when the subject fires.
- **Tile updates.** `TileSystem` maps an incoming tile update
  `(x, y, colour)` to the chunk and child index of its square. It recolours
  that square, or drops the update when the chunk is not loaded.
- **Scene input.** `Scene` rebuilds the world cell a click selects. It also
  keeps the hover highlight in two fields and picks the hover texture from
  the player's faction.

Every world coordinate carries the offset 5000. A world cell `w` belongs to
chunk `floor((w - 5000) / 20)` at local coordinate `(w - 5000) mod 20`. The
square for local `(x, z)` is child `x*20 + z` of its chunk group, and the 42
grid lines follow the 400 squares.

Modules, one per concept, in dependency order:

- `Wrappers` (`wrappers.dfy`): `Option`.
- `CoordinateMapper` (`coordinate_mapper.dfy`): the world/chunk/local
  arithmetic shared by the three source files. It includes JavaScript's
  truncating `%`, written out explicitly.
- `SceneGraph` (`scene_graph.dfy`): the scene objects.
  - `Mesh` is a class, because `onMouseHover` and `updateTile` assign its
    material in place.
  - `Material` is a value, because every square gets its own clone and the
    hover material is new each time.
  - A chunk `Chunk` is a position plus its children. `ChunkLayout` states
    the layout `createChunk` builds.
- `ChunkGrid` (`chunk_grid.dfy`): the decisions of `ChunkManager` as
  functions. These are:
  - the clamp;
  - the in-bounds neighbourhood;
  - the keys retained by one load/unload step (`Retained`);
  - the coordinate list `updateCoordinates` builds (`VisibleCells`).
- `ChunkStream` (`chunk_manager.dfy`): the `ChunkManager` class.
  - `loadedChunks` is a map from `(cx, cz)` to chunk, and `scene` is the set
    of groups added to the three.js scene.
  - It also holds `coordinates`, the pending debounced list, the
    subscription handle with the handles cancelled and requested, and the
    update gate's last position and time.
  - Its methods are proved against the `ChunkGrid` functions.
  - The ghost view `Tiles()` gives the material of every loaded square.
- `TileUpdates` (`tile_system.dfy`): the `TileSystem` class and `Paint`,
  the effect of one update on `Tiles()`.
- `SceneInput` (`scene.dfy`): the `Scene` class's hover state machine, the
  click reconstruction and the texture choice.

In three places the code does not do what one would expect of a
subscription layer. The model follows the code:

- **The subscription scope is not filtered by the world bounds.** One would
  expect the scope to cover only cells that can be loaded.
  `updateCoordinates` lists the cells of all 9 chunks around the camera
  chunk with no bounds filter, so near the world's edge it subscribes to
  cells of chunks that are never loaded (`ChunkGrid.VisibleCellsUnfiltered`).
  It also leaves out the ring of chunks that stay loaded between distance 1
  and 2, which narrows the scope to the chunks within the load distance.
- **A failed re-subscription keeps the cancelled handle.** One would expect
  no handle to be held after a failure. In the code, when the awaited store
  call rejects, `subscription` still holds the handle that was just
  cancelled, and the next re-subscription cancels it again
  (`ChunkStream.ChunkManager.UpdateSubscription`).
- **Overlapping re-subscriptions can leave two feeds live.** One would
  expect at most one live subscription. `updateSubscription` is `async`,
  and the debounced callback does not await it. If a second emission
  arrives while the first store call is still pending, both calls cancel
  the same held handle. Both then assign `subscription`, so the handle
  assigned first is overwritten and never cancelled. The model runs each
  call as one atomic step, so its `OneLive` invariant holds only when calls
  do not overlap (see "## Left out").

## Model

| member | source | states |
|---|---|---|
| CoordinateMapper.TruncatedRemainder | client/src/objects/TileSystem.ts:27-28 | JavaScript `%`: has the sign of the dividend, magnitude below the divisor, and equals dividend minus truncated quotient times divisor |
| CoordinateMapper.ToChunk | client/src/objects/TileSystem.ts:21-22 | the chunk index `c` of a world coordinate satisfies `c*20 <= w-5000 < c*20+20` |
| CoordinateMapper.ToLocal | client/src/objects/TileSystem.ts:27-32 | after the negative-remainder correction the local coordinate lies in `[0, 20)` for every integer, and `chunk*20 + local + 5000 == w` |
| CoordinateMapper.TileIndex | client/src/objects/TileSystem.ts:35 | `localZ + localX*20` lies in `[0, 400)` |
| CoordinateMapper.LocalIsFloorMod | client/src/objects/TileSystem.ts:21-32 | the corrected remainder is the floor-mod and the chunk index the floor division of `w - 5000` |
| CoordinateMapper.WorldRoundTrip | client/src/objects/ChunkManager.ts:61-62 | the world cell built from a chunk and a local coordinate in `[0, 20)` maps back to that chunk and that local coordinate |
| CoordinateMapper.TileIndexDecodes | client/src/objects/TileSystem.ts:35 | the child index determines the local cell: index / 20 is `localX`, index mod 20 is `localZ` |
| CoordinateMapper.ExampleCells | client/src/objects/TileSystem.ts:21-32 | 5003 gives chunk 0, local 3; 5007 gives 0, 7; 4997 gives chunk -1, local 17; 0 gives chunk -250, local 0 |
| ChunkGrid.Clamp | client/src/objects/ChunkManager.ts:114-115 | the clamped chunk index lies in `[0, 49]`, is the input when that is in range, and is 0 or 49 below or above it |
| ChunkGrid.NeighbourKeysAre | client/src/objects/ChunkManager.ts:148-154 | a key passes the load loop's offsets and bounds check exactly when it is in bounds and within Chebyshev distance 1 of the camera chunk |
| ChunkGrid.RetainedProperties | client/src/objects/ChunkManager.ts:148-175 | after a load/unload step every in-bounds chunk within distance 1 is loaded, every loaded chunk is within distance 2, a chunk at distance 2 that was loaded stays, and every added chunk is in bounds and within distance 1 |
| ChunkGrid.RetainedInBounds | client/src/objects/ChunkManager.ts:154-161 | when all loaded chunks are in bounds, all chunks after the step are in bounds |
| ChunkGrid.RetainedIdempotent | client/src/objects/ChunkManager.ts:157-175 | a second step around the same camera chunk keeps the same set of keys |
| ChunkGrid.ChunkCells | client/src/objects/ChunkManager.ts:133-141 | one chunk contributes 400 cells, and the cell at `x*20 + z` is `(cx*20 + x + 5000, cz*20 + z + 5000)` |
| ChunkGrid.NeighbourChunks | client/src/objects/ChunkManager.ts:124-129 | the offset loops visit 9 chunks, and offset `(dx, dz)` is visited at position `(dx+1)*3 + (dz+1)` |
| ChunkGrid.CellsOfLength | client/src/objects/ChunkManager.ts:122-141 | the list holds 400 cells per chunk |
| ChunkGrid.CellsOfAt | client/src/objects/ChunkManager.ts:122-141 | cell `t` of chunk `j` sits at position `j*400 + t`, so the order nests dx, dz, x, z |
| ChunkGrid.ChunkCellsMembership | client/src/objects/ChunkManager.ts:133-141 | a cell is among a chunk's cells exactly when the tile mapping sends it to that chunk |
| ChunkGrid.CellsOfMembership | client/src/objects/ChunkManager.ts:122-141 | a cell is in the list exactly when its chunk is one of the listed chunks |
| ChunkGrid.NeighbourChunksMembership | client/src/objects/ChunkManager.ts:124-129 | the visited chunks are exactly those within Chebyshev distance 1, in bounds or not |
| ChunkGrid.VisibleCellsAt | client/src/objects/ChunkManager.ts:122-141 | the list has `9*400` pairs, and the pair for offset `(dx, dz)` and local `(x, z)` is `((cx+dx)*20 + x + 5000, (cz+dz)*20 + z + 5000)` |
| ChunkGrid.VisibleCellsMembership | client/src/objects/ChunkManager.ts:122-141 | a world cell is in the scope exactly when its chunk is within distance 1 of the camera chunk |
| ChunkGrid.VisibleCellsPositive | client/src/objects/ChunkManager.ts:114-141 | for a clamped camera chunk every listed coordinate is at least `5000 - 20` and so positive |
| ChunkGrid.VisibleCellsUnfiltered | client/src/objects/ChunkManager.ts:122-131 | the scope for camera chunk `(0,0)` holds cell `(4980, 4980)`, whose chunk is out of bounds and never loaded |
| ChunkStream.CameraChunk | client/src/objects/ChunkManager.ts:110-115 | the clamped camera chunk is in bounds; inside the world its square holds the camera's x and z; a coordinate below 0 gives chunk 0 and one at or above 1000 gives chunk 49 |
| ChunkStream.GateNeedsTimeAndMovement | client/src/objects/ChunkManager.ts:37-40 | the gate opens only after more than 100 ms and a change of position, so no update fires at the position just recorded |
| ChunkStream.AxisMoveOpensGate | client/src/objects/ChunkManager.ts:39 | a move of more than 8 along the x axis alone exceeds the distance threshold |
| ChunkStream.ChunkManager.constructor | client/src/objects/ChunkManager.ts:16-33 | starts with no chunks, an empty scene, no subscription and the gate at the origin at time 0 |
| ChunkStream.ChunkManager.CreateChunk | client/src/objects/ChunkManager.ts:47-85 | the group sits at `(cx*20, cz*20)`; child `x*20 + z` is a new blank square made for local `(x, z)`; the next 42 children are the grid lines in order |
| ChunkStream.ChunkManager.LoadChunk | client/src/objects/ChunkManager.ts:150-162 | an in-bounds missing key gets a new blank chunk that is also added to the scene; any other call changes nothing; loaded chunks are never replaced |
| ChunkStream.ChunkManager.LoadRow | client/src/objects/ChunkManager.ts:149-163 | one pass of the inner offset loop adds exactly the in-bounds keys of its 3 turns; old chunks are unchanged and new ones are fresh and blank |
| ChunkStream.ChunkManager.LoadNeighbourhood | client/src/objects/ChunkManager.ts:148-164 | afterwards the keys are the old keys plus every in-bounds key within distance 1; old chunks are unchanged and new ones are fresh and blank |
| ChunkStream.ChunkManager.UnloadDistant | client/src/objects/ChunkManager.ts:166-175 | afterwards exactly the old keys within distance 2 remain, with their chunks unchanged, and the scene holds exactly the remaining chunks |
| ChunkStream.ChunkManager.LoadUnloadChunks | client/src/objects/ChunkManager.ts:147-176 | the keys become `Retained(old keys, camera chunk)`; kept chunks are the same groups; added chunks are fresh; kept squares keep their material and added squares are blank |
| ChunkStream.LoadThenUnload | client/src/objects/ChunkManager.ts:148-175 | loading the neighbourhood and then unloading beyond distance 2 leaves exactly the `Retained` keys |
| ChunkStream.SecondLoadKeepsChunks | client/src/objects/ChunkManager.ts:157-161 | two load/unload steps around the same camera chunk leave the map the first one produced |
| ChunkStream.TilesKeptOrBlank | client/src/objects/ChunkManager.ts:157-175 | when kept keys hold the same chunks, untouched meshes keep their materials and new chunks are blank, then every square keeps its material or is blank |
| ChunkStream.ValuesInsert | client/src/objects/ChunkManager.ts:159-160 | adding a chunk under a new key adds exactly that chunk to the map's values, matching `scene.add` |
| ChunkStream.ValuesRemove | client/src/objects/ChunkManager.ts:172-173 | with distinct chunk positions, deleting a key removes exactly its chunk from the values, matching `scene.remove` |
| ChunkStream.ChunkManager.AddChunkCoordinates | client/src/objects/ChunkManager.ts:133-141 | appends exactly the 400 cells of the chunk, in x-outer, z-inner order |
| ChunkStream.ChunkManager.UpdateCoordinates | client/src/objects/ChunkManager.ts:122-131 | `coordinates` becomes exactly `VisibleCells(camera chunk)` |
| ChunkStream.ChunkManager.UpdateSubscription | client/src/objects/ChunkManager.ts:97-107 | the held handle, if any, is logged as cancelled; one request is logged for the scope; the new handle is stored, or the old one stays when the call rejects; when calls do not overlap, at most one issued handle is ever uncancelled |
| ChunkStream.ChunkManager.DeliverPending | client/src/objects/ChunkManager.ts:87-95 | when the debounced subject fires, the held handle is cancelled, exactly one request is made, for the last list pushed, and the new handle is stored (or the old one kept on rejection); with nothing pending nothing changes |
| ChunkStream.ChunkManager.LoadChunksAroundCamera | client/src/objects/ChunkManager.ts:109-120 | for the clamped camera chunk: the scope is rebuilt, the load/unload step is performed, and the new scope replaces any pending list |
| ChunkStream.ChunkManager.Update | client/src/objects/ChunkManager.ts:35-45 | when more than 100 ms passed and the camera moved more than 8, the load step runs and the position and time are recorded; otherwise no field changes |
| TileUpdates.SlotOf | client/src/objects/TileSystem.ts:21-32 | the addressed square has the cell's chunk key, a local coordinate in `[0, 20)`, and rebuilds the original world cell |
| SceneGraph.SetHex | client/src/objects/TileSystem.ts:45 | the stored colour lies in `[0, 2^24)`, differs from the argument by a multiple of 2^24, and equals it when it already fits |
| SceneGraph.SetHexIgnoresHighBits | client/src/objects/TileSystem.ts:45 | two values that differ only above bit 23 set the same colour |
| TileUpdates.Paint | client/src/objects/TileSystem.ts:42-46 | painting changes only the addressed square: its colour becomes the decoded colour, its opacity 0.5; its texture stays; no square is added |
| TileUpdates.PaintIdempotent | client/src/objects/TileSystem.ts:44-46 | applying the same update twice gives the same tiles as applying it once |
| TileUpdates.PaintLastWins | client/src/objects/TileSystem.ts:44-46 | of two updates to the same square the later one decides its material |
| TileUpdates.PaintCommutes | client/src/objects/TileSystem.ts:42-46 | updates to different squares give the same tiles in either order |
| TileUpdates.TileIndexSelectsSquare | client/src/objects/TileSystem.ts:35-43 | in a chunk laid out by `createChunk`, the computed child index holds a square, never a grid line, made for the cell's local coordinate |
| TileUpdates.DefaultUpdateDropped | client/src/objects/TileSystem.ts:16 | the `(0, 0, '')` default addresses chunk `(-250, -250)`, which is never loaded |
| TileUpdates.TileSystem.constructor | client/src/objects/TileSystem.ts:8 | holds the chunk manager and the colour decoding |
| TileUpdates.TileSystem.UpdateTile | client/src/objects/TileSystem.ts:20-53 | the square materials become `Paint(old tiles, addressed square, low 24 bits of the decoded colour)`; an unloaded chunk leaves them unchanged; only the addressed mesh may be changed |
| TileUpdates.TileSystem.OnTileComponentUpdate | client/src/objects/TileSystem.ts:10-18 | applies the record's cell and colour or the `(0, 0, '')` default; a missing record changes nothing |
| SceneInput.TexturesDistinct | client/src/objects/Scene.ts:313-319 | the rock, paper and scissors texture paths are three different strings |
| SceneInput.Scene.GetSelectedTexture | client/src/objects/Scene.ts:310-321 | the hover texture is always one of the three texture paths |
| SceneInput.Scene.SelectedTextureByFaction | client/src/objects/Scene.ts:310-321 | rock exactly for faction 1, scissors exactly for faction 3, paper for faction 2 and every other faction |
| SceneInput.Scene.SelectedTextureIgnoresState | client/src/objects/Scene.ts:310-311 | the `state` argument does not affect the answer |
| SceneInput.Scene.OnPlayerUpdate | client/src/objects/Scene.ts:302-308 | a player record's faction becomes `selectedFaction`; a removed record (the callback throws) leaves it unchanged |
| SceneInput.Scene.constructor | client/src/objects/Scene.ts:19-42 | nothing hovered, no remembered material, faction 1 |
| SceneInput.HoverMaterial | client/src/objects/Scene.ts:288-293 | the hover material carries the selected texture at opacity 0.7 |
| SceneInput.ClickedCell | client/src/objects/Scene.ts:157-162 | for a local offset in `[0, 20)` the tile mapping sends the built cell to chunk `floor(position/20)` and back to that local offset |
| SceneInput.ClickInvertsTileAddress | client/src/objects/Scene.ts:157-162 | a group at `cx*20` yields chunk index `cx` again, and `updateTile` of the clicked cell addresses the same chunk key and local cell |
| SceneInput.ClickPaintsClickedSquare | client/src/objects/Scene.ts:147-162 | a click on a loaded square sends the cell whose update paints that same mesh |
| SceneInput.Scene.OnMouseHover | client/src/objects/Scene.ts:270-299 | the same mesh as before changes nothing; otherwise the previous mesh gets its remembered material back, then the new mesh is remembered with its material and shows the hover material, or nothing is hovered |
| SceneInput.PaintWhileHovered | client/src/objects/Scene.ts:279-298 | a tile update for a hovered square, followed by the pointer leaving it, leaves the square with its material from before the hover |

## Left out

- The `squares` side table is written by `createChunk` and never read or cleared, so it is left out.
- The 2000 ms `debounceTime` of the coordinates subject is not modelled. The subject is a last-value cell (`pendingCoordinates`), and `DeliverPending` stands for the quiet period ending.
- ChunkStream.ChunkManager.UpdateSubscription: the await runs within the call, so subscription requests that are in flight at the same time and interleave are not modelled. When two calls overlap, both cancel the same held handle and the first new handle is overwritten without being cancelled, so `OneLive` holds only when calls do not overlap.
- `getSyncEntities` and `getEntityIdFromKeys` are calls to the remote store and a hash. A request records its coordinate list, and the handle or rejection it yields is a parameter.
- `performance.now()` is the `currentTime` parameter.
- `distanceTo` is compared through the squared distance over exact reals. Floating-point rounding of positions, distances and `Math.floor` is not modelled.
- `shortString.decodeShortString` with `parseInt` is the opaque total function `decodeColor` to integers; `setHex` then keeps its low 24 bits (`SetHex`). A `NaN` result of `parseInt` is not distinguished.
- The faction `parseInt` reads in `setupPlayerSystem` is an integer input; a `NaN` faction, which the texture switch would send to paper, is not distinguished.
- Three.js rendering is not modelled: geometries, rotations, square offsets of 0.5, line materials, and the y coordinate of a group's position.
- Raycasting, mouse coordinates and the camera are not modelled. The mesh under the pointer, the group position and the local offset of a click are given as inputs.
- The spinner, the context menu, the `paint` transaction and the wait on `defineSystem` after a click are DOM and transaction I/O, so they are left out.
- `console.log` calls are left out.
- Chunk keys are `(cx, cz)` pairs rather than the strings `"cx,cz"`. The `split(',').map(Number)` in the unload loop gives back the same pair.
- The unload loop visits the map's entries in insertion order. `UnloadDistant` takes the keys in any order, and its result does not depend on that order.
- `coordinates` is undefined before the first update and starts as the empty list here.
- The `worldSize` getter (client/src/objects/ChunkManager.ts:143-145) only returns a constant, so it is left out.
- The `THREE.Scene` object passed to `ChunkManager`, with its lights and other children, is left out: the `scene` field holds only the chunk groups. The `dojo` constructor parameter is left out as well.
