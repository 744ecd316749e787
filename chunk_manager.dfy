/**
 * The `ChunkManager` class of ChunkManager.ts: the map of loaded chunks, the
 * coordinate list for the remote subscription, the debounced subscription
 * handle and the update gate.
 */
module ChunkStream {
  import opened Wrappers
  import opened CoordinateMapper
  import opened SceneGraph
  import opened ChunkGrid

  /** Distance the camera must move before the chunks are recomputed (`updateThreshold`). */
  const UPDATE_THRESHOLD: real := 8.0

  /** Milliseconds between chunk updates (`chunkUpdateInterval`). */
  const CHUNK_UPDATE_INTERVAL: real := 100.0

  /** A camera position. */
  datatype Vector3 = Vector3(x: real, y: real, z: real)

  /** The square of `a.distanceTo(b)`; comparing it with the squared threshold avoids the square root. */
  function DistanceSquared(a: Vector3, b: Vector3): real
  {
    (a.x - b.x) * (a.x - b.x) + (a.y - b.y) * (a.y - b.y) + (a.z - b.z) * (a.z - b.z)
  }

  /**
   * The gate of `update`: more than `chunkUpdateInterval` since the last
   * update and a move of more than `updateThreshold`.  Distances are never
   * negative, so `distanceTo > 8` holds exactly when the squared distance
   * exceeds 64.
   */
  predicate ShouldUpdate(now: real, lastTime: real, p: Vector3, last: Vector3)
  {
    now - lastTime > CHUNK_UPDATE_INTERVAL && DistanceSquared(p, last) > UPDATE_THRESHOLD * UPDATE_THRESHOLD
  }

  /** No time passed or no movement keeps the gate closed; in particular a
   * second `update` at the position just recorded does nothing. */
  lemma GateNeedsTimeAndMovement(now: real, lastTime: real, p: Vector3, last: Vector3)
    ensures ShouldUpdate(now, lastTime, p, last) ==> now > lastTime + CHUNK_UPDATE_INTERVAL && p != last
    ensures !ShouldUpdate(now, lastTime, p, p)
  {
  }

  /** A move of more than `updateThreshold` along the x axis alone opens the distance part of the gate. */
  lemma AxisMoveOpensGate(p: Vector3, last: Vector3)
    requires p.x - last.x > UPDATE_THRESHOLD || last.x - p.x > UPDATE_THRESHOLD
    ensures DistanceSquared(p, last) > UPDATE_THRESHOLD * UPDATE_THRESHOLD
  {
    var d := p.x - last.x;
    assert d * d > UPDATE_THRESHOLD * UPDATE_THRESHOLD by {
      if d > UPDATE_THRESHOLD {
        assert d * d > UPDATE_THRESHOLD * d;
      } else {
        assert d * d > UPDATE_THRESHOLD * -d;
      }
    }
    assert (p.y - last.y) * (p.y - last.y) >= 0.0;
    assert (p.z - last.z) * (p.z - last.z) >= 0.0;
  }

  /**
   * The clamped chunk under the camera (`loadChunksAroundCamera`, the floor
   * division by `chunkSize` and the clamp).  Inside the world it is the chunk
   * whose square holds the camera's horizontal position.
   */
  function CameraChunk(p: Vector3): (c: ChunkKey)
    ensures InBounds(c)
    ensures 0.0 <= p.x < MAX_WORLD_SIZE as real ==> (c.0 * CHUNK_SIZE) as real <= p.x < (c.0 * CHUNK_SIZE + CHUNK_SIZE) as real
    ensures 0.0 <= p.z < MAX_WORLD_SIZE as real ==> (c.1 * CHUNK_SIZE) as real <= p.z < (c.1 * CHUNK_SIZE + CHUNK_SIZE) as real
    ensures p.x < 0.0 ==> c.0 == 0
    ensures p.x >= MAX_WORLD_SIZE as real ==> c.0 == WORLD_CHUNKS - 1
    ensures p.z < 0.0 ==> c.1 == 0
    ensures p.z >= MAX_WORLD_SIZE as real ==> c.1 == WORLD_CHUNKS - 1
  {
    (Clamp((p.x / CHUNK_SIZE as real).Floor), Clamp((p.z / CHUNK_SIZE as real).Floor))
  }

  /** An opaque handle to a live remote subscription. */
  datatype Handle = Handle(id: nat)

  /** A square of a loaded chunk: the chunk and the local cell. */
  datatype Slot = Slot(chunk: ChunkKey, x: int, z: int)

  class ChunkManager {
    /** `loadedChunks`, keyed by chunk coordinate. */
    var loadedChunks: map<ChunkKey, Chunk>
    /** The chunk groups added to the three.js scene. */
    var scene: set<Chunk>
    /** `coordinates`: the world cells the next subscription is scoped to. */
    var coordinates: seq<Cell>
    /** The last list pushed into the debounced `coordinatesSubject` and not yet delivered. */
    var pendingCoordinates: Option<seq<Cell>>
    /** `subscription`: the handle most recently returned by the remote store. */
    var subscription: Option<Handle>
    /** Every handle `cancel` was called on, in order. */
    var cancelled: seq<Handle>
    /** Every scope a subscription was requested for, in order. */
    var requests: seq<seq<Cell>>
    /** Every handle the remote store has returned so far. */
    ghost var issued: seq<Handle>
    var lastUpdatePosition: Vector3
    var lastChunkUpdateTime: real

    /** Only in-bounds chunks are loaded, each laid out as `createChunk` builds it, and the scene holds exactly them. */
    ghost predicate Valid()
      reads this`loadedChunks, this`scene
    {
      && (forall k :: k in loadedChunks ==> InBounds(k) && ChunkLayout(k, loadedChunks[k]))
      && scene == loadedChunks.Values
    }

    constructor ()
      ensures Valid()
      ensures loadedChunks == map[] && scene == {} && coordinates == [] && pendingCoordinates == None
      ensures subscription == None && cancelled == [] && requests == [] && issued == []
      ensures lastUpdatePosition == Vector3(0.0, 0.0, 0.0) && lastChunkUpdateTime == 0.0
      ensures OneLive()
    {
      loadedChunks, scene, coordinates, pendingCoordinates := map[], {}, [], None;
      subscription, cancelled, requests, issued := None, [], [], [];
      lastUpdatePosition, lastChunkUpdateTime := Vector3(0.0, 0.0, 0.0), 0.0;
    }

    /**
     * At most one subscription is live: every handle the store returned has
     * been cancelled, except the one held in `subscription`.  Each
     * `updateSubscription` runs here as one step; two calls overlapping across
     * the await would both cancel the same handle and leave the first new
     * one live.
     */
    ghost predicate OneLive()
      reads this`issued, this`cancelled, this`subscription
    {
      forall h :: h in issued ==> h in cancelled || subscription == Some(h)
    }

    /** `s` names a square of a loaded chunk. */
    ghost predicate IsSlot(s: Slot)
      reads this`loadedChunks
    {
      s.chunk in loadedChunks && 0 <= s.x < CHUNK_SIZE && 0 <= s.z < CHUNK_SIZE
    }

    /** The squares of all loaded chunks. */
    ghost function Slots(): (r: set<Slot>)
      reads this`loadedChunks
      ensures forall s :: s in r <==> IsSlot(s)
    {
      var r := set k, x, z | k in loadedChunks && 0 <= x < CHUNK_SIZE && 0 <= z < CHUNK_SIZE :: Slot(k, x, z);
      assert forall s :: IsSlot(s) ==> s == Slot(s.chunk, s.x, s.z);
      r
    }

    /** The mesh of square `s`. */
    ghost function MeshAt(s: Slot): (m: Mesh)
      requires Valid() && IsSlot(s)
      reads this`loadedChunks, this`scene
      ensures m.chunk == s.chunk && m.x == s.x && m.z == s.z
    {
      assert SquareAt(loadedChunks[s.chunk].children, s.chunk, s.x, s.z);
      loadedChunks[s.chunk].children[s.x * CHUNK_SIZE + s.z].mesh
    }

    /** The meshes of all loaded squares. */
    ghost function Meshes(): set<Mesh>
      requires Valid()
      reads this`loadedChunks, this`scene
    {
      set s | s in Slots() :: MeshAt(s)
    }

    /** The material of every loaded square. */
    ghost function Tiles(): (t: map<Slot, Material>)
      requires Valid()
      reads this`loadedChunks, this`scene, Meshes()`material
      ensures t.Keys == Slots()
    {
      map s | s in Slots() :: MeshAt(s).material
    }

    /**
     * `createChunk`: a group at `(chunkX, chunkZ) * chunkSize` holding the
     * `chunkSize²` new blank squares in x-outer, z-inner order, then the grid lines.
     */
    method CreateChunk(chunkX: int, chunkZ: int) returns (chunk: Chunk)
      ensures ChunkLayout((chunkX, chunkZ), chunk)
      ensures fresh(SquareMeshes(chunk)) && BlankSquares(chunk)
    {
      var key := (chunkX, chunkZ);
      var children: seq<Child> := [];
      for x := 0 to CHUNK_SIZE
        invariant |children| == x * CHUNK_SIZE
        invariant forall a, b :: 0 <= a < x && 0 <= b < CHUNK_SIZE ==> SquareAt(children, key, a, b)
        invariant forall i :: 0 <= i < |children| ==>
          children[i].Square? && fresh(children[i].mesh) && children[i].mesh.material == BLANK
      {
        for z := 0 to CHUNK_SIZE
          invariant |children| == x * CHUNK_SIZE + z
          invariant forall a, b :: 0 <= a < x && 0 <= b < CHUNK_SIZE ==> SquareAt(children, key, a, b)
          invariant forall b :: 0 <= b < z ==> SquareAt(children, key, x, b)
          invariant forall i :: 0 <= i < |children| ==>
            children[i].Square? && fresh(children[i].mesh) && children[i].mesh.material == BLANK
        {
          var square := new Mesh(key, x, z, BLANK);
          ghost var before := children;
          children := children + [Square(square)];
          forall a, b | 0 <= a < x && 0 <= b < CHUNK_SIZE
            ensures SquareAt(children, key, a, b)
          {
            SquareAtAppend(before, [Square(square)], key, a, b);
          }
          forall b | 0 <= b < z
            ensures SquareAt(children, key, x, b)
          {
            SquareAtAppend(before, [Square(square)], key, x, b);
          }
          assert SquareAt(children, key, x, z);
        }
      }
      ghost var squares := children;
      for i := 0 to CHUNK_SIZE + 1
        invariant |children| == CHUNK_SIZE * CHUNK_SIZE + 2 * i
        invariant children[..CHUNK_SIZE * CHUNK_SIZE] == squares
        invariant forall j :: 0 <= j < i ==> LinesAt(children, CHUNK_SIZE * CHUNK_SIZE, j)
        invariant forall j :: CHUNK_SIZE * CHUNK_SIZE <= j < |children| ==> children[j].GridLine?
      {
        ghost var before := children;
        var lines := [GridLine(i, 0, i, CHUNK_SIZE), GridLine(0, i, CHUNK_SIZE, i)];
        children := children + lines;
        forall j | 0 <= j < i
          ensures LinesAt(children, CHUNK_SIZE * CHUNK_SIZE, j)
        {
          LinesAtAppend(before, lines, CHUNK_SIZE * CHUNK_SIZE, j);
        }
        assert LinesAt(children, CHUNK_SIZE * CHUNK_SIZE, i);
      }
      chunk := Chunk((chunkX * CHUNK_SIZE, chunkZ * CHUNK_SIZE), children);
      forall a, b | 0 <= a < CHUNK_SIZE && 0 <= b < CHUNK_SIZE
        ensures SquareAt(children, key, a, b)
      {
        assert SquareAt(squares, key, a, b);
        assert children[a * CHUNK_SIZE + b] == squares[a * CHUNK_SIZE + b];
      }
      assert forall i :: 0 <= i < |children| && children[i].Square? ==> i < CHUNK_SIZE * CHUNK_SIZE && children[i] == squares[i];
    }

    /**
     * What one load/unload step around camera chunk `c` did to the loaded
     * chunks `before` with square materials `beforeTiles`: the keys become
     * `Retained(before keys, c)`, a chunk that stays is the very same group,
     * a square that stays keeps its material and a square that is added is blank.
     */
    ghost predicate LoadedAround(before: map<ChunkKey, Chunk>, beforeTiles: map<Slot, Material>, c: ChunkKey)
      requires Valid()
      reads this`loadedChunks, this`scene, Meshes()`material
    {
      && loadedChunks.Keys == Retained(before.Keys, c)
      && (forall k :: k in before && k in loadedChunks ==> loadedChunks[k] == before[k])
      && (forall s :: s in Tiles() ==> Tiles()[s] == if s in beforeTiles then beforeTiles[s] else BLANK)
    }

    /** The body of the load loop: create the chunk at `(chunkX, chunkZ)` when it is in bounds and not loaded. */
    method LoadChunk(chunkX: int, chunkZ: int)
      requires Valid()
      modifies this`loadedChunks, this`scene
      ensures Valid()
      ensures loadedChunks.Keys == old(loadedChunks.Keys) + (if InBounds((chunkX, chunkZ)) then {(chunkX, chunkZ)} else {})
      ensures forall k :: k in old(loadedChunks) ==> loadedChunks[k] == old(loadedChunks[k])
      ensures forall k :: k in loadedChunks && k !in old(loadedChunks) ==>
        fresh(SquareMeshes(loadedChunks[k])) && BlankSquares(loadedChunks[k])
    {
      if chunkX >= 0 && chunkX < WORLD_CHUNKS && chunkZ >= 0 && chunkZ < WORLD_CHUNKS {
        var chunkKey := (chunkX, chunkZ);
        if chunkKey !in loadedChunks {
          var chunk := CreateChunk(chunkX, chunkZ);
          ValuesInsert(loadedChunks, chunkKey, chunk);
          scene := scene + {chunk};
          loadedChunks := loadedChunks[chunkKey := chunk];
        }
      }
    }

    /** The inner offset loop of `loadUnloadChunks` for offset `dx`: turns `(dx + d) * (2d + 1)` onwards. */
    method LoadRow(c: ChunkKey, dx: int, ghost before: set<ChunkKey>)
      requires Valid()
      requires -CHUNK_LOAD_DISTANCE <= dx <= CHUNK_LOAD_DISTANCE
      requires loadedChunks.Keys == before + KeysUpTo(c, (dx + CHUNK_LOAD_DISTANCE) * SPAN)
      modifies this`loadedChunks, this`scene
      ensures Valid()
      ensures loadedChunks.Keys == before + KeysUpTo(c, (dx + CHUNK_LOAD_DISTANCE + 1) * SPAN)
      ensures old(loadedChunks.Keys) <= loadedChunks.Keys
      ensures forall k :: k in old(loadedChunks) ==> loadedChunks[k] == old(loadedChunks[k])
      ensures forall k :: k in loadedChunks && k !in old(loadedChunks) ==>
        fresh(SquareMeshes(loadedChunks[k])) && BlankSquares(loadedChunks[k])
    {
      ghost var n: nat := (dx + CHUNK_LOAD_DISTANCE) * SPAN;
      for dz := -CHUNK_LOAD_DISTANCE to CHUNK_LOAD_DISTANCE + 1
        invariant n == OffsetIndex(dx, dz)
        invariant Valid()
        invariant loadedChunks.Keys == before + KeysUpTo(c, n)
        invariant old(loadedChunks.Keys) <= loadedChunks.Keys
        invariant forall k :: k in old(loadedChunks) ==> loadedChunks[k] == old(loadedChunks[k])
        invariant forall k :: k in loadedChunks && k !in old(loadedChunks) ==>
          fresh(SquareMeshes(loadedChunks[k])) && BlankSquares(loadedChunks[k])
      {
        ghost var keys := loadedChunks.Keys;
        LoadChunk(c.0 + dx, c.1 + dz);
        KeysStep(before, keys, loadedChunks.Keys, c, n, dx, dz);
        n := n + 1;
      }
    }

    /** The two offset loops of `loadUnloadChunks`. */
    method LoadNeighbourhood(c: ChunkKey)
      requires Valid()
      modifies this`loadedChunks, this`scene
      ensures Valid()
      ensures loadedChunks.Keys == old(loadedChunks.Keys) + NeighbourKeys(c)
      ensures forall k :: k in old(loadedChunks) ==> loadedChunks[k] == old(loadedChunks[k])
      ensures forall k :: k in loadedChunks && k !in old(loadedChunks) ==>
        fresh(SquareMeshes(loadedChunks[k])) && BlankSquares(loadedChunks[k])
    {
      for dx := -CHUNK_LOAD_DISTANCE to CHUNK_LOAD_DISTANCE + 1
        invariant Valid()
        invariant loadedChunks.Keys == old(loadedChunks.Keys) + KeysUpTo(c, (dx + CHUNK_LOAD_DISTANCE) * SPAN)
        invariant forall k :: k in old(loadedChunks) ==> loadedChunks[k] == old(loadedChunks[k])
        invariant forall k :: k in loadedChunks && k !in old(loadedChunks) ==>
          fresh(SquareMeshes(loadedChunks[k])) && BlankSquares(loadedChunks[k])
      {
        LoadRow(c, dx, old(loadedChunks.Keys));
      }
      KeysUpToAll(c);
    }

    /**
     * `loadUnloadChunks`: create every missing in-bounds chunk within the load
     * distance of the camera chunk, then drop every loaded chunk farther than
     * one ring beyond it.
     */
    method LoadUnloadChunks(cameraChunkX: int, cameraChunkZ: int)
      requires Valid()
      modifies this`loadedChunks, this`scene
      ensures Valid()
      ensures LoadedAround(old(loadedChunks), old(Tiles()), (cameraChunkX, cameraChunkZ))
      ensures forall k :: k in loadedChunks && k !in old(loadedChunks) ==> fresh(SquareMeshes(loadedChunks[k]))
    {
      var c := (cameraChunkX, cameraChunkZ);
      ghost var meshes := Meshes();
      assert forall m :: m in meshes ==> allocated(m);
      LoadNeighbourhood(c);
      ghost var afterLoad := loadedChunks;
      UnloadDistant(c);
      LoadThenUnload(old(loadedChunks.Keys), afterLoad.Keys, loadedChunks.Keys, c);
      forall k | k in loadedChunks && k !in old(loadedChunks)
        ensures fresh(SquareMeshes(loadedChunks[k])) && BlankSquares(loadedChunks[k])
      {
        assert k in afterLoad && loadedChunks[k] == afterLoad[k];
      }
      forall k | k in old(loadedChunks) && k in loadedChunks
        ensures loadedChunks[k] == old(loadedChunks[k])
      {
        assert loadedChunks[k] == afterLoad[k];
      }
      assert unchanged(meshes);
      TilesKeptOrBlank(this);
    }

    /** The unload loop of `loadUnloadChunks`: delete every chunk farther than `chunkLoadDistance + 1`. */
    method UnloadDistant(c: ChunkKey)
      requires Valid()
      modifies this`loadedChunks, this`scene
      ensures Valid()
      ensures loadedChunks.Keys == set k | k in old(loadedChunks) && Chebyshev(k, c) <= CHUNK_LOAD_DISTANCE + 1
      ensures forall k :: k in loadedChunks ==> loadedChunks[k] == old(loadedChunks[k])
    {
      var entries := loadedChunks.Keys;
      while entries != {}
        invariant entries <= old(loadedChunks).Keys
        invariant Valid()
        invariant loadedChunks.Keys == (set k | k in old(loadedChunks) && (k in entries || Chebyshev(k, c) <= CHUNK_LOAD_DISTANCE + 1))
        invariant forall k :: k in loadedChunks ==> loadedChunks[k] == old(loadedChunks[k])
        decreases entries
      {
        var chunkKey :| chunkKey in entries;
        if Chebyshev(chunkKey, c) > CHUNK_LOAD_DISTANCE + 1 {
          ValuesRemove(loadedChunks, chunkKey);
          scene := scene - {loadedChunks[chunkKey]};
          loadedChunks := loadedChunks - {chunkKey};
        }
        entries := entries - {chunkKey};
      }
    }

    /** `addChunkCoordinates`: append the world cells of chunk `(chunkX, chunkZ)`, x outer, z inner. */
    method AddChunkCoordinates(chunkX: int, chunkZ: int)
      modifies this`coordinates
      ensures coordinates == old(coordinates) + ChunkCells((chunkX, chunkZ))
    {
      ghost var cells := ChunkCells((chunkX, chunkZ));
      for x := 0 to CHUNK_SIZE
        invariant coordinates == old(coordinates) + cells[..x * CHUNK_SIZE]
      {
        for z := 0 to CHUNK_SIZE
          invariant coordinates == old(coordinates) + cells[..x * CHUNK_SIZE + z]
        {
          var worldX := chunkX * CHUNK_SIZE + x + OFFSET;
          var worldZ := chunkZ * CHUNK_SIZE + z + OFFSET;
          assert cells[TileIndex(x, z)] == (worldX, worldZ);
          assert cells[..x * CHUNK_SIZE + z + 1] == cells[..x * CHUNK_SIZE + z] + [(worldX, worldZ)];
          coordinates := coordinates + [(worldX, worldZ)];
        }
      }
      assert cells[..CHUNK_SIZE * CHUNK_SIZE] == cells;
    }

    /**
     * `updateCoordinates`: rebuild the subscription scope from the cells of
     * the `(2d+1)²` chunks around the camera chunk, in dx, dz order, with no
     * bounds filter.
     */
    method UpdateCoordinates(cameraChunkX: int, cameraChunkZ: int)
      modifies this`coordinates
      ensures coordinates == VisibleCells((cameraChunkX, cameraChunkZ))
    {
      var c := (cameraChunkX, cameraChunkZ);
      ghost var n: nat := 0;
      coordinates := [];
      for dx := -CHUNK_LOAD_DISTANCE to CHUNK_LOAD_DISTANCE + 1
        invariant n == (dx + CHUNK_LOAD_DISTANCE) * SPAN
        invariant coordinates == CellsUpTo(c, n)
      {
        for dz := -CHUNK_LOAD_DISTANCE to CHUNK_LOAD_DISTANCE + 1
          invariant n == OffsetIndex(dx, dz)
          invariant coordinates == CellsUpTo(c, n)
        {
          NeighbourAtOffset(c, n, dx, dz);
          CellsUpToStep(c, n);
          AddChunkCoordinates(c.0 + dx, c.1 + dz);
          assert coordinates == CellsUpTo(c, n + 1);
          n := n + 1;
        }
      }
      CellsUpToIsPrefix(c, n);
      assert NeighbourChunks(c)[..n] == NeighbourChunks(c);
    }

    /**
     * `updateSubscription`: cancel the held subscription, if any, and request
     * one scoped to `scope`.  `outcome` is what the awaited store call gives:
     * a new handle, or `None` when it rejects, in which case the handle that
     * was just cancelled stays in `subscription`.
     */
    method UpdateSubscription(scope: seq<Cell>, outcome: Option<Handle>)
      requires OneLive()
      modifies this`subscription, this`cancelled, this`requests, this`issued
      ensures OneLive()
      ensures cancelled == old(cancelled) + (if old(subscription).Some? then [old(subscription).value] else [])
      ensures requests == old(requests) + [scope]
      ensures subscription == if outcome.Some? then outcome else old(subscription)
      ensures issued == old(issued) + (if outcome.Some? then [outcome.value] else [])
    {
      if subscription.Some? {
        cancelled := cancelled + [subscription.value];
      }
      requests := requests + [scope];
      if outcome.Some? {
        issued := issued + [outcome.value];
        subscription := outcome;
      }
    }

    /**
     * The debounced `coordinatesSubject` fires after a quiet period: the last
     * list pushed since the previous firing goes to `updateSubscription`;
     * earlier pushes are dropped.
     */
    method DeliverPending(outcome: Option<Handle>)
      requires OneLive()
      modifies this`pendingCoordinates, this`subscription, this`cancelled, this`requests, this`issued
      ensures OneLive()
      ensures pendingCoordinates == None
      ensures old(pendingCoordinates) == None ==>
        subscription == old(subscription) && cancelled == old(cancelled) && requests == old(requests) && issued == old(issued)
      ensures old(pendingCoordinates).Some? ==> requests == old(requests) + [old(pendingCoordinates).value]
      ensures old(pendingCoordinates).Some? ==> subscription == if outcome.Some? then outcome else old(subscription)
      ensures old(pendingCoordinates).Some? ==>
        cancelled == old(cancelled) + (if old(subscription).Some? then [old(subscription).value] else [])
      ensures old(pendingCoordinates).Some? ==> issued == old(issued) + (if outcome.Some? then [outcome.value] else [])
    {
      if pendingCoordinates.Some? {
        UpdateSubscription(pendingCoordinates.value, outcome);
        pendingCoordinates := None;
      }
    }

    /**
     * `loadChunksAroundCamera`: compute the clamped camera chunk, rebuild the
     * scope, load and unload around it, and push the scope into the debounced
     * subject.
     */
    method LoadChunksAroundCamera(cameraPosition: Vector3)
      requires Valid()
      modifies this`loadedChunks, this`scene, this`coordinates, this`pendingCoordinates
      ensures Valid()
      ensures coordinates == VisibleCells(CameraChunk(cameraPosition))
      ensures LoadedAround(old(loadedChunks), old(Tiles()), CameraChunk(cameraPosition))
      ensures forall k :: k in loadedChunks && k !in old(loadedChunks) ==> fresh(SquareMeshes(loadedChunks[k]))
      ensures pendingCoordinates == Some(coordinates)
    {
      var (clampedCameraChunkX, clampedCameraChunkZ) := CameraChunk(cameraPosition);
      assert forall m :: m in Meshes() ==> allocated(m);
      UpdateCoordinates(clampedCameraChunkX, clampedCameraChunkZ);
      assert Valid() && loadedChunks == old(loadedChunks) && Tiles() == old(Tiles());
      LoadUnloadChunks(clampedCameraChunkX, clampedCameraChunkZ);
      pendingCoordinates := Some(coordinates);
    }

    /**
     * `update`: when more than `chunkUpdateInterval` ms have passed since the
     * last update and the camera has moved more than `updateThreshold` since
     * then, run the load step and record the position and time; otherwise
     * change nothing.  `currentTime` is the clock reading.
     */
    method Update(cameraPosition: Vector3, currentTime: real)
      requires Valid()
      modifies this`loadedChunks, this`scene, this`coordinates, this`pendingCoordinates,
        this`lastUpdatePosition, this`lastChunkUpdateTime
      ensures Valid()
      ensures ShouldUpdate(currentTime, old(lastChunkUpdateTime), cameraPosition, old(lastUpdatePosition)) ==>
        && coordinates == VisibleCells(CameraChunk(cameraPosition))
        && LoadedAround(old(loadedChunks), old(Tiles()), CameraChunk(cameraPosition))
        && (forall k :: k in loadedChunks && k !in old(loadedChunks) ==> fresh(SquareMeshes(loadedChunks[k])))
        && pendingCoordinates == Some(coordinates)
        && lastUpdatePosition == cameraPosition
        && lastChunkUpdateTime == currentTime
      ensures !ShouldUpdate(currentTime, old(lastChunkUpdateTime), cameraPosition, old(lastUpdatePosition)) ==>
        unchanged(this)
    {
      if currentTime - lastChunkUpdateTime > CHUNK_UPDATE_INTERVAL
        && DistanceSquared(cameraPosition, lastUpdatePosition) > UPDATE_THRESHOLD * UPDATE_THRESHOLD
      {
        LoadChunksAroundCamera(cameraPosition);
        lastUpdatePosition, lastChunkUpdateTime := cameraPosition, currentTime;
      }
    }
  }

  /**
   * Loading the neighbourhood and then unloading beyond one more ring leaves
   * exactly the `Retained` keys.
   */
  lemma LoadThenUnload(before: set<ChunkKey>, loaded: set<ChunkKey>, after: set<ChunkKey>, c: ChunkKey)
    requires loaded == before + NeighbourKeys(c)
    requires after == set k | k in loaded && Chebyshev(k, c) <= CHUNK_LOAD_DISTANCE + 1
    ensures after == Retained(before, c)
  {
    NeighbourKeysAre(c);
  }

  /**
   * A second load step around the same camera chunk changes nothing: the
   * retained keys are already retained, and every key that stays keeps its
   * chunk.
   */
  lemma SecondLoadKeepsChunks(before: map<ChunkKey, Chunk>, once: map<ChunkKey, Chunk>, twice: map<ChunkKey, Chunk>, c: ChunkKey)
    requires once.Keys == Retained(before.Keys, c)
    requires twice.Keys == Retained(once.Keys, c)
    requires forall k :: k in once && k in twice ==> twice[k] == once[k]
    ensures twice == once
  {
    RetainedIdempotent(before.Keys, c);
  }

  /**
   * When the chunks that stay are the same groups, their meshes were not
   * touched and the added chunks are blank, every square keeps its material
   * or is blank.
   */
  twostate lemma TilesKeptOrBlank(m: ChunkManager)
    requires old(m.Valid()) && m.Valid()
    requires forall k :: k in old(m.loadedChunks) && k in m.loadedChunks ==> m.loadedChunks[k] == old(m.loadedChunks[k])
    requires forall k :: k in m.loadedChunks && k !in old(m.loadedChunks) ==> BlankSquares(m.loadedChunks[k])
    requires unchanged(old(m.Meshes()))
    ensures forall s :: s in m.Tiles() ==> m.Tiles()[s] == if s in old(m.Tiles()) then old(m.Tiles())[s] else BLANK
  {
    forall s | s in m.Tiles()
      ensures m.Tiles()[s] == if s in old(m.Tiles()) then old(m.Tiles())[s] else BLANK
    {
      var chunk := m.loadedChunks[s.chunk];
      assert SquareAt(chunk.children, s.chunk, s.x, s.z);
      if s.chunk in old(m.loadedChunks) {
        assert old(m.MeshAt(s)) in old(m.Meshes());
      } else {
        assert BlankSquares(chunk);
      }
    }
  }

  /** Adding a chunk under a new key adds it to the map's values. */
  lemma ValuesInsert(m: map<ChunkKey, Chunk>, k: ChunkKey, chunk: Chunk)
    requires k !in m
    ensures m[k := chunk].Values == m.Values + {chunk}
  {
    var m' := m[k := chunk];
    forall v | v in m.Values ensures v in m'.Values {
      var j :| j in m && m[j] == v;
      assert m'[j] == v;
    }
    assert m'[k] == chunk;
  }

  /** Deleting a key removes its chunk from the values when no other key holds the same chunk. */
  lemma ValuesRemove(m: map<ChunkKey, Chunk>, k: ChunkKey)
    requires k in m
    requires forall j :: j in m ==> ChunkLayout(j, m[j])
    ensures (m - {k}).Values == m.Values - {m[k]}
  {
    var m' := m - {k};
    forall v | v in m.Values && v != m[k] ensures v in m'.Values {
      var j :| j in m && m[j] == v;
      assert m'[j] == v;
    }
    forall v | v in m'.Values ensures v != m[k] {
      var j :| j in m' && m'[j] == v;
      assert m[j].position != m[k].position;
    }
  }
}
