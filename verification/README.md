# Chunk streaming in a voxel engine, modelled in Dafny

This project models the chunk-streaming core of a small Rust voxel engine. The
core keeps the world as a sparse store of fixed-size chunks and decides each
frame which chunks to generate, mesh, draw and drop around the camera. It also
builds the mesh of a small placeholder world one cube per solid block. There
are two generations of the streaming loader, and both are modelled:

- **`Coords`** (`coords.dfy`): integer chunk coordinates, the six face
  neighbours, Chebyshev distance, and Rust's truncating `/` next to floor
  division.
- **`Seqs`** (`seqs.dfy`): sequence vocabulary shared by both loaders.
  - What a run of `VecDeque::push_front` leaves: the pushed items reversed,
    ahead of the old queue.
  - `filter` and `take(n)`.
  - Distinctness.
- **`Host`** (`host.dfy`): the entity framework's spawn and despawn, seen only
  through their effect. A `Scene` maps live entity handles to what each one
  draws. A new handle is always unused.
- **`Store`** (`store.dfy`, `src/world.rs`): the chunk store.
  - Generation on demand, skipping coordinates that are already stored.
  - Presence and emptiness queries.
  - The neighbour lookups that meshing needs.
  - Block-to-chunk conversion.
- **`Streaming`** (`streaming.dfy`, `src/chunks/chunk_loader.rs`): the
  3-D loader.
  - A `ChunkLoader` class owns the generate, load and unload queues and the
    loaded map.
  - Its four stages change them in place: gather, generate, load, unload.
  - The gather stage is a breadth-first expansion from the camera chunk,
    bounded by Chebyshev distance and biased forward.
  - Admission takes at most 16 chunks per frame. A chunk is admitted only if
    it is in neither the generate nor the load queue, not loaded and not
    known to be empty.
- **`Columns`** (`columns.dfy`, `src/world/ecs/chunk_loader.rs`): the older
  column loader.
  - It works on a square of 2-D columns.
  - Generation takes the 8 nearest ungenerated columns.
  - Loading diffs the drawn columns against the ready ones and drops the
    stale ones. It then spawns the 8 best-facing new ones, ordered by
    `chunk_camera_direction`.
  - The column world it calls into is a `ColumnWorld` class whose
    operations are parameters.
- **`Placeholder`** (`placeholder.dfy`, `src/world/mod.rs`): the 16×16×16
  block world.
  - Its constructor fills the block array.
  - `generate_chunk_mesh` is a triple loop. For each solid block it appends a
    translated cube, and it shifts the cube's indices by 24 per block already
    emitted.
  - `Transform::matrix` builds the model matrix.

Code that changes state in place is modelled as classes whose methods carry
`modifies` clauses. Each method is proved against a specification function or
predicate, and lemmas about those functions carry the promised properties.

## Model

| member | source | states |
|---|---|---|
| Coords.Chebyshev | src/chunks/chunk_loader.rs:217 | the distance is the largest per-axis difference, and it is 0 exactly when the two chunks coincide |
| Coords.Adjacent | src/chunks/chunk_loader.rs:210-213 | six neighbours, each one unit step along a single axis (Manhattan distance 1), hence at Chebyshev distance 1 |
| Coords.AdjacentSymmetric | src/chunks/chunk_loader.rs:210-213 | neighbourhood is symmetric |
| Coords.AdjacentDistinct | src/chunks/chunk_loader.rs:210-213 | the six neighbours are pairwise distinct and never the chunk itself |
| Coords.ChebyshevStep | src/chunks/chunk_loader.rs:210-217 | one step to a neighbour raises the distance to any origin by at most one |
| Coords.TruncDiv | src/world.rs:88-90 | Rust integer `/`: the quotient brackets a non-negative dividend from below and a negative one from above |
| Coords.FloorDiv | src/world.rs:88-90 | corrected quotient: `q*b <= a < (q+1)*b` for every dividend |
| Seqs.PushedFront | src/chunks/chunk_loader.rs:97-103 | pushing items one by one to the front leaves them reversed ahead of the old queue |
| Seqs.ReverseElements | src/chunks/chunk_loader.rs:113-115 | reversal keeps exactly the same elements and keeps them distinct |
| Seqs.FilterSound | src/chunks/chunk_loader.rs:105-110 | every item the filter keeps comes from the input and satisfies the predicate |
| Seqs.FilterComplete | src/chunks/chunk_loader.rs:105-110 | every input item that satisfies the predicate is kept |
| Seqs.FilterDistinct | src/chunks/chunk_loader.rs:105-110 | filtering a repeat-free sequence gives a repeat-free sequence |
| Seqs.FilterAppend | src/chunks/chunk_loader.rs:105-110 | filter distributes over concatenation |
| Seqs.Take | src/chunks/chunk_loader.rs:111 | `take(n)` is the first n items, or everything when shorter |
| Seqs.TakeOfFilterPrefix | src/chunks/chunk_loader.rs:105-111 | once a prefix has yielded n admissions, `take(n)` of the whole filter is decided by that prefix |
| Host.Scene.Spawn | src/chunks/chunk_loader.rs:148-169 | the new handle was unused; it now holds the spawned value and nothing else changes |
| Host.Scene.Despawn | src/chunks/chunk_loader.rs:177 | exactly that entity is removed |
| Store.GenerateOne | src/world.rs:32-44 | an already stored coordinate is left as it is; otherwise the generator's output is added; other entries are unchanged |
| Store.GenerateAllIsFilled | src/world.rs:46-51 | the generation loop yields the old entries plus the generator's output for each listed coordinate that had none |
| Store.GenerateAllEffect | src/world.rs:46-51 | every listed coordinate is generated; old data is kept; nothing unlisted is added |
| Store.GenerateAllAppend | src/world.rs:46-51 | generating a then b is generating a + b |
| Store.GenerateAllIdempotent | src/world.rs:32-51 | a second pass over the same list changes nothing |
| Store.World.GenerateChunk | src/world.rs:32-44 | the store becomes `GenerateOne` of the old store and stays single-writer per coordinate |
| Store.World.GenerateChunks | src/world.rs:46-51 | keys grow by exactly the listed coordinates; old entries keep their data |
| Store.World.GetChunkData | src/world.rs:61-63 | `Some` iff stored, carrying the stored data |
| Store.World.IsChunkGenerated | src/world.rs:73-75 | true iff stored |
| Store.World.IsChunkEmpty | src/world.rs:77-82 | false for an absent chunk; otherwise true iff every voxel is air |
| Store.World.AdjacentChunkData | src/world.rs:65-71 | one lookup per face neighbour, in `adjacent()` order, `Some` iff that neighbour is stored |
| Store.World.GenerateChunkMesh | src/world.rs:53-59 | requires the chunk to be stored (the source unwraps), then meshes it with its six neighbour lookups |
| Store.World.BlockToChunkCoordinate | src/world.rs:88-90 | truncating division: correct bracket for non-negative blocks, rounded toward zero for negative ones |
| Store.World.BlockToChunkLocal | src/world.rs:100-102 | the same conversion as `block_to_chunk_coordinate` |
| Store.TruncationMisplacesNegativeBlocks | src/world.rs:88-90 | block (-1,0,0) is sent to chunk 0, which does not contain it |
| Store.BlockToChunk | src/world.rs:88-90 | corrected conversion: the block lies in the chunk it names |
| Store.BlockToChunkUnique | src/world.rs:88-90 | a block lies in a chunk iff that chunk is the one the corrected conversion names |
| Store.TruncationAgreesOnNonNegative | src/world.rs:88-90 | on non-negative blocks the conversion as written and the corrected one agree |
| Streaming.ChunkWorldPos | src/chunks/chunk_loader.rs:226-232 | the position is a multiple of 16 and lies in the chunk |
| Streaming.ChunkComponents | src/chunks/chunk_loader.rs:234-239 | a block is in the chunk's 0..16 box iff it lies in that chunk |
| Streaming.ChunkBoxesTile | src/chunks/chunk_loader.rs:226-239 | each block is in exactly one chunk's box |
| Streaming.AllChunks | src/chunks/chunk_loader.rs:184-224 | camera chunk first; no repeats; all within the render distance; every later chunk faces forward and is a neighbour of an earlier chunk strictly inside the distance; closed: every forward neighbour of a listed chunk strictly inside the distance is listed too; distance 0 gives just the camera chunk |
| Streaming.WantedDeterminesChunks | src/chunks/chunk_loader.rs:184-224 | the search's result is determined as a set: any two lists meeting these facts for the same camera, cone and distance hold exactly the same chunks |
| Streaming.ReachedPop | src/chunks/chunk_loader.rs:201-204 | popping the front entry into the output keeps every output chunk after the first pushed by an earlier, expanded one |
| Streaming.StackReachedPop | src/chunks/chunk_loader.rs:201-204 | popping the front entry keeps every remaining stacked chunk pushed by an output chunk |
| Streaming.ReachedPush | src/chunks/chunk_loader.rs:210-221 | the neighbours pushed by the last output chunk, when it is inside the distance, are pushed by an output chunk |
| Streaming.VisitFront | src/chunks/chunk_loader.rs:201-221 | one pop: the visited chunk is appended; neighbours are pushed only below the distance; the search invariant is kept |
| Streaming.FrontierPop | src/chunks/chunk_loader.rs:201-208 | a popped entry carries its true distance, within the bound |
| Streaming.FrontierPush | src/chunks/chunk_loader.rs:210-221 | pushing the unseen forward neighbours keeps the search invariant |
| Streaming.PushNeighbours | src/chunks/chunk_loader.rs:210-221 | all six neighbours become seen; exactly the unseen forward ones are pushed, with their distance |
| Streaming.PushableFacts | src/chunks/chunk_loader.rs:214-220 | a neighbour is pushed iff it is unseen and forward, with its Chebyshev distance; no repeats |
| Streaming.NeighboursInCube | src/chunks/chunk_loader.rs:210-217 | neighbours of a chunk strictly inside the radius stay inside it |
| Streaming.SingleCentre | src/chunks/chunk_loader.rs:184-224 | a radius-0 result is just the camera chunk |
| Streaming.AdmittedProperties | src/chunks/chunk_loader.rs:105-111 | at most 16 admissions, each admissible and wanted, no repeats; fewer than 16 only when all admissible chunks were taken |
| Streaming.KnownEmptyMeans | src/chunks/chunk_loader.rs:108 | the known-empty set is exactly the stored chunks whose voxels are all air |
| Streaming.NeighbourhoodCovers | src/chunks/chunk_loader.rs:118-127 | generating a queue's neighbourhood stores each queued chunk and its six neighbours |
| Streaming.DisciplinedQueuesDisjoint | src/chunks/chunk_loader.rs:97-111 | under the queue discipline no chunk is in two queues |
| Streaming.GatherKeepsDiscipline | src/chunks/chunk_loader.rs:97-115 | the gather stage keeps the queue discipline |
| Streaming.GenerateKeepsDiscipline | src/chunks/chunk_loader.rs:118-127 | moving the generate queue onto the load queue keeps the discipline |
| Streaming.LoadKeepsDiscipline | src/chunks/chunk_loader.rs:129-172 | draining the load queue into the loaded map keeps the discipline |
| Streaming.UnloadKeepsDiscipline | src/chunks/chunk_loader.rs:174-181 | draining the unload queue keeps the discipline |
| Streaming.ChunkLoader.constructor | src/chunks/chunk_loader.rs:43-51 | empty queues and loaded map; idle and exclusive |
| Streaming.ChunkLoader.GatherChunks | src/chunks/chunk_loader.rs:54-116 | the wanted list meets the `all_chunks` facts (camera first, distinct, in range, forward, each reached from an earlier inner chunk, every forward neighbour of an inner chunk included), which fix its chunks exactly; generate queue gains the reversed admissions from it; unload queue gains exactly the loaded, unwanted, not yet queued chunks; exclusivity kept |
| Streaming.ChunkLoader.QueueUnloads | src/chunks/chunk_loader.rs:97-103 | the unload queue gains each chunk of the set once, at the front |
| Streaming.ChunkLoader.QueueGeneration | src/chunks/chunk_loader.rs:105-115 | the generate queue gains the reversed admitted chunks at the front |
| Streaming.ChunkLoader.GenerateChunks | src/chunks/chunk_loader.rs:118-127 | generate queue emptied onto the front of the load queue; the store gains each chunk and its neighbours |
| Streaming.ChunkLoader.LoadChunks | src/chunks/chunk_loader.rs:129-172 | load queue emptied; exactly the queued chunks that are stored and not empty become loaded under fresh entities drawing their mesh; others untouched; old entities unchanged and the live handles are the old ones plus the newly issued range; every loaded chunk stays drawn by its entity, and every live entity stays the entity of a loaded chunk |
| Streaming.ChunkLoader.MeshLoadQueue | src/chunks/chunk_loader.rs:137-144 | meshes exactly the queued chunks that are stored and not empty, each with the store's mesh; a repeat-free queue gives one mesh per chunk |
| Streaming.ChunkLoader.SpawnChunks | src/chunks/chunk_loader.rs:146-171 | the j-th meshed chunk is drawn by handle next+j and, for distinct chunks, recorded under it; the handle counter advances by the number of meshes and the live handles are the old ones plus that range; old entities and other loaded chunks unchanged; loaded chunks stay drawn by their entity, and every live entity stays the entity of a loaded chunk when the spawned chunks are new and distinct |
| Streaming.ChunkLoader.UnloadChunks | src/chunks/chunk_loader.rs:174-181 | the queued chunks leave the loaded map and their entities are despawned; queue emptied; loaded chunks stay drawn by their entity and every live entity stays the entity of a loaded chunk |
| Streaming.ChunkLoader.GatherAndGenerate | src/chunks/chunk_loader.rs:54-127 | from idle queues: the wanted list meets the `all_chunks` facts; the unload queue is exactly the loaded unwanted chunks; the generate queue ends empty and the load queue holds the admitted chunks; the store gains exactly their neighbourhood; the queue discipline holds |
| Streaming.ChunkLoader.LoadAndUnload | src/chunks/chunk_loader.rs:129-181 | loading adds exactly the queued stored non-empty chunks and keeps the others' entities; unloading then removes exactly the queued chunks; queues end empty; every loaded chunk is drawn by its entity and every live entity is the entity of a loaded chunk |
| Streaming.ChunkLoader.Tick | src/chunks/chunk_loader.rs:54-181 | the wanted list meets the `all_chunks` facts, which fix its chunks exactly; the store gains exactly the admitted chunks and their neighbours; the loaded chunks become exactly the wanted old ones plus the admitted chunks that are stored and not empty; wanted loaded chunks keep their entity; new ones have all neighbours stored; at most 16 new per frame; queues end empty, and every loaded chunk is drawn by its entity and every live entity is the entity of a loaded chunk |
| Streaming.PassEffect | src/chunks/chunk_loader.rs:54-181 | over map values: after unloading the unwanted and loading at most 16 admitted chunks, the loaded keys are exactly the wanted old ones plus the loadable ones; everything loaded is wanted, wanted chunks keep their entity, new ones are non-empty with all neighbours stored, at most 16 are new |
| Columns.RowsMembers | src/world/ecs/chunk_loader.rs:199-203 | the nested ranges list exactly the columns of the half-open rectangle |
| Columns.RowsLength | src/world/ecs/chunk_loader.rs:199-203 | the rectangle lists width × height columns |
| Columns.RowsOrdered | src/world/ecs/chunk_loader.rs:199-203 | listed x-major, then y |
| Columns.AllChunks | src/world/ecs/chunk_loader.rs:199-203 | a column is listed iff it is in the half-open square; (2d)² columns, ordered, no repeats |
| Columns.DistanceSquared | src/world/ecs/chunk_loader.rs:205-207 | zero exactly for the same column |
| Columns.DistanceSymmetric | src/world/ecs/chunk_loader.rs:205-207 | distance is symmetric |
| Columns.CameraDirection | src/world/ecs/chunk_loader.rs:209-221 | negative infinity exactly for the camera's own column |
| Columns.AheadBeforeBehind | src/world/ecs/chunk_loader.rs:209-221 | a column ahead of the camera scores strictly below one beside or behind it |
| Columns.Insert | src/world/ecs/chunk_loader.rs:154-160 | inserting into a sorted list keeps it sorted and adds exactly that element |
| Columns.SortBy | src/world/ecs/chunk_loader.rs:52-54 | the result is a permutation of the input, sorted by the key |
| Columns.Batch | src/world/ecs/chunk_loader.rs:154-162 | at most 8 members, no repeats, sorted by the key; all when fewer; nothing left out has a strictly better key |
| Columns.TakeSorted | src/world/ecs/chunk_loader.rs:52-56 | the first 8 of a sorted permutation are the 8 best, in key order, with the same guarantees |
| Columns.DistinctPermutation | src/world/ecs/chunk_loader.rs:154-160 | a permutation of a repeat-free list is repeat-free |
| Columns.CameraChunkFirst | src/world/ecs/chunk_loader.rs:154-162 | when the camera column is a candidate, it is loaded first |
| Columns.SortingScores | src/world/ecs/chunk_loader.rs:248-266 | the test's scores: only (0,0) is negative infinity; only (1,0) scores -1 |
| Columns.SortingFirst | src/world/ecs/chunk_loader.rs:248-266 | any camera-sorted order of the test's columns starts with (0,0) |
| Columns.ChunkSortingScenario | src/world/ecs/chunk_loader.rs:248-266 | any camera-sorted order of the test's columns starts (0,0), (1,0) |
| Columns.ChunkSortingBatch | src/world/ecs/chunk_loader.rs:248-266 | the loader's batch of the test's columns starts (0,0), (1,0) |
| Columns.ChunkWorldPos | src/world/ecs/chunk_loader.rs:223-229 | the position is at height 0, its x and z are exact multiples of the chunk size, and floor division recovers the column |
| Columns.ChunkComponents | src/world/ecs/chunk_loader.rs:231-239 | a block is in the box iff it lies in the column's footprint below the world height |
| Columns.ColumnBoxesTile | src/world/ecs/chunk_loader.rs:223-239 | below the world height, each block is in exactly one column's box |
| Columns.GenerationBatch | src/world/ecs/chunk_loader.rs:49-56 | at most 8 ungenerated columns in the square, no repeats; all when fewer; none left out is nearer |
| Columns.NearestFirst | src/world/ecs/chunk_loader.rs:52-56 | every batched column is at least as near as any candidate left out |
| Columns.GenerationCandidates | src/world/ecs/chunk_loader.rs:49-51 | the list is repeat-free and holds exactly the ungenerated columns of the square |
| Columns.GenerateChunks | src/world/ecs/chunk_loader.rs:33-68 | generates exactly the generation batch; old columns keep their data |
| Columns.CacheGenerated | src/world/ecs/chunk_loader.rs:65-67 | every generated column is cached; old columns keep their data |
| Columns.Candidates | src/world/ecs/chunk_loader.rs:118-121 | a column is a candidate iff it is in the square, generated, and all its neighbours are generated |
| Columns.ChunksOfAdd | src/world/ecs/chunk_loader.rs:123-132 | one more kept entity adds its column to the drawn set |
| Columns.DiffKeep | src/world/ecs/chunk_loader.rs:126-127 | keeping an entity whose column is still wanted keeps the diff invariant |
| Columns.DiffDrop | src/world/ecs/chunk_loader.rs:128-131 | despawning a stale entity and dropping its mesh keeps the diff invariant |
| Columns.DiffDone | src/world/ecs/chunk_loader.rs:123-132 | after the loop: survivors are unchanged, draw wanted columns, no column twice; remaining = wanted minus drawn; drawn meshes dropped |
| Columns.PlaceStep | src/world/ecs/chunk_loader.rs:171-196 | spawning one more pair under the next handle keeps the placement invariant |
| Columns.SpawnKeepsInjective | src/world/ecs/chunk_loader.rs:171-196 | spawning repeat-free new columns beside the survivors draws no column twice |
| Columns.LoadEffect | src/world/ecs/chunk_loader.rs:94-197 | diff, admission and spawn together give the load contract |
| Columns.ColumnLoader.constructor | src/world/ecs/chunk_loader.rs:84-92 | no meshes and no entities |
| Columns.ColumnLoader.DespawnStale | src/world/ecs/chunk_loader.rs:123-132 | despawns exactly the entities whose column is no longer a candidate and drops the drawn columns' meshes |
| Columns.ColumnLoader.CollectUnmeshed | src/world/ecs/chunk_loader.rs:149-153 | lists each remaining column without a mesh exactly once |
| Columns.ColumnLoader.SpawnAll | src/world/ecs/chunk_loader.rs:171-196 | one fresh entity per pair, drawing it and recorded under its column; old entities unchanged |
| Columns.ColumnLoader.ChooseLoads | src/world/ecs/chunk_loader.rs:149-162 | the chosen columns are a batch of the unmeshed remaining ones, listed in camera order, with nothing left out facing the camera strictly better |
| Columns.ColumnLoader.SpawnChosen | src/world/ecs/chunk_loader.rs:163-196 | each chosen column is meshed and spawned under the next handle |
| Columns.ColumnLoader.LoadChunks | src/world/ecs/chunk_loader.rs:94-197 | stale entities gone, surviving ones unchanged, no column drawn twice; the best 8 new columns by camera direction spawned in camera order under consecutive fresh handles |
| Placeholder.Cell | src/world/mod.rs:35-37 | the n-th visited cell is in range and recovers n |
| Placeholder.CellOf | src/world/mod.rs:35-37 | each cell (x, y, z) is visited at step x·256 + y·16 + z |
| Placeholder.CellOrder | src/world/mod.rs:35-37 | cells are visited in lexicographic x, y, z order |
| Placeholder.Translated | src/world/mod.rs:40-51 | the cube's vertices are moved to the block, one to one |
| Placeholder.Offset | src/world/mod.rs:52-54 | each index is shifted by 24 times the number of blocks already emitted |
| Placeholder.World.constructor | src/world/mod.rs:14-26 | a fresh 16×16×16 array with every block solid |
| Placeholder.World.SolidCount | src/world/mod.rs:33 | never more than the cells visited |
| Placeholder.World.GenerateChunkMesh | src/world/mod.rs:29-62 | the loop's result equals the cell-by-cell mesh `MeshUpTo` over all 4096 cells |
| Placeholder.MeshSizes | src/world/mod.rs:29-62 | the mesh has one cube's worth of vertices and indices per solid block |
| Placeholder.MeshPrefix | src/world/mod.rs:29-62 | the mesh only grows at the end as cells are visited |
| Placeholder.BlockSlice | src/world/mod.rs:38-55 | each solid block's slice is the translated cube, with indices offset by its rank among solid blocks |
| Placeholder.Advance | src/world/mod.rs:38-55 | one cell step extends the partial mesh by that cell's contribution |
| Placeholder.IndicesInRange | src/world/mod.rs:52-54 | with a cube of 24-vertex indices, every index fits below 24·4096 (and in u32), and below the vertex count when the cube has 24 vertices |
| Placeholder.ShortCubeOverruns | src/world/mod.rs:52-54 | with fewer than 24 cube vertices and two solid blocks, some index points past the vertices |
| Placeholder.LongCubeAliases | src/world/mod.rs:52-54 | with more than 24 cube vertices, the second block's indices reach back into the first block's vertices |
| Placeholder.LastSolid | src/world/mod.rs:38-55 | a positive block count has a last solid cell counted just before |
| Placeholder.AllSolidCount | src/world/mod.rs:14-26 | in an all-solid world every visited cell is counted |
| Placeholder.FullWorldMesh | src/world/mod.rs:14-62 | the world as constructed meshes to 4096 cubes |
| Placeholder.Transform.Matrix | src/world/mod.rs:79-86 | a 4×4 column-major matrix: the scale on the diagonal, the position in the last column, zeros elsewhere |
| Placeholder.MatrixPlacesPoints | src/world/mod.rs:79-86 | the matrix maps a point p to scale·p + position |

## Left out

- Rendering, assets, materials, textures, GPU upload and the camera system
  (`src/world/ecs/camera.rs`) are not modelled. Spawned entities record only
  what they draw: the chunk, its box and its mesh.
- Floating point is not modelled.
  - The camera chunk is a parameter. Converting the camera's `f32` position
    (`world_to_chunk_coordinate` at src/world.rs:92-98, `world_to_chunk`) is
    left out.
  - `chunk_to_world` and `chunk_centre` are not part of this model.
- Streaming.AllChunks: the forward test `dot(normalize(dir), forward) > 0.5`
  is a parameter predicate `isForward`. The model proves what holds for any
  such test, not the cone's geometry. The code's only direction check is
  that single `dot > 0.5` comparison. The contract fixes which chunks are
  listed, but not their order after the camera chunk. That order is the
  first-in first-out order of the search, and it decides which 16 chunks
  `take(16)` admits when more are admissible.
- Coords.Adjacent: the neighbour order +x, −x, +y, −y, +z, −z is assumed,
  because the source of `ChunkCoordinate::adjacent` is not part of this
  model. That order decides which chunks the search visits first, and so
  which 16 chunks `take(16)` admits when more are admissible.
- Columns.CameraDirection: computed in exact reals rather than `f32`.
  - The key is the forward component of the offset to the camera over the
    squared distance. This is what normalising and then dividing by the
    distance gives without rounding.
  - `total_cmp` on `-0.0` or NaN is not modelled.
- Columns.DistanceSquared: the source takes a square root. The model keeps the
  square, which orders columns the same way.
- `i32`/`i64`/`u32` overflow is not modelled. This covers the bounds of
  `all_chunks`, `chunk_world_pos` and the render distance. Integers are
  unbounded. The one place where a width matters, the `u32` mesh index, is
  bounded in `Placeholder.IndicesInRange`.
- `par_chunk_map` and rayon are not modelled as parallel. Batches run in
  sequence. Their results are collected in the input order, as the source's
  `collect` does.
- The iteration order of `HashSet` and `HashMap` is arbitrary in the model.
  Contracts never depend on it.
- Columns.SortBy: Rust's in-place `sort_by` is modelled by its result, a
  sorted permutation of a sequence value. Stability, which decides how ties
  are ordered, is not stated. The update in place is not captured.
- The world API the column loader calls is not part of this model:
  - `is_chunk_generated`, `are_neighbours_generated`;
  - `generate_chunk`, `cache_chunk`, `generate_chunk_mesh`;
  - `CHUNK_SIZE`, `WORLD_HEIGHT`.

  `Columns.ColumnWorld` stands in for it, with these as fixed functions and
  constants. Its members have no rows above, because they model no source
  lines.
- Store.World: the noise generator (`world_noise(seed)`) and the mesher are
  parameter functions. The voxel layout and the mesh contents are not
  modelled.
- The commented-out re-mesh block (src/world/ecs/chunk_loader.rs:134-147) is
  not modelled.
- `chunk_entities` is never cleaned when an entity is despawned, in the source
  as in the model. `Columns.ColumnLoader.LoadChunks` states no invariant
  linking it to the live entities.
- `Columns.GenerateChunks` and `Columns.ColumnLoader.LoadChunks` return the
  chosen columns so that their contracts can name them. The source functions
  return nothing.
- Placeholder: vertex positions, normals and UVs are reals. The cube
  primitive is a parameter. The `blocks` array is fixed after construction,
  as nothing in the core writes it.
- Streaming.ChunkLoader.Tick: does not restate the mesh each new chunk's
  entity draws. `Streaming.ChunkLoader.LoadChunks` states it for the load
  stage.
- `Transform::new` and its `Default` and `Component` impls are plain
  construction and are not modelled separately.

## Findings

| source | as written | input that shows it | evidently intended | confidence | as-written member | corrected member |
|---|---|---|---|---|---|---|
| src/world.rs:88-90 | `block_coord / chunk_size` on `I64Vec3` truncates toward zero, so negative blocks round up to the wrong chunk | block (-1, 0, 0) with chunk size 16 gives chunk (0, 0, 0), whose blocks start at 0 | floor division (`div_euclid`), so that every block maps to the chunk that contains it | high, not executed | Store.TruncationMisplacesNegativeBlocks | Store.BlockToChunkUnique |
