/** The chunk store of `src/world.rs`: a sparse map from chunk coordinate to
    generated voxel data, filled on demand by a deterministic generator and
    queried for presence and emptiness by the streaming pipeline. */
module Store {
  import opened Coords
  import opened Seqs

  datatype Option<T> = None | Some(value: T)

  /** The voxel payload of one chunk; voxel value 0 is air. */
  datatype ChunkData = ChunkData(voxels: seq<nat>) {
    /** `ChunkData::empty`: every voxel is air. */
    predicate Empty() {
      forall i | 0 <= i < |voxels| :: voxels[i] == 0
    }
  }

  /** What the generator's mesher returns; its content is not modelled. */
  datatype Mesh = Mesh(vertexCount: nat, indices: seq<nat>)

  type Chunks = map<Coord, ChunkData>

  // ---------------------------------------------------------------------
  // Generation as a function of the store's contents
  // ---------------------------------------------------------------------

  /** One `generate_chunk`: an already generated coordinate is skipped. */
  function GenerateOne(m: Chunks, gen: Coord -> ChunkData, c: Coord): (r: Chunks)
    ensures c in r && r.Keys == m.Keys + {c}
    ensures c in m ==> r == m
    ensures c !in m ==> r[c] == gen(c)
    ensures forall k | k in m :: r[k] == m[k]
  {
    if c in m then m else m[c := gen(c)]
  }

  /** `generate_chunks`: `generate_chunk` on each coordinate of `cs` in turn. */
  function GenerateAll(m: Chunks, gen: Coord -> ChunkData, cs: seq<Coord>): Chunks
    decreases |cs|
  {
    if cs == [] then m
    else GenerateOne(GenerateAll(m, gen, cs[..|cs| - 1]), gen, cs[|cs| - 1])
  }

  /** Reference definition: the old entries, plus the generator's output for
      every listed coordinate that had none. */
  function Filled(m: Chunks, gen: Coord -> ChunkData, cs: seq<Coord>): Chunks {
    map k | k in m.Keys + (set c | c in cs) :: if k in m then m[k] else gen(k)
  }

  /** Running the generation loop gives exactly the reference store. */
  lemma {:induction false} GenerateAllIsFilled(m: Chunks, gen: Coord -> ChunkData, cs: seq<Coord>)
    ensures GenerateAll(m, gen, cs) == Filled(m, gen, cs)
  {
    if cs != [] {
      var init := cs[..|cs| - 1];
      GenerateAllIsFilled(m, gen, init);
      assert cs == init + [cs[|cs| - 1]];
      assert (set c | c in cs) == (set c | c in init) + {cs[|cs| - 1]};
    }
  }

  /** Every listed coordinate ends up generated; entries that were there keep
      their data; nothing unlisted is added; each new entry is the
      generator's output. Repeats in `cs` change nothing. */
  lemma GenerateAllEffect(m: Chunks, gen: Coord -> ChunkData, cs: seq<Coord>)
    ensures forall i | 0 <= i < |cs| :: cs[i] in GenerateAll(m, gen, cs)
    ensures forall k | k in m :: k in GenerateAll(m, gen, cs) && GenerateAll(m, gen, cs)[k] == m[k]
    ensures forall k | k in GenerateAll(m, gen, cs) :: k in m || k in cs
    ensures forall k | k in GenerateAll(m, gen, cs) && k !in m :: GenerateAll(m, gen, cs)[k] == gen(k)
  {
    GenerateAllIsFilled(m, gen, cs);
  }

  /** Generating `a` and then `b` is generating `a + b`. */
  lemma {:induction false} GenerateAllAppend(m: Chunks, gen: Coord -> ChunkData, a: seq<Coord>, b: seq<Coord>)
    ensures GenerateAll(m, gen, a + b) == GenerateAll(GenerateAll(m, gen, a), gen, b)
    decreases |b|
  {
    if b == [] {
      assert a + b == a;
    } else {
      var b' := b[..|b| - 1];
      assert (a + b)[..|a + b| - 1] == a + b';
      GenerateAllAppend(m, gen, a, b');
    }
  }

  /** Generation is idempotent: a second pass over the same list is a no-op. */
  lemma GenerateAllIdempotent(m: Chunks, gen: Coord -> ChunkData, cs: seq<Coord>)
    ensures GenerateAll(GenerateAll(m, gen, cs), gen, cs) == GenerateAll(m, gen, cs)
  {
    GenerateAllIsFilled(m, gen, cs);
    GenerateAllIsFilled(GenerateAll(m, gen, cs), gen, cs);
  }

  // ---------------------------------------------------------------------
  // The store
  // ---------------------------------------------------------------------

  class World {
    var chunks: Chunks
    /** `WorldGenerator::generate_chunk` over `world_noise(seed)`: deterministic per coordinate. */
    const generator: Coord -> ChunkData
    /** `WorldGenerator::generate_chunk_mesh`. */
    const mesher: (ChunkData, seq<Option<ChunkData>>) -> Mesh
    /** The octree's chunk edge length. */
    const chunkSize: Pos

    /** Single writer per coordinate: every stored entry is the generator's output for it. */
    ghost predicate Valid()
      reads this
    {
      forall c | c in chunks :: chunks[c] == generator(c)
    }

    constructor (generator: Coord -> ChunkData, mesher: (ChunkData, seq<Option<ChunkData>>) -> Mesh, chunkSize: Pos)
      ensures Valid() && chunks == map[]
      ensures this.generator == generator && this.mesher == mesher && this.chunkSize == chunkSize
    {
      this.generator := generator;
      this.mesher := mesher;
      this.chunkSize := chunkSize;
      chunks := map[];
    }

    method GenerateChunk(c: Coord)
      requires Valid()
      modifies this
      ensures Valid()
      ensures chunks == GenerateOne(old(chunks), generator, c)
      ensures old(c in chunks) ==> chunks == old(chunks)
      ensures chunks == old(chunks)[c := generator(c)]
    {
      if IsChunkGenerated(c) {
        return;
      }
      var data := generator(c);
      chunks := chunks[c := data];
    }

    method GenerateChunks(cs: seq<Coord>)
      requires Valid()
      modifies this
      ensures Valid()
      ensures chunks.Keys == old(chunks).Keys + Elements(cs)
      ensures forall k | k in old(chunks) :: k in chunks && chunks[k] == old(chunks)[k]
    {
      for i := 0 to |cs|
        invariant Valid()
        invariant chunks == GenerateAll(old(chunks), generator, cs[..i])
      {
        assert cs[..i + 1][..i] == cs[..i];
        GenerateChunk(cs[i]);
      }
      assert cs[..|cs|] == cs;
      GenerateAllEffect(old(chunks), generator, cs);
    }

    /** `get_chunk_data`. */
    function GetChunkData(c: Coord): (r: Option<ChunkData>)
      reads this
      ensures r.Some? <==> c in chunks
      ensures r.Some? ==> r.value == chunks[c]
    {
      if c in chunks then Some(chunks[c]) else None
    }

    function IsChunkGenerated(c: Coord): (r: bool)
      reads this
      ensures r <==> c in chunks
    {
      GetChunkData(c).Some?
    }

    /** An absent coordinate is not empty: known-empty implies generated. */
    function IsChunkEmpty(c: Coord): (r: bool)
      reads this
      ensures r ==> IsChunkGenerated(c)
      ensures IsChunkGenerated(c) ==> (r <==> chunks[c].Empty())
    {
      match GetChunkData(c)
      case Some(data) => data.Empty()
      case None => false
    }

    /** One lookup per face neighbour, in the order `adjacent()` lists them. */
    function AdjacentChunkData(c: Coord): (r: seq<Option<ChunkData>>)
      reads this
      ensures |r| == |Adjacent(c)|
      ensures forall i | 0 <= i < |r| :: (r[i].Some? <==> Adjacent(c)[i] in chunks)
      ensures forall i | 0 <= i < |r| && r[i].Some? :: r[i].value == chunks[Adjacent(c)[i]]
    {
      var adj := Adjacent(c);
      seq(|adj|, i requires 0 <= i < |adj| reads this => GetChunkData(adj[i]))
    }

    /** Meshing unwraps the stored data, so the chunk must be generated. */
    function GenerateChunkMesh(c: Coord): (m: Mesh)
      requires IsChunkGenerated(c)
      reads this
      ensures m == mesher(chunks[c], AdjacentChunkData(c))
    {
      var data := GetChunkData(c);
      mesher(data.value, AdjacentChunkData(c))
    }

    /** Component-wise division by the chunk size, rounded toward zero. */
    function BlockToChunkCoordinate(b: Coord): (r: Coord)
      ensures 0 <= b.x ==> r.x * chunkSize <= b.x < (r.x + 1) * chunkSize
      ensures 0 <= b.y ==> r.y * chunkSize <= b.y < (r.y + 1) * chunkSize
      ensures 0 <= b.z ==> r.z * chunkSize <= b.z < (r.z + 1) * chunkSize
      ensures b.x < 0 ==> (r.x - 1) * chunkSize < b.x <= r.x * chunkSize
      ensures b.y < 0 ==> (r.y - 1) * chunkSize < b.y <= r.y * chunkSize
      ensures b.z < 0 ==> (r.z - 1) * chunkSize < b.z <= r.z * chunkSize
    {
      Coord(TruncDiv(b.x, chunkSize), TruncDiv(b.y, chunkSize), TruncDiv(b.z, chunkSize))
    }

    /** Despite its name, the same conversion as `BlockToChunkCoordinate`. */
    function BlockToChunkLocal(b: Coord): (r: Coord)
      ensures r == BlockToChunkCoordinate(b)
    {
      Coord(TruncDiv(b.x, chunkSize), TruncDiv(b.y, chunkSize), TruncDiv(b.z, chunkSize))
    }
  }

  // ---------------------------------------------------------------------
  // Block to chunk: truncation against the chunk grid
  // ---------------------------------------------------------------------

  /** Block `b` lies in the chunk whose blocks start at `c * size` (where the
      loaders place chunk `c`). */
  predicate InChunk(b: Coord, c: Coord, size: Pos) {
    && c.x * size <= b.x < (c.x + 1) * size
    && c.y * size <= b.y < (c.y + 1) * size
    && c.z * size <= b.z < (c.z + 1) * size
  }

  /** As written, the conversion sends block (-1, 0, 0) to chunk (0, 0, 0),
      whose blocks start at 0: a chunk that does not contain it. */
  lemma TruncationMisplacesNegativeBlocks(w: World)
    requires w.chunkSize >= 2
    ensures w.BlockToChunkCoordinate(Coord(-1, 0, 0)) == Coord(0, 0, 0)
    ensures !InChunk(Coord(-1, 0, 0), w.BlockToChunkCoordinate(Coord(-1, 0, 0)), w.chunkSize)
  {
  }

  /** Corrected conversion: division rounded toward negative infinity. */
  function BlockToChunk(b: Coord, size: Pos): (r: Coord)
    ensures InChunk(b, r, size)
  {
    Coord(FloorDiv(b.x, size), FloorDiv(b.y, size), FloorDiv(b.z, size))
  }

  lemma UniqueQuotient(a: int, size: Pos, q1: int, q2: int)
    requires q1 * size <= a < (q1 + 1) * size
    requires q2 * size <= a < (q2 + 1) * size
    ensures q1 == q2
  {
  }

  /** Every block lies in exactly one chunk, the one the corrected conversion names. */
  lemma BlockToChunkUnique(b: Coord, c: Coord, size: Pos)
    ensures InChunk(b, c, size) <==> c == BlockToChunk(b, size)
  {
    var r := BlockToChunk(b, size);
    if InChunk(b, c, size) {
      UniqueQuotient(b.x, size, c.x, r.x);
      UniqueQuotient(b.y, size, c.y, r.y);
      UniqueQuotient(b.z, size, c.z, r.z);
    }
  }

  /** On non-negative blocks the conversion as written and the corrected one agree. */
  lemma TruncationAgreesOnNonNegative(w: World, b: Coord)
    requires 0 <= b.x && 0 <= b.y && 0 <= b.z
    ensures w.BlockToChunkCoordinate(b) == BlockToChunk(b, w.chunkSize)
  {
    BlockToChunkUnique(b, w.BlockToChunkCoordinate(b), w.chunkSize);
  }
}
