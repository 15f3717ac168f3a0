/** The older, rectangular loader of `src/world/ecs/chunk_loader.rs`: chunks
    are columns addressed by a 2-D coordinate; `generate_chunks` generates
    the nearest ungenerated columns of a square around the camera, and
    `load_chunks` diffs the spawned chunk entities against the columns that
    are ready to draw, despawns the stale ones and spawns the best-facing
    new ones. */
module Columns {
  import opened Coords
  import opened Seqs
  import opened Store
  import opened Host

  /** A column coordinate (a `Vector2<i32>`; `y` runs along world z). */
  datatype Column = Column(x: int, y: int)

  /** Half-width of the square `generate_chunks` looks at. */
  const GENERATE_DISTANCE: nat := 32

  /** Both systems handle at most this many columns per call (`take(8)`). */
  const BATCH: nat := 8

  // ---------------------------------------------------------------------
  // The square around a centre column
  // ---------------------------------------------------------------------

  /** `c` lies in the half-open square of half-width `d` around `centre`. */
  predicate InSquare(centre: Column, d: nat, c: Column) {
    && centre.x - d <= c.x < centre.x + d
    && centre.y - d <= c.y < centre.y + d
  }

  /** Strictly earlier in x-major order. */
  predicate Before(a: Column, b: Column) {
    a.x < b.x || (a.x == b.x && a.y < b.y)
  }

  /** Number of integers in `[lo, hi)`. */
  function Span(lo: int, hi: int): nat {
    if lo < hi then hi - lo else 0
  }

  /** One row of the square: `(lo..hi).map(|b| (a, b))`. */
  function Row(a: int, lo: int, hi: int): (r: seq<Column>)
    ensures |r| == Span(lo, hi)
    ensures forall i | 0 <= i < |r| :: r[i] == Column(a, lo + i)
    decreases hi - lo
  {
    if lo >= hi then [] else [Column(a, lo)] + Row(a, lo + 1, hi)
  }

  /** `(xlo..xhi).flat_map(|a| Row(a, ylo, yhi))`. */
  function Rows(xlo: int, xhi: int, ylo: int, yhi: int): seq<Column>
    decreases xhi - xlo
  {
    if xlo >= xhi then [] else Row(xlo, ylo, yhi) + Rows(xlo + 1, xhi, ylo, yhi)
  }

  lemma {:induction false} RowsMembers(xlo: int, xhi: int, ylo: int, yhi: int)
    ensures forall c: Column :: c in Rows(xlo, xhi, ylo, yhi) <==> xlo <= c.x < xhi && ylo <= c.y < yhi
    decreases xhi - xlo
  {
    if xlo < xhi {
      RowsMembers(xlo + 1, xhi, ylo, yhi);
      var row := Row(xlo, ylo, yhi);
      forall c: Column | c.x == xlo && ylo <= c.y < yhi ensures c in row {
        assert row[c.y - ylo] == c;
      }
    }
  }

  lemma {:induction false} RowsLength(xlo: int, xhi: int, ylo: int, yhi: int)
    ensures |Rows(xlo, xhi, ylo, yhi)| == Span(xlo, xhi) * Span(ylo, yhi)
    decreases xhi - xlo
  {
    if xlo < xhi {
      RowsLength(xlo + 1, xhi, ylo, yhi);
      assert Span(xlo, xhi) == Span(xlo + 1, xhi) + 1;
      assert Span(xlo, xhi) * Span(ylo, yhi) == Span(xlo + 1, xhi) * Span(ylo, yhi) + Span(ylo, yhi);
    }
  }

  lemma {:induction false} RowsOrdered(xlo: int, xhi: int, ylo: int, yhi: int)
    ensures forall i, j | 0 <= i < j < |Rows(xlo, xhi, ylo, yhi)| ::
              Before(Rows(xlo, xhi, ylo, yhi)[i], Rows(xlo, xhi, ylo, yhi)[j])
    decreases xhi - xlo
  {
    if xlo < xhi {
      var row, rest := Row(xlo, ylo, yhi), Rows(xlo + 1, xhi, ylo, yhi);
      RowsOrdered(xlo + 1, xhi, ylo, yhi);
      RowsMembers(xlo + 1, xhi, ylo, yhi);
      var r := row + rest;
      forall i, j | 0 <= i < j < |r| ensures Before(r[i], r[j]) {
        if j < |row| {
        } else if i < |row| {
          assert r[j] == rest[j - |row|] && r[j] in rest;
        } else {
          assert r[i] == rest[i - |row|] && r[j] == rest[j - |row|];
        }
      }
    }
  }

  /** `all_chunks(centre, d)`: exactly the columns of the half-open square,
      `(2d)²` of them, in x-major order and so without repeats. */
  function AllChunks(centre: Column, d: nat): (r: seq<Column>)
    ensures forall c :: c in r <==> InSquare(centre, d, c)
    ensures |r| == (2 * d) * (2 * d)
    ensures forall i, j | 0 <= i < j < |r| :: Before(r[i], r[j])
    ensures Distinct(r)
  {
    var xlo, xhi, ylo, yhi := centre.x - d, centre.x + d, centre.y - d, centre.y + d;
    RowsMembers(xlo, xhi, ylo, yhi);
    RowsLength(xlo, xhi, ylo, yhi);
    RowsOrdered(xlo, xhi, ylo, yhi);
    assert Span(xlo, xhi) == 2 * d && Span(ylo, yhi) == 2 * d;
    Rows(xlo, xhi, ylo, yhi)
  }

  // ---------------------------------------------------------------------
  // Sort keys
  // ---------------------------------------------------------------------

  /** The square of `chunk_distance`. The source takes the `f32` square root
      of this, which orders columns the same way. */
  function DistanceSquared(a: Column, b: Column): (r: nat)
    ensures r == 0 <==> a == b
  {
    var dx, dy := b.x - a.x, b.y - a.y;
    assert dx * dx >= 0 && dy * dy >= 0;
    assert dx != 0 ==> dx * dx > 0;
    assert dy != 0 ==> dy * dy > 0;
    dx * dx + dy * dy
  }

  lemma DistanceSymmetric(a: Column, b: Column)
    ensures DistanceSquared(a, b) == DistanceSquared(b, a)
  {
    assert (b.x - a.x) * (b.x - a.x) == (a.x - b.x) * (a.x - b.x);
    assert (b.y - a.y) * (b.y - a.y) == (a.y - b.y) * (a.y - b.y);
  }

  /** An `f32` sort key under `total_cmp`: minus infinity or a finite value. */
  datatype Score = NegInf | Finite(v: real)

  /** `total_cmp(a, b) != Greater`: minus infinity is below every finite value. */
  predicate ScoreLe(a: Score, b: Score) {
    a.NegInf? || (b.Finite? && a.v <= b.v)
  }

  /** The camera's facing direction (`player.forward()`). */
  datatype Forward = Forward(x: real, y: real, z: real)

  /** `chunk_camera_direction`: minus infinity for the camera's own column;
      otherwise the forward component of the unit vector from the column to
      the camera, divided by the distance. With `(dx, dy)` the offset from
      the column to the camera that is `(f.x * dx + f.z * dy) / (dx² + dy²)`;
      the chunk size cancels out. */
  function CameraDirection(cameraChunk: Column, forward: Forward, chunk: Column): (s: Score)
    ensures s == NegInf <==> chunk == cameraChunk
  {
    var dx, dy := cameraChunk.x - chunk.x, cameraChunk.y - chunk.y;
    var d2 := DistanceSquared(cameraChunk, chunk);
    if d2 == 0 then NegInf
    else Finite((forward.x * dx as real + forward.z * dy as real) / d2 as real)
  }

  /** A column ahead of the camera (positive projection of its offset on the
      forward direction) scores strictly below one that is not ahead. */
  lemma AheadBeforeBehind(cameraChunk: Column, forward: Forward, ahead: Column, other: Column)
    requires forward.x * (ahead.x - cameraChunk.x) as real + forward.z * (ahead.y - cameraChunk.y) as real > 0.0
    requires other != cameraChunk
    requires forward.x * (other.x - cameraChunk.x) as real + forward.z * (other.y - cameraChunk.y) as real <= 0.0
    ensures ScoreLe(CameraDirection(cameraChunk, forward, ahead), CameraDirection(cameraChunk, forward, other))
    ensures !ScoreLe(CameraDirection(cameraChunk, forward, other), CameraDirection(cameraChunk, forward, ahead))
  {
    var na := forward.x * (cameraChunk.x - ahead.x) as real + forward.z * (cameraChunk.y - ahead.y) as real;
    var no := forward.x * (cameraChunk.x - other.x) as real + forward.z * (cameraChunk.y - other.y) as real;
    var da, do := DistanceSquared(cameraChunk, ahead) as real, DistanceSquared(cameraChunk, other) as real;
    assert CameraDirection(cameraChunk, forward, ahead) == Finite(na / da);
    assert CameraDirection(cameraChunk, forward, other) == Finite(no / do);
    QuotientSigns(na, da, no, do);
  }

  lemma QuotientSigns(na: real, da: real, no: real, do: real)
    requires na < 0.0 < da && 0.0 <= no && 0.0 < do
    ensures na / da < no / do
  {
    assert na / da < 0.0;
    assert no / do >= 0.0;
  }

  function DistanceKey(cameraChunk: Column): Column -> Score {
    c => Finite(DistanceSquared(cameraChunk, c) as real)
  }

  function CameraKey(cameraChunk: Column, forward: Forward): Column -> Score {
    c => CameraDirection(cameraChunk, forward, c)
  }

  // ---------------------------------------------------------------------
  // sort_by and take
  // ---------------------------------------------------------------------

  predicate SortedBy(s: seq<Column>, key: Column -> Score) {
    forall i, j | 0 <= i < j < |s| :: ScoreLe(key(s[i]), key(s[j]))
  }

  lemma SortedSnoc(s: seq<Column>, y: Column, key: Column -> Score)
    requires SortedBy(s, key)
    requires forall i | 0 <= i < |s| :: ScoreLe(key(s[i]), key(y))
    ensures SortedBy(s + [y], key)
  {
    var r := s + [y];
    forall i, j | 0 <= i < j < |r| ensures ScoreLe(key(r[i]), key(r[j])) {
      assert r[i] == s[i];
    }
  }

  /** Places `x` after every item of sorted `s` whose key is not above its
      own, so that equal keys keep their arrival order. */
  function Insert(s: seq<Column>, x: Column, key: Column -> Score): (r: seq<Column>)
    requires SortedBy(s, key)
    ensures multiset(r) == multiset(s) + multiset{x}
    ensures SortedBy(r, key)
    decreases |s|
  {
    if s == [] || ScoreLe(key(s[|s| - 1]), key(x)) then
      SortedSnoc(s, x, key);
      s + [x]
    else
      var init, last := s[..|s| - 1], s[|s| - 1];
      assert s == init + [last];
      var r' := Insert(init, x, key);
      forall j | 0 <= j < |init| ensures ScoreLe(key(init[j]), key(last)) {
        assert init[j] == s[j];
      }
      BoundedByMembers(r', init + [x], key(last), key);
      SortedSnoc(r', last, key);
      r' + [last]
  }

  /** `sort_by` with the key's `total_cmp`: a stable insertion sort. */
  function SortBy(s: seq<Column>, key: Column -> Score): (r: seq<Column>)
    ensures multiset(r) == multiset(s)
    ensures SortedBy(r, key)
  {
    if s == [] then []
    else
      assert s == s[..|s| - 1] + [s[|s| - 1]];
      Insert(SortBy(s[..|s| - 1], key), s[|s| - 1], key)
  }

  /** Every item of `t` has a key at most `b` when `t` rearranges items that all do. */
  lemma BoundedByMembers(t: seq<Column>, s: seq<Column>, b: Score, key: Column -> Score)
    requires multiset(t) == multiset(s)
    requires forall j | 0 <= j < |s| :: ScoreLe(key(s[j]), b)
    ensures forall i | 0 <= i < |t| :: ScoreLe(key(t[i]), b)
  {
    forall i | 0 <= i < |t| ensures ScoreLe(key(t[i]), b) {
      assert t[i] in multiset(s);
      var j :| 0 <= j < |s| && s[j] == t[i];
    }
  }

  /** `sort_by(key)` followed by `take(BATCH)`: at most `BATCH` items of `s`,
      repeat-free when `s` is; either `BATCH` of them or all of `s`; and no
      item left behind has a strictly lower key than an item taken. */
  function Batch(s: seq<Column>, key: Column -> Score): (r: seq<Column>)
    ensures |r| <= BATCH
    ensures forall i | 0 <= i < |r| :: r[i] in s
    ensures Distinct(s) ==> Distinct(r)
    ensures forall y | y in s :: |r| == BATCH || y in r
    ensures forall i, y | 0 <= i < |r| && y in s && y !in r :: ScoreLe(key(r[i]), key(y))
    ensures SortedBy(r, key)
  {
    TakeSorted(s, key);
    Take(SortBy(s, key), BATCH)
  }

  lemma TakeSorted(s: seq<Column>, key: Column -> Score)
    ensures var r := Take(SortBy(s, key), BATCH);
      && (forall i | 0 <= i < |r| :: r[i] in s)
      && (Distinct(s) ==> Distinct(r))
      && (forall y | y in s :: |r| == BATCH || y in r)
      && (forall i, y | 0 <= i < |r| && y in s && y !in r :: ScoreLe(key(r[i]), key(y)))
      && SortedBy(r, key)
  {
    var sorted := SortBy(s, key);
    var r := Take(sorted, BATCH);
    assert |sorted| == |s| by {
      assert |multiset(sorted)| == |multiset(s)|;
    }
    forall y | y in s ensures y in sorted {
      assert y in multiset(s);
    }
    forall i | 0 <= i < |r| ensures r[i] in s {
      assert r[i] == sorted[i] && sorted[i] in multiset(sorted);
    }
    forall i, y | 0 <= i < |r| && y in s && y !in r ensures ScoreLe(key(r[i]), key(y)) {
      var j :| 0 <= j < |sorted| && sorted[j] == y;
      assert j >= |r|;
      assert r[i] == sorted[i];
    }
    forall i, j | 0 <= i < j < |r| ensures ScoreLe(key(r[i]), key(r[j])) {
      assert r[i] == sorted[i] && r[j] == sorted[j];
    }
    if Distinct(s) {
      DistinctPermutation(s, sorted);
      forall i, j | 0 <= i < j < |r| ensures r[i] != r[j] {
        assert r[i] == sorted[i] && r[j] == sorted[j];
      }
    }
  }

  /** A rearrangement of a repeat-free sequence is repeat-free. */
  lemma DistinctPermutation(s: seq<Column>, t: seq<Column>)
    requires Distinct(s) && multiset(t) == multiset(s)
    ensures Distinct(t)
  {
    forall x | x in multiset(s) ensures multiset(s)[x] <= 1 {
      DistinctCount(s, x);
    }
    forall i, j | 0 <= i < j < |t| ensures t[i] != t[j] {
      assert t == t[..i] + [t[i]] + t[i + 1..j] + [t[j]] + t[j + 1..];
      assert multiset(t)[t[j]] >= if t[i] == t[j] then 2 else 1;
    }
  }

  lemma {:induction false} DistinctCount(s: seq<Column>, x: Column)
    requires Distinct(s)
    ensures multiset(s)[x] <= 1
  {
    if s != [] {
      var init := s[..|s| - 1];
      assert s == init + [s[|s| - 1]];
      assert Distinct(init) by {
        forall i, j | 0 <= i < j < |init| ensures init[i] != init[j] {
          assert init[i] == s[i] && init[j] == s[j];
        }
      }
      DistinctCount(init, x);
      if x == s[|s| - 1] {
        assert x !in init by {
          forall i | 0 <= i < |init| ensures init[i] != x {
            assert init[i] == s[i];
          }
        }
      }
    }
  }

  // ---------------------------------------------------------------------
  // What the camera ordering puts first
  // ---------------------------------------------------------------------

  /** The camera's own column, when it is a candidate, is loaded first. */
  lemma {:induction false} CameraChunkFirst(s: seq<Column>, cameraChunk: Column, forward: Forward)
    requires cameraChunk in s
    ensures |Batch(s, CameraKey(cameraChunk, forward))| > 0
    ensures Batch(s, CameraKey(cameraChunk, forward))[0] == cameraChunk
  {
    var key := CameraKey(cameraChunk, forward);
    var sorted := SortBy(s, key);
    assert cameraChunk in multiset(sorted);
    var j :| 0 <= j < |sorted| && sorted[j] == cameraChunk;
    assert ScoreLe(key(sorted[0]), key(sorted[j]));
    assert Batch(s, key)[0] == sorted[0];
  }

  /** The six columns of `test_chunk_sorting`. */
  const SORTING_CHUNKS: seq<Column> :=
    [Column(-5, 5), Column(-1, 0), Column(0, 0), Column(1, 0), Column(1, 1), Column(5, 0)]

  /** The scores of the test's columns: (0, 0) is minus infinity, (1, 0) the
      only one at or below -1, the others above it. */
  lemma SortingScores(c: Column)
    requires c in SORTING_CHUNKS
    ensures var key := CameraKey(Column(0, 0), Forward(1.0, 0.0, 0.0));
      && (key(c) == NegInf <==> c == Column(0, 0))
      && (c != Column(0, 0) && ScoreLe(key(c), Finite(-1.0)) <==> c == Column(1, 0))
      && (c == Column(1, 0) ==> key(c) == Finite(-1.0))
  {
    var f := Forward(1.0, 0.0, 0.0);
    assert CameraDirection(Column(0, 0), f, Column(-5, 5)) == Finite(5.0 / 50.0);
    assert CameraDirection(Column(0, 0), f, Column(-1, 0)) == Finite(1.0 / 1.0);
    assert CameraDirection(Column(0, 0), f, Column(1, 0)) == Finite(-1.0 / 1.0);
    assert CameraDirection(Column(0, 0), f, Column(1, 1)) == Finite(-1.0 / 2.0);
    assert CameraDirection(Column(0, 0), f, Column(5, 0)) == Finite(-5.0 / 25.0);
  }

  /** The test's columns sorted by the camera key start with the camera's own column. */
  lemma SortingFirst(sorted: seq<Column>)
    requires multiset(sorted) == multiset(SORTING_CHUNKS)
    requires SortedBy(sorted, CameraKey(Column(0, 0), Forward(1.0, 0.0, 0.0)))
    ensures |sorted| == 6 && sorted[0] == Column(0, 0)
  {
    var key := CameraKey(Column(0, 0), Forward(1.0, 0.0, 0.0));
    assert |sorted| == 6 by {
      assert |multiset(sorted)| == |multiset(SORTING_CHUNKS)|;
    }
    assert sorted[0] in multiset(SORTING_CHUNKS);
    assert Column(0, 0) in multiset(sorted);
    var a :| 0 <= a < 6 && sorted[a] == Column(0, 0);
    SortingScores(sorted[0]);
    assert ScoreLe(key(sorted[0]), key(sorted[a]));
  }

  /** An element that occurs once in `s` sits at one index only. */
  lemma SingleOccurrence(s: seq<Column>, i: nat, j: nat)
    requires i < |s| && j < |s| && i != j && multiset(s)[s[i]] <= 1
    ensures s[j] != s[i]
  {
    var lo, hi := if i < j then i else j, if i < j then j else i;
    assert s == s[..hi] + [s[hi]] + s[hi + 1..];
    assert s[..hi][lo] == s[lo];
    assert multiset(s[..hi])[s[lo]] >= 1;
  }

  /** `test_chunk_sorting`: with the camera at (0, 0) facing +x, any order
      sorted by the camera key puts (0, 0) first and (1, 0), the nearest
      column straight ahead, second. */
  lemma ChunkSortingScenario(sorted: seq<Column>)
    requires multiset(sorted) == multiset(SORTING_CHUNKS)
    requires SortedBy(sorted, CameraKey(Column(0, 0), Forward(1.0, 0.0, 0.0)))
    ensures |sorted| == 6 && sorted[0] == Column(0, 0) && sorted[1] == Column(1, 0)
  {
    var key := CameraKey(Column(0, 0), Forward(1.0, 0.0, 0.0));
    SortingFirst(sorted);
    assert sorted[1] in multiset(SORTING_CHUNKS);
    assert Column(1, 0) in multiset(sorted);
    var b :| 0 <= b < 6 && sorted[b] == Column(1, 0);
    assert multiset(SORTING_CHUNKS)[Column(0, 0)] == 1;
    SingleOccurrence(sorted, 0, 1);
    if b != 1 {
      assert ScoreLe(key(sorted[1]), key(sorted[b]));
      SortingScores(sorted[b]);
      SortingScores(sorted[1]);
    }
  }

  /** The batch the loader would take from the test's columns starts the same way. */
  lemma ChunkSortingBatch()
    ensures var r := Batch(SORTING_CHUNKS, CameraKey(Column(0, 0), Forward(1.0, 0.0, 0.0)));
      |r| == 6 && r[0] == Column(0, 0) && r[1] == Column(1, 0)
  {
    var key := CameraKey(Column(0, 0), Forward(1.0, 0.0, 0.0));
    var sorted := SortBy(SORTING_CHUNKS, key);
    ChunkSortingScenario(sorted);
    assert Batch(SORTING_CHUNKS, key) == Take(sorted, BATCH);
  }

  // ---------------------------------------------------------------------
  // Placement of a spawned column
  // ---------------------------------------------------------------------

  /** A translation with an axis-aligned box given relative to it. */
  datatype Placement = Placement(translation: Coord, boxMin: Coord, boxMax: Coord)

  /** Block `b` lies inside the box moved by the translation. */
  predicate InBox(b: Coord, p: Placement) {
    && p.translation.x + p.boxMin.x <= b.x < p.translation.x + p.boxMax.x
    && p.translation.y + p.boxMin.y <= b.y < p.translation.y + p.boxMax.y
    && p.translation.z + p.boxMin.z <= b.z < p.translation.z + p.boxMax.z
  }

  /** `chunk_world_pos`: the first block of the column, at height 0. */
  function ChunkWorldPos(c: Column, size: Pos): (p: Coord)
    ensures p.y == 0
    ensures FloorDiv(p.x, size) == c.x && FloorDiv(p.z, size) == c.y
    ensures p.x % size == 0 && p.z % size == 0
  {
    ExactMultiple(c.x, size);
    ExactMultiple(c.y, size);
    Coord(c.x * size, 0, c.y * size)
  }

  /** A multiple of `size` divides back exactly, with nothing left over. */
  lemma ExactMultiple(q: int, size: Pos)
    ensures FloorDiv(q * size, size) == q && (q * size) % size == 0
  {
    UniqueQuotient(q * size, size, q, FloorDiv(q * size, size));
  }

  /** `chunk_components`: the column's box spans `size` blocks in x and z
      from its world position and the whole height of the world. */
  function ChunkComponents(c: Column, size: Pos, height: Pos): (r: Placement)
    ensures forall b :: InBox(b, r) <==>
      && c.x * size <= b.x < (c.x + 1) * size
      && 0 <= b.y < height
      && c.y * size <= b.z < (c.y + 1) * size
  {
    Placement(ChunkWorldPos(c, size), Coord(0, 0, 0), Coord(size, height, size))
  }

  /** The boxes tile the world's height band: a block in it is inside the box
      of exactly one column, the one floor division names. */
  lemma ColumnBoxesTile(b: Coord, c: Column, size: Pos, height: Pos)
    requires 0 <= b.y < height
    ensures InBox(b, ChunkComponents(c, size, height)) <==> c == Column(FloorDiv(b.x, size), FloorDiv(b.z, size))
  {
    if InBox(b, ChunkComponents(c, size, height)) {
      UniqueQuotient(b.x, size, c.x, FloorDiv(b.x, size));
      UniqueQuotient(b.z, size, c.y, FloorDiv(b.z, size));
    }
  }

  // ---------------------------------------------------------------------
  // The world as the loader sees it
  // ---------------------------------------------------------------------

  /** The column store the two systems read and fill. Its generator, its
      notion of neighbours and its mesher are fixed functions. */
  class ColumnWorld {
    var columns: map<Column, ChunkData>
    const generator: Column -> ChunkData
    const neighbours: Column -> set<Column>
    const mesher: (map<Column, ChunkData>, Column) -> Mesh
    /** `CHUNK_SIZE` and `WORLD_HEIGHT`. */
    const chunkSize: Pos
    const worldHeight: Pos

    /** Every stored column is the generator's output for it. */
    ghost predicate Valid()
      reads this
    {
      forall c | c in columns :: columns[c] == generator(c)
    }

    constructor (generator: Column -> ChunkData, neighbours: Column -> set<Column>,
                 mesher: (map<Column, ChunkData>, Column) -> Mesh, chunkSize: Pos, worldHeight: Pos)
      ensures Valid() && columns == map[]
      ensures this.generator == generator && this.neighbours == neighbours && this.mesher == mesher
      ensures this.chunkSize == chunkSize && this.worldHeight == worldHeight
    {
      this.generator := generator;
      this.neighbours := neighbours;
      this.mesher := mesher;
      this.chunkSize := chunkSize;
      this.worldHeight := worldHeight;
      columns := map[];
    }

    predicate IsChunkGenerated(c: Column)
      reads this
    {
      c in columns
    }

    predicate AreNeighboursGenerated(c: Column)
      reads this
    {
      neighbours(c) <= columns.Keys
    }

    function GenerateChunk(c: Column): ChunkData {
      generator(c)
    }

    method CacheChunk(c: Column, data: ChunkData)
      modifies this`columns
      ensures columns == old(columns)[c := data]
    {
      columns := columns[c := data];
    }

    function GenerateChunkMesh(c: Column): Mesh
      reads this
    {
      mesher(columns, c)
    }
  }

  // ---------------------------------------------------------------------
  // generate_chunks
  // ---------------------------------------------------------------------

  function Ungenerated(columns: map<Column, ChunkData>): Column -> bool {
    c => c !in columns
  }

  /** The columns one `generate_chunks` picks: at most `BATCH` ungenerated
      columns of the square, without repeats; all of them when there are
      fewer than `BATCH`; and no ungenerated column of the square left
      behind is strictly nearer than a picked one. */
  function GenerationBatch(columns: map<Column, ChunkData>, cameraChunk: Column): (r: seq<Column>)
    ensures |r| <= BATCH && Distinct(r)
    ensures forall i | 0 <= i < |r| :: InSquare(cameraChunk, GENERATE_DISTANCE, r[i]) && r[i] !in columns
    ensures forall d | InSquare(cameraChunk, GENERATE_DISTANCE, d) && d !in columns :: |r| == BATCH || d in r
    ensures forall i, d | 0 <= i < |r| && InSquare(cameraChunk, GENERATE_DISTANCE, d) && d !in columns && d !in r ::
              DistanceSquared(cameraChunk, r[i]) <= DistanceSquared(cameraChunk, d)
  {
    GenerationCandidates(columns, cameraChunk);
    NearestFirst(GenerationList(columns, cameraChunk), cameraChunk);
    Batch(GenerationList(columns, cameraChunk), DistanceKey(cameraChunk))
  }

  /** Under the distance key nothing left behind is strictly nearer than what is taken. */
  lemma NearestFirst(s: seq<Column>, cameraChunk: Column)
    ensures var r := Batch(s, DistanceKey(cameraChunk));
      forall i, d | 0 <= i < |r| && d in s && d !in r :: DistanceSquared(cameraChunk, r[i]) <= DistanceSquared(cameraChunk, d)
  {
    var key := DistanceKey(cameraChunk);
    var r := Batch(s, key);
    forall i, d | 0 <= i < |r| && d in s && d !in r
      ensures DistanceSquared(cameraChunk, r[i]) <= DistanceSquared(cameraChunk, d)
    {
      assert ScoreLe(key(r[i]), key(d));
    }
  }

  /** The ungenerated columns of the square, in `all_chunks` order. */
  function GenerationList(columns: map<Column, ChunkData>, cameraChunk: Column): seq<Column> {
    Filter(AllChunks(cameraChunk, GENERATE_DISTANCE), Ungenerated(columns))
  }

  lemma GenerationCandidates(columns: map<Column, ChunkData>, cameraChunk: Column)
    ensures Distinct(GenerationList(columns, cameraChunk))
    ensures forall d :: d in GenerationList(columns, cameraChunk) <==>
      InSquare(cameraChunk, GENERATE_DISTANCE, d) && d !in columns
  {
    var all := AllChunks(cameraChunk, GENERATE_DISTANCE);
    var candidates := Filter(all, Ungenerated(columns));
    FilterSound(all, Ungenerated(columns));
    FilterComplete(all, Ungenerated(columns));
    FilterDistinct(all, Ungenerated(columns));
    forall d | InSquare(cameraChunk, GENERATE_DISTANCE, d) && d !in columns ensures d in candidates {
      var i :| 0 <= i < |all| && all[i] == d;
    }
  }

  /** The first components of a list of pairs. */
  function Firsts<T>(ps: seq<(Column, T)>): (r: seq<Column>)
    ensures |r| == |ps| && forall i | 0 <= i < |ps| :: r[i] == ps[i].0
  {
    seq(|ps|, i requires 0 <= i < |ps| => ps[i].0)
  }

  /** `generate_chunks`: generate the picked columns, then cache each one. */
  method GenerateChunks(world: ColumnWorld, cameraChunk: Column) returns (chosen: seq<Column>)
    requires world.Valid()
    modifies world`columns
    ensures world.Valid()
    ensures chosen == GenerationBatch(old(world.columns), cameraChunk)
    ensures world.columns.Keys == old(world.columns).Keys + Elements(chosen)
    ensures forall c | c in old(world.columns) :: world.columns[c] == old(world.columns)[c]
  {
    var candidates := Filter(AllChunks(cameraChunk, GENERATE_DISTANCE), Ungenerated(world.columns));
    chosen := Batch(candidates, DistanceKey(cameraChunk));
    assert candidates == GenerationList(world.columns, cameraChunk);
    var generated := seq(|chosen|, i requires 0 <= i < |chosen| => (chosen[i], world.GenerateChunk(chosen[i])));
    assert Firsts(generated) == chosen;
    CacheGenerated(world, generated);
  }

  /** The caching loop of `generate_chunks`: one `cache_chunk` per pair. */
  method CacheGenerated(world: ColumnWorld, generated: seq<(Column, ChunkData)>)
    requires world.Valid()
    requires forall i | 0 <= i < |generated| :: generated[i].1 == world.generator(generated[i].0)
    modifies world`columns
    ensures world.Valid()
    ensures world.columns.Keys == old(world.columns).Keys + Elements(Firsts(generated))
    ensures forall c | c in old(world.columns) :: world.columns[c] == old(world.columns)[c]
  {
    ghost var cs := Firsts(generated);
    for i := 0 to |generated|
      invariant world.Valid()
      invariant world.columns.Keys == old(world.columns).Keys + Elements(cs[..i])
      invariant forall c | c in old(world.columns) :: world.columns[c] == old(world.columns)[c]
    {
      var (pos, data) := generated[i];
      world.CacheChunk(pos, data);
      assert cs[..i + 1] == cs[..i] + [pos];
      ElementsSnoc(cs[..i], pos);
    }
    assert cs[..|generated|] == cs;
  }

  // ---------------------------------------------------------------------
  // load_chunks
  // ---------------------------------------------------------------------

  /** The components of a spawned column entity: the `Chunk` marker (its
      coordinate and the `dirty` flag), the placement and the mesh. */
  datatype ChunkEntity = ChunkEntity(chunk: Column, dirty: bool, placement: Placement, mesh: Mesh)

  /** What `load_chunks` spawns for a (column, mesh) pair. */
  function Spawned(world: ColumnWorld, p: (Column, Mesh)): ChunkEntity {
    ChunkEntity(p.0, false, ChunkComponents(p.0, world.chunkSize, world.worldHeight), p.1)
  }

  /** The columns that are ready to draw: in the square of the render
      distance, generated, and with every neighbour generated. */
  function Candidates(world: ColumnWorld, cameraChunk: Column, renderDistance: nat): (r: set<Column>)
    reads world
    ensures forall c :: c in r <==>
      InSquare(cameraChunk, renderDistance, c) && world.IsChunkGenerated(c) && world.AreNeighboursGenerated(c)
  {
    set c | c in AllChunks(cameraChunk, renderDistance) && world.IsChunkGenerated(c) && world.AreNeighboursGenerated(c)
  }

  /** The columns drawn by the entities `es` of `tags`. */
  ghost function ChunksOf(tags: map<Entity, ChunkEntity>, es: set<Entity>): set<Column> {
    set e | e in es && e in tags :: tags[e].chunk
  }

  /** The columns drawn by some entity. */
  ghost function Drawn(tags: map<Entity, ChunkEntity>): set<Column> {
    ChunksOf(tags, tags.Keys)
  }

  /** No column is drawn by two entities. */
  ghost predicate Injective(tags: map<Entity, ChunkEntity>) {
    forall e1, e2 | e1 in tags && e2 in tags && tags[e1].chunk == tags[e2].chunk :: e1 == e2
  }

  lemma ChunksOfAdd(tags: map<Entity, ChunkEntity>, es: set<Entity>, e: Entity)
    requires e in tags
    ensures ChunksOf(tags, es + {e}) == ChunksOf(tags, es) + {tags[e].chunk}
  {
  }

  /** The unload loop after visiting the entities of `tags0` outside
      `pending`: the visited entities whose column was still wanted are
      `kept`, one per column; the others are despawned; the wanted columns
      not yet drawn are `remaining`; and the meshes of every visited column
      are dropped. */
  ghost predicate Diffed(tags0: map<Entity, ChunkEntity>, meshes0: map<Column, Mesh>, toLoad: set<Column>,
                         pending: set<Entity>, kept: set<Entity>,
                         remaining: set<Column>, tags: map<Entity, ChunkEntity>, meshes: map<Column, Mesh>)
  {
    && pending <= tags0.Keys && kept <= tags0.Keys && pending !! kept
    && tags.Keys == pending + kept
    && (forall e | e in tags :: tags[e] == tags0[e])
    && (forall e | e in kept :: tags0[e].chunk in toLoad)
    && (forall e1, e2 | e1 in kept && e2 in kept && tags0[e1].chunk == tags0[e2].chunk :: e1 == e2)
    && remaining == toLoad - ChunksOf(tags0, tags0.Keys - pending)
    && ChunksOf(tags0, kept) == toLoad - remaining
    && meshes == meshes0 - ChunksOf(tags0, tags0.Keys - pending)
  }

  /** Visiting an entity whose column is still wanted keeps it. */
  lemma DiffKeep(tags0: map<Entity, ChunkEntity>, meshes0: map<Column, Mesh>, toLoad: set<Column>,
                 pending: set<Entity>, kept: set<Entity>,
                 remaining: set<Column>, tags: map<Entity, ChunkEntity>, meshes: map<Column, Mesh>, e: Entity)
    requires Diffed(tags0, meshes0, toLoad, pending, kept, remaining, tags, meshes)
    requires e in pending && tags0[e].chunk in remaining
    ensures Diffed(tags0, meshes0, toLoad, pending - {e}, kept + {e}, remaining - {tags0[e].chunk}, tags,
                   meshes - {tags0[e].chunk})
  {
    var c := tags0[e].chunk;
    assert tags0.Keys - (pending - {e}) == (tags0.Keys - pending) + {e};
    ChunksOfAdd(tags0, tags0.Keys - pending, e);
    ChunksOfAdd(tags0, kept, e);
  }

  /** Visiting an entity whose column is no longer wanted, or already kept, despawns it. */
  lemma DiffDrop(tags0: map<Entity, ChunkEntity>, meshes0: map<Column, Mesh>, toLoad: set<Column>,
                 pending: set<Entity>, kept: set<Entity>,
                 remaining: set<Column>, tags: map<Entity, ChunkEntity>, meshes: map<Column, Mesh>, e: Entity)
    requires Diffed(tags0, meshes0, toLoad, pending, kept, remaining, tags, meshes)
    requires e in pending && tags0[e].chunk !in remaining
    ensures Diffed(tags0, meshes0, toLoad, pending - {e}, kept, remaining, tags - {e}, meshes - {tags0[e].chunk})
  {
    assert tags0.Keys - (pending - {e}) == (tags0.Keys - pending) + {e};
    ChunksOfAdd(tags0, tags0.Keys - pending, e);
  }

  /** What the unload loop leaves: every entity left is an old one,
      unchanged, and draws a wanted column, no column twice; a wanted column
      drawn before is still drawn; the remaining columns are the wanted ones
      nobody drew; the meshes of every column that was drawn are dropped. */
  ghost predicate Despawned(toLoad: set<Column>, tags0: map<Entity, ChunkEntity>, meshes0: map<Column, Mesh>,
                            remaining: set<Column>, tags: map<Entity, ChunkEntity>, meshes: map<Column, Mesh>)
  {
    && (forall e | e in tags :: e in tags0 && tags[e] == tags0[e] && tags[e].chunk in toLoad)
    && Injective(tags)
    && remaining == toLoad - Drawn(tags0)
    && Drawn(tags) == toLoad * Drawn(tags0)
    && meshes == meshes0 - Drawn(tags0)
  }

  /** After spawning `chosen` from handle `next0` beside the entities of
      `tags0`: the handles moved on by one per column, the new entities are
      exactly those between, the old ones are untouched and new handle
      `next0 + j` draws column `j`. */
  ghost predicate Grown(tags0: map<Entity, ChunkEntity>, next0: Entity, chosen: seq<Column>,
                        tags: map<Entity, ChunkEntity>, next: Entity)
  {
    && next == next0 + |chosen|
    && (forall e :: e in tags <==> e in tags0 || next0 <= e < next)
    && (forall e | e in tags0 :: tags[e] == tags0[e])
    && (forall j | 0 <= j < |chosen| :: tags[next0 + j].chunk == chosen[j])
  }

  /** At the end of the unload loop: every entity left draws a wanted column,
      no column twice; a wanted column drawn before is still drawn; the
      remaining columns are the wanted ones nobody drew. */
  lemma DiffDone(tags0: map<Entity, ChunkEntity>, meshes0: map<Column, Mesh>, toLoad: set<Column>, kept: set<Entity>,
                 remaining: set<Column>, tags: map<Entity, ChunkEntity>, meshes: map<Column, Mesh>)
    requires Diffed(tags0, meshes0, toLoad, {}, kept, remaining, tags, meshes)
    ensures Despawned(toLoad, tags0, meshes0, remaining, tags, meshes)
  {
    assert tags0.Keys - {} == tags0.Keys;
    assert ChunksOf(tags0, kept) == Drawn(tags);
  }

  /** After spawning the first `i` pairs of `ps` from state (`entities0`,
      `tags0`, `next0`): pair `j` is drawn by the handle `next0 + j`, which
      is recorded under its column; older entities and the other records are
      untouched. */
  ghost predicate PlacedSoFar(world: ColumnWorld, entities0: map<Column, Entity>, tags0: map<Entity, ChunkEntity>,
                              next0: Entity, ps: seq<(Column, Mesh)>, i: nat,
                              entities: map<Column, Entity>, tags: map<Entity, ChunkEntity>, next: Entity)
  {
    TaggedSoFar(world, tags0, next0, ps, i, tags, next) && RecordedSoFar(entities0, next0, ps, i, entities)
  }

  /** The scene half of `PlacedSoFar`: handles `next0 .. next0 + i` are new
      and draw the first `i` pairs; older entities are untouched. */
  ghost predicate TaggedSoFar(world: ColumnWorld, tags0: map<Entity, ChunkEntity>, next0: Entity,
                              ps: seq<(Column, Mesh)>, i: nat, tags: map<Entity, ChunkEntity>, next: Entity)
  {
    && i <= |ps|
    && next == next0 + i
    && (forall e :: e in tags <==> e in tags0 || next0 <= e < next)
    && (forall e | e in tags0 :: tags[e] == tags0[e])
    && (forall j | 0 <= j < i :: tags[next0 + j] == Spawned(world, ps[j]))
  }

  /** The `chunk_entities` half of `PlacedSoFar`: the first `i` columns are
      recorded under their handles; other records are untouched. */
  ghost predicate RecordedSoFar(entities0: map<Column, Entity>, next0: Entity, ps: seq<(Column, Mesh)>, i: nat,
                                entities: map<Column, Entity>)
  {
    && i <= |ps|
    && (forall j | 0 <= j < i :: ps[j].0 in entities && entities[ps[j].0] == next0 + j)
    && entities.Keys == entities0.Keys + Elements(Firsts(ps)[..i])
    && (forall c | c in entities0 && c !in Elements(Firsts(ps)[..i]) :: entities[c] == entities0[c])
  }

  /** Spawning pair `i` under the next handle keeps `PlacedSoFar`. */
  lemma PlaceStep(world: ColumnWorld, entities0: map<Column, Entity>, tags0: map<Entity, ChunkEntity>,
                  next0: Entity, ps: seq<(Column, Mesh)>, i: nat,
                  entities: map<Column, Entity>, tags: map<Entity, ChunkEntity>, next: Entity,
                  entities': map<Column, Entity>, tags': map<Entity, ChunkEntity>, next': Entity)
    requires PlacedSoFar(world, entities0, tags0, next0, ps, i, entities, tags, next)
    requires i < |ps| && Distinct(Firsts(ps)) && forall e | e in tags0 :: e < next0
    requires entities' == entities[ps[i].0 := next] && tags' == tags[next := Spawned(world, ps[i])] && next' == next + 1
    ensures PlacedSoFar(world, entities0, tags0, next0, ps, i + 1, entities', tags', next')
  {
    TagStep(world, tags0, next0, ps, i, tags, next);
    RecordStep(entities0, next0, ps, i, entities);
  }

  lemma TagStep(world: ColumnWorld, tags0: map<Entity, ChunkEntity>, next0: Entity,
                ps: seq<(Column, Mesh)>, i: nat, tags: map<Entity, ChunkEntity>, next: Entity)
    requires TaggedSoFar(world, tags0, next0, ps, i, tags, next)
    requires i < |ps| && forall e | e in tags0 :: e < next0
    ensures TaggedSoFar(world, tags0, next0, ps, i + 1, tags[next := Spawned(world, ps[i])], next + 1)
  {
    var tags' := tags[next := Spawned(world, ps[i])];
    forall j | 0 <= j < i + 1 ensures tags'[next0 + j] == Spawned(world, ps[j]) {
      if j < i {
        assert tags'[next0 + j] == tags[next0 + j];
      }
    }
  }

  lemma RecordStep(entities0: map<Column, Entity>, next0: Entity, ps: seq<(Column, Mesh)>, i: nat,
                   entities: map<Column, Entity>)
    requires RecordedSoFar(entities0, next0, ps, i, entities)
    requires i < |ps| && Distinct(Firsts(ps))
    ensures RecordedSoFar(entities0, next0, ps, i + 1, entities[ps[i].0 := next0 + i])
  {
    var cs := Firsts(ps);
    assert cs[..i + 1] == cs[..i] + [cs[i]];
    ElementsSnoc(cs[..i], cs[i]);
    forall j | 0 <= j < i ensures ps[j].0 != ps[i].0 {
      assert cs[j] != cs[i];
    }
  }

  /** Spawning distinct new columns under fresh handles beside entities that
      draw other columns, one each, leaves every column drawn at most once. */
  lemma SpawnKeepsInjective(mid: map<Entity, ChunkEntity>, after: map<Entity, ChunkEntity>, next0: Entity,
                            chosen: seq<Column>)
    requires Injective(mid) && Distinct(chosen)
    requires forall e | e in mid :: e < next0 && mid[e].chunk !in chosen
    requires forall e :: e in after <==> e in mid || next0 <= e < next0 + |chosen|
    requires forall e | e in mid :: after[e] == mid[e]
    requires forall j | 0 <= j < |chosen| :: after[next0 + j].chunk == chosen[j]
    ensures Injective(after)
  {
    forall e | e in after && next0 <= e ensures after[e].chunk == chosen[e - next0] {
      assert after[next0 + (e - next0)] == after[e];
    }
  }

  /** The older loader: its render distance, the meshes it holds per column
      and the entity it spawned per column. */
  class ColumnLoader {
    const renderDistance: nat
    var chunkMeshes: map<Column, Mesh>
    var chunkEntities: map<Column, Entity>

    constructor (renderDistance: nat)
      ensures this.renderDistance == renderDistance
      ensures chunkMeshes == map[] && chunkEntities == map[]
    {
      this.renderDistance := renderDistance;
      chunkMeshes := map[];
      chunkEntities := map[];
    }

    /** The unload loop of `load_chunks`: keep one entity per wanted
        column, despawn the rest, drop the meshes of every visited column. */
    method DespawnStale(scene: Scene<ChunkEntity>, toLoad: set<Column>) returns (remaining: set<Column>)
      requires scene.Valid()
      modifies scene, this`chunkMeshes
      ensures scene.Valid() && scene.next == old(scene.next)
      ensures Despawned(toLoad, old(scene.tags), old(chunkMeshes), remaining, scene.tags, chunkMeshes)
    {
      ghost var tags0, meshes0 := scene.tags, chunkMeshes;
      var pending := scene.tags.Keys;
      ghost var kept: set<Entity> := {};
      remaining := toLoad;
      assert tags0.Keys - pending == {};
      while pending != {}
        invariant scene.Valid() && scene.next == old(scene.next)
        invariant Diffed(tags0, meshes0, toLoad, pending, kept, remaining, scene.tags, chunkMeshes)
        decreases pending
      {
        var entity :| entity in pending;
        var coords := scene.tags[entity].chunk;
        if coords in remaining {
          DiffKeep(tags0, meshes0, toLoad, pending, kept, remaining, scene.tags, chunkMeshes, entity);
          remaining := remaining - {coords};
          kept := kept + {entity};
        } else {
          DiffDrop(tags0, meshes0, toLoad, pending, kept, remaining, scene.tags, chunkMeshes, entity);
          scene.Despawn(entity);
        }
        chunkMeshes := chunkMeshes - {coords};
        pending := pending - {entity};
      }
      DiffDone(tags0, meshes0, toLoad, kept, remaining, scene.tags, chunkMeshes);
    }

    /** `into_iter().filter(..).collect()` over the remaining set: the
        columns without a mesh, each once, in no particular order. */
    method CollectUnmeshed(remaining: set<Column>) returns (list: seq<Column>)
      ensures Distinct(list)
      ensures forall c :: c in list <==> c in remaining && c !in chunkMeshes
    {
      list := [];
      var rest := remaining;
      while rest != {}
        invariant rest <= remaining
        invariant Distinct(list)
        invariant forall c :: c in list <==> c in remaining - rest && c !in chunkMeshes
        decreases rest
      {
        var c :| c in rest;
        if c !in chunkMeshes {
          DistinctConcat(list, [c]);
          list := list + [c];
        }
        rest := rest - {c};
      }
    }

    /** The spawn loop of `load_chunks`: one entity per (column, mesh) pair,
        recorded in `chunkEntities` under its column. */
    method SpawnAll(world: ColumnWorld, scene: Scene<ChunkEntity>, generated: seq<(Column, Mesh)>)
      requires scene.Valid() && Distinct(Firsts(generated))
      modifies scene, this`chunkEntities
      ensures scene.Valid()
      ensures scene.next == old(scene.next) + |generated|
      ensures forall e :: e in scene.tags <==> e in old(scene.tags) || old(scene.next) <= e < scene.next
      ensures forall e | e in old(scene.tags) :: scene.tags[e] == old(scene.tags)[e]
      ensures forall j | 0 <= j < |generated| ::
        && scene.tags[old(scene.next) + j] == Spawned(world, generated[j])
        && generated[j].0 in chunkEntities && chunkEntities[generated[j].0] == old(scene.next) + j
      ensures forall j | 0 <= j < |generated| :: scene.tags[old(scene.next) + j].chunk == Firsts(generated)[j]
      ensures chunkEntities.Keys == old(chunkEntities).Keys + Elements(Firsts(generated))
      ensures forall c | c in old(chunkEntities) && c !in Elements(Firsts(generated)) :: chunkEntities[c] == old(chunkEntities)[c]
    {
      ghost var entities0, tags0, next0 := chunkEntities, scene.tags, scene.next;
      for i := 0 to |generated|
        invariant scene.Valid()
        invariant PlacedSoFar(world, entities0, tags0, next0, generated, i, chunkEntities, scene.tags, scene.next)
      {
        var (chunk, mesh) := generated[i];
        ghost var entitiesI, tagsI, nextI := chunkEntities, scene.tags, scene.next;
        var entity := scene.Spawn(ChunkEntity(chunk, false, ChunkComponents(chunk, world.chunkSize, world.worldHeight), mesh));
        chunkEntities := chunkEntities[chunk := entity];
        PlaceStep(world, entities0, tags0, next0, generated, i, entitiesI, tagsI, nextI,
                  chunkEntities, scene.tags, scene.next);
      }
      assert Firsts(generated)[..|generated|] == Firsts(generated);
    }

    /** The admission step of `load_chunks`: collect the remaining columns
        that have no mesh, sort them by `chunk_camera_direction` and take
        `BATCH`. The set's iteration order is arbitrary, so ties may come
        out either way. */
    method ChooseLoads(remaining: set<Column>, cameraChunk: Column, forward: Forward) returns (chosen: seq<Column>)
      ensures Admitted(remaining - chunkMeshes.Keys, chosen, cameraChunk, forward)
    {
      var list := CollectUnmeshed(remaining);
      chosen := Batch(list, CameraKey(cameraChunk, forward));
      forall i, d | 0 <= i < |chosen| && d in list && d !in chosen
        ensures ScoreLe(CameraDirection(cameraChunk, forward, chosen[i]), CameraDirection(cameraChunk, forward, d))
      {
        assert ScoreLe(CameraKey(cameraChunk, forward)(chosen[i]), CameraKey(cameraChunk, forward)(d));
      }
      forall i, j | 0 <= i < j < |chosen|
        ensures ScoreLe(CameraDirection(cameraChunk, forward, chosen[i]), CameraDirection(cameraChunk, forward, chosen[j]))
      {
        assert ScoreLe(CameraKey(cameraChunk, forward)(chosen[i]), CameraKey(cameraChunk, forward)(chosen[j]));
      }
    }

    /** The meshing and spawning half of `load_chunks`: mesh each chosen
        column, then spawn it. */
    method SpawnChosen(world: ColumnWorld, scene: Scene<ChunkEntity>, chosen: seq<Column>)
      requires scene.Valid() && Distinct(chosen)
      modifies scene, this`chunkEntities
      ensures scene.Valid()
      ensures Grown(old(scene.tags), old(scene.next), chosen, scene.tags, scene.next)
      ensures Placed(world, old(chunkEntities), old(scene.next), chosen, chunkEntities, scene.tags)
    {
      var generated := seq(|chosen|, i requires 0 <= i < |chosen| reads world => (chosen[i], world.GenerateChunkMesh(chosen[i])));
      assert Firsts(generated) == chosen;
      SpawnAll(world, scene, generated);
    }

    /** `load_chunks`: diff the spawned columns against the candidates,
        then mesh and spawn the best-facing `BATCH` of the candidates that
        are neither drawn nor meshed. */
    method LoadChunks(world: ColumnWorld, scene: Scene<ChunkEntity>, cameraChunk: Column, forward: Forward)
        returns (chosen: seq<Column>)
      requires scene.Valid()
      modifies scene, this`chunkMeshes, this`chunkEntities
      ensures scene.Valid()
      ensures Unloaded(Candidates(world, cameraChunk, renderDistance), old(scene.tags), old(chunkMeshes), scene.tags, chunkMeshes)
      ensures Admitted(LoadPool(world, cameraChunk, renderDistance, old(scene.tags), old(chunkMeshes)), chosen, cameraChunk, forward)
      ensures scene.next == old(scene.next) + |chosen|
      ensures forall e | e in scene.tags && e !in old(scene.tags) :: old(scene.next) <= e < scene.next
      ensures Placed(world, old(chunkEntities), old(scene.next), chosen, chunkEntities, scene.tags)
    {
      ghost var tags0, meshes0, next0, entities0 := scene.tags, chunkMeshes, scene.next, chunkEntities;
      var toLoad := Candidates(world, cameraChunk, renderDistance);
      var remaining := DespawnStale(scene, toLoad);
      ghost var mid := scene.tags;
      chosen := ChooseLoads(remaining, cameraChunk, forward);
      assert scene.next == next0 && chunkEntities == entities0;
      SpawnChosen(world, scene, chosen);
      LoadEffect(toLoad, tags0, meshes0, next0, remaining, mid, chunkMeshes, chosen, cameraChunk, forward,
                 scene.tags, scene.next);
    }
  }

  /** Chosen column `i` is drawn by the new handle `next0 + i` with its
      placement and mesh, and recorded under that handle; other records are
      untouched. */
  ghost predicate Placed(world: ColumnWorld, entities0: map<Column, Entity>, next0: Entity, chosen: seq<Column>,
                         entities: map<Column, Entity>, tags: map<Entity, ChunkEntity>)
    reads world
  {
    && (forall i | 0 <= i < |chosen| ::
          && chosen[i] in entities && entities[chosen[i]] == next0 + i
          && next0 + i in tags
          && tags[next0 + i] == Spawned(world, (chosen[i], world.GenerateChunkMesh(chosen[i]))))
    && entities.Keys == entities0.Keys + Elements(chosen)
    && (forall c | c in entities0 && c !in chosen :: entities[c] == entities0[c])
  }

  /** What the unload half of `load_chunks` leaves: entities that stay are
      unchanged; every entity draws a candidate, no column twice; every
      candidate drawn before is still drawn; the meshes of every column that
      was drawn are dropped. */
  ghost predicate Unloaded(candidates: set<Column>, tags0: map<Entity, ChunkEntity>, meshes0: map<Column, Mesh>,
                           tags: map<Entity, ChunkEntity>, meshes: map<Column, Mesh>)
  {
    && (forall e | e in tags0 && e in tags :: tags[e] == tags0[e])
    && (forall e | e in tags :: tags[e].chunk in candidates)
    && candidates * Drawn(tags0) <= Drawn(tags)
    && Injective(tags)
    && meshes == meshes0 - Drawn(tags0)
  }

  /** `chosen` is a `BATCH` of `pool` by the camera ordering: at most `BATCH`
      distinct members, in camera order; all of the pool when it is
      smaller; nothing left behind faces the camera strictly better. */
  ghost predicate Admitted(pool: set<Column>, chosen: seq<Column>, cameraChunk: Column, forward: Forward) {
    && |chosen| <= BATCH && Distinct(chosen)
    && (forall i | 0 <= i < |chosen| :: chosen[i] in pool)
    && (forall d | d in pool :: |chosen| == BATCH || d in chosen)
    && (forall i, d | 0 <= i < |chosen| && d in pool && d !in chosen ::
          ScoreLe(CameraDirection(cameraChunk, forward, chosen[i]), CameraDirection(cameraChunk, forward, d)))
    && (forall i, j | 0 <= i < j < |chosen| ::
          ScoreLe(CameraDirection(cameraChunk, forward, chosen[i]), CameraDirection(cameraChunk, forward, chosen[j])))
  }

  /** The three steps of `load_chunks` together: the diff, the admission
      from what the diff left, and the spawns under fresh handles. */
  lemma LoadEffect(candidates: set<Column>, tags0: map<Entity, ChunkEntity>, meshes0: map<Column, Mesh>, next0: Entity,
                   remaining: set<Column>, mid: map<Entity, ChunkEntity>, meshes: map<Column, Mesh>,
                   chosen: seq<Column>, cameraChunk: Column, forward: Forward,
                   tags: map<Entity, ChunkEntity>, next: Entity)
    requires forall e | e in tags0 :: e < next0
    requires Despawned(candidates, tags0, meshes0, remaining, mid, meshes)
    requires Admitted(remaining - meshes.Keys, chosen, cameraChunk, forward)
    requires Grown(mid, next0, chosen, tags, next)
    ensures Unloaded(candidates, tags0, meshes0, tags, meshes)
    ensures Admitted(candidates - Drawn(tags0) - meshes0.Keys, chosen, cameraChunk, forward)
    ensures forall e | e in tags && e !in tags0 :: next0 <= e < next
  {
    assert remaining - meshes.Keys == candidates - Drawn(tags0) - meshes0.Keys;
    forall e | e in mid ensures mid[e].chunk !in chosen {
      assert mid[e].chunk in Drawn(tags0);
    }
    SpawnKeepsInjective(mid, tags, next0, chosen);
    forall e | e in tags ensures tags[e].chunk in candidates {
      if e >= next0 {
        assert tags[next0 + (e - next0)].chunk == chosen[e - next0];
      }
    }
    forall c | c in candidates * Drawn(tags0) ensures c in Drawn(tags) {
      var e :| e in mid && mid[e].chunk == c;
    }
  }

  /** The columns `load_chunks` may spawn: candidates that no entity drew
      and that have no mesh. */
  ghost function LoadPool(world: ColumnWorld, cameraChunk: Column, renderDistance: nat,
                          tags: map<Entity, ChunkEntity>, meshes: map<Column, Mesh>): set<Column>
    reads world
  {
    Candidates(world, cameraChunk, renderDistance) - Drawn(tags) - meshes.Keys
  }
}
