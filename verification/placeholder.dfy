/** The placeholder world of `src/world/mod.rs`: a 16 x 16 x 16 grid of
    solid/air flags, meshed into one vertex and index buffer by copying a
    unit cube to every solid block, and the model matrix of a `Transform`.
    Floats are modelled as reals. */
module Placeholder {

  /** The grid's edge length. */
  const SIZE: nat := 16
  /** Cells in the grid. */
  const CELLS: nat := 4096
  /** The per-block index stride the mesher assumes: the cube's vertex count. */
  const CUBE_VERTICES: nat := 24

  datatype Vec3 = Vec3(x: real, y: real, z: real)

  datatype Vertex = Vertex(position: Vec3, normal: Vec3, uv: (real, real))

  /** Vertex and index buffers (`Mesh::new(vertices, indices)`). Indices are `u32`
      in the source; `IndicesInRange` bounds them. */
  datatype Mesh = Mesh(vertices: seq<Vertex>, indices: seq<nat>)

  // ---------------------------------------------------------------------
  // Visiting order
  // ---------------------------------------------------------------------

  /** The `n`-th cell the nested loops visit: `x` outermost, `z` innermost. */
  function Cell(n: nat): (c: (nat, nat, nat))
    requires n < CELLS
    ensures c.0 < SIZE && c.1 < SIZE && c.2 < SIZE
    ensures n == c.0 * 256 + c.1 * 16 + c.2
  {
    (n / 256, n / 16 % 16, n % 16)
  }

  /** Cell `(x, y, z)` is visited at step `x * 256 + y * 16 + z`. */
  lemma CellOf(x: nat, y: nat, z: nat)
    requires x < SIZE && y < SIZE && z < SIZE
    ensures x * 256 + y * 16 + z < CELLS
    ensures Cell(x * 256 + y * 16 + z) == (x, y, z)
  {
    var n := x * 256 + y * 16 + z;
    var c := Cell(n);
    assert c.0 == x by {
      assert x * 256 <= n < (x + 1) * 256;
      assert c.0 * 256 <= n < (c.0 + 1) * 256;
    }
    assert c.1 == y by {
      assert y * 16 <= n - x * 256 < (y + 1) * 16;
      assert c.1 * 16 <= n - x * 256 < (c.1 + 1) * 16;
    }
  }

  /** Cells are visited in lexicographic (x, y, z) order. */
  predicate LexBefore(a: (nat, nat, nat), b: (nat, nat, nat)) {
    a.0 < b.0 || (a.0 == b.0 && (a.1 < b.1 || (a.1 == b.1 && a.2 < b.2)))
  }

  lemma CellOrder(n: nat, m: nat)
    requires n < m < CELLS
    ensures LexBefore(Cell(n), Cell(m))
  {
  }

  // ---------------------------------------------------------------------
  // One cube per solid block
  // ---------------------------------------------------------------------

  /** A cube vertex moved to block `(x, y, z)`; normal and uv are kept. */
  function Moved(v: Vertex, x: nat, y: nat, z: nat): Vertex {
    v.(position := Vec3(v.position.x + x as real, v.position.y + y as real, v.position.z + z as real))
  }

  /** The cube's vertices moved to block `(x, y, z)`. */
  function Translated(vs: seq<Vertex>, x: nat, y: nat, z: nat): (r: seq<Vertex>)
    ensures |r| == |vs|
    ensures forall i | 0 <= i < |vs| :: r[i] == Moved(vs[i], x, y, z)
  {
    seq(|vs|, i requires 0 <= i < |vs| => Moved(vs[i], x, y, z))
  }

  /** The cube's indices shifted to the vertices of the `k`-th cube. */
  function Offset(indices: seq<nat>, k: nat): (r: seq<nat>)
    ensures |r| == |indices|
    ensures forall i | 0 <= i < |indices| :: r[i] == indices[i] + CUBE_VERTICES * k
  {
    seq(|indices|, i requires 0 <= i < |indices| => indices[i] + CUBE_VERTICES * k)
  }

  class World {
    /** `blocks[x][y][z]`: whether the block is solid. */
    const blocks: array3<bool>

    ghost predicate Valid() {
      blocks.Length0 == SIZE && blocks.Length1 == SIZE && blocks.Length2 == SIZE
    }

    /** `World::new`: every block solid. */
    constructor ()
      ensures Valid() && fresh(blocks)
      ensures forall x, y, z | 0 <= x < SIZE && 0 <= y < SIZE && 0 <= z < SIZE :: blocks[x, y, z]
    {
      var b := new bool[SIZE, SIZE, SIZE]((_, _, _) => false);
      for x := 0 to SIZE
        invariant forall i, j, k | 0 <= i < x && 0 <= j < SIZE && 0 <= k < SIZE :: b[i, j, k]
      {
        for y := 0 to SIZE
          invariant forall i, j, k | 0 <= i < SIZE && 0 <= j < SIZE && 0 <= k < SIZE && (i < x || (i == x && j < y)) ::
            b[i, j, k]
        {
          for z := 0 to SIZE
            invariant forall i, j, k | 0 <= i < SIZE && 0 <= j < SIZE && 0 <= k < SIZE &&
                                       (i < x || (i == x && (j < y || (j == y && k < z)))) :: b[i, j, k]
          {
            b[x, y, z] := true;
          }
        }
      }
      blocks := b;
    }

    /** Whether the `n`-th visited cell is solid. */
    predicate Solid(n: nat)
      requires Valid() && n < CELLS
      reads blocks
    {
      var c := Cell(n);
      blocks[c.0, c.1, c.2]
    }

    /** The running `block` counter: solid cells among the first `n` visited. */
    function SolidCount(n: nat): (k: nat)
      requires Valid() && n <= CELLS
      reads blocks
      ensures k <= n
    {
      if n == 0 then 0 else SolidCount(n - 1) + (if Solid(n - 1) then 1 else 0)
    }

    /** The buffers after the first `n` cells: each solid cell appends the
        cube's vertices moved to it and the cube's indices shifted by 24 per
        solid cell before it; an air cell appends nothing. */
    function MeshUpTo(cube: Mesh, n: nat): Mesh
      requires Valid() && n <= CELLS
      reads blocks
    {
      if n == 0 then Mesh([], [])
      else
        var m := MeshUpTo(cube, n - 1);
        if Solid(n - 1) then
          var c := Cell(n - 1);
          Mesh(m.vertices + Translated(cube.vertices, c.0, c.1, c.2), m.indices + Offset(cube.indices, SolidCount(n - 1)))
        else m
    }

    /** The buffers and the counter after the first `n` cells. */
    ghost predicate Built(cube: Mesh, n: nat, vertices: seq<Vertex>, indices: seq<nat>, block: nat)
      requires Valid()
      reads blocks
    {
      n <= CELLS && Mesh(vertices, indices) == MeshUpTo(cube, n) && block == SolidCount(n)
    }

    /** `generate_chunk_mesh`, given the cube primitive: the buffers after all cells. */
    method GenerateChunkMesh(cube: Mesh) returns (m: Mesh)
      requires Valid()
      ensures m == MeshUpTo(cube, CELLS)
    {
      var vertices: seq<Vertex> := [];
      var indices: seq<nat> := [];
      var block: nat := 0;
      for x := 0 to blocks.Length0
        invariant Built(cube, x * 256, vertices, indices, block)
      {
        for y := 0 to blocks.Length1
          invariant Built(cube, x * 256 + y * 16, vertices, indices, block)
        {
          for z := 0 to blocks.Length2
            invariant Built(cube, x * 256 + y * 16 + z, vertices, indices, block)
          {
            Advance(this, cube, x, y, z, vertices, indices, block);
            if blocks[x, y, z] {
              vertices := vertices + Translated(cube.vertices, x, y, z);
              indices := indices + Offset(cube.indices, block);
              block := block + 1;
            }
          }
        }
      }
      m := Mesh(vertices, indices);
    }
  }

  // ---------------------------------------------------------------------
  // What the mesh holds
  // ---------------------------------------------------------------------

  lemma MulStep(k: nat, a: nat)
    ensures (k + 1) * a == k * a + a
  {
  }

  /** One cube's worth of vertices and indices per solid cell, none per air cell. */
  lemma {:induction false} MeshSizes(w: World, cube: Mesh, n: nat)
    requires w.Valid() && n <= CELLS
    ensures |w.MeshUpTo(cube, n).vertices| == w.SolidCount(n) * |cube.vertices|
    ensures |w.MeshUpTo(cube, n).indices| == w.SolidCount(n) * |cube.indices|
  {
    if n > 0 {
      MeshSizes(w, cube, n - 1);
      var k := w.SolidCount(n - 1);
      MulStep(k, |cube.vertices|);
      MulStep(k, |cube.indices|);
    }
  }

  /** Later cells only append: the buffers after `n` cells start the buffers after `n'`. */
  lemma {:induction false} MeshPrefix(w: World, cube: Mesh, n: nat, n': nat)
    requires w.Valid() && n <= n' <= CELLS
    ensures w.MeshUpTo(cube, n).vertices <= w.MeshUpTo(cube, n').vertices
    ensures w.MeshUpTo(cube, n).indices <= w.MeshUpTo(cube, n').indices
  {
    if n < n' {
      MeshPrefix(w, cube, n, n' - 1);
    }
  }

  /** The solid cell visited at step `n` is the `k`-th cube, `k` the solid
      cells before it: right after the buffers of the cells before it, the
      vertex buffer holds the cube moved to that cell and the index buffer
      holds the cube's indices plus `24 * k`. (`MeshSizes` places that at
      `k` cubes in.) */
  lemma BlockSlice(w: World, cube: Mesh, n: nat, n': nat)
    requires w.Valid() && n < n' <= CELLS && w.Solid(n)
    ensures var before, m, c := w.MeshUpTo(cube, n), w.MeshUpTo(cube, n'), Cell(n);
      && |before.vertices| + |cube.vertices| <= |m.vertices|
      && |before.indices| + |cube.indices| <= |m.indices|
      && m.vertices[|before.vertices|..|before.vertices| + |cube.vertices|] == Translated(cube.vertices, c.0, c.1, c.2)
      && m.indices[|before.indices|..|before.indices| + |cube.indices|] == Offset(cube.indices, w.SolidCount(n))
  {
    var before, m, c := w.MeshUpTo(cube, n), w.MeshUpTo(cube, n'), Cell(n);
    var after := w.MeshUpTo(cube, n + 1);
    MeshPrefix(w, cube, n + 1, n');
    assert after.vertices <= m.vertices && after.indices <= m.indices;
    MeshStep(w, cube, n);
    assert after.vertices == before.vertices + Translated(cube.vertices, c.0, c.1, c.2);
    assert after.indices == before.indices + Offset(cube.indices, w.SolidCount(n));
    SliceOfPrefix(before.vertices, Translated(cube.vertices, c.0, c.1, c.2), m.vertices);
    SliceOfPrefix(before.indices, Offset(cube.indices, w.SolidCount(n)), m.indices);
  }

  /** Visiting one more cell, `(x, y, z)`: a solid one appends its cube and
      counts, an air one changes nothing. */
  lemma Advance(w: World, cube: Mesh, x: nat, y: nat, z: nat, vertices: seq<Vertex>, indices: seq<nat>, block: nat)
    requires w.Valid() && x < SIZE && y < SIZE && z < SIZE
    requires w.Built(cube, x * 256 + y * 16 + z, vertices, indices, block)
    ensures w.blocks[x, y, z] ==>
      w.Built(cube, x * 256 + y * 16 + z + 1, vertices + Translated(cube.vertices, x, y, z),
              indices + Offset(cube.indices, block), block + 1)
    ensures !w.blocks[x, y, z] ==> w.Built(cube, x * 256 + y * 16 + z + 1, vertices, indices, block)
  {
    CellOf(x, y, z);
  }

  /** A solid cell appends its cube to the buffers of the cells before it. */
  lemma MeshStep(w: World, cube: Mesh, n: nat)
    requires w.Valid() && n < CELLS && w.Solid(n)
    ensures var before, c := w.MeshUpTo(cube, n), Cell(n);
      w.MeshUpTo(cube, n + 1) == Mesh(before.vertices + Translated(cube.vertices, c.0, c.1, c.2),
                                      before.indices + Offset(cube.indices, w.SolidCount(n)))
  {
  }

  lemma SliceOfPrefix<T>(a: seq<T>, x: seq<T>, b: seq<T>)
    requires a + x <= b
    ensures |a| + |x| <= |b| && b[|a|..|a| + |x|] == x
  {
    assert (a + x)[|a|..|a| + |x|] == x;
  }

  /** With cube indices below 24, every index is below `24` times the cubes
      emitted so far: below the vertex count when the cube has exactly 24
      vertices, and within `u32` for the whole grid. */
  lemma {:induction false} IndicesInRange(w: World, cube: Mesh, n: nat)
    requires w.Valid() && n <= CELLS
    requires forall i | 0 <= i < |cube.indices| :: cube.indices[i] < CUBE_VERTICES
    ensures forall i | 0 <= i < |w.MeshUpTo(cube, n).indices| ::
      w.MeshUpTo(cube, n).indices[i] < CUBE_VERTICES * w.SolidCount(n) <= CUBE_VERTICES * CELLS < 0x1_0000_0000
    ensures |cube.vertices| == CUBE_VERTICES ==>
      forall i | 0 <= i < |w.MeshUpTo(cube, n).indices| :: w.MeshUpTo(cube, n).indices[i] < |w.MeshUpTo(cube, n).vertices|
  {
    if n > 0 {
      IndicesInRange(w, cube, n - 1);
    }
    MeshSizes(w, cube, n);
  }

  lemma ShortStride(k: nat, a: nat)
    requires 1 <= k && 1 <= a < CUBE_VERTICES
    ensures (k + 1) * a <= a - 1 + CUBE_VERTICES * k
  {
    assert k * a <= k * (CUBE_VERTICES - 1);
  }

  /** A cube with fewer than 24 vertices breaks the buffer: once two blocks
      are solid, the last cube's copy of the cube's highest vertex index
      points past the end of the vertex buffer. */
  lemma ShortCubeOverruns(w: World, cube: Mesh, n: nat, j: nat)
    requires w.Valid() && n <= CELLS && w.SolidCount(n) >= 2
    requires |cube.vertices| < CUBE_VERTICES && j < |cube.indices| && cube.indices[j] + 1 == |cube.vertices|
    ensures exists i | 0 <= i < |w.MeshUpTo(cube, n).indices| ::
      w.MeshUpTo(cube, n).indices[i] >= |w.MeshUpTo(cube, n).vertices|
  {
    var last := LastSolid(w, n);
    var k := w.SolidCount(last);
    BlockSlice(w, cube, last, n);
    MeshSizes(w, cube, n);
    var before, m := w.MeshUpTo(cube, last), w.MeshUpTo(cube, n);
    var li := |before.indices|;
    assert m.indices[li + j] == m.indices[li..li + |cube.indices|][j];
    ShortStride(k, |cube.vertices|);
  }

  /** A cube with more than 24 vertices aliases: the second cube's copy of
      index 0 addresses a vertex of the first cube. */
  lemma LongCubeAliases(w: World, cube: Mesh, n: nat, second: nat, j: nat)
    requires w.Valid() && second < n <= CELLS && w.Solid(second) && w.SolidCount(second) == 1
    requires |cube.vertices| > CUBE_VERTICES && j < |cube.indices| && cube.indices[j] == 0
    ensures |cube.indices| + j < |w.MeshUpTo(cube, n).indices|
    ensures w.MeshUpTo(cube, n).indices[|cube.indices| + j] < |cube.vertices|
  {
    BlockSlice(w, cube, second, n);
    MeshSizes(w, cube, second);
    var m := w.MeshUpTo(cube, n);
    assert m.indices[|cube.indices| + j] == m.indices[|cube.indices|..|cube.indices| + |cube.indices|][j];
  }

  /** The last solid cell among the first `n`. */
  lemma {:induction false} LastSolid(w: World, n: nat) returns (last: nat)
    requires w.Valid() && n <= CELLS && w.SolidCount(n) >= 1
    ensures last < n && w.Solid(last) && w.SolidCount(last) + 1 == w.SolidCount(n)
  {
    if w.Solid(n - 1) {
      last := n - 1;
    } else {
      last := LastSolid(w, n - 1);
    }
  }

  /** When every block is solid every cell counts: one cube per block. */
  lemma {:induction false} AllSolidCount(w: World, n: nat)
    requires w.Valid() && n <= CELLS
    requires forall x, y, z | 0 <= x < SIZE && 0 <= y < SIZE && 0 <= z < SIZE :: w.blocks[x, y, z]
    ensures w.SolidCount(n) == n
  {
    if n > 0 {
      AllSolidCount(w, n - 1);
    }
  }

  /** No face culling: meshing the all-solid world emits all 4096 cubes,
      hidden interior faces included. */
  lemma FullWorldMesh(w: World, cube: Mesh)
    requires w.Valid()
    requires forall x, y, z | 0 <= x < SIZE && 0 <= y < SIZE && 0 <= z < SIZE :: w.blocks[x, y, z]
    ensures |w.MeshUpTo(cube, CELLS).vertices| == 4096 * |cube.vertices|
    ensures |w.MeshUpTo(cube, CELLS).indices| == 4096 * |cube.indices|
  {
    AllSolidCount(w, CELLS);
    MeshSizes(w, cube, CELLS);
  }

  // ---------------------------------------------------------------------
  // Transform
  // ---------------------------------------------------------------------

  /** A position and a per-axis scale (`Transform::new`). */
  datatype Transform = Transform(position: Vec3, scale: Vec3) {
    /** The model matrix as four columns: scale on the diagonal, the
        position in the last column, 1 in the corner, 0 elsewhere. */
    function Matrix(): (m: seq<seq<real>>)
      ensures |m| == 4 && forall i | 0 <= i < 4 :: |m[i]| == 4
      ensures m[0][0] == scale.x && m[1][1] == scale.y && m[2][2] == scale.z && m[3][3] == 1.0
      ensures m[3][..3] == [position.x, position.y, position.z]
      ensures forall i, j | 0 <= i < 3 && 0 <= j < 4 && i != j :: m[i][j] == 0.0
    {
      [[scale.x, 0.0, 0.0, 0.0],
       [0.0, scale.y, 0.0, 0.0],
       [0.0, 0.0, scale.z, 0.0],
       [position.x, position.y, position.z, 1.0]]
    }
  }

  /** A column-major 4 x 4 matrix applied to a homogeneous column vector. */
  function Apply(m: seq<seq<real>>, v: seq<real>): (r: seq<real>)
    requires |m| == 4 && |v| == 4 && forall i | 0 <= i < 4 :: |m[i]| == 4
    ensures |r| == 4
  {
    seq(4, j requires 0 <= j < 4 => v[0] * m[0][j] + v[1] * m[1][j] + v[2] * m[2][j] + v[3] * m[3][j])
  }

  /** The model matrix scales a point about the origin, then moves it by the position. */
  lemma MatrixPlacesPoints(t: Transform, p: Vec3)
    ensures Apply(t.Matrix(), [p.x, p.y, p.z, 1.0]) ==
      [t.scale.x * p.x + t.position.x, t.scale.y * p.y + t.position.y, t.scale.z * p.z + t.position.z, 1.0]
  {
    var m, v := t.Matrix(), [p.x, p.y, p.z, 1.0];
    var r := Apply(m, v);
    assert r[0] == p.x * t.scale.x + p.y * 0.0 + p.z * 0.0 + 1.0 * t.position.x;
    assert r[1] == p.x * 0.0 + p.y * t.scale.y + p.z * 0.0 + 1.0 * t.position.y;
    assert r[2] == p.x * 0.0 + p.y * 0.0 + p.z * t.scale.z + 1.0 * t.position.z;
    assert r[3] == p.x * 0.0 + p.y * 0.0 + p.z * 0.0 + 1.0 * 1.0;
  }
}
