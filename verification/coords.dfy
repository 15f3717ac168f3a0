/** Chunk coordinates of the streaming pipeline: integer 3-vectors, the six
    face-adjacent neighbours of a chunk and the Chebyshev (max-abs) distance
    the breadth-first expansion is bounded by. */
module Coords {

  /** A chunk coordinate (an `I64Vec3` in the source; unbounded here). */
  datatype Coord = Coord(x: int, y: int, z: int)

  /** A chunk edge length; dividing by it must not panic. */
  type Pos = n: int | 0 < n witness 1

  function Abs(a: int): (r: nat)
    ensures r == a || r == -a
  {
    if a < 0 then -a else a
  }

  function Max(a: nat, b: nat): (r: nat)
    ensures a <= r && b <= r && (r == a || r == b)
  {
    if a < b then b else a
  }

  /** Largest absolute component of `a - b` (`(a - b).abs().max_element()`). */
  function Chebyshev(a: Coord, b: Coord): (r: nat)
    ensures Abs(a.x - b.x) <= r && Abs(a.y - b.y) <= r && Abs(a.z - b.z) <= r
    ensures r == Abs(a.x - b.x) || r == Abs(a.y - b.y) || r == Abs(a.z - b.z)
    ensures r == 0 <==> a == b
  {
    Max(Abs(a.x - b.x), Max(Abs(a.y - b.y), Abs(a.z - b.z)))
  }

  /** The six unit face steps, in the order +x, -x, +y, -y, +z, -z. */
  function Adjacent(c: Coord): (r: seq<Coord>)
    ensures |r| == 6
    ensures forall i :: 0 <= i < 6 ==> Chebyshev(r[i], c) == 1
    ensures forall i :: 0 <= i < 6 ==> Abs(r[i].x - c.x) + Abs(r[i].y - c.y) + Abs(r[i].z - c.z) == 1
  {
    [Coord(c.x + 1, c.y, c.z), Coord(c.x - 1, c.y, c.z),
     Coord(c.x, c.y + 1, c.z), Coord(c.x, c.y - 1, c.z),
     Coord(c.x, c.y, c.z + 1), Coord(c.x, c.y, c.z - 1)]
  }

  /** Adjacency is symmetric. */
  lemma AdjacentSymmetric(c: Coord, n: Coord)
    requires n in Adjacent(c)
    ensures c in Adjacent(n)
  {
    var i :| 0 <= i < 6 && Adjacent(c)[i] == n;
    var j := if i % 2 == 0 then i + 1 else i - 1;
    assert Adjacent(n)[j] == c;
  }

  /** The six neighbours are pairwise distinct and never the chunk itself. */
  lemma AdjacentDistinct(c: Coord)
    ensures forall i, j :: 0 <= i < j < 6 ==> Adjacent(c)[i] != Adjacent(c)[j]
    ensures c !in Adjacent(c)
  {
  }

  /** One face step moves the Chebyshev distance from any origin by at most one. */
  lemma ChebyshevStep(c: Coord, n: Coord, origin: Coord)
    requires n in Adjacent(c)
    ensures Chebyshev(n, origin) <= Chebyshev(c, origin) + 1
  {
  }

  /** Rust's `/` on signed integers: the quotient rounded toward zero. */
  function TruncDiv(a: int, b: int): (q: int)
    requires b > 0
    ensures 0 <= a ==> q * b <= a < (q + 1) * b
    ensures a < 0 ==> (q - 1) * b < a <= q * b
  {
    if a >= 0 then a / b else -((-a) / b)
  }

  /** Division rounded toward negative infinity (Dafny's `/` for a positive divisor). */
  function FloorDiv(a: int, b: int): (q: int)
    requires b > 0
    ensures q * b <= a < (q + 1) * b
  {
    a / b
  }
}
