/** The generate -> load -> unload pipeline of `src/chunks/chunk_loader.rs`:
    the breadth-first choice of wanted chunks around the camera, the
    `ChunkLoader` with its three queues and its map of materialised chunks,
    and the four systems that run once per frame. */
module Streaming {
  import opened Coords
  import opened Seqs
  import opened Store
  import opened Host

  /** At most this many chunks are newly queued for generation per pass. */
  const ADMISSION_CAP := 16

  /** `chunk_world_pos` multiplies by this literal edge length. */
  const EDGE: Pos := 16

  // ---------------------------------------------------------------------
  // Placement of a materialised chunk
  // ---------------------------------------------------------------------

  datatype Aabb = Aabb(min: Coord, max: Coord)
  datatype Placement = Placement(translation: Coord, box: Aabb)

  /** What `load_chunks` spawns for a chunk: its `Chunk` component, the
      transform and box of `chunk_components`, and its mesh. */
  datatype Drawable = Drawable(chunk: Coord, placement: Placement, mesh: Mesh)

  /** Block `b` lies inside box `p.box` moved by `p.translation`. */
  predicate InBox(b: Coord, p: Placement) {
    && p.translation.x + p.box.min.x <= b.x < p.translation.x + p.box.max.x
    && p.translation.y + p.box.min.y <= b.y < p.translation.y + p.box.max.y
    && p.translation.z + p.box.min.z <= b.z < p.translation.z + p.box.max.z
  }

  /** The world position of a chunk: the first block of the chunk. */
  function ChunkWorldPos(c: Coord): (p: Coord)
    ensures InChunk(p, c, EDGE)
    ensures p.x % EDGE == 0 && p.y % EDGE == 0 && p.z % EDGE == 0
  {
    Coord(c.x * 16, c.y * 16, c.z * 16)
  }

  /** The drawn box of chunk `c` covers exactly the blocks of `c`. */
  function ChunkComponents(c: Coord): (r: Placement)
    ensures forall b :: InBox(b, r) <==> InChunk(b, c, EDGE)
  {
    Placement(ChunkWorldPos(c), Aabb(Coord(0, 0, 0), Coord(16, 16, 16)))
  }

  /** The drawn boxes tile space: a block is drawn by exactly one chunk, the
      one the floor-division conversion names. */
  lemma ChunkBoxesTile(b: Coord, c: Coord)
    ensures InBox(b, ChunkComponents(c)) <==> c == BlockToChunk(b, EDGE)
  {
    BlockToChunkUnique(b, c, EDGE);
  }

  // ---------------------------------------------------------------------
  // The wanted set: breadth-first expansion from the camera chunk
  // ---------------------------------------------------------------------

  /** All coordinates within Chebyshev distance `r` of `c`. */
  ghost function Cube(c: Coord, r: nat): set<Coord> {
    set x: int, y: int, z: int
      | c.x - r <= x <= c.x + r && c.y - r <= y <= c.y + r && c.z - r <= z <= c.z + r
      :: Coord(x, y, z)
  }

  lemma InCube(p: Coord, c: Coord, r: nat)
    requires Chebyshev(p, c) <= r
    ensures p in Cube(c, r)
  {
    assert p == Coord(p.x, p.y, p.z);
  }

  /** `all_chunks`: breadth-first search over face adjacency from the camera
      chunk, entering a neighbour only when it lies in the camera's forward
      cone (`isForward`, the `dot > 0.5` test) and expanding only chunks
      closer than `maxDistance`. */
  method AllChunks(cameraChunk: Coord, isForward: Coord -> bool, maxDistance: nat) returns (out: seq<Coord>)
    ensures Wanted(cameraChunk, isForward, maxDistance, out)
    ensures maxDistance == 0 ==> out == [cameraChunk]
  {
    var stack: seq<(Coord, nat)> := [(cameraChunk, 0)];
    var seen: set<Coord> := {};
    out := [];
    ghost var cube := Cube(cameraChunk, maxDistance);
    while stack != []
      invariant Searching(cameraChunk, maxDistance, isForward, out, stack, seen)
      decreases cube - seen, |stack|
    {
      out, stack, seen := VisitFront(cameraChunk, isForward, maxDistance, out, stack, seen);
    }
    forall i, n | 0 <= i < |out| && Chebyshev(out[i], cameraChunk) < maxDistance && n in Adjacent(out[i]) && isForward(n)
      ensures n in out
    {
      assert n in seen;
    }
    if maxDistance == 0 {
      SingleCentre(out, cameraChunk);
    }
  }

  /** What the search returns: the camera chunk first, no chunk twice,
      every chunk within `maxDistance` and forward after the first; every
      later chunk is a neighbour of an earlier one closer than
      `maxDistance`; and it is closed: every forward neighbour of a chunk
      closer than `maxDistance` is in it too. */
  ghost predicate Wanted(cameraChunk: Coord, isForward: Coord -> bool, maxDistance: nat, out: seq<Coord>) {
    && |out| > 0 && out[0] == cameraChunk
    && Distinct(out)
    && (forall i | 0 <= i < |out| :: Chebyshev(out[i], cameraChunk) <= maxDistance)
    && (forall i | 1 <= i < |out| :: isForward(out[i]))
    && Reached(cameraChunk, maxDistance, out)
    && (forall i, n | 0 <= i < |out| && Chebyshev(out[i], cameraChunk) < maxDistance && n in Adjacent(out[i]) && isForward(n) ::
          n in out)
  }

  /** `p` is expanded by the search (it is closer than `r`) and `n` is one of
      its neighbours. */
  ghost predicate Parent(c: Coord, r: nat, p: Coord, n: Coord) {
    Chebyshev(p, c) < r && n in Adjacent(p)
  }

  /** Some chunk among the first `k` of `out` is a parent of `n`. */
  ghost predicate PushedBy(c: Coord, r: nat, out: seq<Coord>, k: nat, n: Coord) {
    exists j | 0 <= j < k && j < |out| :: Parent(c, r, out[j], n)
  }

  /** Every chunk after the first was pushed by an earlier output chunk. */
  ghost predicate Reached(c: Coord, r: nat, out: seq<Coord>) {
    forall i | 1 <= i < |out| :: PushedBy(c, r, out, i, out[i])
  }

  /** Every stacked chunk was pushed by a chunk already output. */
  ghost predicate StackReached(c: Coord, r: nat, out: seq<Coord>, stack: seq<(Coord, nat)>) {
    forall k | 0 <= k < |stack| :: out != [] ==> PushedBy(c, r, out, |out|, stack[k].0)
  }

  /** A parent among the first `k` output chunks stays one as the output grows. */
  lemma PushedBySnoc(c: Coord, r: nat, out: seq<Coord>, x: Coord, k: nat, k': nat, n: Coord)
    requires PushedBy(c, r, out, k, n) && k <= k'
    ensures PushedBy(c, r, out + [x], k', n)
  {
    var j :| 0 <= j < k && j < |out| && Parent(c, r, out[j], n);
    assert (out + [x])[j] == out[j];
  }

  /** Popping the front entry into the output keeps the output reached. */
  lemma ReachedPop(c: Coord, r: nat, out: seq<Coord>, stack: seq<(Coord, nat)>)
    requires Reached(c, r, out) && StackReached(c, r, out, stack) && stack != [] && out != []
    ensures Reached(c, r, out + [stack[0].0])
  {
    var out' := out + [stack[0].0];
    forall i | 1 <= i < |out'| ensures PushedBy(c, r, out', i, out'[i]) {
      if i < |out| {
        assert PushedBy(c, r, out, i, out[i]);
        PushedBySnoc(c, r, out, stack[0].0, i, i, out[i]);
      } else {
        assert PushedBy(c, r, out, |out|, stack[0].0);
        PushedBySnoc(c, r, out, stack[0].0, |out|, i, stack[0].0);
      }
    }
  }

  /** Popping the front entry into the output keeps the rest of the stack reached. */
  lemma StackReachedPop(c: Coord, r: nat, out: seq<Coord>, stack: seq<(Coord, nat)>)
    requires StackReached(c, r, out, stack) && stack != [] && out != []
    ensures StackReached(c, r, out + [stack[0].0], stack[1..])
  {
    var out', rest := out + [stack[0].0], stack[1..];
    forall k | 0 <= k < |rest| ensures PushedBy(c, r, out', |out'|, rest[k].0) {
      assert rest[k] == stack[k + 1];
      assert PushedBy(c, r, out, |out|, stack[k + 1].0);
      PushedBySnoc(c, r, out, stack[0].0, |out|, |out'|, rest[k].0);
    }
  }

  /** Pushing neighbours of the last output chunk, when it is closer than
      `r`, keeps every stacked chunk reached. */
  lemma ReachedPush(c: Coord, r: nat, isForward: Coord -> bool, out: seq<Coord>, stack: seq<(Coord, nat)>, seen: set<Coord>)
    requires StackReached(c, r, out, stack) && out != []
    requires Chebyshev(out[|out| - 1], c) < r
    ensures StackReached(c, r, out, stack + Pushable(Adjacent(out[|out| - 1]), seen, isForward, c))
  {
    var pushed := Pushable(Adjacent(out[|out| - 1]), seen, isForward, c);
    PushableFacts(Adjacent(out[|out| - 1]), seen, isForward, c);
    forall k | 0 <= k < |stack + pushed| ensures PushedBy(c, r, out, |out|, (stack + pushed)[k].0) {
      if k < |stack| {
        assert (stack + pushed)[k] == stack[k];
      } else {
        assert (stack + pushed)[k] == pushed[k - |stack|];
        assert Parent(c, r, out[|out| - 1], pushed[k - |stack|].0);
      }
    }
  }

  /** The search's result is determined as a set: any two lists meeting
      `Wanted` for the same camera, cone and distance hold the same chunks.
      Closure puts every reachable chunk in, reachability keeps every other
      chunk out. */
  lemma WantedDeterminesChunks(c: Coord, isForward: Coord -> bool, r: nat, a: seq<Coord>, b: seq<Coord>)
    requires Wanted(c, isForward, r, a) && Wanted(c, isForward, r, b)
    ensures Elements(a) == Elements(b)
  {
    forall x | x in a ensures x in b {
      var i :| 0 <= i < |a| && a[i] == x;
      WantedIn(c, isForward, r, a, b, i);
    }
    forall x | x in b ensures x in a {
      var i :| 0 <= i < |b| && b[i] == x;
      WantedIn(c, isForward, r, b, a, i);
    }
  }

  /** One direction of `WantedDeterminesChunks`, by induction on the position in `a`. */
  lemma {:induction false} WantedIn(c: Coord, isForward: Coord -> bool, r: nat, a: seq<Coord>, b: seq<Coord>, i: nat)
    requires Wanted(c, isForward, r, a) && Wanted(c, isForward, r, b) && i < |a|
    ensures a[i] in b
    decreases i
  {
    if i > 0 {
      assert PushedBy(c, r, a, i, a[i]);
      var j :| 0 <= j < i && Parent(c, r, a[j], a[i]);
      WantedIn(c, isForward, r, a, b, j);
      var k :| 0 <= k < |b| && b[k] == a[j];
      assert Chebyshev(b[k], c) < r && a[i] in Adjacent(b[k]) && isForward(a[i]);
    }
  }

  /** The loop invariant of `all_chunks` together with where the search
      starts: every seen chunk lies in the cube, and the output begins with
      the camera chunk. */
  ghost predicate Searching(c: Coord, r: nat, isForward: Coord -> bool,
                            out: seq<Coord>, stack: seq<(Coord, nat)>, seen: set<Coord>)
  {
    && seen <= Cube(c, r)
    && (out == [] ==> stack == [(c, 0)] && seen == {})
    && (out != [] ==> out[0] == c)
    && Frontier(c, r, isForward, out, stack, seen)
    && Expanded(c, r, out, seen)
    && Covered(isForward, out, stack, seen)
    && Reached(c, r, out) && StackReached(c, r, out, stack)
  }

  /** The chunks held on the stack. */
  ghost function StackChunks(stack: seq<(Coord, nat)>): set<Coord> {
    set e | e in stack :: e.0
  }

  /** Every output chunk closer than `r` has had its six neighbours marked seen. */
  ghost predicate Expanded(c: Coord, r: nat, out: seq<Coord>, seen: set<Coord>) {
    forall i | 0 <= i < |out| && Chebyshev(out[i], c) < r :: Elements(Adjacent(out[i])) <= seen
  }

  /** Marking a forward chunk seen never loses it: it is output or stacked. */
  ghost predicate Covered(isForward: Coord -> bool, out: seq<Coord>, stack: seq<(Coord, nat)>, seen: set<Coord>) {
    forall n | n in seen && isForward(n) :: n in out || n in StackChunks(stack)
  }

  /** Outputting one more chunk keeps `Expanded` when its neighbours are seen
      or it is too far to expand. */
  lemma ExpandedSnoc(c: Coord, r: nat, out: seq<Coord>, next: Coord, seen: set<Coord>, seen': set<Coord>)
    requires Expanded(c, r, out, seen) && seen <= seen'
    requires Chebyshev(next, c) < r ==> Elements(Adjacent(next)) <= seen'
    ensures Expanded(c, r, out + [next], seen')
  {
    forall i | 0 <= i < |out + [next]| && Chebyshev((out + [next])[i], c) < r
      ensures Elements(Adjacent((out + [next])[i])) <= seen'
    {
      if i < |out| {
        assert (out + [next])[i] == out[i];
      }
    }
  }

  /** Popping the front entry into the output keeps `Covered`. */
  lemma CoveredPop(isForward: Coord -> bool, out: seq<Coord>, stack: seq<(Coord, nat)>, seen: set<Coord>)
    requires Covered(isForward, out, stack, seen) && stack != []
    ensures Covered(isForward, out + [stack[0].0], stack[1..], seen + {stack[0].0})
  {
    forall n | n in seen + {stack[0].0} && isForward(n)
      ensures n in out + [stack[0].0] || n in StackChunks(stack[1..])
    {
      if n != stack[0].0 && n !in out {
        var e :| e in stack && e.0 == n;
        var j :| 0 <= j < |stack| && stack[j] == e;
        assert stack[1..][j - 1] == e;
      }
    }
  }

  /** Pushing the unseen forward neighbours of `next` keeps `Covered`. */
  lemma CoveredPush(isForward: Coord -> bool, c: Coord, out: seq<Coord>, stack: seq<(Coord, nat)>, seen: set<Coord>, next: Coord)
    requires Covered(isForward, out, stack, seen)
    ensures Covered(isForward, out, stack + Pushable(Adjacent(next), seen, isForward, c), seen + Elements(Adjacent(next)))
  {
    var pushed := Pushable(Adjacent(next), seen, isForward, c);
    PushableFacts(Adjacent(next), seen, isForward, c);
    forall n | n in seen + Elements(Adjacent(next)) && isForward(n)
      ensures n in out || n in StackChunks(stack + pushed)
    {
      if n in seen {
        if n !in out {
          var e :| e in stack && e.0 == n;
          assert e in stack + pushed;
        }
      } else {
        assert (n, Chebyshev(n, c)) in stack + pushed;
      }
    }
  }

  /** One round of the loop of `all_chunks`: pop the front entry, output it
      and mark it seen; unless it is already at `maxDistance`, push its
      unseen forward neighbours and mark all six seen. */
  method VisitFront(cameraChunk: Coord, isForward: Coord -> bool, maxDistance: nat,
                    out: seq<Coord>, stack: seq<(Coord, nat)>, seen: set<Coord>)
    returns (out': seq<Coord>, stack': seq<(Coord, nat)>, seen': set<Coord>)
    requires stack != [] && Searching(cameraChunk, maxDistance, isForward, out, stack, seen)
    ensures out' == out + [stack[0].0]
    ensures stack[0].1 >= maxDistance ==> stack' == stack[1..] && seen' == seen + {stack[0].0}
    ensures stack[0].1 < maxDistance ==>
      && stack' == stack[1..] + Pushable(Adjacent(stack[0].0), seen + {stack[0].0}, isForward, cameraChunk)
      && seen' == seen + {stack[0].0} + Elements(Adjacent(stack[0].0))
    ensures Searching(cameraChunk, maxDistance, isForward, out', stack', seen')
    ensures var cube := Cube(cameraChunk, maxDistance);
      cube - seen' < cube - seen || (cube - seen' == cube - seen && |stack'| < |stack|)
  {
    FrontierPop(cameraChunk, maxDistance, isForward, out, stack, seen);
    CoveredPop(isForward, out, stack, seen);
    if out != [] {
      ReachedPop(cameraChunk, maxDistance, out, stack);
      StackReachedPop(cameraChunk, maxDistance, out, stack);
    }
    var (next, distance) := stack[0];
    stack' := stack[1..];
    out' := out + [next];
    seen' := seen + {next};
    if distance >= maxDistance {
      ExpandedSnoc(cameraChunk, maxDistance, out, next, seen, seen');
      UnseenKept(Cube(cameraChunk, maxDistance), seen, seen');
      return;
    }
    ghost var seen1, pushed := seen', Pushable(Adjacent(next), seen', isForward, cameraChunk);
    FrontierPush(cameraChunk, maxDistance, isForward, out', stack', seen', next);
    CoveredPush(isForward, cameraChunk, out', stack', seen', next);
    ReachedPush(cameraChunk, maxDistance, isForward, out', stack', seen');
    NeighboursInCube(next, cameraChunk, maxDistance);
    stack', seen' := PushNeighbours(next, cameraChunk, isForward, maxDistance, stack', seen');
    ExpandedSnoc(cameraChunk, maxDistance, out, next, seen, seen');
    if pushed != [] {
      assert pushed[0].0 in seen' - seen1;
      UnseenShrinks(Cube(cameraChunk, maxDistance), seen, seen', pushed[0].0);
    } else {
      assert seen <= seen' && |stack'| < |stack|;
      UnseenKept(Cube(cameraChunk, maxDistance), seen, seen');
    }
  }

  /** Marking more chunks seen never grows what is left unseen of the cube. */
  lemma UnseenKept(cube: set<Coord>, seen: set<Coord>, seen': set<Coord>)
    requires seen <= seen'
    ensures cube - seen' < cube - seen || cube - seen' == cube - seen
  {
  }

  /** Marking a chunk of the cube seen for the first time shrinks what is
      left unseen of the cube. */
  lemma UnseenShrinks(cube: set<Coord>, seen: set<Coord>, seen': set<Coord>, x: Coord)
    requires seen <= seen' && x in cube && x !in seen && x in seen'
    ensures cube - seen' < cube - seen
  {
    assert x in cube - seen && x !in cube - seen';
  }

  /** The loop invariant of `all_chunks`: stacked entries carry their
      distance and, once the search has started, are seen and forward;
      output entries are seen, in range, forward after the first, distinct
      and never stacked again; the stack holds each chunk once. */
  ghost predicate Frontier(c: Coord, r: nat, isForward: Coord -> bool,
                           out: seq<Coord>, stack: seq<(Coord, nat)>, seen: set<Coord>)
  {
    && (forall i | 0 <= i < |stack| :: stack[i].1 == Chebyshev(stack[i].0, c) <= r)
    && (forall i | 0 <= i < |stack| :: out != [] ==> stack[i].0 in seen && isForward(stack[i].0))
    && (forall i | 0 <= i < |out| :: out[i] in seen && Chebyshev(out[i], c) <= r)
    && (forall i | 1 <= i < |out| :: isForward(out[i]))
    && Distinct(out)
    && (forall i, j | 0 <= i < |out| && 0 <= j < |stack| :: out[i] != stack[j].0)
    && (forall i, j | 0 <= i < j < |stack| :: stack[i].0 != stack[j].0)
  }

  /** Popping the front of the stack into the output keeps the invariant. */
  lemma FrontierPop(c: Coord, r: nat, isForward: Coord -> bool,
                    out: seq<Coord>, stack: seq<(Coord, nat)>, seen: set<Coord>)
    requires Frontier(c, r, isForward, out, stack, seen) && stack != []
    requires out == [] ==> stack == [(c, 0)] && seen == {}
    ensures Frontier(c, r, isForward, out + [stack[0].0], stack[1..], seen + {stack[0].0})
    ensures stack[0].1 == Chebyshev(stack[0].0, c) <= r
    ensures stack[0].0 in Cube(c, r)
  {
    InCube(stack[0].0, c, r);
    var out', stack' := out + [stack[0].0], stack[1..];
    forall i, j | 0 <= i < j < |out'| ensures out'[i] != out'[j] {
      if j == |out| {
        assert out[i] != stack[0].0;
      }
    }
    forall i, j | 0 <= i < |out'| && 0 <= j < |stack'| ensures out'[i] != stack'[j].0 {
      assert stack'[j] == stack[j + 1];
      if i < |out| {
        assert out'[i] == out[i];
      }
    }
  }

  /** Pushing the unseen forward neighbours of an output chunk strictly
      inside the cube keeps the invariant, and each pushed chunk is new to `seen`. */
  lemma FrontierPush(c: Coord, r: nat, isForward: Coord -> bool,
                     out: seq<Coord>, stack: seq<(Coord, nat)>, seen: set<Coord>, next: Coord)
    requires Frontier(c, r, isForward, out, stack, seen) && out != []
    requires next in seen && Chebyshev(next, c) < r
    ensures Frontier(c, r, isForward, out, stack + Pushable(Adjacent(next), seen, isForward, c),
                     seen + Elements(Adjacent(next)))
    ensures forall i | 0 <= i < |Pushable(Adjacent(next), seen, isForward, c)| ::
      Pushable(Adjacent(next), seen, isForward, c)[i].0 in Elements(Adjacent(next)) - seen
  {
    var pushed := Pushable(Adjacent(next), seen, isForward, c);
    PushableFacts(Adjacent(next), seen, isForward, c);
    AdjacentDistinct(next);
    forall i | 0 <= i < |pushed| ensures pushed[i].1 == Chebyshev(pushed[i].0, c) <= r {
      ChebyshevStep(next, pushed[i].0, c);
    }
    StackAppend(c, r, isForward, seen, Elements(Adjacent(next)), stack, pushed);
    StackAppendDistinct(out, seen, stack, pushed);
  }

  /** Appending entries that carry their distance and are forward and marked
      seen keeps the stack's per-entry facts. */
  lemma StackAppend(c: Coord, r: nat, isForward: Coord -> bool, seen: set<Coord>, marked: set<Coord>,
                    stack: seq<(Coord, nat)>, pushed: seq<(Coord, nat)>)
    requires forall i | 0 <= i < |stack| :: stack[i].1 == Chebyshev(stack[i].0, c) <= r && stack[i].0 in seen && isForward(stack[i].0)
    requires forall i | 0 <= i < |pushed| :: pushed[i].1 == Chebyshev(pushed[i].0, c) <= r
    requires forall i | 0 <= i < |pushed| :: pushed[i].0 in marked && isForward(pushed[i].0)
    ensures forall i | 0 <= i < |stack + pushed| ::
      && (stack + pushed)[i].1 == Chebyshev((stack + pushed)[i].0, c) <= r
      && (stack + pushed)[i].0 in seen + marked && isForward((stack + pushed)[i].0)
  {
    forall i | |stack| <= i < |stack + pushed| ensures (stack + pushed)[i] == pushed[i - |stack|] {
    }
  }

  /** Appending repeat-free entries that are all unseen to a stack of seen
      entries keeps the stack repeat-free and apart from the seen output. */
  lemma StackAppendDistinct(out: seq<Coord>, seen: set<Coord>, stack: seq<(Coord, nat)>, pushed: seq<(Coord, nat)>)
    requires forall i | 0 <= i < |out| :: out[i] in seen
    requires forall i | 0 <= i < |stack| :: stack[i].0 in seen
    requires forall i | 0 <= i < |pushed| :: pushed[i].0 !in seen
    requires forall i, j | 0 <= i < |out| && 0 <= j < |stack| :: out[i] != stack[j].0
    requires forall i, j | 0 <= i < j < |stack| :: stack[i].0 != stack[j].0
    requires forall i, j | 0 <= i < j < |pushed| :: pushed[i].0 != pushed[j].0
    ensures forall i, j | 0 <= i < j < |stack + pushed| :: (stack + pushed)[i].0 != (stack + pushed)[j].0
    ensures forall i, j | 0 <= i < |out| && 0 <= j < |stack + pushed| :: out[i] != (stack + pushed)[j].0
  {
    var all := stack + pushed;
    forall j | |stack| <= j < |all| ensures all[j] == pushed[j - |stack|] {
    }
  }

  /** The inner loop of `all_chunks`: visit the six neighbours of `next`
      in order, append each unseen forward one to the stack with its
      distance, and mark every one seen. */
  method PushNeighbours(next: Coord, cameraChunk: Coord, isForward: Coord -> bool, maxDistance: nat,
                        stack: seq<(Coord, nat)>, seen: set<Coord>)
    returns (stack': seq<(Coord, nat)>, seen': set<Coord>)
    ensures seen' == seen + Elements(Adjacent(next))
    ensures stack' == stack + Pushable(Adjacent(next), seen, isForward, cameraChunk)
  {
    stack', seen' := stack, seen;
    var adj := Adjacent(next);
    AdjacentDistinct(next);
    assert Distinct(adj);
    for k := 0 to |adj|
      invariant seen' == seen + Elements(adj[..k])
      invariant stack' == stack + Pushable(adj[..k], seen, isForward, cameraChunk)
    {
      var neighbour := adj[k];
      PushStep(adj, k, cameraChunk, isForward, stack, seen, stack', seen');
      if neighbour !in seen' && isForward(neighbour) {
        stack' := stack' + [(neighbour, Chebyshev(neighbour, cameraChunk))];
      }
      seen' := seen' + {neighbour};
    }
    assert adj[..|adj|] == adj;
  }

  /** One round of the inner loop: neighbour `k` is marked seen, and it is
      appended exactly when it was unseen before the loop and is forward. */
  lemma PushStep(adj: seq<Coord>, k: nat, c: Coord, isForward: Coord -> bool,
                 stack: seq<(Coord, nat)>, seen: set<Coord>, stack': seq<(Coord, nat)>, seen': set<Coord>)
    requires k < |adj| && Distinct(adj)
    requires seen' == seen + Elements(adj[..k])
    requires stack' == stack + Pushable(adj[..k], seen, isForward, c)
    ensures seen' + {adj[k]} == seen + Elements(adj[..k + 1])
    ensures adj[k] !in seen' && isForward(adj[k]) ==>
      stack' + [(adj[k], Chebyshev(adj[k], c))] == stack + Pushable(adj[..k + 1], seen, isForward, c)
    ensures !(adj[k] !in seen' && isForward(adj[k])) ==> stack' == stack + Pushable(adj[..k + 1], seen, isForward, c)
  {
    var n := adj[k];
    assert adj[..k + 1] == adj[..k] + [n];
    ElementsSnoc(adj[..k], n);
    assert n !in adj[..k];
    PushStackStep(adj[..k], n, c, isForward, stack, seen);
  }

  /** The stack half of `PushStep`, for a neighbour not met before. */
  lemma PushStackStep(ns: seq<Coord>, n: Coord, c: Coord, isForward: Coord -> bool,
                      stack: seq<(Coord, nat)>, seen: set<Coord>)
    requires n !in ns
    ensures n !in seen + Elements(ns) && isForward(n) ==>
      stack + Pushable(ns, seen, isForward, c) + [(n, Chebyshev(n, c))] == stack + Pushable(ns + [n], seen, isForward, c)
    ensures !(n !in seen + Elements(ns) && isForward(n)) ==>
      stack + Pushable(ns, seen, isForward, c) == stack + Pushable(ns + [n], seen, isForward, c)
  {
    PushableSnoc(ns, n, seen, isForward, c);
    var pushed := Pushable(ns, seen, isForward, c);
    assert stack + pushed + [(n, Chebyshev(n, c))] == stack + (pushed + [(n, Chebyshev(n, c))]);
  }

  /** The entries the inner loop appends for the neighbour list `ns`: each
      neighbour not in `seen` that is forward, with its distance. */
  function Pushable(ns: seq<Coord>, seen: set<Coord>, isForward: Coord -> bool, c: Coord): (r: seq<(Coord, nat)>)
    ensures |r| <= |ns|
  {
    if ns == [] then []
    else
      var n := ns[|ns| - 1];
      Pushable(ns[..|ns| - 1], seen, isForward, c) + if n !in seen && isForward(n) then [(n, Chebyshev(n, c))] else []
  }

  /** The inner loop's step: one more neighbour appends at most one entry. */
  lemma PushableSnoc(ns: seq<Coord>, n: Coord, seen: set<Coord>, isForward: Coord -> bool, c: Coord)
    ensures Pushable(ns + [n], seen, isForward, c)
         == Pushable(ns, seen, isForward, c) + if n !in seen && isForward(n) then [(n, Chebyshev(n, c))] else []
  {
    assert (ns + [n])[..|ns|] == ns;
  }

  /** Every pushed entry is an unseen forward member of `ns` with its
      distance, every unseen forward member is pushed, and pushing from a
      distinct list pushes each chunk once. */
  lemma {:induction false} PushableFacts(ns: seq<Coord>, seen: set<Coord>, isForward: Coord -> bool, c: Coord)
    ensures forall i | 0 <= i < |Pushable(ns, seen, isForward, c)| ::
      && Pushable(ns, seen, isForward, c)[i].0 in ns && Pushable(ns, seen, isForward, c)[i].0 !in seen
      && isForward(Pushable(ns, seen, isForward, c)[i].0)
      && Pushable(ns, seen, isForward, c)[i].1 == Chebyshev(Pushable(ns, seen, isForward, c)[i].0, c)
    ensures forall n | n in ns && n !in seen && isForward(n) :: (n, Chebyshev(n, c)) in Pushable(ns, seen, isForward, c)
    ensures Distinct(ns) ==> forall i, j | 0 <= i < j < |Pushable(ns, seen, isForward, c)| ::
      Pushable(ns, seen, isForward, c)[i].0 != Pushable(ns, seen, isForward, c)[j].0
  {
    if ns != [] {
      var init, n := ns[..|ns| - 1], ns[|ns| - 1];
      PushableFacts(init, seen, isForward, c);
      var p, q := Pushable(ns, seen, isForward, c), Pushable(init, seen, isForward, c);
      assert ns == init + [n];
      forall i | 0 <= i < |p| ensures p[i].0 in ns {
        if i < |q| {
          assert p[i] == q[i];
        }
      }
      if Distinct(ns) {
        assert Distinct(init);
        forall i, j | 0 <= i < j < |p| ensures p[i].0 != p[j].0 {
          if j >= |q| {
            assert p[i] == q[i];
            assert q[i].0 in init;
          }
        }
      }
    }
  }

  /** The neighbours of a chunk strictly inside the cube are in the cube. */
  lemma NeighboursInCube(next: Coord, c: Coord, r: nat)
    requires Chebyshev(next, c) < r
    ensures Elements(Adjacent(next)) <= Cube(c, r)
  {
    forall n | n in Adjacent(next) ensures n in Cube(c, r) {
      ChebyshevStep(next, n, c);
      InCube(n, c, r);
    }
  }

  /** A distinct sequence around `c` with radius zero is just `[c]`. */
  lemma SingleCentre(s: seq<Coord>, c: Coord)
    requires |s| > 0 && s[0] == c && Distinct(s)
    requires forall i | 0 <= i < |s| :: Chebyshev(s[i], c) <= 0
    ensures s == [c]
  {
    assert |s| >= 2 ==> s[1] == s[0];
  }

  // ---------------------------------------------------------------------
  // Admission to the generate queue
  // ---------------------------------------------------------------------

  /** What `gather_chunks` snapshots before admitting anything: the queued
      and loaded coordinates, and those known to be empty. */
  datatype Snapshot = Snapshot(queuedGen: set<Coord>, queuedLoad: set<Coord>, loadedKeys: set<Coord>, knownEmpty: set<Coord>)

  /** The four filters of `to_generate`. */
  predicate Admissible(s: Snapshot, c: Coord) {
    c !in s.queuedGen && c !in s.queuedLoad && c !in s.loadedKeys && c !in s.knownEmpty
  }

  function AdmissibleIn(s: Snapshot): Coord -> bool {
    c => Admissible(s, c)
  }

  /** `to_generate`: the first `ADMISSION_CAP` admissible wanted chunks, in wanted order. */
  function Admitted(wanted: seq<Coord>, s: Snapshot): seq<Coord> {
    Take(Filter(wanted, AdmissibleIn(s)), ADMISSION_CAP)
  }

  /** At most sixteen admissions, each an admissible wanted chunk, with no
      repeats; fewer than sixteen only when every admissible wanted chunk
      was admitted. */
  lemma AdmittedProperties(wanted: seq<Coord>, s: Snapshot)
    requires Distinct(wanted)
    ensures var a := Admitted(wanted, s);
      && |a| <= ADMISSION_CAP
      && Distinct(a)
      && (forall i | 0 <= i < |a| :: a[i] in wanted && Admissible(s, a[i]))
      && (|a| < ADMISSION_CAP ==> forall i | 0 <= i < |wanted| && Admissible(s, wanted[i]) :: wanted[i] in a)
  {
    var p := AdmissibleIn(s);
    FilterDistinct(wanted, p);
    FilterSound(wanted, p);
    FilterComplete(wanted, p);
    var f := Filter(wanted, p);
    var a := Take(f, ADMISSION_CAP);
    assert a == f[..|a|];
    forall i | 0 <= i < |a| ensures a[i] in wanted && p(a[i]) {
      assert a[i] == f[i];
    }
    forall i, j | 0 <= i < j < |a| ensures a[i] != a[j] {
      assert a[i] == f[i] && a[j] == f[j];
    }
  }

  /** Coordinates whose stored data is known to be empty. */
  ghost function KnownEmpty(world: World): set<Coord>
    reads world
  {
    set c | c in world.chunks && world.chunks[c].Empty()
  }

  lemma KnownEmptyMeans(world: World, c: Coord)
    ensures c in KnownEmpty(world) <==> world.IsChunkEmpty(c)
  {
  }

  /** Each chunk of `cs` together with its six neighbours: what the
      generation stage asks the store for. */
  ghost function Neighbourhood(cs: seq<Coord>): set<Coord> {
    Elements(cs) + (set c, n | c in cs && n in Adjacent(c) :: n)
  }

  /** The loop invariant of `generate_chunks`: the first `k` chunks of the
      queue are popped, pushed to the front of the load queue, and generated
      with their neighbours. */
  ghost predicate Generating(queue0: seq<Coord>, load0: seq<Coord>, keys0: set<Coord>, k: nat,
                             queue: seq<Coord>, load: seq<Coord>, keys: set<Coord>)
  {
    && k <= |queue0| && queue == queue0[k..]
    && PushedSoFar(queue0[..k], load0, load)
    && keys == keys0 + Neighbourhood(queue0[..k])
  }

  /** One round of `generate_chunks` keeps its loop invariant. */
  lemma GeneratingStep(queue0: seq<Coord>, load0: seq<Coord>, keys0: set<Coord>, k: nat,
                       queue: seq<Coord>, load: seq<Coord>, keys: set<Coord>,
                       queue': seq<Coord>, load': seq<Coord>, keys': set<Coord>)
    requires Generating(queue0, load0, keys0, k, queue, load, keys) && queue != []
    requires queue' == queue[1..] && load' == [queue[0]] + load
    requires keys' == keys + Elements([queue[0]] + Adjacent(queue[0]))
    ensures Generating(queue0, load0, keys0, k + 1, queue', load', keys')
  {
    var chunk := queue[0];
    assert chunk == queue0[k];
    assert queue0[..k + 1] == queue0[..k] + [chunk];
    NeighbourhoodSnoc(queue0[..k], chunk);
    PushFrontStep(queue0[..k], load0, load, chunk);
  }

  /** Once the queue is drained, the load queue holds it reversed ahead of
      the old load queue, and the store has gained its neighbourhood. */
  lemma GeneratingDone(queue0: seq<Coord>, load0: seq<Coord>, keys0: set<Coord>, k: nat,
                       load: seq<Coord>, keys: set<Coord>)
    requires Generating(queue0, load0, keys0, k, [], load, keys)
    ensures load == Reverse(queue0) + load0
    ensures keys == keys0 + Neighbourhood(queue0)
  {
    assert queue0[..k] == queue0;
    PushedFront(queue0, load0, load);
  }

  /** Generating one more chunk with its neighbours grows the neighbourhood by exactly those. */
  lemma NeighbourhoodSnoc(cs: seq<Coord>, c: Coord)
    ensures Neighbourhood(cs + [c]) == Neighbourhood(cs) + Elements([c] + Adjacent(c))
  {
    var l, r := Neighbourhood(cs + [c]), Neighbourhood(cs) + Elements([c] + Adjacent(c));
    forall x | x in l ensures x in r {
      if x !in Elements(cs + [c]) {
        var d, n :| d in cs + [c] && n in Adjacent(d) && x == n;
        if d == c {
          var k :| 0 <= k < 6 && Adjacent(c)[k] == x;
          assert ([c] + Adjacent(c))[k + 1] == x;
        }
      } else if x != c {
        assert x in cs;
      }
    }
    forall x | x in r ensures x in l {
      if x in Elements([c] + Adjacent(c)) && x != c {
        var k :| 0 <= k < 7 && ([c] + Adjacent(c))[k] == x;
        assert Adjacent(c)[k - 1] == x;
      }
    }
  }

  /** The neighbourhood depends only on which chunks are listed. */
  lemma NeighbourhoodSame(a: seq<Coord>, b: seq<Coord>)
    requires forall c :: c in a <==> c in b
    ensures Neighbourhood(a) == Neighbourhood(b)
  {
  }

  lemma NeighbourhoodCovers(cs: seq<Coord>, c: Coord)
    requires c in cs
    ensures c in Neighbourhood(cs) && forall n | n in Adjacent(c) :: n in Neighbourhood(cs)
  {
    forall n | n in Adjacent(c) ensures n in Neighbourhood(cs) {
      assert n in (set c, n | c in cs && n in Adjacent(c) :: n);
    }
  }

  /** The chunks of a list of (chunk, mesh) pairs. */
  ghost function Firsts(ps: seq<(Coord, Mesh)>): set<Coord> {
    set p | p in ps :: p.0
  }

  lemma FirstsSnoc(ps: seq<(Coord, Mesh)>, i: nat)
    requires i < |ps|
    ensures Firsts(ps[..i + 1]) == Firsts(ps[..i]) + {ps[i].0}
  {
    assert ps[..i + 1] == ps[..i] + [ps[i]];
  }

  /** After spawning the first `i` pairs of `ps` from state (`loaded0`,
      `tags0`, `next0`): their chunks are recorded, each with a handle no
      older than `next0` that draws one of the pairs; every other record
      and every older entity is untouched. */
  ghost predicate SpawnedSoFar(loaded0: map<Coord, Entity>, tags0: map<Entity, Drawable>, next0: Entity,
                               ps: seq<(Coord, Mesh)>, i: nat, loaded: map<Coord, Entity>, tags: map<Entity, Drawable>)
  {
    && i <= |ps|
    && loaded.Keys == loaded0.Keys + Firsts(ps[..i])
    && (forall c | c in loaded0 && c !in Firsts(ps[..i]) :: loaded[c] == loaded0[c])
    && (forall c | c in Firsts(ps[..i]) ::
          && next0 <= loaded[c] && loaded[c] in tags
          && tags[loaded[c]].chunk == c && tags[loaded[c]] in Drawables(ps))
    && (forall e | e in tags0 :: e in tags && tags[e] == tags0[e])
  }

  /** Spawning pair `i` with a handle never handed out before keeps `SpawnedSoFar`. */
  lemma SpawnStep(loaded0: map<Coord, Entity>, tags0: map<Entity, Drawable>, next0: Entity,
                  ps: seq<(Coord, Mesh)>, i: nat, loaded: map<Coord, Entity>, tags: map<Entity, Drawable>, e: Entity)
    requires SpawnedSoFar(loaded0, tags0, next0, ps, i, loaded, tags) && i < |ps|
    requires e !in tags && next0 <= e
    ensures SpawnedSoFar(loaded0, tags0, next0, ps, i + 1, loaded[ps[i].0 := e], tags[e := DrawableOf(ps[i])])
  {
    FirstsSnoc(ps, i);
    assert DrawableOf(ps[i]) in Drawables(ps);
  }

  /** No two pairs of `ps` are for the same chunk. */
  predicate DistinctChunks(ps: seq<(Coord, Mesh)>) {
    forall j, k | 0 <= j < k < |ps| :: ps[j].0 != ps[k].0
  }

  /** The handles from `next0` on are exactly those handed out for the
      first `i` pairs, in order, each holding its pair's drawable; with no
      chunk repeated, each is the recorded entity of its chunk. */
  ghost predicate FreshSoFar(tags0: map<Entity, Drawable>, next0: Entity, ps: seq<(Coord, Mesh)>, i: nat,
                             next: Entity, tags: map<Entity, Drawable>, loaded: map<Coord, Entity>)
  {
    && i <= |ps| && next == next0 + i
    && (forall e :: e in tags <==> e in tags0 || next0 <= e < next)
    && (forall j | 0 <= j < i :: tags[next0 + j] == DrawableOf(ps[j]))
    && (DistinctChunks(ps) ==> forall j | 0 <= j < i :: ps[j].0 in loaded && loaded[ps[j].0] == next0 + j)
  }

  /** Spawning pair `i` under handle `next` keeps `FreshSoFar`. */
  lemma FreshStep(tags0: map<Entity, Drawable>, next0: Entity, ps: seq<(Coord, Mesh)>, i: nat,
                  next: Entity, tags: map<Entity, Drawable>, loaded: map<Coord, Entity>)
    requires FreshSoFar(tags0, next0, ps, i, next, tags, loaded) && i < |ps|
    requires forall e | e in tags0 :: e < next0
    ensures FreshSoFar(tags0, next0, ps, i + 1, next + 1, tags[next := DrawableOf(ps[i])], loaded[ps[i].0 := next])
  {
    var tags', loaded' := tags[next := DrawableOf(ps[i])], loaded[ps[i].0 := next];
    forall j | 0 <= j < i + 1 ensures tags'[next0 + j] == DrawableOf(ps[j]) {
      if j < i {
        assert next0 + j != next;
      }
    }
  }

  /** The loop invariant of the spawning half of `load_chunks`. */
  ghost predicate Spawning(loaded0: map<Coord, Entity>, tags0: map<Entity, Drawable>, next0: Entity,
                           ps: seq<(Coord, Mesh)>, i: nat, loaded: map<Coord, Entity>, tags: map<Entity, Drawable>, next: Entity)
  {
    && (forall e | e in tags0 :: e < next0)
    && SpawnedSoFar(loaded0, tags0, next0, ps, i, loaded, tags)
    && FreshSoFar(tags0, next0, ps, i, next, tags, loaded)
  }

  /** Spawning pair `i` under the next handle keeps `Spawning`. */
  lemma SpawningStep(loaded0: map<Coord, Entity>, tags0: map<Entity, Drawable>, next0: Entity,
                     ps: seq<(Coord, Mesh)>, i: nat, loaded: map<Coord, Entity>, tags: map<Entity, Drawable>, next: Entity,
                     loaded': map<Coord, Entity>, tags': map<Entity, Drawable>, next': Entity)
    requires Spawning(loaded0, tags0, next0, ps, i, loaded, tags, next) && i < |ps|
    requires loaded' == loaded[ps[i].0 := next] && tags' == tags[next := DrawableOf(ps[i])] && next' == next + 1
    ensures Spawning(loaded0, tags0, next0, ps, i + 1, loaded', tags', next')
  {
    SpawnStep(loaded0, tags0, next0, ps, i, loaded, tags, next);
    FreshStep(tags0, next0, ps, i, next, tags, loaded);
  }

  /** What `Spawning` says once every pair is spawned. */
  lemma SpawningDone(loaded0: map<Coord, Entity>, tags0: map<Entity, Drawable>, next0: Entity,
                     ps: seq<(Coord, Mesh)>, loaded: map<Coord, Entity>, tags: map<Entity, Drawable>, next: Entity)
    requires Spawning(loaded0, tags0, next0, ps, |ps|, loaded, tags, next)
    ensures loaded.Keys == loaded0.Keys + Firsts(ps)
    ensures forall c | c in loaded0 && c !in Firsts(ps) :: loaded[c] == loaded0[c]
    ensures forall c | c in Firsts(ps) ::
      && next0 <= loaded[c] && loaded[c] in tags
      && tags[loaded[c]].chunk == c && tags[loaded[c]] in Drawables(ps)
    ensures forall e | e in tags0 :: e in tags && tags[e] == tags0[e]
    ensures next == next0 + |ps|
    ensures forall e :: e in tags <==> e in tags0 || next0 <= e < next
    ensures forall j | 0 <= j < |ps| :: tags[next0 + j] == DrawableOf(ps[j])
    ensures DistinctChunks(ps) ==> forall j | 0 <= j < |ps| :: loaded[ps[j].0] == next0 + j
  {
    assert ps[..|ps|] == ps;
  }

  /** Each recorded chunk is drawn by its live entity. */
  ghost predicate TrackedIn(loaded: map<Coord, Entity>, tags: map<Entity, Drawable>) {
    forall c | c in loaded :: loaded[c] in tags && tags[loaded[c]].chunk == c
  }

  /** Each live entity is the recorded entity of the chunk it draws. */
  ghost predicate OwnedIn(loaded: map<Coord, Entity>, tags: map<Entity, Drawable>) {
    forall e | e in tags :: tags[e].chunk in loaded && loaded[tags[e].chunk] == e
  }

  /** Spawning keeps every recorded chunk drawn by its entity. */
  lemma SpawnKeepsTracked(loaded0: map<Coord, Entity>, tags0: map<Entity, Drawable>, next0: Entity,
                          ps: seq<(Coord, Mesh)>, loaded: map<Coord, Entity>, tags: map<Entity, Drawable>, next: Entity)
    requires Spawning(loaded0, tags0, next0, ps, |ps|, loaded, tags, next)
    ensures TrackedIn(loaded0, tags0) ==> TrackedIn(loaded, tags)
  {
    if TrackedIn(loaded0, tags0) {
      assert ps[..|ps|] == ps;
      forall c | c in loaded ensures loaded[c] in tags && tags[loaded[c]].chunk == c {
        if c !in Firsts(ps) {
          assert loaded[c] in tags0;
        }
      }
    }
  }

  /** Spawning entities for new, distinct chunks keeps every live entity the
      recorded entity of the chunk it draws. */
  lemma SpawnKeepsOwned(loaded0: map<Coord, Entity>, tags0: map<Entity, Drawable>, next0: Entity,
                        ps: seq<(Coord, Mesh)>, loaded: map<Coord, Entity>, tags: map<Entity, Drawable>, next: Entity)
    requires Spawning(loaded0, tags0, next0, ps, |ps|, loaded, tags, next)
    ensures OwnedIn(loaded0, tags0) && DistinctChunks(ps) && (forall c | c in Firsts(ps) :: c !in loaded0) ==>
      OwnedIn(loaded, tags)
  {
    if OwnedIn(loaded0, tags0) && DistinctChunks(ps) && (forall c | c in Firsts(ps) :: c !in loaded0) {
      assert ps[..|ps|] == ps;
      forall e | e in tags ensures tags[e].chunk in loaded && loaded[tags[e].chunk] == e {
        if e in tags0 {
          assert tags0[e].chunk in loaded0;
        } else {
          var j := e - next0;
          assert tags[next0 + j] == DrawableOf(ps[j]);
          assert ps[j] in ps;
        }
      }
    }
  }

  /** The loop invariant of the meshing half of `load_chunks`, for queue
      `q` split into `popped` and `rest`: each pair is a loadable chunk with
      its mesh, every loadable popped chunk is meshed, and no chunk is meshed
      twice from a repeat-free queue. */
  ghost predicate Meshing(world: World, q: seq<Coord>, popped: seq<Coord>, rest: seq<Coord>, ps: seq<(Coord, Mesh)>)
    reads world
  {
    && q == popped + rest
    && (forall c | c in q :: c in world.chunks)
    && (forall j | 0 <= j < |ps| :: ps[j].0 in Loadable(world, q) && ps[j].1 == world.GenerateChunkMesh(ps[j].0))
    && (forall c | c in popped && c in Loadable(world, q) :: c in Firsts(ps))
    && ChunksFrom(ps, popped, rest)
  }

  /** Popping a chunk known to be empty keeps `Meshing`. */
  lemma MeshingSkip(world: World, q: seq<Coord>, popped: seq<Coord>, rest: seq<Coord>, ps: seq<(Coord, Mesh)>)
    requires rest != [] && Meshing(world, q, popped, rest, ps) && world.IsChunkEmpty(rest[0])
    ensures Meshing(world, q, popped + [rest[0]], rest[1..], ps)
  {
    ChunksFromSkip(ps, popped, rest);
  }

  /** Popping a non-empty chunk and meshing it keeps `Meshing`. */
  lemma MeshingMesh(world: World, q: seq<Coord>, popped: seq<Coord>, rest: seq<Coord>, ps: seq<(Coord, Mesh)>)
    requires rest != [] && Meshing(world, q, popped, rest, ps) && !world.IsChunkEmpty(rest[0])
    ensures rest[0] in world.chunks
    ensures Meshing(world, q, popped + [rest[0]], rest[1..], ps + [(rest[0], world.GenerateChunkMesh(rest[0]))])
  {
    assert rest[0] in q;
    var c := rest[0];
    var ps' := ps + [(c, world.GenerateChunkMesh(c))];
    ChunksFromMesh(ps, popped, rest, world.GenerateChunkMesh(c));
    assert Firsts(ps') == Firsts(ps) + {c};
  }

  /** What `Meshing` says once the queue is drained. */
  lemma MeshingDone(world: World, q: seq<Coord>, popped: seq<Coord>, ps: seq<(Coord, Mesh)>)
    requires Meshing(world, q, popped, [], ps)
    ensures Firsts(ps) == Loadable(world, q)
    ensures forall j | 0 <= j < |ps| :: ps[j].0 in world.chunks && ps[j].1 == world.GenerateChunkMesh(ps[j].0)
    ensures Distinct(q) ==> DistinctChunks(ps)
  {
    assert popped + [] == popped;
  }

  /** The meshed pairs are for chunks already popped, and no chunk is
      meshed twice when the queue `popped + rest` repeats none. */
  ghost predicate ChunksFrom(ps: seq<(Coord, Mesh)>, popped: seq<Coord>, rest: seq<Coord>) {
    && (forall j | 0 <= j < |ps| :: ps[j].0 in popped)
    && (Distinct(popped + rest) ==> DistinctChunks(ps))
  }

  /** Popping a chunk that is skipped keeps `ChunksFrom`. */
  lemma ChunksFromSkip(ps: seq<(Coord, Mesh)>, popped: seq<Coord>, rest: seq<Coord>)
    requires rest != [] && ChunksFrom(ps, popped, rest)
    ensures ChunksFrom(ps, popped + [rest[0]], rest[1..])
  {
    assert popped + rest == (popped + [rest[0]]) + rest[1..];
  }

  /** Popping a chunk and meshing it keeps `ChunksFrom`. */
  lemma ChunksFromMesh(ps: seq<(Coord, Mesh)>, popped: seq<Coord>, rest: seq<Coord>, m: Mesh)
    requires rest != [] && ChunksFrom(ps, popped, rest)
    ensures ChunksFrom(ps + [(rest[0], m)], popped + [rest[0]], rest[1..])
  {
    assert popped + rest == (popped + [rest[0]]) + rest[1..];
    if Distinct(popped + rest) {
      DistinctConcat(popped, rest);
      assert rest[0] !in popped;
    }
  }

  /** What is spawned for the pairs of `ps`. */
  ghost function Drawables(ps: seq<(Coord, Mesh)>): set<Drawable> {
    set p | p in ps :: DrawableOf(p)
  }

  /** What is spawned for one (chunk, mesh) pair. */
  function DrawableOf(p: (Coord, Mesh)): Drawable {
    Drawable(p.0, ChunkComponents(p.0), p.1)
  }

  /** Materialising chunk `c`: its placement and its mesh. */
  function Materialise(world: World, c: Coord): Drawable
    requires world.IsChunkGenerated(c)
    reads world
  {
    Drawable(c, ChunkComponents(c), world.GenerateChunkMesh(c))
  }

  lemma CardSubset<T>(a: set<T>, b: set<T>)
    requires a <= b
    ensures |a| <= |b|
    decreases |b|
  {
    if a != {} {
      var x :| x in a;
      CardSubset(a - {x}, b - {x});
    }
  }

  lemma {:induction false} CardElements<T>(s: seq<T>)
    ensures |set x | x in s| <= |s|
  {
    if s != [] {
      CardElements(s[1..]);
      assert (set x | x in s) == (set x | x in s[1..]) + {s[0]};
    }
  }

  // ---------------------------------------------------------------------
  // Queue discipline, and how each stage keeps it
  // ---------------------------------------------------------------------

  /** No coordinate is queued twice for generation or loading, or in both of
      those queues; nothing queued there is loaded; every coordinate queued
      for unloading is loaded, and queued once. */
  ghost predicate Disciplined(gen: seq<Coord>, load: seq<Coord>, unload: seq<Coord>, loadedKeys: set<Coord>) {
    && Distinct(gen + load)
    && Distinct(unload)
    && (forall c | c in gen + load :: c !in loadedKeys)
    && (forall c | c in unload :: c in loadedKeys)
  }

  /** Under the discipline a coordinate waits in at most one queue. */
  lemma DisciplinedQueuesDisjoint(gen: seq<Coord>, load: seq<Coord>, unload: seq<Coord>, loadedKeys: set<Coord>)
    requires Disciplined(gen, load, unload, loadedKeys)
    ensures forall c | c in gen :: c !in load && c !in unload
    ensures forall c | c in load :: c !in unload
  {
    DistinctConcat(gen, load);
    forall c | c in gen ensures c !in load {
      var i :| 0 <= i < |gen| && gen[i] == c;
      forall j | 0 <= j < |load| ensures load[j] != c {
        assert gen[i] != load[j];
      }
    }
  }

  /** Gathering pushes distinct, unqueued, unloaded chunks for generation and
      distinct, loaded, not yet queued chunks for unloading. */
  lemma GatherKeepsDiscipline(gen: seq<Coord>, load: seq<Coord>, unload: seq<Coord>, loadedKeys: set<Coord>,
                              admitted: seq<Coord>, pushed: seq<Coord>)
    requires Disciplined(gen, load, unload, loadedKeys)
    requires Distinct(admitted) && forall c | c in admitted :: c !in gen && c !in load && c !in loadedKeys
    requires Distinct(pushed) && forall c | c in pushed :: c in loadedKeys && c !in unload
    ensures Disciplined(admitted + gen, load, pushed + unload, loadedKeys)
  {
    DistinctConcat(gen, load);
    forall i, j | 0 <= i < |admitted| && 0 <= j < |gen| ensures admitted[i] != gen[j] {
      assert admitted[i] in admitted && gen[j] in gen;
    }
    DistinctConcat(admitted, gen);
    var ag := admitted + gen;
    forall i, j | 0 <= i < |ag| && 0 <= j < |load| ensures ag[i] != load[j] {
      if i < |admitted| {
        assert ag[i] == admitted[i] && admitted[i] in admitted && load[j] in load;
      } else {
        assert ag[i] == gen[i - |admitted|];
        assert gen[i - |admitted|] != load[j] by {
          assert (gen + load)[i - |admitted|] == gen[i - |admitted|] && (gen + load)[|gen| + j] == load[j];
        }
      }
    }
    DistinctConcat(ag, load);
    forall c | c in ag + load ensures c !in loadedKeys {
      assert c in admitted || c in gen + load;
    }
    forall i, j | 0 <= i < |pushed| && 0 <= j < |unload| ensures pushed[i] != unload[j] {
      assert pushed[i] in pushed && unload[j] in unload;
    }
    DistinctConcat(pushed, unload);
  }

  /** Generation moves the whole generate queue, reversed, to the front of the load queue. */
  lemma GenerateKeepsDiscipline(gen: seq<Coord>, load: seq<Coord>, unload: seq<Coord>, loadedKeys: set<Coord>)
    requires Disciplined(gen, load, unload, loadedKeys)
    ensures Disciplined([], Reverse(gen) + load, unload, loadedKeys)
  {
    DistinctConcat(gen, load);
    ReverseElements(gen);
    DistinctConcat(Reverse(gen), load);
    assert [] + (Reverse(gen) + load) == Reverse(gen) + load;
  }

  /** Loading drains the load queue and marks some of its chunks loaded. */
  lemma LoadKeepsDiscipline(gen: seq<Coord>, load: seq<Coord>, unload: seq<Coord>, loadedKeys: set<Coord>, added: set<Coord>)
    requires Disciplined(gen, load, unload, loadedKeys)
    requires forall c | c in added :: c in load
    ensures Disciplined(gen, [], unload, loadedKeys + added)
  {
    assert gen + [] == gen;
    DistinctConcat(gen, load);
    DisciplinedQueuesDisjoint(gen, load, unload, loadedKeys);
    forall c | c in gen ensures c !in loadedKeys && c !in added {
      assert c in gen + load && c !in load;
    }
  }

  /** Unloading drains the unload queue and forgets its chunks. */
  lemma UnloadKeepsDiscipline(gen: seq<Coord>, load: seq<Coord>, unload: seq<Coord>, loadedKeys: set<Coord>)
    requires Disciplined(gen, load, unload, loadedKeys)
    ensures Disciplined(gen, load, [], loadedKeys - Elements(unload))
  {
  }

  // ---------------------------------------------------------------------
  // The loader
  // ---------------------------------------------------------------------

  class ChunkLoader {
    const renderDistance: nat
    var generateQueue: seq<Coord>
    var loadQueue: seq<Coord>
    var unloadQueue: seq<Coord>
    var loaded: map<Coord, Entity>

    constructor (renderDistance: nat)
      ensures this.renderDistance == renderDistance
      ensures generateQueue == [] && loadQueue == [] && unloadQueue == [] && loaded == map[]
      ensures Idle() && Exclusive()
    {
      this.renderDistance := renderDistance;
      generateQueue, loadQueue, unloadQueue := [], [], [];
      loaded := map[];
    }

    /** All three queues are drained, as they are between passes. */
    ghost predicate Idle()
      reads this
    {
      generateQueue == [] && loadQueue == [] && unloadQueue == []
    }

    ghost predicate Exclusive()
      reads this
    {
      Disciplined(generateQueue, loadQueue, unloadQueue, loaded.Keys)
    }

    /** Every chunk waiting to be loaded has stored data. */
    ghost predicate LoadReady(world: World)
      reads this, world
    {
      forall c | c in loadQueue :: c in world.chunks
    }

    /** Each materialised chunk is held by a live entity that draws that chunk. */
    ghost predicate Tracked(scene: Scene<Drawable>)
      reads this`loaded, scene`tags
    {
      TrackedIn(loaded, scene.tags)
    }

    /** Each live entity is the recorded entity of the chunk it draws: the
        scene holds no chunk entity that `loaded` does not know of. */
    ghost predicate Owned(scene: Scene<Drawable>)
      reads this`loaded, scene`tags
    {
      OwnedIn(loaded, scene.tags)
    }

    /** `gather_chunks`: queue for unloading every loaded chunk no longer
        wanted, and for generation up to sixteen wanted chunks that are
        neither queued, loaded nor known to be empty. Both pushes go to the
        front of their queue. */
    method GatherChunks(world: World, cameraChunk: Coord, isForward: Coord -> bool)
      returns (ghost wanted: seq<Coord>, ghost unwanted: seq<Coord>)
      modifies this`generateQueue, this`unloadQueue
      ensures Wanted(cameraChunk, isForward, renderDistance, wanted)
      ensures generateQueue == Reverse(Admitted(wanted, Snapshot(Elements(old(generateQueue)), Elements(loadQueue), loaded.Keys, KnownEmpty(world)))) + old(generateQueue)
      ensures unloadQueue == unwanted + old(unloadQueue) && Distinct(unwanted)
      ensures forall c :: c in unwanted <==> c in loaded && c !in wanted && c !in old(unloadQueue)
      ensures old(Exclusive()) ==> Exclusive()
    {
      var queuedForGeneration := Elements(generateQueue);
      var queuedForLoading := Elements(loadQueue);
      var queuedForUnload := Elements(unloadQueue);
      var all := AllChunks(cameraChunk, isForward, renderDistance);
      wanted := all;
      var allSet := Elements(all);
      var loadedKeys := loaded.Keys;

      var toUnload := set c | c in loadedKeys && c !in allSet && c !in queuedForUnload;
      unwanted := QueueUnloads(toUnload);

      ghost var snapshot := Snapshot(queuedForGeneration, queuedForLoading, loadedKeys, KnownEmpty(world));
      QueueGeneration(world, all, queuedForGeneration, queuedForLoading, loadedKeys);
      if old(Exclusive()) {
        AdmittedProperties(all, snapshot);
        ReverseElements(Admitted(all, snapshot));
        GatherKeepsDiscipline(old(generateQueue), loadQueue, old(unloadQueue), loadedKeys, Reverse(Admitted(all, snapshot)), unwanted);
      }
    }

    /** The unloading half of `gather_chunks`: push every chunk of
        `toUnload` to the front of the unload queue, each once, in the
        (unspecified) iteration order of the set. */
    method QueueUnloads(toUnload: set<Coord>) returns (ghost pushed: seq<Coord>)
      modifies this`unloadQueue
      ensures unloadQueue == pushed + old(unloadQueue)
      ensures Distinct(pushed) && forall c :: c in pushed <==> c in toUnload
    {
      pushed := [];
      var rest := toUnload;
      while rest != {}
        invariant rest <= toUnload
        invariant unloadQueue == pushed + old(unloadQueue)
        invariant Distinct(pushed)
        invariant forall c :: c in pushed <==> c in toUnload - rest
        decreases rest
      {
        var c :| c in rest;
        assert c !in pushed;
        DistinctConcat([c], pushed);
        unloadQueue := [c] + unloadQueue;
        pushed := [c] + pushed;
        rest := rest - {c};
      }
    }

    /** The generation half of `gather_chunks`: walk the wanted chunks in
        order and push to the front of the generate queue each one that is
        not queued for generation or loading, not loaded and not known to be
        empty, stopping after sixteen. */
    method QueueGeneration(world: World, all: seq<Coord>, queuedForGeneration: set<Coord>,
                           queuedForLoading: set<Coord>, loadedKeys: set<Coord>)
      modifies this`generateQueue
      ensures generateQueue == Reverse(Admitted(all, Snapshot(queuedForGeneration, queuedForLoading, loadedKeys, KnownEmpty(world)))) + old(generateQueue)
    {
      ghost var p := AdmissibleIn(Snapshot(queuedForGeneration, queuedForLoading, loadedKeys, KnownEmpty(world)));
      ghost var admitted: seq<Coord> := [];
      var i, taken := 0, 0;
      while i < |all| && taken < ADMISSION_CAP
        invariant 0 <= i <= |all|
        invariant admitted == Filter(all[..i], p) && taken == |admitted| <= ADMISSION_CAP
        invariant PushedSoFar(admitted, old(generateQueue), generateQueue)
      {
        var c := all[i];
        assert all[..i + 1] == all[..i] + [c];
        FilterSnoc(all[..i], c, p);
        KnownEmptyMeans(world, c);
        if c !in queuedForGeneration && c !in queuedForLoading && c !in loadedKeys && !world.IsChunkEmpty(c) {
          PushFrontStep(admitted, old(generateQueue), generateQueue, c);
          generateQueue := [c] + generateQueue;
          admitted := admitted + [c];
          taken := taken + 1;
        }
        i := i + 1;
      }
      TakeOfFilterPrefix(all, i, p, ADMISSION_CAP);
      PushedFront(admitted, old(generateQueue), generateQueue);
    }

    /** `generate_chunks`: drain the generate queue; generate each chunk and
        its neighbours and push the chunk to the front of the load queue. */
    method GenerateChunks(world: World)
      requires world.Valid()
      modifies this`generateQueue, this`loadQueue, world
      ensures world.Valid()
      ensures generateQueue == []
      ensures loadQueue == Reverse(old(generateQueue)) + old(loadQueue)
      ensures world.chunks.Keys == old(world.chunks).Keys + Neighbourhood(old(generateQueue))
      ensures old(LoadReady(world)) ==> LoadReady(world)
      ensures old(Exclusive()) ==> Exclusive()
    {
      ghost var queue0, load0, keys0 := generateQueue, loadQueue, world.chunks.Keys;
      ghost var k := 0;
      while generateQueue != []
        invariant world.Valid()
        invariant Generating(queue0, load0, keys0, k, generateQueue, loadQueue, world.chunks.Keys)
        decreases |generateQueue|
      {
        var chunk := generateQueue[0];
        ghost var queueK, loadK, keysK := generateQueue, loadQueue, world.chunks.Keys;
        generateQueue := generateQueue[1..];
        world.GenerateChunks([chunk] + Adjacent(chunk));
        loadQueue := [chunk] + loadQueue;
        GeneratingStep(queue0, load0, keys0, k, queueK, loadK, keysK, generateQueue, loadQueue, world.chunks.Keys);
        k := k + 1;
      }
      GeneratingDone(queue0, load0, keys0, k, loadQueue, world.chunks.Keys);
      if old(LoadReady(world)) {
        forall c | c in loadQueue ensures c in world.chunks {
          ReverseElements(queue0);
        }
      }
      if old(Exclusive()) {
        GenerateKeepsDiscipline(queue0, load0, unloadQueue, loaded.Keys);
      }
    }

    /** `load_chunks`: drain the load queue, skip chunks known to be empty,
        mesh the rest, then spawn and record an entity for each meshed chunk. */
    method LoadChunks(world: World, scene: Scene<Drawable>)
      requires world.Valid() && scene.Valid()
      requires LoadReady(world)
      modifies this`loadQueue, this`loaded, scene
      ensures scene.Valid() && loadQueue == []
      ensures loaded.Keys == old(loaded).Keys + Loadable(world, old(loadQueue))
      ensures forall c | c in old(loaded) && c !in Loadable(world, old(loadQueue)) :: loaded[c] == old(loaded)[c]
      ensures forall c | c in Loadable(world, old(loadQueue)) ::
        && loaded[c] !in old(scene.tags) && loaded[c] in scene.tags
        && scene.tags[loaded[c]] == Materialise(world, c)
      ensures forall e | e in old(scene.tags) :: e in scene.tags && scene.tags[e] == old(scene.tags)[e]
      ensures forall e :: e in scene.tags <==> e in old(scene.tags) || old(scene.next) <= e < scene.next
      ensures old(Exclusive()) ==> Exclusive()
      ensures old(Tracked(scene)) ==> Tracked(scene)
      ensures old(Exclusive()) && old(Owned(scene)) ==> Owned(scene)
    {
      ghost var loadable := Loadable(world, loadQueue);
      var generatedMeshes := MeshLoadQueue(world);
      SpawnChunks(scene, generatedMeshes);
      forall c | c in loadable ensures scene.tags[loaded[c]] == Materialise(world, c) {
        var p :| p in generatedMeshes && scene.tags[loaded[c]] == DrawableOf(p);
      }
      if old(Exclusive()) {
        LoadKeepsDiscipline(generateQueue, old(loadQueue), unloadQueue, old(loaded).Keys, loadable);
        DistinctConcat(generateQueue, old(loadQueue));
        assert forall c | c in loadable :: c in generateQueue + old(loadQueue);
      }
    }

    /** The meshing half of `load_chunks`: pop every queued chunk, drop the
        ones known to be empty and pair each other one with its mesh. */
    method MeshLoadQueue(world: World) returns (generatedMeshes: seq<(Coord, Mesh)>)
      requires world.Valid() && LoadReady(world)
      modifies this`loadQueue
      ensures loadQueue == []
      ensures Firsts(generatedMeshes) == Loadable(world, old(loadQueue))
      ensures forall j | 0 <= j < |generatedMeshes| ::
        generatedMeshes[j].0 in world.chunks && generatedMeshes[j].1 == world.GenerateChunkMesh(generatedMeshes[j].0)
      ensures Distinct(old(loadQueue)) ==> DistinctChunks(generatedMeshes)
    {
      ghost var popped: seq<Coord> := [];
      generatedMeshes := [];
      while loadQueue != []
        invariant Meshing(world, old(loadQueue), popped, loadQueue, generatedMeshes)
        decreases |loadQueue|
      {
        var chunk := loadQueue[0];
        ghost var rest := loadQueue;
        loadQueue := loadQueue[1..];
        if world.IsChunkEmpty(chunk) {
          MeshingSkip(world, old(loadQueue), popped, rest, generatedMeshes);
          popped := popped + [chunk];
          continue;
        }
        MeshingMesh(world, old(loadQueue), popped, rest, generatedMeshes);
        popped := popped + [chunk];
        generatedMeshes := generatedMeshes + [(chunk, world.GenerateChunkMesh(chunk))];
      }
      MeshingDone(world, old(loadQueue), popped, generatedMeshes);
    }

    /** The spawning half of `load_chunks`: an entity for each meshed chunk,
        recorded in `loaded` (a later pair for the same chunk wins). */
    method SpawnChunks(scene: Scene<Drawable>, generatedMeshes: seq<(Coord, Mesh)>)
      requires scene.Valid()
      modifies this`loaded, scene
      ensures scene.Valid()
      ensures loaded.Keys == old(loaded).Keys + Firsts(generatedMeshes)
      ensures forall c | c in old(loaded) && c !in Firsts(generatedMeshes) :: loaded[c] == old(loaded)[c]
      ensures forall c | c in Firsts(generatedMeshes) ::
        && old(scene.next) <= loaded[c] && loaded[c] in scene.tags
        && scene.tags[loaded[c]].chunk == c && scene.tags[loaded[c]] in Drawables(generatedMeshes)
      ensures forall e | e in old(scene.tags) :: e in scene.tags && scene.tags[e] == old(scene.tags)[e]
      ensures scene.next == old(scene.next) + |generatedMeshes|
      ensures forall e :: e in scene.tags <==> e in old(scene.tags) || old(scene.next) <= e < scene.next
      ensures forall j | 0 <= j < |generatedMeshes| :: scene.tags[old(scene.next) + j] == DrawableOf(generatedMeshes[j])
      ensures DistinctChunks(generatedMeshes) ==>
        forall j | 0 <= j < |generatedMeshes| :: loaded[generatedMeshes[j].0] == old(scene.next) + j
      ensures old(Tracked(scene)) ==> Tracked(scene)
      ensures old(Owned(scene)) && DistinctChunks(generatedMeshes) && (forall c | c in Firsts(generatedMeshes) :: c !in old(loaded)) ==>
        Owned(scene)
    {
      ghost var loaded0, tags0, next0 := loaded, scene.tags, scene.next;
      for i := 0 to |generatedMeshes|
        invariant scene.Valid()
        invariant Spawning(loaded0, tags0, next0, generatedMeshes, i, loaded, scene.tags, scene.next)
      {
        var (chunk, mesh) := generatedMeshes[i];
        var placement := ChunkComponents(chunk);
        ghost var loadedI, tagsI, nextI := loaded, scene.tags, scene.next;
        var entity := scene.Spawn(Drawable(chunk, placement, mesh));
        loaded := loaded[chunk := entity];
        SpawningStep(loaded0, tags0, next0, generatedMeshes, i, loadedI, tagsI, nextI, loaded, scene.tags, scene.next);
      }
      SpawningDone(loaded0, tags0, next0, generatedMeshes, loaded, scene.tags, scene.next);
      SpawnKeepsTracked(loaded0, tags0, next0, generatedMeshes, loaded, scene.tags, scene.next);
      SpawnKeepsOwned(loaded0, tags0, next0, generatedMeshes, loaded, scene.tags, scene.next);
    }

    /** `unload_chunks`: drain the unload queue; despawn and forget each
        coordinate that is loaded, ignore the rest. */
    method UnloadChunks(scene: Scene<Drawable>)
      requires scene.Valid()
      modifies this`unloadQueue, this`loaded, scene
      ensures scene.Valid()
      ensures unloadQueue == []
      ensures loaded == old(loaded) - Elements(old(unloadQueue))
      ensures scene.tags == old(scene.tags) - (set c | c in old(unloadQueue) && c in old(loaded) :: old(loaded)[c])
      ensures old(Exclusive()) ==> Exclusive()
      ensures old(Tracked(scene)) ==> Tracked(scene)
      ensures old(Owned(scene)) ==> Owned(scene)
    {
      ghost var popped: seq<Coord> := [];
      ghost var wasTracked := old(Tracked(scene));
      while unloadQueue != []
        invariant old(unloadQueue) == popped + unloadQueue
        invariant scene.Valid()
        invariant loaded == old(loaded) - Elements(popped)
        invariant scene.tags == old(scene.tags) - (set c | c in popped && c in old(loaded) :: old(loaded)[c])
        invariant wasTracked ==> Tracked(scene)
        invariant old(Owned(scene)) ==> Owned(scene)
        decreases |unloadQueue|
      {
        var chunk := unloadQueue[0];
        unloadQueue := unloadQueue[1..];
        if chunk in loaded {
          var entity := loaded[chunk];
          scene.Despawn(entity);
          loaded := loaded - {chunk};
        }
        popped := popped + [chunk];
      }
      if old(Exclusive()) {
        UnloadKeepsDiscipline(generateQueue, loadQueue, old(unloadQueue), old(loaded).Keys);
      }
    }

    /** One pass of the four systems, in pipeline order, starting from drained queues. */
    method Tick(world: World, scene: Scene<Drawable>, cameraChunk: Coord, isForward: Coord -> bool) returns (ghost wanted: seq<Coord>)
      requires world.Valid() && scene.Valid()
      requires Idle() && Tracked(scene) && Owned(scene)
      modifies this`generateQueue, this`loadQueue, this`unloadQueue, this`loaded, world, scene
      ensures world.Valid() && scene.Valid() && Idle() && Tracked(scene) && Owned(scene)
      ensures Wanted(cameraChunk, isForward, renderDistance, wanted)
      ensures world.chunks.Keys == old(world.chunks).Keys + Neighbourhood(Admitted(wanted, Snapshot({}, {}, old(loaded).Keys, old(KnownEmpty(world)))))
      ensures loaded.Keys == (old(loaded).Keys * Elements(wanted)) + Loadable(world, Admitted(wanted, Snapshot({}, {}, old(loaded).Keys, old(KnownEmpty(world)))))
      ensures forall c | c in old(loaded) && c in wanted :: c in loaded && loaded[c] == old(loaded)[c]
      ensures forall c | c in loaded && c !in old(loaded) ::
        && c in world.chunks && !world.chunks[c].Empty()
        && (forall n | n in Adjacent(c) :: n in world.chunks)
      ensures |loaded.Keys - old(loaded).Keys| <= ADMISSION_CAP
    {
      ghost var before := loaded;
      ghost var unwanted, gen;
      wanted, unwanted, gen := GatherAndGenerate(world, cameraChunk, isForward);
      ghost var admitted := Admitted(wanted, Snapshot({}, {}, before.Keys, old(KnownEmpty(world))));
      ReverseElements(admitted);
      NeighbourhoodSame(gen, admitted);
      ghost var loadable := Loadable(world, Reverse(gen));
      ReverseElements(gen);
      assert loadable == Loadable(world, admitted);
      ghost var afterLoad := LoadAndUnload(world, scene, unwanted);
      PassEffect(before, wanted, unwanted, gen, world.chunks, loadable, afterLoad, loaded);
    }

    /** The first two stages of a frame, from idle queues: gather the wanted
        chunks, queue the unwanted loaded ones for unloading and the
        admitted ones for generation, then generate them and their
        neighbours and move them to the load queue. */
    method GatherAndGenerate(world: World, cameraChunk: Coord, isForward: Coord -> bool)
      returns (ghost wanted: seq<Coord>, ghost unwanted: seq<Coord>, ghost gen: seq<Coord>)
      requires world.Valid() && Idle()
      modifies this`generateQueue, this`loadQueue, this`unloadQueue, world
      ensures world.Valid() && Exclusive() && LoadReady(world)
      ensures Wanted(cameraChunk, isForward, renderDistance, wanted)
      ensures forall c :: c in unwanted <==> c in loaded && c !in wanted
      ensures unloadQueue == unwanted && generateQueue == [] && loadQueue == Reverse(gen)
      ensures gen == Reverse(Admitted(wanted, Snapshot({}, {}, loaded.Keys, old(KnownEmpty(world)))))
      ensures |gen| <= ADMISSION_CAP && forall c | c in gen :: c in wanted && c !in loaded
      ensures world.chunks.Keys == old(world.chunks).Keys + Neighbourhood(gen)
    {
      ghost var snapshot := Snapshot(Elements(generateQueue), Elements(loadQueue), loaded.Keys, KnownEmpty(world));
      assert snapshot == Snapshot({}, {}, loaded.Keys, old(KnownEmpty(world)));
      assert Exclusive();
      wanted, unwanted := GatherChunks(world, cameraChunk, isForward);
      ghost var admitted := Admitted(wanted, snapshot);
      assert unloadQueue == unwanted + [];
      assert unwanted + [] == unwanted;
      assert generateQueue == Reverse(admitted) + [];
      gen := Reverse(admitted);
      assert gen + [] == gen;
      AdmittedProperties(wanted, snapshot);
      ReverseElements(admitted);
      GenerateChunks(world);
      assert loadQueue == Reverse(gen) + [];
      assert Reverse(gen) + [] == Reverse(gen);
    }

    /** The last two stages of a frame, once the load queue holds only
        stored chunks: load the queued chunks that are stored and not
        empty, then unload the queued ones. */
    method LoadAndUnload(world: World, scene: Scene<Drawable>, ghost unwanted: seq<Coord>) returns (ghost afterLoad: map<Coord, Entity>)
      requires world.Valid() && scene.Valid() && Exclusive() && LoadReady(world) && generateQueue == []
      requires unloadQueue == unwanted && Tracked(scene) && Owned(scene)
      modifies this`loadQueue, this`unloadQueue, this`loaded, scene
      ensures scene.Valid() && Idle() && Tracked(scene) && Owned(scene)
      ensures afterLoad.Keys == old(loaded).Keys + Loadable(world, old(loadQueue))
      ensures forall c | c in old(loaded) && c !in Loadable(world, old(loadQueue)) :: afterLoad[c] == old(loaded)[c]
      ensures loaded == afterLoad - Elements(unwanted)
    {
      LoadChunks(world, scene);
      afterLoad := loaded;
      UnloadChunks(scene);
    }
  }

  /** The bookkeeping of one pass, on values: starting from `before`, the
      pass generates `gen`, loads `loadable` and unloads `unwanted`. Chunks
      that stay wanted keep their entity, new chunks come only from `gen`
      and have their neighbours stored, and nothing unwanted stays. */
  lemma PassEffect(before: map<Coord, Entity>, wanted: seq<Coord>, unwanted: seq<Coord>, gen: seq<Coord>,
                   chunks: map<Coord, ChunkData>, loadable: set<Coord>,
                   afterLoad: map<Coord, Entity>, after: map<Coord, Entity>)
    requires forall c :: c in unwanted <==> c in before && c !in wanted
    requires |gen| <= ADMISSION_CAP
    requires forall c | c in gen :: c in wanted && c !in before
    requires Neighbourhood(gen) <= chunks.Keys
    requires forall c | c in loadable :: c in gen && c in chunks && !chunks[c].Empty()
    requires afterLoad.Keys == before.Keys + loadable
    requires forall c | c in before && c !in loadable :: afterLoad[c] == before[c]
    requires after == afterLoad - Elements(unwanted)
    ensures after.Keys == (before.Keys * Elements(wanted)) + loadable
    ensures after.Keys <= Elements(wanted)
    ensures forall c | c in before && c in wanted :: c in after && after[c] == before[c]
    ensures forall c | c in after && c !in before ::
      && c in chunks && !chunks[c].Empty()
      && forall n | n in Adjacent(c) :: n in chunks
    ensures |after.Keys - before.Keys| <= ADMISSION_CAP
  {
    PassKeys(before, wanted, unwanted, gen, loadable, afterLoad, after);
    forall c | c in after && c !in before
      ensures forall n | n in Adjacent(c) :: n in chunks
    {
      NeighbourhoodCovers(gen, c);
    }
    assert after.Keys - before.Keys <= Elements(gen);
    CardSubset(after.Keys - before.Keys, Elements(gen));
    CardElements(gen);
  }

  /** The loaded keys after one pass: the loaded chunks still wanted and
      the newly loadable ones. */
  lemma PassKeys(before: map<Coord, Entity>, wanted: seq<Coord>, unwanted: seq<Coord>, gen: seq<Coord>,
                 loadable: set<Coord>, afterLoad: map<Coord, Entity>, after: map<Coord, Entity>)
    requires forall c :: c in unwanted <==> c in before && c !in wanted
    requires forall c | c in gen :: c in wanted && c !in before
    requires forall c | c in loadable :: c in gen
    requires afterLoad.Keys == before.Keys + loadable
    requires after == afterLoad - Elements(unwanted)
    ensures after.Keys == (before.Keys * Elements(wanted)) + loadable
  {
    forall c ensures c in after.Keys <==> c in (before.Keys * Elements(wanted)) + loadable {
      if c in loadable {
        assert c in gen && c in wanted && c !in before;
      }
    }
  }

  /** The non-empty stored chunks among `cs`. */
  ghost function Loadable(world: World, cs: seq<Coord>): set<Coord>
    reads world
  {
    set c | c in cs && c in world.chunks && !world.chunks[c].Empty()
  }
}
