/**
 * World geometry: the chunk grid that partitions the world, the snapping of a
 * position to its chunk key, and the render-distance range test.
 *
 * Positions are integer world units. The engine's `Mathf.RoundToInt` is C#'s
 * `Math.Round`, which rounds a tie (a fraction of exactly one half) to the even
 * neighbour; `RoundDiv` fixes that rule.
 */
module Geometry {

  const PlatformSize: int := 12
  const ChunkSize: int := 9 * PlatformSize

  datatype Vec3 = Vec3(x: int, y: int, z: int)
  {
    function Plus(o: Vec3): Vec3 { Vec3(x + o.x, y + o.y, z + o.z) }
  }

  /** A chunk key: the x and z world coordinates of the chunk's centre. */
  type ChunkKey = (int, int)

  /**
   * n / d rounded to the nearest integer, a tie going to the even neighbour.
   * The result is the unique integer within half a step of n / d that is even
   * whenever n / d lies exactly half-way.
   */
  function RoundDiv(n: int, d: int): (r: int)
    requires d > 0
    ensures -d <= 2 * (n - r * d) <= d
    ensures (2 * (n - r * d) == d || 2 * (n - r * d) == -d) ==> r % 2 == 0
  {
    var q, m := n / d, n % d;
    assert n == q * d + m && 0 <= m < d;
    assert (q + 1) * d == q * d + d;
    if 2 * m < d then q
    else if 2 * m > d then q + 1
    else if q % 2 == 0 then q
    else q + 1
  }

  /** A world coordinate snapped to the nearest multiple of ChunkSize. */
  function ChunkCoord(v: int): (c: int)
    ensures c % ChunkSize == 0
    ensures -ChunkSize <= 2 * (v - c) <= ChunkSize
  {
    RoundDiv(v, ChunkSize) * ChunkSize
  }

  /** `GetChunkTuple`: the key of the chunk a position falls in. */
  function ChunkTuple(p: Vec3): (k: ChunkKey)
    ensures k.0 % ChunkSize == 0 && k.1 % ChunkSize == 0
    ensures -ChunkSize <= 2 * (p.x - k.0) <= ChunkSize
    ensures -ChunkSize <= 2 * (p.z - k.1) <= ChunkSize
  {
    (ChunkCoord(p.x), ChunkCoord(p.z))
  }

  /** `GetChunkPos`: the same snap as a position on the ground plane. */
  function ChunkPos(p: Vec3): (c: Vec3)
    ensures c.y == 0 && (c.x, c.z) == ChunkTuple(p)
  {
    Vec3(ChunkCoord(p.x), 0, ChunkCoord(p.z))
  }

  /** A key both of whose coordinates are multiples of ChunkSize. */
  predicate Aligned(k: ChunkKey)
  {
    k.0 % ChunkSize == 0 && k.1 % ChunkSize == 0
  }

  /** A coordinate half-way between two chunk centres. */
  predicate OnTie(v: int)
  {
    2 * (v % ChunkSize) == ChunkSize
  }

  /** Snapping a coordinate that already is a multiple of ChunkSize returns it. */
  lemma ChunkCoordOfAligned(v: int)
    requires v % ChunkSize == 0
    ensures ChunkCoord(v) == v
  {
    SnapUnique(v, v, ChunkCoord(v));
  }

  /** Re-snapping a chunk key (as `RequestChunks` does) is the identity on aligned keys. */
  lemma ChunkTupleOfKey(k: ChunkKey)
    requires Aligned(k)
    ensures ChunkTuple(Vec3(k.0, 0, k.1)) == k
  {
    ChunkCoordOfAligned(k.0);
    ChunkCoordOfAligned(k.1);
  }

  /**
   * Two integers that are multiples of ChunkSize and lie within one ChunkSize of
   * each other, each step of at most half a chunk, are equal or a chunk apart.
   */
  lemma SnapUnique(v: int, c1: int, c2: int)
    requires c1 % ChunkSize == 0 && c2 % ChunkSize == 0
    requires -ChunkSize < 2 * (v - c1) < ChunkSize
    requires -ChunkSize <= 2 * (v - c2) <= ChunkSize
    ensures c1 == c2
  {
    assert c1 == (c1 / ChunkSize) * ChunkSize && c2 == (c2 / ChunkSize) * ChunkSize;
  }

  /**
   * Off a tie, moving a coordinate by one ChunkSize moves its snapped value by
   * exactly one ChunkSize, in either direction.
   */
  lemma ChunkCoordShift(v: int)
    requires !OnTie(v)
    ensures ChunkCoord(v + ChunkSize) == ChunkCoord(v) + ChunkSize
    ensures ChunkCoord(v - ChunkSize) == ChunkCoord(v) - ChunkSize
  {
    ChunkCoordUp(v);
    ModMinusChunk(v);
    ChunkCoordUp(v - ChunkSize);
  }

  /** Off a tie, one more ChunkSize in the coordinate is one more ChunkSize in its snap. */
  lemma ChunkCoordUp(v: int)
    requires !OnTie(v)
    ensures ChunkCoord(v + ChunkSize) == ChunkCoord(v) + ChunkSize
  {
    RoundDivStep(v);
    MulChunkStep(RoundDiv(v, ChunkSize));
  }

  lemma MulChunkStep(q: int)
    ensures (q + 1) * ChunkSize == q * ChunkSize + ChunkSize
  {
  }

  /** One ChunkSize less leaves the position within the chunk unchanged. */
  lemma ModMinusChunk(v: int)
    ensures (v - ChunkSize) % ChunkSize == v % ChunkSize
  {
    assert v - ChunkSize == (v / ChunkSize - 1) * ChunkSize + v % ChunkSize;
  }

  /** Off a tie, one more chunk in the numerator is one more in the rounded quotient. */
  lemma RoundDivStep(v: int)
    requires !OnTie(v)
    ensures RoundDiv(v + ChunkSize, ChunkSize) == RoundDiv(v, ChunkSize) + 1
  {
    assert (v + ChunkSize) / ChunkSize == v / ChunkSize + 1;
    assert (v + ChunkSize) % ChunkSize == v % ChunkSize;
  }

  /** `ChunkWithinDistanceFrom`, on squared distances: the chunk centre of `k` is
   *  no farther than `dist` chunks from the chunk centre `from` snaps to. */
  predicate WithinDistance(k: ChunkKey, dist: int, from: Vec3)
  {
    var c := ChunkPos(from);
    var dx, dz := k.0 - c.x, k.1 - c.z;
    dist >= 0 && dx * dx + dz * dz <= (dist * ChunkSize) * (dist * ChunkSize)
  }

  /** A larger render distance never rejects a chunk that a smaller one accepts. */
  lemma WithinDistanceMonotone(k: ChunkKey, d: int, d': int, from: Vec3)
    requires d <= d'
    requires WithinDistance(k, d, from)
    ensures WithinDistance(k, d', from)
  {
    var a, b := d * ChunkSize, d' * ChunkSize;
    assert 0 <= a <= b;
    assert a * a <= a * b <= b * b;
  }

  /** A chunk key is within distance 0 of a position exactly when that position snaps to it. */
  lemma WithinZeroIffSameChunk(k: ChunkKey, from: Vec3)
    ensures WithinDistance(k, 0, from) <==> k == ChunkTuple(from)
  {
    var c := ChunkPos(from);
    var dx, dz := k.0 - c.x, k.1 - c.z;
    Square(dx);
    Square(dz);
    assert (0 * ChunkSize) * (0 * ChunkSize) == 0;
  }

  /** A square is never negative, and zero only for zero. */
  lemma Square(x: int)
    ensures x * x >= 0 && (x * x == 0 <==> x == 0)
  {
    if x > 0 {
      assert x * x >= x;
    } else if x < 0 {
      assert x * x == (-x) * (-x) >= -x;
    }
  }

  /**
   * The nine keys that `GetEntitiesWithinArea` probes, as written: each one the
   * snap of the centre moved by a whole chunk (self, forward, backward, right,
   * left, and the four diagonals).
   */
  function AreaKeys(center: Vec3): (ks: seq<ChunkKey>)
    ensures |ks| == 9 && ks[0] == ChunkTuple(center)
    ensures forall i :: 0 <= i < 9 ==> Aligned(ks[i])
  {
    var s := ChunkSize;
    [ ChunkTuple(center),
      ChunkTuple(center.Plus(Vec3(s, 0, 0))), ChunkTuple(center.Plus(Vec3(-s, 0, 0))),
      ChunkTuple(center.Plus(Vec3(0, 0, s))), ChunkTuple(center.Plus(Vec3(0, 0, -s))),
      ChunkTuple(center.Plus(Vec3(s, 0, s))), ChunkTuple(center.Plus(Vec3(s, 0, -s))),
      ChunkTuple(center.Plus(Vec3(-s, 0, s))), ChunkTuple(center.Plus(Vec3(-s, 0, -s))) ]
  }

  /** The block offsets in the order the area query lists them. */
  const BlockOffsets: seq<(int, int)> :=
    [(0, 0), (1, 0), (-1, 0), (0, 1), (0, -1), (1, 1), (1, -1), (-1, 1), (-1, -1)]

  /**
   * The 3x3 block of keys around the centre's chunk, each neighbour exactly one
   * ChunkSize away on each axis it moves along: the keys the area query means to
   * visit, in the same order.
   */
  function BlockKeys(center: Vec3): (ks: seq<ChunkKey>)
    ensures |ks| == 9 && ks[0] == ChunkTuple(center)
    ensures forall i :: 0 <= i < 9 ==>
      ks[i] == (ks[0].0 + BlockOffsets[i].0 * ChunkSize, ks[0].1 + BlockOffsets[i].1 * ChunkSize)
    ensures forall i, j :: 0 <= i < j < 9 ==> ks[i] != ks[j]
  {
    var k, s := ChunkTuple(center), ChunkSize;
    [ k, (k.0 + s, k.1), (k.0 - s, k.1), (k.0, k.1 + s), (k.0, k.1 - s),
      (k.0 + s, k.1 + s), (k.0 + s, k.1 - s), (k.0 - s, k.1 + s), (k.0 - s, k.1 - s) ]
  }

  /** Off a tie on both axes, the keys as written are the intended block, so they are pairwise distinct. */
  lemma AreaKeysAreBlockOffTie(center: Vec3)
    requires !OnTie(center.x) && !OnTie(center.z)
    ensures AreaKeys(center) == BlockKeys(center)
    ensures forall i, j :: 0 <= i < j < 9 ==> AreaKeys(center)[i] != AreaKeys(center)[j]
  {
    ChunkCoordShift(center.x);
    ChunkCoordShift(center.z);
  }

  /**
   * At a tie the keys as written collide: a centre at x = 54 snaps to 0, its
   * backward neighbour (x = -54) also snaps to 0 and its forward neighbour
   * (x = 162) to 216, so the chunk at x = 108 is never probed.
   */
  lemma AreaKeysCollideOnTie()
    ensures AreaKeys(Vec3(54, 0, 0))[0] == AreaKeys(Vec3(54, 0, 0))[2] == (0, 0)
    ensures AreaKeys(Vec3(54, 0, 0))[1] == (216, 0)
    ensures (108, 0) !in AreaKeys(Vec3(54, 0, 0))
    ensures (108, 0) in BlockKeys(Vec3(54, 0, 0))
  {
    assert RoundDiv(54, ChunkSize) == 0;
    assert RoundDiv(-54, ChunkSize) == 0;
    assert RoundDiv(162, ChunkSize) == 2;
    assert RoundDiv(0, ChunkSize) == 0;
    assert RoundDiv(108, ChunkSize) == 1;
    assert RoundDiv(-108, ChunkSize) == -1;
  }
}
