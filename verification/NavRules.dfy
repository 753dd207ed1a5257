/**
 * The adjacency rules of the incremental navigation-graph builder
 * (`TryAddTileToPathfinder`): which neighbour cells a new platform or slope
 * probes, which structure found there it links to, and the two slope facing
 * tests.
 *
 * The grid lookup (`Grid.GetItems` over `GridClass.CalculateArea`) and the
 * physics ray query (`IntersectRay`) are oracles passed in as functions.
 */
module NavRules {
  import opened Geometry
  import opened Chunks

  datatype Option<T> = None | Some(value: T)

  /** The structures the grid holds around a probe position. */
  type Lookup = Vec3 -> seq<Tile>

  /** True when a ray between the two points hits nothing (no hit results). */
  type LineClear = (Vec3, Vec3) -> bool

  /** `LoopRotation`: an angle in degrees wrapped into [0, 360). */
  function LoopRotation(deg: int): (r: int)
    ensures 0 <= r < 360 && (deg - r) % 360 == 0
  {
    deg % 360
  }

  /**
   * A rotation snapped to the nearest multiple of 90 and wrapped into [0, 360)
   * (`SnapToGrid(LoopRotation(y), 360, 4)` followed by `LoopRotation`); a
   * rotation exactly half-way between two multiples goes to the even multiple
   * of 90, as `Math.Round` does.
   */
  function SnapRotation(deg: int): (r: int)
    ensures r == 0 || r == 90 || r == 180 || r == 270
    ensures var a := LoopRotation(deg); -90 <= 2 * (a - r) <= 90 || (r == 0 && -90 <= 2 * (a - 360) <= 90)
    ensures LoopRotation(deg) % 90 == 45 ==> r == 0 || r == 180
  {
    LoopRotation(RoundDiv(LoopRotation(deg), 90) * 90)
  }

  /** A right angle, in degrees. */
  predicate RightAngle(rot: int) { rot == 0 || rot == 90 || rot == 180 || rot == 270 }

  /** Cosine and sine of a right angle given in degrees. */
  function Cos(rot: int): int
    requires RightAngle(rot)
  {
    if rot == 0 then 1 else if rot == 180 then -1 else 0
  }

  function Sin(rot: int): int
    requires RightAngle(rot)
  {
    if rot == 90 then 1 else if rot == 270 then -1 else 0
  }

  /**
   * A vector turned about the vertical axis by a right angle, as Godot's
   * `Rotated` does: the rotation matrix about +Y, which turns +Z towards +X.
   */
  function RotateY(v: Vec3, rot: int): (r: Vec3)
    requires RightAngle(rot)
    ensures r.x == v.x * Cos(rot) + v.z * Sin(rot)
    ensures r.y == v.y
    ensures r.z == v.z * Cos(rot) - v.x * Sin(rot)
  {
    if rot == 0 then v
    else if rot == 90 then Vec3(v.z, v.y, -v.x)
    else if rot == 180 then Vec3(-v.x, v.y, -v.z)
    else Vec3(-v.z, v.y, v.x)
  }

  /** Turning by a and then by b is turning by a + b; no turn leaves a vector as it is. */
  lemma RotateCompose(v: Vec3, a: int, b: int)
    requires RightAngle(a) && RightAngle(b)
    ensures RightAngle((a + b) % 360)
    ensures RotateY(RotateY(v, a), b) == RotateY(v, (a + b) % 360)
    ensures RotateY(v, 0) == v
  {
    var c := (a + b) % 360;
    assert c == if a + b < 360 then a + b else a + b - 360;
  }

  /** The unit direction a slope snapped to `rot` faces. */
  function FacingDir(rot: int): Vec3
    requires RightAngle(rot)
  {
    RotateY(Vec3(0, 0, 1), rot)
  }

  /** Offset of the facing tests' reference point: a third of a platform. */
  const FacingReach: int := PlatformSize / 3

  /** `IsSlopePointingAt`: `at` lies on the facing side of the slope's upper edge. */
  predicate IsSlopePointingAt(slope: Tile, at: Vec3)
  {
    var rot := SnapRotation(slope.rotY);
    var ref := slope.pos.Plus(RotateY(Vec3(0, 0, PlatformSize / 3), rot));
    if rot == 0 then at.z >= ref.z
    else if rot == 90 then at.x >= ref.x
    else if rot == 180 then at.z <= ref.z
    else if rot == 270 then at.x <= ref.x
    else assert false; false
  }

  /** `IsSlopePointingAway`: `at` lies behind the slope's lower edge. */
  predicate IsSlopePointingAway(slope: Tile, at: Vec3)
  {
    var rot := SnapRotation(slope.rotY);
    var ref := slope.pos.Plus(RotateY(Vec3(0, 0, -PlatformSize / 3), rot));
    if rot == 0 then at.z <= ref.z
    else if rot == 90 then at.x <= ref.x
    else if rot == 180 then at.z >= ref.z
    else if rot == 270 then at.x >= ref.x
    else assert false; false
  }

  /** Projection of `at` relative to the slope onto the slope's facing direction. */
  function Ahead(slope: Tile, at: Vec3): int
  {
    var d := FacingDir(SnapRotation(slope.rotY));
    (at.x - slope.pos.x) * d.x + (at.z - slope.pos.z) * d.z
  }

  /**
   * Both facing tests are one inequality on the projection onto the facing
   * direction: the four-way case analysis agrees with this reference
   * definition for every rotation, so no rotation reaches the source's
   * trailing throw.
   */
  lemma FacingTestsAreProjections(slope: Tile, at: Vec3)
    ensures IsSlopePointingAt(slope, at) <==> Ahead(slope, at) >= FacingReach
    ensures IsSlopePointingAway(slope, at) <==> Ahead(slope, at) <= -FacingReach
  {
    var rot, p := SnapRotation(slope.rotY), slope.pos;
    if rot == 0 {
      assert Ahead(slope, at) == (at.x - p.x) * 0 + (at.z - p.z) * 1 == at.z - p.z;
    } else if rot == 90 {
      assert Ahead(slope, at) == (at.x - p.x) * 1 + (at.z - p.z) * 0 == at.x - p.x;
    } else if rot == 180 {
      assert Ahead(slope, at) == (at.x - p.x) * 0 + (at.z - p.z) * -1 == p.z - at.z;
    } else {
      assert Ahead(slope, at) == (at.x - p.x) * -1 + (at.z - p.z) * 0 == p.x - at.x;
    }
  }

  /** No point is both in front of and behind a slope. */
  lemma FacingTestsExclusive(slope: Tile, at: Vec3)
    ensures !(IsSlopePointingAt(slope, at) && IsSlopePointingAway(slope, at))
  {
    FacingTestsAreProjections(slope, at);
  }

  /** Snapping commutes with a half turn. */
  lemma SnapHalfTurn(deg: int)
    ensures SnapRotation(deg + 180) == (SnapRotation(deg) + 180) % 360
  {
    HalfTurnMod(deg);
    if LoopRotation(deg) < 180 {
      SnapHalfTurnLow(deg);
    } else {
      SnapHalfTurnHigh(deg);
    }
  }

  /** `SnapHalfTurn` for a wrapped angle below 180: the half turn adds 180 before snapping. */
  lemma SnapHalfTurnLow(deg: int)
    requires LoopRotation(deg) < 180 && LoopRotation(deg + 180) == LoopRotation(deg) + 180
    ensures SnapRotation(deg + 180) == (SnapRotation(deg) + 180) % 360
  {
    var a := LoopRotation(deg);
    var x := RoundDiv(a, 90) * 90;
    RoundDivHalfTurn(a);
    MulRightAngleStep(RoundDiv(a, 90));
    HalfTurnMod(x);
    assert SnapRotation(deg) == x % 360;
    assert SnapRotation(deg + 180) == (x + 180) % 360;
  }

  /** `SnapHalfTurn` for a wrapped angle of 180 or more: the half turn subtracts 180 before snapping. */
  lemma SnapHalfTurnHigh(deg: int)
    requires LoopRotation(deg) >= 180 && LoopRotation(deg + 180) == LoopRotation(deg) - 180
    ensures SnapRotation(deg + 180) == (SnapRotation(deg) + 180) % 360
  {
    var b := LoopRotation(deg + 180);
    var x := RoundDiv(b, 90) * 90;
    RoundDivHalfTurn(b);
    MulRightAngleStep(RoundDiv(b, 90));
    HalfTurnMod(x);
    TwoHalfTurns(x % 360);
    assert SnapRotation(deg) == (x + 180) % 360;
    assert SnapRotation(deg + 180) == x % 360;
  }

  /** A half turn commutes with wrapping into [0, 360). */
  lemma HalfTurnMod(x: int)
    ensures (x + 180) % 360 == (x % 360 + 180) % 360
  {
    assert x + 180 == (x / 360) * 360 + (x % 360 + 180);
  }

  /** Two half turns of a wrapped angle give it back. */
  lemma TwoHalfTurns(r: int)
    requires 0 <= r < 360
    ensures ((r + 180) % 360 + 180) % 360 == r
  {
  }

  lemma MulRightAngleStep(q: int)
    ensures (q + 2) * 90 == q * 90 + 180
  {
  }

  /** Rounding to right angles commutes with adding a half turn. */
  lemma RoundDivHalfTurn(n: int)
    ensures RoundDiv(n + 180, 90) == RoundDiv(n, 90) + 2
  {
    assert (n + 180) / 90 == n / 90 + 2 && (n + 180) % 90 == n % 90;
  }

  /** A slope turned half-way round points at exactly the points it pointed away from. */
  lemma PointingAtIsAwayTurned(slope: Tile, at: Vec3)
    ensures IsSlopePointingAt(slope, at) <==> IsSlopePointingAway(slope.(rotY := slope.rotY + 180), at)
  {
    SnapHalfTurn(slope.rotY);
  }

  /** The navigation point of a structure: two units above its position. */
  function PointOf(t: Tile): Vec3 { t.pos.Plus(Vec3(0, 2, 0)) }

  /** Where the first structure of the given kind sits in a grid lookup; |s| when there is none. */
  function KindIndex(s: seq<Tile>, kind: TileKind): (i: nat)
    ensures i <= |s| && (i < |s| ==> s[i].kind == kind)
    ensures forall j :: 0 <= j < i ==> s[j].kind != kind
  {
    if s == [] || s[0].kind == kind then 0 else 1 + KindIndex(s[1..], kind)
  }

  /**
   * The first structure of the given kind in a grid lookup: every entry
   * before it is of another kind.
   */
  function FirstOfKind(s: seq<Tile>, kind: TileKind): (r: Option<Tile>)
    ensures r.Some? ==> r.value in s && r.value.kind == kind
    ensures r.None? <==> forall t :: t in s ==> t.kind != kind
    ensures r.Some? <==> KindIndex(s, kind) < |s|
    ensures r.Some? ==> r.value == s[KindIndex(s, kind)]
  {
    if s == [] then None
    else if s[0].kind == kind then Some(s[0])
    else FirstOfKind(s[1..], kind)
  }

  /**
   * `TryGetPlatform` / `TryGetSlope`: the first structure of `kind` the grid
   * holds around `probe`, kept only if the ray between the two navigation
   * points (both raised by `offset`) is clear; a blocked ray gives nothing even
   * if a later entry would have been clear.
   */
  function TryGet(kind: TileKind, self: Tile, probe: Vec3, offset: Vec3, lookup: Lookup, clear: LineClear): (r: Option<Tile>)
    ensures r.Some? <==> (FirstOfKind(lookup(probe), kind).Some? &&
      clear(PointOf(self).Plus(offset), PointOf(FirstOfKind(lookup(probe), kind).value).Plus(offset)))
    ensures r.Some? ==> r == FirstOfKind(lookup(probe), kind) && r.value.kind == kind && r.value in lookup(probe)
  {
    match FirstOfKind(lookup(probe), kind)
    case None => None
    case Some(o) => if clear(PointOf(self).Plus(offset), PointOf(o).Plus(offset)) then Some(o) else None
  }

  const P := PlatformSize
  const NoOffset := Vec3(0, 0, 0)
  /** Ray offset used for probes one level up or down: a quarter of a platform. */
  const RayLift := Vec3(0, PlatformSize / 4, 0)

  /** Probe offsets of a platform: ahead, behind, right, left (one unit up). */
  const PlatformCardinals: seq<Vec3> := [Vec3(0, 1, P), Vec3(0, 1, -P), Vec3(-P, 1, 0), Vec3(P, 1, 0)]

  /**
   * Probe offsets of a platform's diagonals (ahead-right, ahead-left,
   * behind-right, behind-left), each with the two cardinals (indices into
   * `PlatformCardinals`) that must both have been found first.
   */
  const PlatformDiagonals: seq<(Vec3, nat, nat)> :=
    [(Vec3(-P, 1, P), 0, 2), (Vec3(P, 1, P), 0, 3), (Vec3(-P, 1, -P), 1, 2), (Vec3(P, 1, -P), 1, 3)]

  /** Probe offsets of a platform for slopes one level lower. */
  const PlatformLowerCardinals: seq<Vec3> :=
    [Vec3(0, -P + 1, P), Vec3(0, -P + 1, -P), Vec3(-P, -P + 1, 0), Vec3(P, -P + 1, 0)]

  /**
   * What a link slot looks for: the kind of structure, the probe position
   * whose grid area is searched, and the offset by which both navigation
   * points are raised for the line-of-sight ray.
   */
  datatype Probe = Probe(kind: TileKind, at: Vec3, ray: Vec3)

  /**
   * A link from `b` to `t` through a probe is backed by the grid and the
   * physics: `t` is the first structure of the probe's kind in the lookup at
   * the probe position, and nothing blocks the ray between the raised
   * navigation points.
   */
  predicate Backed(b: Tile, t: Tile, p: Probe, lookup: Lookup, clear: LineClear)
  {
    FirstOfKind(lookup(p.at), p.kind) == Some(t) && clear(PointOf(b).Plus(p.ray), PointOf(t).Plus(p.ray))
  }

  /**
   * The probe finds something: the lookup at the probe position holds a
   * structure of the probe's kind, and the ray to the first one is clear.
   */
  predicate Found(b: Tile, p: Probe, lookup: Lookup, clear: LineClear)
  {
    var f := FirstOfKind(lookup(p.at), p.kind);
    f.Some? && clear(PointOf(b).Plus(p.ray), PointOf(f.value).Plus(p.ray))
  }

  /** The probe of a new platform's slot i (see `PlatformSlot`). */
  function PlatformProbe(b: Tile, i: nat): Probe
    requires i < 16
  {
    if i < 4 then Probe(Platform, b.pos.Plus(PlatformCardinals[i]), NoOffset)
    else if i < 8 then Probe(Platform, b.pos.Plus(PlatformDiagonals[i - 4].0), NoOffset)
    else if i < 12 then Probe(Slope, b.pos.Plus(PlatformCardinals[i - 8]), NoOffset)
    else Probe(Slope, b.pos.Plus(PlatformLowerCardinals[i - 12]), RayLift)
  }

  /**
   * When slot i of a new platform is linked, stated probe by probe: a
   * cardinal when its probe finds a platform; a diagonal when its own probe
   * and the probes of both adjacent cardinals find one; a slope on the same
   * level when it points away from the platform; a slope a level down when it
   * points at it.
   */
  predicate PlatformLinked(b: Tile, i: nat, lookup: Lookup, clear: LineClear)
    requires i < 16
  {
    var p := PlatformProbe(b, i);
    if i < 4 then Found(b, p, lookup, clear)
    else if i < 8 then
      var (_, c1, c2) := PlatformDiagonals[i - 4];
      Found(b, PlatformProbe(b, c1), lookup, clear) && Found(b, PlatformProbe(b, c2), lookup, clear) && Found(b, p, lookup, clear)
    else if i < 12 then Found(b, p, lookup, clear) && IsSlopePointingAway(FirstOfKind(lookup(p.at), Slope).value, b.pos)
    else Found(b, p, lookup, clear) && IsSlopePointingAt(FirstOfKind(lookup(p.at), Slope).value, b.pos)
  }

  /**
   * Slot i of a new platform's links, in the order the source connects them:
   * 0-3 cardinal platforms, 4-7 diagonal platforms (probed only when both
   * adjacent cardinals were found), 8-11 same-level slopes that point away
   * from the platform, 12-15 lower slopes that point at it.
   */
  function PlatformSlot(b: Tile, i: nat, lookup: Lookup, clear: LineClear): (r: Option<Tile>)
    requires i < 16
    ensures r.Some? ==> r.value.kind == (if i < 8 then Platform else Slope)
    ensures r.Some? ==> Backed(b, r.value, PlatformProbe(b, i), lookup, clear)
    ensures r.Some? <==> PlatformLinked(b, i, lookup, clear)
    ensures 8 <= i < 12 && r.Some? ==> IsSlopePointingAway(r.value, b.pos)
    ensures 12 <= i && r.Some? ==> IsSlopePointingAt(r.value, b.pos)
    ensures 4 <= i < 8 && r.Some? ==>
      PlatformSlot(b, PlatformDiagonals[i - 4].1, lookup, clear).Some? &&
      PlatformSlot(b, PlatformDiagonals[i - 4].2, lookup, clear).Some?
    ensures 8 <= i < 12 ==>
      (r.Some? <==> (var s := TryGet(Slope, b, b.pos.Plus(PlatformCardinals[i - 8]), NoOffset, lookup, clear);
                     s.Some? && IsSlopePointingAway(s.value, b.pos)))
    ensures 12 <= i ==>
      (r.Some? <==> (var s := TryGet(Slope, b, b.pos.Plus(PlatformLowerCardinals[i - 12]), RayLift, lookup, clear);
                     s.Some? && IsSlopePointingAt(s.value, b.pos)))
    decreases i
  {
    if i < 4 then
      TryGet(Platform, b, b.pos.Plus(PlatformCardinals[i]), NoOffset, lookup, clear)
    else if i < 8 then
      var (off, c1, c2) := PlatformDiagonals[i - 4];
      if PlatformSlot(b, c1, lookup, clear).Some? && PlatformSlot(b, c2, lookup, clear).Some?
      then TryGet(Platform, b, b.pos.Plus(off), NoOffset, lookup, clear)
      else None
    else if i < 12 then
      var s := TryGet(Slope, b, b.pos.Plus(PlatformCardinals[i - 8]), NoOffset, lookup, clear);
      if s.Some? && IsSlopePointingAway(s.value, b.pos) then s else None
    else
      var s := TryGet(Slope, b, b.pos.Plus(PlatformLowerCardinals[i - 12]), RayLift, lookup, clear);
      if s.Some? && IsSlopePointingAt(s.value, b.pos) then s else None
  }

  /**
   * A new slope's probes, in the source's order: the kind looked for, the
   * offset before turning by the slope's rotation, the ray offset. Slopes
   * ahead (a level up), behind (a level down), right and left; then platforms
   * ahead (half a level up) and behind.
   */
  const SlopeProbes: seq<(TileKind, Vec3, Vec3)> :=
    [ (Slope, Vec3(0, P, P), RayLift), (Slope, Vec3(0, -P, -P), RayLift),
      (Slope, Vec3(-P, 0, 0), NoOffset), (Slope, Vec3(P, 0, 0), NoOffset),
      (Platform, Vec3(0, P / 2, P), RayLift), (Platform, Vec3(0, 0, -P), NoOffset) ]

  /** The probe position of a slope's slot i: its offset turned with the slope. */
  function SlopeProbeAt(b: Tile, i: nat): Vec3
    requires i < 6
  {
    b.pos.Plus(RotateY(SlopeProbes[i].1, SnapRotation(b.rotY)))
  }

  /** The probe of a new slope's slot i. */
  function SlopeProbe(b: Tile, i: nat): Probe
    requires i < 6
  {
    Probe(SlopeProbes[i].0, SlopeProbeAt(b, i), SlopeProbes[i].2)
  }

  /** Slot i of a new slope's links. */
  function SlopeSlot(b: Tile, i: nat, lookup: Lookup, clear: LineClear): (r: Option<Tile>)
    requires i < 6
    ensures r.Some? ==> r.value.kind == (if i < 4 then Slope else Platform)
    ensures r.Some? ==> Backed(b, r.value, SlopeProbe(b, i), lookup, clear)
    ensures r.Some? <==> (FirstOfKind(lookup(SlopeProbeAt(b, i)), SlopeProbes[i].0).Some? &&
      clear(PointOf(b).Plus(SlopeProbes[i].2), PointOf(FirstOfKind(lookup(SlopeProbeAt(b, i)), SlopeProbes[i].0).value).Plus(SlopeProbes[i].2)))
  {
    var (kind, _, ray) := SlopeProbes[i];
    TryGet(kind, b, SlopeProbeAt(b, i), ray, lookup, clear)
  }

  /** Structures that get a navigation point. */
  predicate Pathable(k: TileKind) { k == Platform || k == Slope }

  /** How many link slots a new structure of the given type has. */
  function SlotCount(k: TileKind): nat
  {
    if k == Platform then 16 else if k == Slope then 6 else 0
  }

  /** The probe of slot i of a new structure. */
  function SlotProbe(b: Tile, i: nat): Probe
    requires i < SlotCount(b.kind)
  {
    if b.kind == Platform then PlatformProbe(b, i) else SlopeProbe(b, i)
  }

  /** When slot i of a new structure is linked (see `PlatformLinked`; a slope's probes need only find). */
  predicate SlotLinked(b: Tile, i: nat, lookup: Lookup, clear: LineClear)
    requires i < SlotCount(b.kind)
  {
    if b.kind == Platform then PlatformLinked(b, i, lookup, clear) else Found(b, SlopeProbe(b, i), lookup, clear)
  }

  /**
   * All link slots for a new structure, in connection order. Every structure
   * linked is backed by the grid and a clear ray at its slot's probe; a
   * platform links diagonally only next to two linked cardinals, to a slope
   * on its level only if the slope points away from it and to a slope a level
   * down only if the slope points at it; a structure type that is not
   * pathable links nothing.
   */
  function NavLinks(b: Tile, lookup: Lookup, clear: LineClear): (r: seq<Option<Tile>>)
    ensures |r| == SlotCount(b.kind)
    ensures forall i :: 0 <= i < |r| ==> (r[i].Some? <==> SlotLinked(b, i, lookup, clear))
    ensures forall i :: 0 <= i < |r| && r[i].Some? ==> Backed(b, r[i].value, SlotProbe(b, i), lookup, clear)
    ensures b.kind == Platform ==>
      && (r[4].Some? ==> r[0].Some? && r[2].Some?) && (r[5].Some? ==> r[0].Some? && r[3].Some?)
      && (r[6].Some? ==> r[1].Some? && r[2].Some?) && (r[7].Some? ==> r[1].Some? && r[3].Some?)
    ensures b.kind == Platform ==> forall i :: 8 <= i < 12 && r[i].Some? ==> IsSlopePointingAway(r[i].value, b.pos)
    ensures b.kind == Platform ==> forall i :: 12 <= i < 16 && r[i].Some? ==> IsSlopePointingAt(r[i].value, b.pos)
  {
    match b.kind
    case Platform =>
      var r := seq(16, i requires 0 <= i < 16 => PlatformSlot(b, i, lookup, clear));
      PlatformLinksBacked(b, lookup, clear, r);
      PlatformLinksExact(b, lookup, clear, r);
      PlatformLinksDiagonal(b, lookup, clear, r);
      PlatformLinksFacing(b, lookup, clear, r);
      r
    case Slope =>
      var r := seq(6, i requires 0 <= i < 6 => SlopeSlot(b, i, lookup, clear));
      SlopeLinks(b, lookup, clear, r);
      r
    case OtherKind(_) => []
  }

  /** Every structure a new platform links is backed at its slot's probe. */
  lemma PlatformLinksBacked(b: Tile, lookup: Lookup, clear: LineClear, r: seq<Option<Tile>>)
    requires b.kind == Platform
    requires |r| == 16 && forall i :: 0 <= i < 16 ==> r[i] == PlatformSlot(b, i, lookup, clear)
    ensures forall i :: 0 <= i < |r| && r[i].Some? ==> Backed(b, r[i].value, SlotProbe(b, i), lookup, clear)
  {
    forall i | 0 <= i < |r| && r[i].Some?
      ensures Backed(b, r[i].value, SlotProbe(b, i), lookup, clear)
    {
      assert r[i] == PlatformSlot(b, i, lookup, clear);
    }
  }

  /** A new platform links exactly the slots whose probes find a structure as `PlatformLinked` says. */
  lemma PlatformLinksExact(b: Tile, lookup: Lookup, clear: LineClear, r: seq<Option<Tile>>)
    requires b.kind == Platform
    requires |r| == 16 && forall i :: 0 <= i < 16 ==> r[i] == PlatformSlot(b, i, lookup, clear)
    ensures forall i :: 0 <= i < |r| ==> (r[i].Some? <==> SlotLinked(b, i, lookup, clear))
  {
    forall i | 0 <= i < |r|
      ensures r[i].Some? <==> SlotLinked(b, i, lookup, clear)
    {
      assert r[i] == PlatformSlot(b, i, lookup, clear);
    }
  }

  /**
   * A new platform links a diagonal only next to its two linked cardinals:
   * ahead-right needs ahead and right, ahead-left ahead and left,
   * behind-right behind and right, behind-left behind and left.
   */
  lemma PlatformLinksDiagonal(b: Tile, lookup: Lookup, clear: LineClear, r: seq<Option<Tile>>)
    requires |r| == 16 && forall i :: 0 <= i < 16 ==> r[i] == PlatformSlot(b, i, lookup, clear)
    ensures r[4].Some? ==> r[0].Some? && r[2].Some?
    ensures r[5].Some? ==> r[0].Some? && r[3].Some?
    ensures r[6].Some? ==> r[1].Some? && r[2].Some?
    ensures r[7].Some? ==> r[1].Some? && r[3].Some?
  {
    assert r[0] == PlatformSlot(b, 0, lookup, clear) && r[1] == PlatformSlot(b, 1, lookup, clear);
    assert r[2] == PlatformSlot(b, 2, lookup, clear) && r[3] == PlatformSlot(b, 3, lookup, clear);
    assert r[4] == PlatformSlot(b, 4, lookup, clear) && r[5] == PlatformSlot(b, 5, lookup, clear);
    assert r[6] == PlatformSlot(b, 6, lookup, clear) && r[7] == PlatformSlot(b, 7, lookup, clear);
  }

  /** A new platform links slopes on its level that point away and slopes below that point at it. */
  lemma PlatformLinksFacing(b: Tile, lookup: Lookup, clear: LineClear, r: seq<Option<Tile>>)
    requires |r| == 16 && forall i :: 0 <= i < 16 ==> r[i] == PlatformSlot(b, i, lookup, clear)
    ensures forall i :: 8 <= i < 12 && r[i].Some? ==> IsSlopePointingAway(r[i].value, b.pos)
    ensures forall i :: 12 <= i < 16 && r[i].Some? ==> IsSlopePointingAt(r[i].value, b.pos)
  {
    forall i | 8 <= i < 16 && r[i].Some?
      ensures i < 12 ==> IsSlopePointingAway(r[i].value, b.pos)
      ensures 12 <= i ==> IsSlopePointingAt(r[i].value, b.pos)
    {
      assert r[i] == PlatformSlot(b, i, lookup, clear);
    }
  }

  /** The slots of a new slope, read together. */
  lemma SlopeLinks(b: Tile, lookup: Lookup, clear: LineClear, r: seq<Option<Tile>>)
    requires b.kind == Slope
    requires |r| == 6 && forall i :: 0 <= i < 6 ==> r[i] == SlopeSlot(b, i, lookup, clear)
    ensures forall i :: 0 <= i < |r| && r[i].Some? ==> Backed(b, r[i].value, SlotProbe(b, i), lookup, clear)
    ensures forall i :: 0 <= i < |r| ==> (r[i].Some? <==> SlotLinked(b, i, lookup, clear))
  {
  }

  /** The names of the structures linked through the slots. */
  function LinkedNames(links: seq<Option<Tile>>): (ns: set<string>)
    ensures forall i :: 0 <= i < |links| && links[i].Some? ==> links[i].value.name in ns
    ensures forall n :: n in ns ==> exists i :: 0 <= i < |links| && links[i].Some? && links[i].value.name == n
  {
    if links == [] then {}
    else
      var front, last := links[..|links| - 1], links[|links| - 1];
      assert forall i :: 0 <= i < |front| ==> front[i] == links[i];
      LinkedNames(front) + (if last.Some? then {last.value.name} else {})
  }

  /** The undirected edges between `a` and every structure linked through the slots. */
  function LinkEdges(a: string, links: seq<Option<Tile>>): (es: set<(string, string)>)
    ensures forall n :: (a, n) in es <==> n in LinkedNames(links)
    ensures forall e :: e in es ==> (e.1, e.0) in es && (e.0 == a || e.1 == a)
  {
    (set n | n in LinkedNames(links) :: (a, n)) + (set n | n in LinkedNames(links) :: (n, a))
  }

  /** One more slot adds the edges to and from its structure, if it holds one. */
  lemma LinkEdgesStep(a: string, links: seq<Option<Tile>>, i: nat)
    requires i < |links|
    ensures LinkEdges(a, links[..i + 1]) ==
      LinkEdges(a, links[..i]) + if links[i].Some? then {(a, links[i].value.name), (links[i].value.name, a)} else {}
  {
    assert links[..i + 1][..i] == links[..i];
    assert LinkedNames(links[..i + 1]) == LinkedNames(links[..i]) + if links[i].Some? then {links[i].value.name} else {};
  }

  /**
   * With every ray blocked a new structure links to nothing: each edge the
   * builder adds is backed by a found structure and a clear line of sight.
   */
  lemma BlockedRaysLinkNothing(b: Tile, lookup: Lookup, clear: LineClear)
    requires forall p, q :: !clear(p, q)
    ensures LinkedNames(NavLinks(b, lookup, clear)) == {}
  {
    var links := NavLinks(b, lookup, clear);
    forall i | 0 <= i < |links| ensures links[i].None? {
      if b.kind == Platform {
        BlockedPlatformSlot(b, i, lookup, clear);
      }
    }
  }

  lemma BlockedPlatformSlot(b: Tile, i: nat, lookup: Lookup, clear: LineClear)
    requires i < 16
    requires forall p, q :: !clear(p, q)
    ensures PlatformSlot(b, i, lookup, clear).None?
  {
  }

  /**
   * A platform that is the first one the grid holds one platform ahead,
   * behind, right or left of a new platform, with nothing between the two
   * navigation points, is linked to it both ways.
   */
  lemma AdjacentPlatformsLink(b: Tile, other: Tile, i: nat, lookup: Lookup, clear: LineClear)
    requires b.kind == Platform && i < 4
    requires FirstOfKind(lookup(b.pos.Plus(PlatformCardinals[i])), Platform) == Some(other)
    requires clear(PointOf(b), PointOf(other))
    ensures other.name in LinkedNames(NavLinks(b, lookup, clear))
    ensures (b.name, other.name) in LinkEdges(b.name, NavLinks(b, lookup, clear))
    ensures (other.name, b.name) in LinkEdges(b.name, NavLinks(b, lookup, clear))
  {
    var links := NavLinks(b, lookup, clear);
    assert PointOf(b).Plus(NoOffset) == PointOf(b) && PointOf(other).Plus(NoOffset) == PointOf(other);
    assert links[i] == PlatformSlot(b, i, lookup, clear) == Some(other);
  }
}
