/** The cloud field: cloud objects, where the spawners place new clouds, and
    which clouds the despawn pass keeps. */
module Clouds {
  import opened Vectors

  /** Inner radius of the spawn ring. */
  const MinSpawnDist: real := 300.0
  /** Outer radius of the spawn ring, and the despawn distance. */
  const MaxSpawnDist: real := 400.0
  /** Clouds per spawned ring. */
  const CloudDensity: nat := 35
  /** Clouds scattered over the disc at start-up. */
  const InitialCloudCount: nat := 20
  /** How far the plane must move from the last spawn point to spawn a ring. */
  const SpawnDistanceThreshold: real := 100.0
  /** Clouds farther than this from the camera are hidden. */
  const CullRadius: real := 200.0
  /** Total vertical spread of a spawned cloud around its centre's height. */
  const HeightSpread: real := 50.0

  /** A cloud group. Its position is set once, right after creation, and never
      changed; its `visible` flag is rewritten by culling every frame. */
  class Cloud {
    const position: Vec3
    var visible: bool

    /** A new scene object is visible until something hides it. */
    constructor (position: Vec3)
      ensures this.position == position && visible
    {
      this.position := position;
      visible := true;
    }
  }

  /** The random draws one spawned cloud consumes: the cosine and sine of a
      uniformly drawn angle, one uniform draw for the distance from the centre
      and one for the height. */
  datatype Draw = Draw(cosA: real, sinA: real, radial: real, height: real)

  /** What the random source guarantees: the angle's cosine and sine lie on the
      unit circle and both uniform draws lie in [0, 1). */
  predicate ValidDraw(d: Draw) {
    d.cosA * d.cosA + d.sinA * d.sinA == 1.0 &&
    0.0 <= d.radial < 1.0 &&
    0.0 <= d.height < 1.0
  }

  predicate AllValid(ds: seq<Draw>) {
    forall k :: 0 <= k < |ds| ==> ValidDraw(ds[k])
  }

  /** Height offset of a spawned cloud from its centre: (h - 0.5) * 50. */
  function HeightOffset(h: real): real {
    (h - 0.5) * HeightSpread
  }

  /** Where the ring spawner puts a cloud: at a distance interpolated between
      the two spawn radii, in the drawn direction on the horizontal plane. */
  function RingPosition(center: Vec3, d: Draw): Vec3 {
    var distance := Lerp(MinSpawnDist, MaxSpawnDist, d.radial);
    Vec3(center.x + d.cosA * distance, center.y + HeightOffset(d.height), center.z + d.sinA * distance)
  }

  /** Where the initial spawner puts a cloud: at the drawn fraction of `radius`
      in the drawn direction on the horizontal plane. */
  function DiscPosition(center: Vec3, d: Draw, radius: real): Vec3 {
    var distance := d.radial * radius;
    Vec3(center.x + d.cosA * distance, center.y + HeightOffset(d.height), center.z + d.sinA * distance)
  }

  /** Inside the spawn annulus around `center`, within the vertical band. */
  predicate InRing(pos: Vec3, center: Vec3) {
    MinSpawnDist * MinSpawnDist <= HorizDistSq(pos, center) < MaxSpawnDist * MaxSpawnDist &&
    center.y - HeightSpread / 2.0 <= pos.y < center.y + HeightSpread / 2.0
  }

  /** Inside the start-up disc around `center` (the radius the setup passes
      is the inner spawn radius), within the vertical band. */
  predicate InInitialDisc(pos: Vec3, center: Vec3) {
    HorizDistSq(pos, center) < MinSpawnDist * MinSpawnDist &&
    center.y - HeightSpread / 2.0 <= pos.y < center.y + HeightSpread / 2.0
  }

  /** The despawn test, on squared distances: a cloud stays while it is no
      farther than the despawn distance from the plane. */
  predicate WithinDespawn(pos: Vec3, plane: Vec3) {
    DistSq(pos, plane) <= MaxSpawnDist * MaxSpawnDist
  }

  /** The culling test, on squared distances. */
  predicate InView(pos: Vec3, camera: Vec3) {
    DistSq(pos, camera) <= CullRadius * CullRadius
  }

  /** The spawn trigger, on squared distances: strictly farther than the
      threshold from the last spawn point. */
  predicate ShouldSpawn(plane: Vec3, lastSpawn: Vec3) {
    DistSq(plane, lastSpawn) > SpawnDistanceThreshold * SpawnDistanceThreshold
  }

  /** The trigger is strict: a plane 150 from the last spawn point spawns a
      ring, one exactly 100 away does not. */
  lemma SpawnTriggerIsStrict(last: Vec3)
    ensures ShouldSpawn(Vec3(last.x + 150.0, last.y, last.z), last)
    ensures !ShouldSpawn(Vec3(last.x + 100.0, last.y, last.z), last)
  {
    var far, near := Vec3(last.x + 150.0, last.y, last.z), Vec3(last.x + 100.0, last.y, last.z);
    assert far.x - last.x == 150.0 && far.y - last.y == 0.0 && far.z - last.z == 0.0;
    assert near.x - last.x == 100.0 && near.y - last.y == 0.0 && near.z - last.z == 0.0;
    assert DistSq(far, last) == 150.0 * 150.0 + 0.0 * 0.0 + 0.0 * 0.0;
    assert DistSq(near, last) == 100.0 * 100.0 + 0.0 * 0.0 + 0.0 * 0.0;
  }

  /** Moving `dist` along a unit direction on the horizontal plane covers a
      squared horizontal distance of dist * dist. */
  lemma HorizontalOffset(center: Vec3, p: Vec3, c: real, s: real, dist: real)
    requires c * c + s * s == 1.0
    requires p.x == center.x + c * dist && p.z == center.z + s * dist
    ensures HorizDistSq(p, center) == dist * dist
  {
    assert p.x - center.x == c * dist && p.z - center.z == s * dist;
    calc {
      HorizDistSq(p, center);
      (c * dist) * (c * dist) + (s * dist) * (s * dist);
      (c * c + s * s) * (dist * dist);
      dist * dist;
    }
  }

  lemma HeightInBand(center: Vec3, h: real)
    requires 0.0 <= h < 1.0
    ensures center.y - HeightSpread / 2.0 <= center.y + HeightOffset(h) < center.y + HeightSpread / 2.0
  {
  }

  /** A draw in [0, 1) scales a radius down: strictly, unless it is zero. */
  lemma ScaledRadius(u: real, r: real)
    requires 0.0 <= u < 1.0
    ensures Abs(u * r) <= Abs(r)
    ensures r != 0.0 ==> Abs(u * r) < Abs(r)
  {
    if r > 0.0 {
      assert u * r < 1.0 * r;
    } else if r < 0.0 {
      assert u * (-r) < 1.0 * (-r);
      assert u * r == -(u * (-r));
    }
  }

  /** Every ring-spawned cloud lies in the annulus [300, 400) around the
      centre, at most 25 below and less than 25 above it. */
  lemma RingPositionInRing(center: Vec3, d: Draw)
    requires ValidDraw(d)
    ensures InRing(RingPosition(center, d), center)
  {
    var distance := Lerp(MinSpawnDist, MaxSpawnDist, d.radial);
    assert distance == 300.0 + 100.0 * d.radial;
    HorizontalOffset(center, RingPosition(center, d), d.cosA, d.sinA, distance);
    assert distance * distance >= 300.0 * distance >= 300.0 * 300.0;
    assert distance * distance < 400.0 * distance < 400.0 * 400.0;
    HeightInBand(center, d.height);
  }

  /** Every cloud of the initial scatter lies at horizontal distance
      |radial * radius| from the centre, which is at most |radius| and strictly
      less unless the radius is zero, and within the vertical band. */
  lemma DiscPositionInDisc(center: Vec3, d: Draw, radius: real)
    requires ValidDraw(d)
    ensures var dist := d.radial * radius;
            HorizDistSq(DiscPosition(center, d, radius), center) == dist * dist &&
            Abs(dist) <= Abs(radius) && (radius != 0.0 ==> Abs(dist) < Abs(radius))
    ensures var p := DiscPosition(center, d, radius);
            center.y - HeightSpread / 2.0 <= p.y < center.y + HeightSpread / 2.0
  {
    var distance := d.radial * radius;
    HorizontalOffset(center, DiscPosition(center, d, radius), d.cosA, d.sinA, distance);
    ScaledRadius(d.radial, radius);
    HeightInBand(center, d.height);
  }

  /** With the radius the setup uses, the initial scatter stays strictly
      inside the disc of that radius. */
  lemma InitialPositionInDisc(center: Vec3, d: Draw)
    requires ValidDraw(d)
    ensures InInitialDisc(DiscPosition(center, d, MinSpawnDist), center)
  {
    DiscPositionInDisc(center, d, MinSpawnDist);
    var dist := d.radial * MinSpawnDist;
    assert 0.0 <= dist < 300.0;
    assert dist * dist <= 300.0 * dist < 300.0 * 300.0;
  }

  /** A ring cloud is placed by its horizontal distance only, so with its height
      offset it can end up beyond the despawn distance in three dimensions. The
      next despawn pass then removes it, unless the plane has come back within
      the despawn distance of it. */
  lemma RingCloudMayLieBeyondDespawn(center: Vec3)
    ensures exists d :: ValidDraw(d) && InRing(RingPosition(center, d), center) &&
                        !WithinDespawn(RingPosition(center, d), center)
  {
    var d := Draw(1.0, 0.0, 0.999, 0.999);
    var p := RingPosition(center, d);
    RingPositionInRing(center, d);
    assert p.x - center.x == 399.9 && p.y - center.y == 24.95 && p.z - center.z == 0.0;
    assert DistSq(p, center) == 399.9 * 399.9 + 24.95 * 24.95 + 0.0 * 0.0;
  }

  /** The clouds the despawn pass keeps, in their original order. */
  function Keep(cs: seq<Cloud>, plane: Vec3): (kept: seq<Cloud>)
    ensures |kept| <= |cs|
    decreases |cs|
  {
    if cs == [] then []
    else (if WithinDespawn(cs[0].position, plane) then [cs[0]] else []) + Keep(cs[1..], plane)
  }

  /** The survivors are exactly the clouds of the list within the despawn
      distance of the plane. */
  lemma {:induction false} KeepMembership(cs: seq<Cloud>, plane: Vec3, c: Cloud)
    ensures c in Keep(cs, plane) <==> c in cs && WithinDespawn(c.position, plane)
    decreases |cs|
  {
    if cs != [] {
      KeepMembership(cs[1..], plane, c);
      assert cs == [cs[0]] + cs[1..];
    }
  }

  /** The despawn pass only removes: every survivor was in the list. */
  lemma KeepOnlyRemoves(cs: seq<Cloud>, plane: Vec3)
    ensures forall c :: c in Keep(cs, plane) ==> c in cs
  {
    forall c | c in Keep(cs, plane)
      ensures c in cs
    {
      KeepMembership(cs, plane, c);
    }
  }

  /** Filtering a suffix decides its first cloud and filters the rest. */
  lemma KeepSuffix(cs: seq<Cloud>, i: nat, plane: Vec3)
    requires i < |cs|
    ensures Keep(cs[i..], plane) ==
            (if WithinDespawn(cs[i].position, plane) then [cs[i]] else []) + Keep(cs[i + 1..], plane)
  {
    assert cs[i..][0] == cs[i] && cs[i..][1..] == cs[i + 1..];
  }

  /** One step of a backward removal pass: deciding the cloud at index i
      extends the filtered suffix by one. */
  lemma KeepStep(cs: seq<Cloud>, i: nat, plane: Vec3, current: seq<Cloud>)
    requires i < |cs|
    requires current == cs[..i + 1] + Keep(cs[i + 1..], plane)
    ensures i < |current| && current[i] == cs[i]
    ensures (if WithinDespawn(cs[i].position, plane) then current else current[..i] + current[i + 1..]) ==
            cs[..i] + Keep(cs[i..], plane)
  {
    var rest := Keep(cs[i + 1..], plane);
    KeepSuffix(cs, i, plane);
    assert current[..i] == cs[..i] && current[i] == cs[i] && current[i + 1..] == rest;
    if WithinDespawn(cs[i].position, plane) {
      assert current == cs[..i] + ([cs[i]] + rest);
    }
  }

  /** `a` is obtained from `b` by deleting elements. */
  ghost predicate IsSubsequence<T>(a: seq<T>, b: seq<T>)
    decreases |b|
  {
    a == [] ||
    (b != [] && ((a[0] == b[0] && IsSubsequence(a[1..], b[1..])) || IsSubsequence(a, b[1..])))
  }

  /** The survivors keep their relative order. */
  lemma {:induction false} KeepIsSubsequence(cs: seq<Cloud>, plane: Vec3)
    ensures IsSubsequence(Keep(cs, plane), cs)
    decreases |cs|
  {
    if cs != [] {
      KeepIsSubsequence(cs[1..], plane);
      var kept := Keep(cs, plane);
      if WithinDespawn(cs[0].position, plane) {
        assert kept[0] == cs[0] && kept[1..] == Keep(cs[1..], plane);
      } else {
        assert kept == Keep(cs[1..], plane);
      }
    }
  }

  /** Every copy of a kept cloud survives and no copy of a removed one does. */
  lemma {:induction false} KeepMultiplicity(cs: seq<Cloud>, plane: Vec3, c: Cloud)
    ensures multiset(Keep(cs, plane))[c] == if WithinDespawn(c.position, plane) then multiset(cs)[c] else 0
    decreases |cs|
  {
    if cs != [] {
      KeepMultiplicity(cs[1..], plane, c);
      assert cs == [cs[0]] + cs[1..];
      assert multiset(cs) == multiset([cs[0]]) + multiset(cs[1..]);
    }
  }

  /** Despawning a concatenation despawns each part. */
  lemma {:induction false} KeepAppend(a: seq<Cloud>, b: seq<Cloud>, plane: Vec3)
    ensures Keep(a + b, plane) == Keep(a, plane) + Keep(b, plane)
    decreases |a|
  {
    if a == [] {
      assert a + b == b;
    } else {
      KeepAppend(a[1..], b, plane);
      assert (a + b)[0] == a[0] && (a + b)[1..] == a[1..] + b;
    }
  }

  /** A second despawn pass around the same plane position removes nothing. */
  lemma {:induction false} KeepIdempotent(cs: seq<Cloud>, plane: Vec3)
    ensures Keep(Keep(cs, plane), plane) == Keep(cs, plane)
    decreases |cs|
  {
    if cs != [] {
      KeepIdempotent(cs[1..], plane);
      var head := if WithinDespawn(cs[0].position, plane) then [cs[0]] else [];
      KeepAppend(head, Keep(cs[1..], plane), plane);
      if head != [] {
        assert head[1..] == [];
      }
    }
  }
}
