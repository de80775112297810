/**
 * Vectors and axis-aligned bounding boxes as the host code uses them: component-wise
 * min/max, merging, and the fold that starts from the "empty" sentinels
 * (+FLT_MAX lower corner, -FLT_MAX upper corner).
 *
 * Coordinates are reals: the host only copies, compares and takes minima and maxima,
 * so no rounding happens on this side.
 */
module Geometry {

  datatype Vec3 = Vec3(x: real, y: real, z: real)
  datatype Vec2 = Vec2(u: real, v: real)

  const Zero3: Vec3 := Vec3(0.0, 0.0, 0.0)
  const Zero2: Vec2 := Vec2(0.0, 0.0)

  /** std::numeric_limits<float>::max(), exactly; lowest() is its negation. */
  const FloatMax: real := 340282346638528859811704183484516925440.0

  /** glm::min on one component: `(y < x) ? y : x`. */
  function Min(a: real, b: real): real {
    if b < a then b else a
  }

  /** glm::max on one component: `(x < y) ? y : x`. */
  function Max(a: real, b: real): real {
    if a < b then b else a
  }

  function Vec3Min(a: Vec3, b: Vec3): Vec3 {
    Vec3(Min(a.x, b.x), Min(a.y, b.y), Min(a.z, b.z))
  }

  function Vec3Max(a: Vec3, b: Vec3): Vec3 {
    Vec3(Max(a.x, b.x), Max(a.y, b.y), Max(a.z, b.z))
  }

  predicate LessEq(a: Vec3, b: Vec3) {
    a.x <= b.x && a.y <= b.y && a.z <= b.z
  }

  /** A box; the host's `Bbox` and the kernel's `kernel::Bbox` (w = 1) carry the same corners. */
  datatype Bbox = Bbox(pmin: Vec3, pmax: Vec3)

  /** The accumulator every fold starts from: `pmin = max()`, `pmax = lowest()`. */
  const EmptyBox: Bbox := Bbox(Vec3(FloatMax, FloatMax, FloatMax), Vec3(-FloatMax, -FloatMax, -FloatMax))

  /** A value-initialised box, what a freshly sized node array holds before anything is written. */
  const ZeroBox: Bbox := Bbox(Zero3, Zero3)

  /** `merged.pmin = min(merged.pmin, b.pmin); merged.pmax = max(merged.pmax, b.pmax)` */
  function Merge(a: Bbox, b: Bbox): Bbox {
    Bbox(Vec3Min(a.pmin, b.pmin), Vec3Max(a.pmax, b.pmax))
  }

  /** Growing a box by one point, as `Bbox::Merge(pos)` does. */
  function MergePoint(a: Bbox, p: Vec3): Bbox {
    Merge(a, Bbox(p, p))
  }

  /** `b` contains `c`. */
  predicate Encloses(b: Bbox, c: Bbox) {
    LessEq(b.pmin, c.pmin) && LessEq(c.pmax, b.pmax)
  }

  /** Every coordinate is a finite float: within [lowest(), max()]. */
  predicate FiniteVec(v: Vec3) {
    -FloatMax <= v.x <= FloatMax && -FloatMax <= v.y <= FloatMax && -FloatMax <= v.z <= FloatMax
  }

  predicate FiniteBox(b: Bbox) {
    FiniteVec(b.pmin) && FiniteVec(b.pmax)
  }

  /** The left fold `for (leaf : s) merged = Merge(merged, leaf)` from EmptyBox. */
  function MergeAll(s: seq<Bbox>): Bbox {
    if s == [] then EmptyBox else Merge(MergeAll(s[..|s| - 1]), s[|s| - 1])
  }

  /** The left fold `bbox.Empty(); for (pos : ps) bbox.Merge(pos);`. */
  function Bounds(ps: seq<Vec3>): Bbox {
    if ps == [] then EmptyBox else MergePoint(Bounds(ps[..|ps| - 1]), ps[|ps| - 1])
  }

  /** Smallest box around one triangle: `min(p0, min(p1, p2))` and `max(p0, max(p1, p2))`. */
  function TriangleBox(p0: Vec3, p1: Vec3, p2: Vec3): Bbox {
    Bbox(Vec3Min(p0, Vec3Min(p1, p2)), Vec3Max(p0, Vec3Max(p1, p2)))
  }

  // ----- the six coordinates of a box, each folded with Min -----

  /** Coordinate c of a box, upper-corner coordinates negated so that merging is Min on every one. */
  function Key(b: Bbox, c: nat): real
    requires c < 6
  {
    if c == 0 then b.pmin.x
    else if c == 1 then b.pmin.y
    else if c == 2 then b.pmin.z
    else if c == 3 then -b.pmax.x
    else if c == 4 then -b.pmax.y
    else -b.pmax.z
  }

  lemma KeyMerge(a: Bbox, b: Bbox, c: nat)
    requires c < 6
    ensures Key(Merge(a, b), c) == Min(Key(a, c), Key(b, c))
  {
  }

  lemma KeysDetermineBox(a: Bbox, b: Bbox)
    requires forall c | 0 <= c < 6 :: Key(a, c) == Key(b, c)
    ensures a == b
  {
    assert Key(a, 0) == Key(b, 0) && Key(a, 1) == Key(b, 1) && Key(a, 2) == Key(b, 2);
    assert Key(a, 3) == Key(b, 3) && Key(a, 4) == Key(b, 4) && Key(a, 5) == Key(b, 5);
  }

  /** Each coordinate of the fold is below the sentinel and below that coordinate of every leaf. */
  lemma {:induction false} MergeAllLower(s: seq<Bbox>, c: nat)
    requires c < 6
    ensures Key(MergeAll(s), c) <= FloatMax
    ensures forall i | 0 <= i < |s| :: Key(MergeAll(s), c) <= Key(s[i], c)
  {
    if s != [] {
      MergeAllLower(s[..|s| - 1], c);
      KeyMerge(MergeAll(s[..|s| - 1]), s[|s| - 1], c);
      forall i | 0 <= i < |s| ensures Key(MergeAll(s), c) <= Key(s[i], c) {
        if i < |s| - 1 {
          assert s[i] == s[..|s| - 1][i];
        }
      }
    }
  }

  /** Each coordinate of the fold is the sentinel or the coordinate of some leaf. */
  lemma {:induction false} MergeAllAttained(s: seq<Bbox>, c: nat)
    requires c < 6
    ensures Key(MergeAll(s), c) == FloatMax || exists i | 0 <= i < |s| :: Key(MergeAll(s), c) == Key(s[i], c)
  {
    if s != [] {
      var init := s[..|s| - 1];
      MergeAllAttained(init, c);
      KeyMerge(MergeAll(init), s[|s| - 1], c);
      if Key(MergeAll(s), c) != Key(s[|s| - 1], c) && Key(MergeAll(s), c) != FloatMax {
        var i :| 0 <= i < |init| && Key(MergeAll(init), c) == Key(init[i], c);
        assert Key(MergeAll(s), c) == Key(s[i], c);
      }
    }
  }

  /** The merged box contains every leaf box. */
  lemma MergeAllEncloses(s: seq<Bbox>, i: nat)
    requires i < |s|
    ensures Encloses(MergeAll(s), s[i])
  {
    forall c | 0 <= c < 6 ensures Key(MergeAll(s), c) <= Key(s[i], c) {
      MergeAllLower(s, c);
    }
    assert Key(MergeAll(s), 0) <= Key(s[i], 0) && Key(MergeAll(s), 1) <= Key(s[i], 1);
    assert Key(MergeAll(s), 2) <= Key(s[i], 2) && Key(MergeAll(s), 3) <= Key(s[i], 3);
    assert Key(MergeAll(s), 4) <= Key(s[i], 4) && Key(MergeAll(s), 5) <= Key(s[i], 5);
  }

  /**
   * With at least one finite leaf the sentinels never survive: every coordinate of the
   * merged box is that coordinate of some leaf, so the box is the tightest one.
   */
  lemma MergeAllTight(s: seq<Bbox>, c: nat)
    requires c < 6 && |s| >= 1
    requires forall i | 0 <= i < |s| :: FiniteBox(s[i])
    ensures exists i | 0 <= i < |s| :: Key(MergeAll(s), c) == Key(s[i], c)
  {
    MergeAllLower(s, c);
    MergeAllAttained(s, c);
    assert FiniteBox(s[0]);
    assert Key(s[0], c) <= FloatMax;
    if Key(MergeAll(s), c) == FloatMax {
      assert Key(MergeAll(s), c) == Key(s[0], c);
    }
  }

  /** The merged box does not depend on the order in which the leaves are visited. */
  lemma MergeAllOrderIndependent(s: seq<Bbox>, t: seq<Bbox>)
    requires multiset(s) == multiset(t)
    ensures MergeAll(s) == MergeAll(t)
  {
    forall c | 0 <= c < 6 ensures Key(MergeAll(s), c) == Key(MergeAll(t), c) {
      MergeAllBelow(s, t, c);
      MergeAllBelow(t, s, c);
    }
    KeysDetermineBox(MergeAll(s), MergeAll(t));
  }

  lemma MergeAllBelow(s: seq<Bbox>, t: seq<Bbox>, c: nat)
    requires c < 6
    requires multiset(s) == multiset(t)
    ensures Key(MergeAll(s), c) <= Key(MergeAll(t), c)
  {
    MergeAllLower(s, c);
    MergeAllAttained(t, c);
    if Key(MergeAll(t), c) != FloatMax {
      var i :| 0 <= i < |t| && Key(MergeAll(t), c) == Key(t[i], c);
      assert t[i] in multiset(t);
      assert t[i] in s;
      var j :| 0 <= j < |s| && s[j] == t[i];
    }
  }

  /** The point fold equals the box fold over the degenerate boxes of the points. */
  function PointBoxes(ps: seq<Vec3>): (r: seq<Bbox>)
    ensures |r| == |ps|
    ensures forall i | 0 <= i < |ps| :: r[i] == Bbox(ps[i], ps[i])
  {
    seq(|ps|, i requires 0 <= i < |ps| => Bbox(ps[i], ps[i]))
  }

  lemma {:induction false} BoundsIsMergeAll(ps: seq<Vec3>)
    ensures Bounds(ps) == MergeAll(PointBoxes(ps))
  {
    if ps != [] {
      BoundsIsMergeAll(ps[..|ps| - 1]);
      assert PointBoxes(ps)[..|ps| - 1] == PointBoxes(ps[..|ps| - 1]);
    }
  }

  /** The box of a point set contains every point. */
  lemma BoundsContains(ps: seq<Vec3>, i: nat)
    requires i < |ps|
    ensures LessEq(Bounds(ps).pmin, ps[i]) && LessEq(ps[i], Bounds(ps).pmax)
  {
    BoundsIsMergeAll(ps);
    MergeAllEncloses(PointBoxes(ps), i);
  }

  /**
   * The mesh box handed to the bottom-level builder as the merged box contains the leaf
   * box of every triangle whose corners are mesh positions.
   */
  lemma BoundsEnclosesTriangle(ps: seq<Vec3>, i0: nat, i1: nat, i2: nat)
    requires i0 < |ps| && i1 < |ps| && i2 < |ps|
    ensures Encloses(Bounds(ps), TriangleBox(ps[i0], ps[i1], ps[i2]))
  {
    BoundsContains(ps, i0);
    BoundsContains(ps, i1);
    BoundsContains(ps, i2);
  }

  /** The triangle box is the tightest box around its three corners. */
  lemma TriangleBoxTight(p0: Vec3, p1: Vec3, p2: Vec3)
    ensures LessEq(TriangleBox(p0, p1, p2).pmin, p0) && LessEq(TriangleBox(p0, p1, p2).pmin, p1)
    ensures LessEq(TriangleBox(p0, p1, p2).pmin, p2) && LessEq(p0, TriangleBox(p0, p1, p2).pmax)
    ensures LessEq(p1, TriangleBox(p0, p1, p2).pmax) && LessEq(p2, TriangleBox(p0, p1, p2).pmax)
    ensures TriangleBox(p0, p1, p2).pmin.x in {p0.x, p1.x, p2.x}
    ensures TriangleBox(p0, p1, p2).pmax.x in {p0.x, p1.x, p2.x}
    ensures TriangleBox(p0, p1, p2).pmin.y in {p0.y, p1.y, p2.y}
    ensures TriangleBox(p0, p1, p2).pmax.y in {p0.y, p1.y, p2.y}
    ensures TriangleBox(p0, p1, p2).pmin.z in {p0.z, p1.z, p2.z}
    ensures TriangleBox(p0, p1, p2).pmax.z in {p0.z, p1.z, p2.z}
  {
  }
}
