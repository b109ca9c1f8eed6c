/**
 * The per-element estimates of the quality viewer, as functions of the
 * mesh: cotangent edge weights, the triangle shape ratio and the angle
 * deficit (Gaussian curvature).  The passes of the viewer store these
 * values element by element.
 */
module Estimation {
  import opened HalfedgeMesh

  /**
   * The numerical library routines the estimates call; their results are
   * not modelled, only where they are applied and to what.  cot stands for
   * 1.0 / tan(alpha).
   */
  datatype Numerics = Numerics(
    acos: real -> real,
    cot: real -> real,
    sqrt: real -> real,
    normalize: Vec3 -> Vec3)

  /** FLT_MIN, the least positive normal float, 2^-126. */
  const FltMin: real := 1.0 / 85070591730234615865843651857942052864.0
  /** FLT_MAX, the greatest finite float, 2^128 - 2^104. */
  const FltMax: real := 340282346638528859811704183484516925440.0
  /** M_PI as written in math.h. */
  const Pi: real := 3.14159265358979323846

  /** The bound a dot product of unit vectors is clamped to before acos. */
  const AcosBound: real := 0.99

  function Max(a: real, b: real): real { if a < b then b else a }
  function Min(a: real, b: real): real { if b < a then b else a }

  /** std::min(0.99, std::max(-0.99, d)). */
  function ClampDot(d: real): (r: real)
    ensures -AcosBound <= r <= AcosBound
    ensures -AcosBound <= d <= AcosBound ==> r == d
    ensures AcosBound < d ==> r == AcosBound
    ensures d < -AcosBound ==> r == -AcosBound
  {
    Min(AcosBound, Max(-AcosBound, d))
  }

  /** The angle between a and b: acos of the clamped dot product of their normalised copies. */
  function Angle(num: Numerics, a: Vec3, b: Vec3): (r: real)
    ensures AcosInRange(num) ==> 0.0 <= r <= Pi
  {
    num.acos(ClampDot(Dot(num.normalize(a), num.normalize(b))))
  }

  function Point(m: Mesh, v: nat): Vec3
    requires v < m.NumVertices()
  {
    m.points[v]
  }

  // ---------------------------------------------------------------------
  // Cotangent weights (calc_he_weight, calc_weights)
  // ---------------------------------------------------------------------

  /**
   * calc_he_weight: 0 for a boundary halfedge, otherwise the cotangent of
   * the angle of h's triangle at the corner after the two vertices of h.
   */
  function HalfedgeWeight(m: Mesh, num: Numerics, h: nat): (w: real)
    requires HandlesInRange(m) && h < m.NumHalfedges()
    ensures m.boundary[h] ==> w == 0.0
  {
    if m.boundary[h] then 0.0
    else
      var he2 := m.next[h];
      var he3 := m.next[he2];
      var v1, v2, v3 := m.from[h], m.from[he2], m.from[he3];
      num.cot(Angle(num, Sub(Point(m, v2), Point(m, v3)), Sub(Point(m, v1), Point(m, v3))))
  }

  /**
   * For an inner halfedge the weight is the cotangent of the angle at the
   * corner opposite to it: the third vertex of its triangle, seen between
   * the two ends of h.
   */
  lemma HalfedgeWeightAtOppositeCorner(m: Mesh, num: Numerics, h: nat)
    requires Valid(m) && h < m.NumHalfedges() && !m.boundary[h]
    ensures var c := m.to[m.next[h]];
      c != m.from[h] && c != m.to[h] && m.face[m.next[h]] == m.face[h] &&
      HalfedgeWeight(m, num, h)
        == num.cot(Angle(num, Sub(Point(m, m.to[h]), Point(m, c)), Sub(Point(m, m.from[h]), Point(m, c))))
  {
    var he2 := m.next[h];
    assert InnerStep(m, h);
    assert InnerStep(m, he2);
    assert InnerStep(m, m.next[he2]);
  }

  /**
   * The weight calc_weights stores for the edge of halfedge h: half the
   * sum of the weights of h and its opposite, clamped at zero.
   */
  function EdgeWeight(m: Mesh, num: Numerics, h: nat): (w: real)
    requires HandlesInRange(m) && h < m.NumHalfedges()
    ensures w >= 0.0
    ensures 0.0 < w <==> 0.0 < HalfedgeWeight(m, num, h) + HalfedgeWeight(m, num, m.opposite[h])
  {
    Max(0.0, 0.5 * (HalfedgeWeight(m, num, h) + HalfedgeWeight(m, num, m.opposite[h])))
  }

  /** Both halfedges of an edge give the edge the same weight. */
  lemma EdgeWeightSymmetric(m: Mesh, num: Numerics, h: nat)
    requires Valid(m) && h < m.NumHalfedges()
    ensures EdgeWeight(m, num, m.opposite[h]) == EdgeWeight(m, num, h)
  {
    assert m.opposite[m.opposite[h]] == h;
  }

  /** A boundary halfedge adds nothing: the edge keeps half the other side's weight, clamped. */
  lemma BoundaryEdgeWeight(m: Mesh, num: Numerics, h: nat)
    requires Valid(m) && h < m.NumHalfedges() && m.boundary[h]
    ensures EdgeWeight(m, num, h) == Max(0.0, 0.5 * HalfedgeWeight(m, num, m.opposite[h]))
    ensures m.boundary[m.opposite[h]] ==> EdgeWeight(m, num, h) == 0.0
  {
  }

  // ---------------------------------------------------------------------
  // Triangle shape (calc_triangle_quality)
  // ---------------------------------------------------------------------

  /** minLen2 as the source finds it: the first length, replaced by any strictly shorter one. */
  function MinLength2(l0: real, l1: real, l2: real): (r: real)
    ensures r <= l0 && r <= l1 && r <= l2
    ensures r == l0 || r == l1 || r == l2
  {
    var m := if l1 < l0 then l1 else l0;
    if l2 < m then l2 else m
  }

  lemma ProductNonNegative(a: real, b: real, c: real, d: real)
    requires a >= 0.0 && b >= 0.0 && c >= 0.0 && d > 0.0
    ensures a * b * c / d >= 0.0
  {
    assert a * b >= 0.0;
    assert a * b * c >= 0.0;
  }

  /**
   * rad2: the squared circumradius |v0|^2 |v1|^2 |v2|^2 / (4 |v0 x v1|^2),
   * or FLT_MAX when the denominator does not exceed FLT_MIN.
   */
  function CircumradiusSquared(v0: Vec3, v1: Vec3, v2: Vec3): (rad2: real)
    ensures rad2 >= 0.0
    ensures 4.0 * SqrNorm(Cross(v0, v1)) <= FltMin ==> rad2 == FltMax
  {
    var denom := 4.0 * SqrNorm(Cross(v0, v1));
    if denom > FltMin then
      ProductNonNegative(SqrNorm(v0), SqrNorm(v1), SqrNorm(v2), denom);
      SqrNorm(v0) * SqrNorm(v1) * SqrNorm(v2) / denom
    else FltMax
  }

  /**
   * The shape ratio of the triangle p1 p2 p3: sqrt(rad2 / minLen2), or
   * FLT_MAX when the shortest squared edge does not exceed FLT_MIN.
   */
  function TriangleShape(num: Numerics, p1: Vec3, p2: Vec3, p3: Vec3): (ratio: real)
    ensures MinLength2(SqrNorm(Sub(p1, p2)), SqrNorm(Sub(p2, p3)), SqrNorm(Sub(p1, p3))) <= FltMin
            ==> ratio == FltMax
  {
    var v0, v1, v2 := Sub(p1, p2), Sub(p2, p3), Sub(p1, p3);
    var rad2 := CircumradiusSquared(v0, v1, v2);
    var minLen2 := MinLength2(SqrNorm(v0), SqrNorm(v1), SqrNorm(v2));
    if minLen2 > FltMin then num.sqrt(rad2 / minLen2) else FltMax
  }

  /**
   * The body of calc_triangle_quality for one face with corners p1, p2,
   * p3, statement by statement.
   */
  method ComputeTriangleShape(num: Numerics, p1: Vec3, p2: Vec3, p3: Vec3) returns (fratio: real)
    ensures fratio == TriangleShape(num, p1, p2, p3)
  {
    fratio := 0.0;
    var v0, v1, v2 := Sub(p1, p2), Sub(p2, p3), Sub(p1, p3);
    var rad2 := ComputeCircumradiusSquared(v0, v1, v2);
    var minLen2 := SqrNorm(v0);
    var lengh := SqrNorm(v1);
    var lengh2 := SqrNorm(v2);
    if lengh < minLen2 {
      minLen2 := lengh;
    }
    if lengh2 < minLen2 {
      minLen2 := lengh2;
    }
    if minLen2 > FltMin {
      fratio := num.sqrt(rad2 / minLen2);
    } else {
      fratio := FltMax;
    }
  }

  /** The first half of that body: rad2, guarded against a vanishing denominator. */
  method ComputeCircumradiusSquared(v0: Vec3, v1: Vec3, v2: Vec3) returns (rad2: real)
    ensures rad2 == CircumradiusSquared(v0, v1, v2)
  {
    var denom := 4.0 * SqrNorm(Cross(v0, v1));
    rad2 := 0.0;
    if denom > FltMin {
      rad2 := SqrNorm(v0) * SqrNorm(v1) * SqrNorm(v2) / denom;
    } else {
      rad2 := FltMax;
    }
  }

  /**
   * The shape ratio of face f over its corners in circulation order; a
   * face with two corners at the same position gets FLT_MAX.
   */
  function FaceShape(m: Mesh, num: Numerics, f: nat): (ratio: real)
    requires HandlesInRange(m) && f < m.NumFaces()
    ensures var vs := FaceVertices(m, f);
            (Point(m, vs[0]) == Point(m, vs[1]) || Point(m, vs[1]) == Point(m, vs[2])
             || Point(m, vs[0]) == Point(m, vs[2])) ==> ratio == FltMax
  {
    var vs := FaceVertices(m, f);
    TriangleShape(num, Point(m, vs[0]), Point(m, vs[1]), Point(m, vs[2]))
  }

  lemma SqrNormSwap(a: Vec3, b: Vec3)
    ensures SqrNorm(Sub(a, b)) == SqrNorm(Sub(b, a))
  {
  }

  lemma CrossRotation(p1: Vec3, p2: Vec3, p3: Vec3)
    ensures Cross(Sub(p2, p3), Sub(p3, p1)) == Cross(Sub(p1, p2), Sub(p2, p3))
  {
    var a, b := Sub(p1, p2), Sub(p2, p3);
    var c := Sub(p3, p1);
    assert c == Vec3(-a.x - b.x, -a.y - b.y, -a.z - b.z);
  }

  /**
   * The ratio does not depend on which corner the face-vertex circulator
   * starts at: rotating the corners leaves it unchanged.
   */
  lemma TriangleShapeRotation(num: Numerics, p1: Vec3, p2: Vec3, p3: Vec3)
    ensures TriangleShape(num, p2, p3, p1) == TriangleShape(num, p1, p2, p3)
  {
    var v0, v1, v2 := Sub(p1, p2), Sub(p2, p3), Sub(p1, p3);
    var w1, w2 := Sub(p3, p1), Sub(p2, p1);
    var l0, l1, l2 := SqrNorm(v0), SqrNorm(v1), SqrNorm(v2);
    SqrNormSwap(p3, p1);
    SqrNormSwap(p2, p1);
    assert SqrNorm(w1) == l2 && SqrNorm(w2) == l0;
    CrossRotation(p1, p2, p3);
    assert SqrNorm(Cross(v1, w1)) == SqrNorm(Cross(v0, v1));
    assert l1 * l2 * l0 == l0 * l1 * l2;
    assert CircumradiusSquared(v1, w1, w2) == CircumradiusSquared(v0, v1, v2);
    assert MinLength2(l1, l2, l0) == MinLength2(l0, l1, l2);
  }

  /** Two coincident corners give the sentinel FLT_MAX. */
  lemma CoincidentCornersGiveSentinel(num: Numerics, p1: Vec3, p3: Vec3)
    ensures TriangleShape(num, p1, p1, p3) == FltMax
  {
  }

  /**
   * Three distinct collinear corners have no area, so rad2 is FLT_MAX, but
   * their shortest edge is long enough for the square-root branch: the
   * ratio is sqrt(FLT_MAX / minLen2), not the sentinel itself.
   */
  lemma CollinearCornersTakeRootBranch(num: Numerics, p: Vec3, d: Vec3)
    requires SqrNorm(d) > FltMin
    ensures var p2 := Vec3(p.x + d.x, p.y + d.y, p.z + d.z);
      var p3 := Vec3(p.x + 2.0 * d.x, p.y + 2.0 * d.y, p.z + 2.0 * d.z);
      TriangleShape(num, p, p2, p3) == num.sqrt(FltMax / SqrNorm(d))
  {
    var p2 := Vec3(p.x + d.x, p.y + d.y, p.z + d.z);
    var p3 := Vec3(p.x + 2.0 * d.x, p.y + 2.0 * d.y, p.z + 2.0 * d.z);
    var nd := Vec3(-d.x, -d.y, -d.z);
    assert Sub(p, p2) == nd && Sub(p2, p3) == nd;
    assert Cross(nd, nd) == Vec3(0.0, 0.0, 0.0);
    assert SqrNorm(nd) == SqrNorm(d);
    assert SqrNorm(Sub(p, p3)) == 4.0 * SqrNorm(d);
  }

  /** Lagrange's identity: |a x b|^2 = |a|^2 |b|^2 - (a . b)^2. */
  lemma Lagrange(a: Vec3, b: Vec3)
    ensures SqrNorm(Cross(a, b)) == SqrNorm(a) * SqrNorm(b) - Dot(a, b) * Dot(a, b)
  {
  }

  /** The squared length of a sum: |a + b|^2 = |a|^2 + |b|^2 + 2 a . b. */
  lemma SqrNormOfSum(a: Vec3, b: Vec3)
    ensures SqrNorm(Vec3(a.x + b.x, a.y + b.y, a.z + b.z)) == SqrNorm(a) + SqrNorm(b) + 2.0 * Dot(a, b)
  {
  }

  /** Two sides of squared length L whose sum has squared length L span 4 |v0 x v1|^2 = 3 L^2. */
  lemma EquilateralCross(v0: Vec3, v1: Vec3, L: real)
    requires SqrNorm(v0) == L && SqrNorm(v1) == L
    requires SqrNorm(Vec3(v0.x + v1.x, v0.y + v1.y, v0.z + v1.z)) == L
    ensures 4.0 * SqrNorm(Cross(v0, v1)) == 3.0 * L * L
  {
    SqrNormOfSum(v0, v1);
    var d := Dot(v0, v1);
    assert d == -L / 2.0;
    Lagrange(v0, v1);
    assert SqrNorm(Cross(v0, v1)) == L * L - d * d;
    assert d * d == L * L / 4.0;
  }

  /** For a side of squared length L > 0, rad2 = L^3 / (3 L^2) and rad2 / L = 1/3. */
  lemma EquilateralRatio(L: real)
    requires L > 0.0
    ensures (L * L * L / (3.0 * L * L)) / L == 1.0 / 3.0
  {
    var d := 3.0 * L * L;
    assert d > 0.0;
    assert (L / 3.0) * d == L * L * L;
    assert L * L * L / d == L / 3.0;
    assert (1.0 / 3.0) * L == L / 3.0;
  }

  /** Three sides of squared length L spanning 4 |v0 x v1|^2 = 3 L^2 > FLT_MIN give rad2 = L^3 / (3 L^2). */
  lemma CircumradiusOfEqualSides(v0: Vec3, v1: Vec3, v2: Vec3, L: real)
    requires SqrNorm(v0) == L && SqrNorm(v1) == L && SqrNorm(v2) == L
    requires 4.0 * SqrNorm(Cross(v0, v1)) == 3.0 * L * L > FltMin
    ensures CircumradiusSquared(v0, v1, v2) == L * L * L / (3.0 * L * L)
  {
    var num, denom := SqrNorm(v0) * SqrNorm(v1) * SqrNorm(v2), 4.0 * SqrNorm(Cross(v0, v1));
    assert num == L * L * L && denom == 3.0 * L * L;
    assert CircumradiusSquared(v0, v1, v2) == num / denom;
  }

  /**
   * An equilateral triangle, large enough for both guards, has the shape
   * ratio sqrt(1/3) whatever its size: its circumradius is its side over
   * sqrt 3.
   */
  lemma EquilateralShape(num: Numerics, p1: Vec3, p2: Vec3, p3: Vec3, side2: real)
    requires SqrNorm(Sub(p1, p2)) == side2 && SqrNorm(Sub(p2, p3)) == side2 && SqrNorm(Sub(p1, p3)) == side2
    requires side2 > FltMin && 3.0 * side2 * side2 > FltMin
    ensures TriangleShape(num, p1, p2, p3) == num.sqrt(1.0 / 3.0)
  {
    var v0, v1, v2 := Sub(p1, p2), Sub(p2, p3), Sub(p1, p3);
    assert v2 == Vec3(v0.x + v1.x, v0.y + v1.y, v0.z + v1.z);
    EquilateralCross(v0, v1, side2);
    EquilateralRatio(side2);
    CircumradiusOfEqualSides(v0, v1, v2, side2);
    assert MinLength2(side2, side2, side2) == side2;
  }

  // ---------------------------------------------------------------------
  // Angle deficit (calc_gauss_curvature)
  // ---------------------------------------------------------------------

  /** The first halfedge of face f, in circulation order, that leaves v. */
  function CornerHalfedge(m: Mesh, f: nat, v: nat): (h: nat)
    requires HandlesInRange(m) && f < m.NumFaces() && OnFace(m, v, f)
    ensures h in FaceHalfedges(m, f) && m.from[h] == v
  {
    var hs := FaceHalfedges(m, f);
    if m.from[hs[0]] == v then hs[0]
    else if m.from[hs[1]] == v then hs[1]
    else hs[2]
  }

  /**
   * The halfedge search of calc_gauss_curvature: walk the halfedges of f
   * from its stored halfedge and stop at the first one leaving v0.
   */
  method FindCornerHalfedge(m: Mesh, f: nat, v0: nat) returns (he: nat)
    requires HandlesInRange(m) && f < m.NumFaces() && OnFace(m, v0, f)
    ensures he in FaceHalfedges(m, f) && m.from[he] == v0
    ensures he == CornerHalfedge(m, f, v0)
  {
    var hs := FaceHalfedges(m, f);
    var k := 0;
    while k < 3
      invariant 0 <= k < 3
      invariant forall j :: 0 <= j < k ==> m.from[hs[j]] != v0
      invariant exists j :: k <= j < 3 && m.from[hs[j]] == v0
    {
      if m.from[hs[k]] == v0 {
        break;
      }
      k := k + 1;
    }
    he := hs[k];
  }

  /**
   * The angle calc_gauss_curvature adds for face f at v0: between
   * he1 = v0 -> v1 in f and the halfedge after the opposite of he1.
   */
  function GaussCorner(m: Mesh, num: Numerics, v0: nat, f: nat): (a: real)
    requires HandlesInRange(m) && v0 < m.NumVertices() && f < m.NumFaces() && OnFace(m, v0, f)
    ensures AcosInRange(num) ==> 0.0 <= a <= Pi
  {
    var he1 := CornerHalfedge(m, f, v0);
    var he2 := m.next[m.opposite[he1]];
    Angle(num, Sub(Point(m, m.to[he1]), Point(m, v0)), Sub(Point(m, m.to[he2]), Point(m, v0)))
  }

  /**
   * The corner actually measured for face f lies across the edge v0 v1:
   * he1 leaves v0 inside f, its opposite comes back from v1 to v0, and
   * the next halfedge leaves v0 again; when the opposite has a face, the
   * angle is that neighbouring triangle's corner at v0.
   */
  lemma GaussCornerAcrossEdge(m: Mesh, v0: nat, f: nat)
    requires Valid(m) && v0 < m.NumVertices() && f < m.NumFaces() && OnFace(m, v0, f)
    ensures var he1 := CornerHalfedge(m, f, v0);
      var twin := m.opposite[he1];
      var he2 := m.next[twin];
      m.face[he1] == f && !m.boundary[he1] &&
      m.from[twin] == m.to[he1] && m.to[twin] == v0 &&
      (!m.boundary[twin] ==>
         m.from[he2] == v0 && m.face[he2] == m.face[twin] && m.to[m.next[he2]] == m.to[he1])
  {
    FaceIsTriangle(m, f);
    var he1 := CornerHalfedge(m, f, v0);
    var twin := m.opposite[he1];
    assert m.opposite[twin] == he1;
    if !m.boundary[twin] {
      var he2 := m.next[twin];
      assert InnerStep(m, twin);
      assert InnerStep(m, he2);
      assert InnerStep(m, m.next[he2]);
      assert m.to[m.next[he2]] == m.from[m.next[m.next[he2]]];
    }
  }

  /** Every face of the sequence has v0 as a corner. */
  predicate CornersOf(m: Mesh, v0: nat, faces: seq<nat>)
    requires HandlesInRange(m)
  {
    forall j :: 0 <= j < |faces| ==> faces[j] < m.NumFaces() && OnFace(m, v0, faces[j])
  }

  /**
   * sumOfAngles after the faces have been visited in order; when acos
   * stays in [0, pi], each face adds an angle between 0 and pi.
   */
  function SumOfAngles(m: Mesh, num: Numerics, v0: nat, faces: seq<nat>): (s: real)
    requires HandlesInRange(m) && v0 < m.NumVertices() && CornersOf(m, v0, faces)
    ensures AcosInRange(num) ==> 0.0 <= s <= (|faces| as real) * Pi
    decreases |faces|
  {
    if faces == [] then 0.0
    else SumOfAngles(m, num, v0, faces[..|faces| - 1]) + GaussCorner(m, num, v0, faces[|faces| - 1])
  }

  /**
   * The inner loop of calc_gauss_curvature: the faces around v0 are
   * visited in circulation order and each one's corner angle is added.
   */
  method SumCornerAngles(m: Mesh, num: Numerics, v0: nat) returns (sumOfAngles: real)
    requires HandlesInRange(m) && v0 < m.NumVertices() && CornersOf(m, v0, m.vertexFaces[v0])
    ensures sumOfAngles == SumOfAngles(m, num, v0, m.vertexFaces[v0])
  {
    var faces := m.vertexFaces[v0];
    sumOfAngles := 0.0;
    var j := 0;
    while j < |faces|
      invariant 0 <= j <= |faces|
      invariant CornersOf(m, v0, faces[..j])
      invariant sumOfAngles == SumOfAngles(m, num, v0, faces[..j])
    {
      var alpha := MeasureCorner(m, num, v0, faces[j]);
      sumOfAngles := sumOfAngles + alpha;
      assert faces[..j + 1][..j] == faces[..j];
      j := j + 1;
    }
    assert faces[..j] == faces;
  }

  /**
   * One step of the inner loop: search f for the halfedge leaving v0,
   * cross to the neighbouring face and measure the angle at v0.
   */
  method MeasureCorner(m: Mesh, num: Numerics, v0: nat, f: nat) returns (alpha: real)
    requires HandlesInRange(m) && v0 < m.NumVertices() && f < m.NumFaces() && OnFace(m, v0, f)
    ensures alpha == GaussCorner(m, num, v0, f)
  {
    var p0 := Point(m, v0);
    var he1 := FindCornerHalfedge(m, f, v0);
    var he1twin := m.opposite[he1];
    var he2 := m.next[he1twin];
    var p1 := Point(m, m.to[he1]);
    var p2 := Point(m, m.to[he2]);
    alpha := Angle(num, Sub(p1, p0), Sub(p2, p0));
  }

  /** The angle deficit 2 pi - sum of angles stored for vertex v. */
  function GaussCurvature(m: Mesh, num: Numerics, v: nat): (k: real)
    requires Valid(m) && v < m.NumVertices()
    ensures (forall f :: 0 <= f < m.NumFaces() ==> !OnFace(m, v, f)) ==> k == 2.0 * Pi
  {
    assert CornersOf(m, v, m.vertexFaces[v]);
    assert m.vertexFaces[v] != [] ==> OnFace(m, v, m.vertexFaces[v][0]);
    2.0 * Pi - SumOfAngles(m, num, v, m.vertexFaces[v])
  }

  lemma CornersOfConcat(m: Mesh, v0: nat, a: seq<nat>, b: seq<nat>)
    requires HandlesInRange(m) && CornersOf(m, v0, a) && CornersOf(m, v0, b)
    ensures CornersOf(m, v0, a + b)
  {
    forall j | 0 <= j < |a + b|
      ensures (a + b)[j] < m.NumFaces() && OnFace(m, v0, (a + b)[j])
    {
      if j >= |a| {
        assert (a + b)[j] == b[j - |a|];
      }
    }
  }

  /** The accumulated sum splits over consecutive runs of faces. */
  lemma {:induction false} SumOfAnglesConcat(m: Mesh, num: Numerics, v0: nat, a: seq<nat>, b: seq<nat>)
    requires HandlesInRange(m) && v0 < m.NumVertices() && CornersOf(m, v0, a) && CornersOf(m, v0, b)
    ensures CornersOf(m, v0, a + b)
    ensures SumOfAngles(m, num, v0, a + b) == SumOfAngles(m, num, v0, a) + SumOfAngles(m, num, v0, b)
    decreases |b|
  {
    CornersOfConcat(m, v0, a, b);
    if b == [] {
      assert a + b == a;
    } else {
      var b' := b[..|b| - 1];
      var f := b[|b| - 1];
      assert (a + b)[..|a + b| - 1] == a + b';
      assert (a + b)[|a + b| - 1] == f;
      assert CornersOf(m, v0, b');
      SumOfAnglesConcat(m, num, v0, a, b');
      calc {
        SumOfAngles(m, num, v0, a + b);
        SumOfAngles(m, num, v0, a + b') + GaussCorner(m, num, v0, f);
        SumOfAngles(m, num, v0, a) + SumOfAngles(m, num, v0, b') + GaussCorner(m, num, v0, f);
        SumOfAngles(m, num, v0, a) + SumOfAngles(m, num, v0, b);
      }
    }
  }

  /** acos maps the clamped interval into [0, pi]. */
  ghost predicate AcosInRange(num: Numerics)
  {
    forall x :: -AcosBound <= x <= AcosBound ==> 0.0 <= num.acos(x) <= Pi
  }

  /**
   * When acos stays in [0, pi], the deficit of a vertex with n incident
   * faces lies between 2 pi - n pi and 2 pi.
   */
  lemma GaussCurvatureBounds(m: Mesh, num: Numerics, v: nat)
    requires Valid(m) && v < m.NumVertices() && AcosInRange(num)
    ensures 2.0 * Pi - (|IncidentFaces(m, v)| as real) * Pi <= GaussCurvature(m, num, v) <= 2.0 * Pi
  {
    IncidentFacesListed(m, v);
  }

  // ---------------------------------------------------------------------
  // Mean curvature (calc_mean_curvature, calc_uniform_mean_curvature)
  // ---------------------------------------------------------------------

  /** Half the length of a Laplacian vector. */
  function MeanCurvature(num: Numerics, laplacian: Vec3): real
  {
    0.5 * num.sqrt(SqrNorm(laplacian))
  }
}
