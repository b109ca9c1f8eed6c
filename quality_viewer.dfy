/**
 * The quality viewer: after a mesh is loaded it runs the estimation
 * passes, each of which writes one per-element property of the mesh in
 * place, and on drawing it colour-codes the selected vertex field or uses
 * the per-face colour buffer.
 */
module Viewer {
  import opened ColorRamp
  import opened Sorting
  import opened PercentileClip
  import opened HalfedgeMesh
  import opened Estimation

  /** The vertex properties that can be colour-coded. */
  datatype VertexField = MeanCurvatureField | UniformMeanCurvatureField | GaussCurvatureField

  /** The vertex field a draw mode colour-codes, if any. */
  function ModeField(drawMode: string): (field: Option<VertexField>)
    ensures field == Some(MeanCurvatureField) <==> drawMode == "Mean Curvature"
    ensures field == Some(GaussCurvatureField) <==> drawMode == "Gaussian Curvature"
    ensures field == Some(UniformMeanCurvatureField) <==> drawMode == "Uniform Mean Curvature"
  {
    if drawMode == "Mean Curvature" then Some(MeanCurvatureField)
    else if drawMode == "Gaussian Curvature" then Some(GaussCurvatureField)
    else if drawMode == "Uniform Mean Curvature" then Some(UniformMeanCurvatureField)
    else None
  }

  /** The fixed range the triangle shape is colour-coded over. */
  const MinShape: real := 0.6
  const MaxShape: real := 2.0

  /** The three channels of a colour as floats (float)c / 255. */
  function ColorLevels(c: Color): (levels: seq<real>)
    ensures |levels| == 3
    ensures forall k :: 0 <= k < 3 ==> 0.0 <= levels[k] <= 1.0
  {
    [c.r as real / 255.0, c.g as real / 255.0, c.b as real / 255.0]
  }

  /** face_colors_ for the given face shapes: three levels per face, faces in order. */
  function FaceColorBuffer(shapes: seq<real>): (buf: seq<real>)
    ensures |buf| == 3 * |shapes|
    decreases |shapes|
  {
    if shapes == [] then []
    else
      FaceColorBuffer(shapes[..|shapes| - 1])
        + ColorLevels(ValueToColor(shapes[|shapes| - 1], MinShape, MaxShape))
  }

  /** Entry 3 f + k of the buffer is channel k of face f's colour over [0.6, 2.0]. */
  lemma {:induction false} FaceColorBufferAt(shapes: seq<real>, f: nat, k: nat)
    requires f < |shapes| && k < 3
    ensures FaceColorBuffer(shapes)[3 * f + k] == ColorLevels(ValueToColor(shapes[f], MinShape, MaxShape))[k]
    decreases |shapes|
  {
    var init := shapes[..|shapes| - 1];
    assert FaceColorBuffer(shapes)
        == FaceColorBuffer(init) + ColorLevels(ValueToColor(shapes[|shapes| - 1], MinShape, MaxShape));
    if f < |shapes| - 1 {
      FaceColorBufferAt(init, f, k);
    }
  }

  /** Every entry of the face colour buffer lies in [0, 1]. */
  lemma FaceColorBufferLevels(shapes: seq<real>, i: nat)
    requires i < |FaceColorBuffer(shapes)|
    ensures 0.0 <= FaceColorBuffer(shapes)[i] <= 1.0
  {
    FaceColorBufferAt(shapes, i / 3, i % 3);
  }

  /** The vertex colours color_coding assigns to a field of at least two values. */
  function VertexColors(field: seq<real>): (colors: seq<Color>)
    requires |field| >= 2
    ensures |colors| == |field|
  {
    var range := RobustRange(field);
    seq(|field|, v requires 0 <= v < |field| => ValueToColor(field[v], range.0, range.1))
  }

  /** A vertex holding the field's unique largest value is always coloured red. */
  lemma UniqueMaxVertexIsRed(field: seq<real>, k: nat)
    requires |field| >= 2 && UniqueMax(field, k)
    ensures VertexColors(field)[k] == Red
  {
    UniqueMaxExcluded(field, k);
  }

  /** A vertex inside a range of positive width gets the ramp colour of its step. */
  lemma VertexColorFollowsRamp(field: seq<real>, v: nat)
    requires |field| >= 2 && v < |field|
    requires RobustRange(field).0 < RobustRange(field).1
    requires RobustRange(field).0 <= field[v] <= RobustRange(field).1
    ensures VertexColors(field)[v]
            == RampColor(RampPosition(field[v], RobustRange(field).0, RobustRange(field).1))
  {
    ValueToColorFollowsRamp(field[v], RobustRange(field).0, RobustRange(field).1);
  }

  /**
   * The degenerate range is reachable from color_coding: a field whose
   * two smallest values are equal gives min == max, and the as-written
   * ramp is then undefined on the vertices with that value.
   */
  lemma ColorCodingReachesDegenerateRange()
    ensures RobustRange([1.0, 1.0, 5.0]) == (1.0, 1.0)
    ensures ValueToColorAsWritten(1.0, 1.0, 1.0).None?
    ensures VertexColors([1.0, 1.0, 5.0])[0] == Blue
  {
    SortedExample();
    assert LowIndex(3) == 0;
    AsWrittenUndefinedExactly(1.0, 1.0, 1.0);
  }

  /** The field of that example is already sorted. */
  lemma SortedExample()
    ensures Sort([1.0, 1.0, 5.0]) == [1.0, 1.0, 5.0]
  {
    var s1, s2, s3 := [5.0], [1.0, 5.0], [1.0, 1.0, 5.0];
    assert s1[1..] == [] && s2[1..] == s1 && s3[1..] == s2;
    assert Insert(5.0, []) == s1;
    assert Sort(s1) == s1;
    assert Insert(1.0, s1) == s2;
    assert Sort(s2) == s2;
    assert Insert(1.0, s2) == s3;
  }

  /**
   * The range computation of color_coding: the field is copied, sorted,
   * and clipped at i = (size - 1) / 20 from both ends.
   */
  method ClippedRange(prop: seq<real>) returns (min: real, max: real)
    requires |prop| >= 2
    ensures (min, max) == RobustRange(prop)
  {
    var values: seq<real> := [];
    var v := 0;
    while v < |prop|
      invariant 0 <= v <= |prop|
      invariant values == prop[..v]
    {
      values := values + [prop[v]];
      v := v + 1;
    }
    assert values == prop;
    var n := |values| - 1;
    var i := n / 20;
    assert i == LowIndex(|prop|);
    values := Sort(values);
    assert values == Sort(prop) && RobustRange(prop) == (values[i], values[n - 1 - i]);
    min, max := values[i], values[n - 1 - i];
  }

  /** eweight_ as calc_weights leaves it: one weight per edge, in edge order. */
  function EdgeWeights(m: Mesh, num: Numerics): (w: seq<real>)
    requires HandlesInRange(m)
    ensures |w| == m.NumEdges()
  {
    seq(m.NumEdges(), e requires 0 <= e < m.NumEdges() => EdgeWeight(m, num, m.edgeHalfedge[e]))
  }

  /**
   * The edge loop weighs every pair of opposite halfedges exactly once:
   * one edge lists h or its opposite, and its entry is h's edge weight.
   */
  lemma EdgeWeightsCoverHalfedge(m: Mesh, num: Numerics, h: nat) returns (e: nat)
    requires HalfedgeMesh.Valid(m) && h < m.NumHalfedges()
    ensures e < m.NumEdges() && (m.edgeHalfedge[e] == h || m.edgeHalfedge[e] == m.opposite[h])
    ensures EdgeWeights(m, num)[e] == EdgeWeight(m, num, h)
    ensures forall e' :: 0 <= e' < m.NumEdges() && (m.edgeHalfedge[e'] == h || m.edgeHalfedge[e'] == m.opposite[h])
              ==> e' == e
  {
    assert EdgeListed(m, h);
    e :| 0 <= e < m.NumEdges() && (m.edgeHalfedge[e] == h || m.edgeHalfedge[e] == m.opposite[h]);
    if m.edgeHalfedge[e] != h {
      EdgeWeightSymmetric(m, num, h);
    }
    forall e' | 0 <= e' < m.NumEdges() && e' != e
      ensures m.edgeHalfedge[e'] != h && m.edgeHalfedge[e'] != m.opposite[h]
    {
      if e' < e {
        assert DistinctEdges(m, e', e);
      } else {
        assert DistinctEdges(m, e, e');
      }
    }
  }

  /** vcurvature_ as calc_mean_curvature leaves it, for the edge weights eweight. */
  function MeanCurvatures(m: Mesh, num: Numerics, laplaceBeltrami: (Mesh, seq<real>, nat) -> Vec3,
                          eweight: seq<real>): (c: seq<real>)
    ensures |c| == m.NumVertices()
  {
    seq(m.NumVertices(), v requires 0 <= v < m.NumVertices() => MeanCurvature(num, laplaceBeltrami(m, eweight, v)))
  }

  /** vunicurvature_ as calc_uniform_mean_curvature leaves it. */
  function UniformMeanCurvatures(m: Mesh, num: Numerics, uniformLaplacian: (Mesh, nat) -> Vec3): (c: seq<real>)
    ensures |c| == m.NumVertices()
  {
    seq(m.NumVertices(), v requires 0 <= v < m.NumVertices() => MeanCurvature(num, uniformLaplacian(m, v)))
  }

  /** vgausscurvature_ as calc_gauss_curvature leaves it. */
  function GaussCurvatures(m: Mesh, num: Numerics): (c: seq<real>)
    requires HalfedgeMesh.Valid(m)
    ensures |c| == m.NumVertices()
  {
    seq(m.NumVertices(), v requires 0 <= v < m.NumVertices() => GaussCurvature(m, num, v))
  }

  /** tshape_ as calc_triangle_quality leaves it. */
  function TriangleShapes(m: Mesh, num: Numerics): (c: seq<real>)
    requires HandlesInRange(m)
    ensures |c| == m.NumFaces()
  {
    seq(m.NumFaces(), f requires 0 <= f < m.NumFaces() => FaceShape(m, num, f))
  }

  class QualityViewer {
    /** The loaded mesh (mesh_). */
    var mesh: Mesh
    /** acos, 1/tan, sqrt and normalize as the viewer's numerics library provides them. */
    const num: Numerics
    /** The Laplace-Beltrami operator built from the mesh and the edge weights, at a vertex. */
    const laplaceBeltrami: (Mesh, seq<real>, nat) -> Vec3
    /** The uniform Laplacian of the mesh at a vertex. */
    const uniformLaplacian: (Mesh, nat) -> Vec3

    /** Edge property eweight_. */
    var eweight: seq<real>
    /** Vertex properties vcurvature_, vunicurvature_, vgausscurvature_. */
    var vcurvature: seq<real>
    var vunicurvature: seq<real>
    var vgausscurvature: seq<real>
    /** Face property tshape_. */
    var tshape: seq<real>
    /** The mesh's vertex colours. */
    var vcolor: seq<Color>
    /** face_colors_: three levels per face, consumed by the triangle-shape drawing. */
    var faceColors: seq<real>

    /** Every property has one entry per element of the mesh. */
    ghost predicate PropertiesSized()
      reads this
    {
      |eweight| == mesh.NumEdges() &&
      |vcurvature| == mesh.NumVertices() && |vunicurvature| == mesh.NumVertices() &&
      |vgausscurvature| == mesh.NumVertices() && |vcolor| == mesh.NumVertices() &&
      |tshape| == mesh.NumFaces()
    }

    /** The mesh is a valid triangle mesh and every property has one entry per element. */
    ghost predicate Valid()
      reads this
    {
      HalfedgeMesh.Valid(mesh) && PropertiesSized()
    }

    /** The values of one vertex property. */
    function FieldValues(which: VertexField): seq<real>
      reads this
    {
      match which
      case MeanCurvatureField => vcurvature
      case UniformMeanCurvatureField => vunicurvature
      case GaussCurvatureField => vgausscurvature
    }

    /** A viewer with an empty mesh and the properties attached, all empty. */
    constructor (num: Numerics, laplaceBeltrami: (Mesh, seq<real>, nat) -> Vec3, uniformLaplacian: (Mesh, nat) -> Vec3)
      ensures Valid()
      ensures this.num == num && this.laplaceBeltrami == laplaceBeltrami
      ensures this.uniformLaplacian == uniformLaplacian
      ensures mesh.NumVertices() == 0 && mesh.NumFaces() == 0 && mesh.NumEdges() == 0
      ensures faceColors == []
    {
      this.num := num;
      this.laplaceBeltrami := laplaceBeltrami;
      this.uniformLaplacian := uniformLaplacian;
      mesh := Mesh([], [], [], [], [], [], [], [], [], []);
      eweight, vcurvature, vunicurvature, vgausscurvature := [], [], [], [];
      tshape, vcolor, faceColors := [], [], [];
    }

    /**
     * open_mesh: when loading succeeds, the properties are sized for the
     * new mesh and every estimation pass runs once, in the source's order.
     */
    method OpenMesh(loaded: Option<Mesh>) returns (ok: bool)
      requires loaded.Some? ==> HalfedgeMesh.Valid(loaded.value)
      modifies this
      ensures ok <==> loaded.Some?
      ensures !ok ==> unchanged(this)
      ensures ok ==> Valid() && mesh == loaded.value
      ensures ok ==> eweight == EdgeWeights(mesh, num)
      ensures ok ==> vcurvature == MeanCurvatures(mesh, num, laplaceBeltrami, eweight)
      ensures ok ==> vunicurvature == UniformMeanCurvatures(mesh, num, uniformLaplacian)
      ensures ok ==> vgausscurvature == GaussCurvatures(mesh, num)
      ensures ok ==> tshape == TriangleShapes(mesh, num)
      ensures ok ==> faceColors == FaceColorBuffer(tshape)
    {
      if loaded.None? {
        return false;
      }
      mesh := loaded.value;
      var nV, nF, nE := mesh.NumVertices(), mesh.NumFaces(), mesh.NumEdges();
      eweight := seq(nE, _ => 0.0);
      vcurvature, vunicurvature, vgausscurvature := seq(nV, _ => 0.0), seq(nV, _ => 0.0), seq(nV, _ => 0.0);
      tshape := seq(nF, _ => 0.0);
      vcolor := seq(nV, _ => White);
      CalcWeights();
      CalcMeanCurvature();
      CalcUniformMeanCurvature();
      CalcGaussCurvature();
      CalcTriangleQuality();
      FaceColorCoding();
      return true;
    }

    /** calc_weights: every edge gets the clamped mean of its two halfedge weights. */
    method CalcWeights()
      requires Valid()
      modifies this`eweight
      ensures PropertiesSized() && eweight == EdgeWeights(mesh, num)
      ensures unchanged(this`mesh)
    {
      ghost var m := mesh;
      assert HandlesInRange(m);
      var e := 0;
      while e < mesh.NumEdges()
        invariant mesh == m
        invariant 0 <= e <= mesh.NumEdges() == |eweight|
        invariant forall k :: 0 <= k < e ==> eweight[k] == EdgeWeight(m, num, m.edgeHalfedge[k])
      {
        var he1 := mesh.edgeHalfedge[e];
        var w1 := HalfedgeWeight(mesh, num, he1);
        var the1 := mesh.opposite[he1];
        var w2 := HalfedgeWeight(mesh, num, the1);
        var weight := 0.5 * (w1 + w2);
        weight := Max(0.0, weight);
        eweight := eweight[e := weight];
        e := e + 1;
      }
    }

    /** calc_mean_curvature: half the length of the Laplace-Beltrami vector at each vertex. */
    method CalcMeanCurvature()
      requires PropertiesSized()
      modifies this`vcurvature
      ensures PropertiesSized() && vcurvature == MeanCurvatures(mesh, num, laplaceBeltrami, eweight)
      ensures unchanged(this`mesh)
    {
      var v := 0;
      while v < mesh.NumVertices()
        invariant 0 <= v <= mesh.NumVertices() == |vcurvature|
        invariant forall k :: 0 <= k < v ==> vcurvature[k] == MeanCurvature(num, laplaceBeltrami(mesh, eweight, k))
      {
        vcurvature := vcurvature[v := 0.5 * num.sqrt(SqrNorm(laplaceBeltrami(mesh, eweight, v)))];
        v := v + 1;
      }
    }

    /** calc_uniform_mean_curvature: half the length of the uniform Laplacian at each vertex. */
    method CalcUniformMeanCurvature()
      requires PropertiesSized()
      modifies this`vunicurvature
      ensures PropertiesSized() && vunicurvature == UniformMeanCurvatures(mesh, num, uniformLaplacian)
      ensures unchanged(this`mesh)
    {
      var v := 0;
      while v < mesh.NumVertices()
        invariant 0 <= v <= mesh.NumVertices() == |vunicurvature|
        invariant forall k :: 0 <= k < v ==> vunicurvature[k] == MeanCurvature(num, uniformLaplacian(mesh, k))
      {
        vunicurvature := vunicurvature[v := 0.5 * num.sqrt(SqrNorm(uniformLaplacian(mesh, v)))];
        v := v + 1;
      }
    }

    /**
     * calc_gauss_curvature: for each vertex, the angles of its faces are
     * summed in circulation order and 2 pi minus the sum is stored.
     */
    method CalcGaussCurvature()
      requires Valid()
      modifies this`vgausscurvature
      ensures PropertiesSized() && vgausscurvature == GaussCurvatures(mesh, num)
      ensures unchanged(this`mesh)
    {
      ghost var m := mesh;
      assert HalfedgeMesh.Valid(m);
      var v0 := 0;
      while v0 < mesh.NumVertices()
        invariant mesh == m
        invariant 0 <= v0 <= mesh.NumVertices() == |vgausscurvature|
        invariant forall k :: 0 <= k < v0 ==> vgausscurvature[k] == GaussCurvature(m, num, k)
      {
        assert CornersOf(mesh, v0, mesh.vertexFaces[v0]);
        var sumOfAngles := SumCornerAngles(mesh, num, v0);
        vgausscurvature := vgausscurvature[v0 := 2.0 * Pi - sumOfAngles];
        v0 := v0 + 1;
      }
    }

    /** calc_triangle_quality: the shape ratio of every face, with the FLT_MIN / FLT_MAX guards. */
    method CalcTriangleQuality()
      requires Valid()
      modifies this`tshape
      ensures PropertiesSized() && tshape == TriangleShapes(mesh, num)
      ensures unchanged(this`mesh)
    {
      ghost var m := mesh;
      assert HandlesInRange(m);
      var f := 0;
      while f < mesh.NumFaces()
        invariant mesh == m
        invariant 0 <= f <= mesh.NumFaces() == |tshape|
        invariant forall k :: 0 <= k < f ==> tshape[k] == FaceShape(m, num, k)
      {
        var vs := FaceVertices(mesh, f);
        var fratio := ComputeTriangleShape(num, Point(mesh, vs[0]), Point(mesh, vs[1]), Point(mesh, vs[2]));
        tshape := tshape[f := fratio];
        f := f + 1;
      }
    }

    /** face_color_coding: face_colors_ is cleared and refilled with three levels per face. */
    method FaceColorCoding()
      requires PropertiesSized()
      modifies this`faceColors
      ensures PropertiesSized() && faceColors == FaceColorBuffer(tshape)
      ensures unchanged(this`mesh)
    {
      faceColors := [];
      var f := 0;
      while f < mesh.NumFaces()
        invariant 0 <= f <= mesh.NumFaces() == |tshape|
        invariant faceColors == FaceColorBuffer(tshape[..f])
      {
        var sh := tshape[f];
        var col := ValueToColor(sh, MinShape, MaxShape);
        faceColors := faceColors + [col.r as real / 255.0];
        faceColors := faceColors + [col.g as real / 255.0];
        faceColors := faceColors + [col.b as real / 255.0];
        assert tshape[..f + 1][..f] == tshape[..f];
        f := f + 1;
      }
      assert tshape[..f] == tshape;
    }

    /**
     * color_coding: the field is copied and sorted, clipped to its robust
     * range, and every vertex is coloured by its own value.
     */
    method ColorCoding(which: VertexField)
      requires PropertiesSized() && mesh.NumVertices() >= 2
      modifies this`vcolor
      ensures PropertiesSized()
      ensures FieldValues(which) == old(FieldValues(which))
      ensures vcolor == VertexColors(FieldValues(which))
    {
      var prop := FieldValues(which);
      var min, max := ClippedRange(prop);
      var v := 0;
      while v < mesh.NumVertices()
        invariant 0 <= v <= mesh.NumVertices() == |prop| == |vcolor|
        invariant forall k :: 0 <= k < v ==> vcolor[k] == ValueToColor(prop[k], min, max)
      {
        var curv := prop[v];
        vcolor := vcolor[v := ValueToColor(curv, min, max)];
        v := v + 1;
      }
      var expected := VertexColors(prop);
      assert |vcolor| == |expected|;
      assert forall k :: 0 <= k < |vcolor| ==> vcolor[k] == expected[k];
    }

    /**
     * The colour work of draw: with faces to draw, the three curvature
     * modes colour-code their field; every other mode, and an empty mesh,
     * leave the colours as they are.
     */
    method Draw(drawMode: string)
      requires Valid()
      modifies this`vcolor
      ensures Valid()
      ensures mesh.NumFaces() > 0 ==> mesh.NumVertices() >= 2
      ensures mesh.NumFaces() > 0 && ModeField(drawMode).Some? ==>
                vcolor == VertexColors(FieldValues(ModeField(drawMode).value))
      ensures mesh.NumFaces() == 0 || ModeField(drawMode).None? ==> vcolor == old(vcolor)
    {
      if mesh.NumFaces() == 0 {
        return;
      }
      FaceGivesTwoVertices(mesh);
      if drawMode == "Mean Curvature" {
        ColorCoding(MeanCurvatureField);
      }
      if drawMode == "Gaussian Curvature" {
        ColorCoding(GaussCurvatureField);
      }
      if drawMode == "Uniform Mean Curvature" {
        ColorCoding(UniformMeanCurvatureField);
      }
    }
  }
}
