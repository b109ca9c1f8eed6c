/**
 * The triangle mesh the estimation passes read: an arena of vertices,
 * halfedges, edges and faces addressed by integer handles.  Positions are
 * exact real 3-vectors.
 */
module HalfedgeMesh {

  datatype Vec3 = Vec3(x: real, y: real, z: real)

  function Sub(a: Vec3, b: Vec3): Vec3
  {
    Vec3(a.x - b.x, a.y - b.y, a.z - b.z)
  }

  /** The scalar product, written a | b in the source. */
  function Dot(a: Vec3, b: Vec3): real
  {
    a.x * b.x + a.y * b.y + a.z * b.z
  }

  /** The vector product, written a % b in the source. */
  function Cross(a: Vec3, b: Vec3): Vec3
  {
    Vec3(a.y * b.z - a.z * b.y, a.z * b.x - a.x * b.z, a.x * b.y - a.y * b.x)
  }

  function SqrNorm(a: Vec3): (r: real)
    ensures r >= 0.0
  {
    a.x * a.x + a.y * a.y + a.z * a.z
  }

  /**
   * A mesh: per-vertex points; per-halfedge next, opposite, from and to
   * handles, a boundary flag (no incident face) and the incident face;
   * per-face one of its halfedges; per-edge its first halfedge; and
   * per-vertex the faces around it, in the order a vertex-face circulator
   * visits them.
   */
  datatype Mesh = Mesh(
    points: seq<Vec3>,
    next: seq<nat>,
    opposite: seq<nat>,
    from: seq<nat>,
    to: seq<nat>,
    boundary: seq<bool>,
    face: seq<nat>,
    faceHalfedge: seq<nat>,
    edgeHalfedge: seq<nat>,
    vertexFaces: seq<seq<nat>>)
  {
    function NumVertices(): nat { |points| }
    function NumHalfedges(): nat { |next| }
    function NumFaces(): nat { |faceHalfedge| }
    function NumEdges(): nat { |edgeHalfedge| }
  }

  /** Every handle stored in the mesh names an element of the mesh. */
  predicate HandlesInRange(m: Mesh)
  {
    var nH := m.NumHalfedges();
    |m.opposite| == nH && |m.from| == nH && |m.to| == nH &&
    |m.boundary| == nH && |m.face| == nH &&
    |m.vertexFaces| == m.NumVertices() &&
    (forall h :: 0 <= h < nH ==> m.next[h] < nH) &&
    (forall h :: 0 <= h < nH ==> m.opposite[h] < nH) &&
    (forall h :: 0 <= h < nH ==> m.from[h] < m.NumVertices()) &&
    (forall h :: 0 <= h < nH ==> m.to[h] < m.NumVertices()) &&
    (forall h :: 0 <= h < nH ==> m.face[h] < m.NumFaces()) &&
    (forall f :: 0 <= f < m.NumFaces() ==> m.faceHalfedge[f] < nH) &&
    (forall e :: 0 <= e < m.NumEdges() ==> m.edgeHalfedge[e] < nH) &&
    (forall v, j :: 0 <= v < m.NumVertices() && 0 <= j < |m.vertexFaces[v]| ==>
       m.vertexFaces[v][j] < m.NumFaces())
  }

  /** The three halfedges of face f, starting at its stored halfedge. */
  function FaceHalfedges(m: Mesh, f: nat): (hs: seq<nat>)
    requires HandlesInRange(m) && f < m.NumFaces()
    ensures |hs| == 3
    ensures forall k :: 0 <= k < 3 ==> hs[k] < m.NumHalfedges()
  {
    var h0 := m.faceHalfedge[f];
    [h0, m.next[h0], m.next[m.next[h0]]]
  }

  /** v is the from-vertex of one of the halfedges of face f. */
  predicate OnFace(m: Mesh, v: nat, f: nat)
    requires HandlesInRange(m) && f < m.NumFaces()
  {
    var hs := FaceHalfedges(m, f);
    m.from[hs[0]] == v || m.from[hs[1]] == v || m.from[hs[2]] == v
  }

  /**
   * The halfedge after inner halfedge h is inner too, lies on the same
   * face, starts where h ends, and three steps lead back to h.
   */
  predicate InnerStep(m: Mesh, h: nat)
    requires HandlesInRange(m) && h < m.NumHalfedges()
  {
    !m.boundary[m.next[h]] && m.face[m.next[h]] == m.face[h] &&
    m.from[m.next[h]] == m.to[h] && m.next[m.next[m.next[h]]] == h
  }

  /** Face f, if v is one of its corners, is listed around v. */
  predicate FaceListed(m: Mesh, v: nat, f: nat)
    requires HandlesInRange(m) && v < m.NumVertices() && f < m.NumFaces()
  {
    OnFace(m, v, f) ==> f in m.vertexFaces[v]
  }

  /** No face is listed twice around v. */
  predicate ListedOnce(m: Mesh, v: nat)
    requires HandlesInRange(m) && v < m.NumVertices()
  {
    forall i, j :: 0 <= i < j < |m.vertexFaces[v]| ==> m.vertexFaces[v][i] != m.vertexFaces[v][j]
  }

  /**
   * The faces listed around each vertex are exactly the faces it is a
   * corner of, each listed once, as a vertex-face circulator visits them.
   */
  predicate VertexFacesExact(m: Mesh)
    requires HandlesInRange(m)
  {
    (forall v, j :: 0 <= v < m.NumVertices() && 0 <= j < |m.vertexFaces[v]| ==>
       OnFace(m, v, m.vertexFaces[v][j])) &&
    (forall v, f {:trigger FaceListed(m, v, f)} :: 0 <= v < m.NumVertices() && 0 <= f < m.NumFaces() ==>
       FaceListed(m, v, f)) &&
    (forall v {:trigger ListedOnce(m, v)} :: 0 <= v < m.NumVertices() ==> ListedOnce(m, v))
  }

  /** The edge of halfedge h is listed: some edge names h or its opposite. */
  predicate EdgeListed(m: Mesh, h: nat)
    requires HandlesInRange(m) && h < m.NumHalfedges()
  {
    exists e :: 0 <= e < m.NumEdges() && (m.edgeHalfedge[e] == h || m.edgeHalfedge[e] == m.opposite[h])
  }

  /** Edges e1 and e2 name different halfedge pairs. */
  predicate DistinctEdges(m: Mesh, e1: nat, e2: nat)
    requires HandlesInRange(m) && e1 < m.NumEdges() && e2 < m.NumEdges()
  {
    m.edgeHalfedge[e1] != m.edgeHalfedge[e2] && m.edgeHalfedge[e1] != m.opposite[m.edgeHalfedge[e2]]
  }

  /**
   * Every pair of opposite halfedges is listed as an edge, by exactly one
   * of its two halfedges, as an edge iterator visits each edge once.
   */
  predicate EdgesExact(m: Mesh)
    requires HandlesInRange(m)
  {
    (forall h {:trigger EdgeListed(m, h)} :: 0 <= h < m.NumHalfedges() ==> EdgeListed(m, h)) &&
    (forall e1, e2 {:trigger DistinctEdges(m, e1, e2)} :: 0 <= e1 < e2 < m.NumEdges() ==> DistinctEdges(m, e1, e2))
  }

  /**
   * A manifold triangle mesh: opposite is an involution without fixed
   * points that swaps from and to; no halfedge is a loop; the halfedges
   * of every face form a cycle of three whose tips meet; every face's
   * stored halfedge lies on it; the faces around every vertex are
   * listed exactly; and so are the edges.
   */
  predicate Valid(m: Mesh)
  {
    HandlesInRange(m) &&
    (forall h :: 0 <= h < m.NumHalfedges() ==>
       m.opposite[m.opposite[h]] == h && m.opposite[h] != h &&
       m.from[h] == m.to[m.opposite[h]] && m.from[h] != m.to[h]) &&
    (forall h {:trigger InnerStep(m, h)} :: 0 <= h < m.NumHalfedges() && !m.boundary[h] ==> InnerStep(m, h)) &&
    (forall f :: 0 <= f < m.NumFaces() ==>
       !m.boundary[m.faceHalfedge[f]] && m.face[m.faceHalfedge[f]] == f) &&
    VertexFacesExact(m) && EdgesExact(m)
  }

  /** The faces v is a corner of. */
  ghost function IncidentFaces(m: Mesh, v: nat): set<nat>
    requires HandlesInRange(m)
  {
    set f | 0 <= f < m.NumFaces() && OnFace(m, v, f)
  }

  /** The elements of a sequence, as a set. */
  ghost function Elements(s: seq<nat>): (r: set<nat>)
    ensures forall x :: x in r <==> x in s
  {
    if s == [] then {} else {s[0]} + Elements(s[1..])
  }

  /** A sequence without repetitions has as many distinct elements as positions. */
  lemma {:induction false} DistinctCard(s: seq<nat>)
    requires forall i, j :: 0 <= i < j < |s| ==> s[i] != s[j]
    ensures |Elements(s)| == |s|
  {
    if s != [] {
      var t := s[1..];
      assert forall i, j :: 0 <= i < j < |t| ==> t[i] != t[j] by {
        forall i, j | 0 <= i < j < |t|
          ensures t[i] != t[j]
        {
          assert t[i] == s[i + 1] && t[j] == s[j + 1];
        }
      }
      DistinctCard(t);
      assert s[0] !in Elements(t) by {
        forall j | 0 <= j < |t|
          ensures t[j] != s[0]
        {
          assert t[j] == s[j + 1];
        }
      }
      assert Elements(s) == {s[0]} + Elements(t);
    }
  }

  /**
   * The faces listed around a vertex are its incident faces, so the
   * length of the list is the number of faces the vertex is a corner of.
   */
  lemma IncidentFacesListed(m: Mesh, v: nat)
    requires Valid(m) && v < m.NumVertices()
    ensures Elements(m.vertexFaces[v]) == IncidentFaces(m, v)
    ensures |m.vertexFaces[v]| == |IncidentFaces(m, v)|
  {
    var listed := Elements(m.vertexFaces[v]);
    forall f | f in listed
      ensures f in IncidentFaces(m, v)
    {
      var j :| 0 <= j < |m.vertexFaces[v]| && m.vertexFaces[v][j] == f;
      assert OnFace(m, v, m.vertexFaces[v][j]);
    }
    forall f | f in IncidentFaces(m, v)
      ensures f in listed
    {
      assert FaceListed(m, v, f);
    }
    assert listed == IncidentFaces(m, v);
    assert ListedOnce(m, v);
    DistinctCard(m.vertexFaces[v]);
  }

  /** The three corner vertices of face f, as a face-vertex circulator yields them. */
  function FaceVertices(m: Mesh, f: nat): (vs: seq<nat>)
    requires HandlesInRange(m) && f < m.NumFaces()
    ensures |vs| == 3
    ensures forall k :: 0 <= k < 3 ==> vs[k] < m.NumVertices()
  {
    var hs := FaceHalfedges(m, f);
    [m.to[hs[0]], m.to[hs[1]], m.to[hs[2]]]
  }

  /**
   * The halfedges of a face really form a triangle: three halfedges of
   * that face, whose from-vertices are its three distinct corners.
   */
  lemma FaceIsTriangle(m: Mesh, f: nat)
    requires Valid(m) && f < m.NumFaces()
    ensures var hs := FaceHalfedges(m, f);
      (forall k :: 0 <= k < 3 ==> !m.boundary[hs[k]] && m.face[hs[k]] == f) &&
      m.next[hs[2]] == hs[0] &&
      m.from[hs[1]] == m.to[hs[0]] && m.from[hs[2]] == m.to[hs[1]] && m.from[hs[0]] == m.to[hs[2]] &&
      m.from[hs[0]] != m.from[hs[1]] && m.from[hs[1]] != m.from[hs[2]] && m.from[hs[0]] != m.from[hs[2]]
  {
    var hs := FaceHalfedges(m, f);
    assert InnerStep(m, hs[0]);
    assert InnerStep(m, hs[1]);
    assert InnerStep(m, hs[2]);
  }

  /** A mesh with a face has at least two vertices. */
  lemma FaceGivesTwoVertices(m: Mesh)
    requires Valid(m) && m.NumFaces() > 0
    ensures m.NumVertices() >= 2
  {
    var h := m.faceHalfedge[0];
    assert m.from[h] != m.to[h];
    assert m.from[h] < m.NumVertices() && m.to[h] < m.NumVertices();
  }
}
