/**
  The fixed mesh of one voxel cuboid (VoxelModel::InitData): eight corner
  vertices parameterised by length, width and height, and 36 indices that
  form twelve triangles, two per labelled face.
 */
module VoxelModel {
  import opened Geometry

  const VerticesPerVoxel: nat := 8
  const IndicesPerVoxel: nat := 36
  const TrianglesPerVoxel: nat := 12

  /** The two vectors every model owns: its vertices and its 32-bit indices. */
  datatype Model = Model(vertices: seq<Vertex>, indices: seq<nat>)

  /** The six face labels, in the order the index table lists them. */
  datatype Face = NegZ | NegX | PosZ | PosX | PosY | NegY

  /** Corner k lies at x = l when bit 2 of k is set, ... */
  predicate XBit(k: nat) { (k / 4) % 2 == 1 }
  /** ... at y = h when bit 1 is set ... */
  predicate YBit(k: nat) { (k / 2) % 2 == 1 }
  /** ... and at z = w when bit 0 is set. */
  predicate ZBit(k: nat) { k % 2 == 1 }

  /** The symbolic position of corner k of an l x h x w cuboid (x, y, z extents). */
  function Corner(k: nat, l: real, w: real, h: real): Vec3
  {
    Vec3(if XBit(k) then l else 0.0, if YBit(k) then h else 0.0, if ZBit(k) then w else 0.0)
  }

  /** The literal index table, three indices per triangle and two triangles per face. */
  const CubeTriangles: seq<(nat, nat, nat)> :=
    [ (0, 2, 4), (2, 6, 4),   // -z face
      (3, 0, 1), (3, 2, 0),   // -x face
      (7, 1, 5), (7, 3, 1),   // +z face
      (6, 5, 4), (6, 7, 5),   // +x face
      (3, 6, 2), (3, 7, 6),   // +y face
      (0, 5, 1), (0, 4, 5) ]  // -y face

  function Component(tri: (nat, nat, nat), j: nat): nat
    requires j < 3
  {
    if j == 0 then tri.0 else if j == 1 then tri.1 else tri.2
  }

  /** The same table as the flat list of 36 indices the model stores. */
  function CubeIndices(): seq<nat>
  {
    seq(IndicesPerVoxel, (i: int) requires 0 <= i < IndicesPerVoxel => Component(CubeTriangles[i / 3], i % 3))
  }

  /** Which label the table gives each pair of triangles. */
  const FaceOrder: seq<Face> := [NegZ, NegX, PosZ, PosX, PosY, NegY]

  /** A model whose tables have the voxel topology: 8 vertices, 36 indices below 8. */
  predicate WellFormed(m: Model)
  {
    && |m.vertices| == VerticesPerVoxel
    && |m.indices| == IndicesPerVoxel
    && forall i :: 0 <= i < |m.indices| ==> m.indices[i] < VerticesPerVoxel
  }

  lemma CubeIndicesInRange()
    ensures |CubeIndices()| == IndicesPerVoxel
    ensures forall i :: 0 <= i < |CubeIndices()| ==> CubeIndices()[i] < VerticesPerVoxel
  {
    assert forall t :: 0 <= t < |CubeTriangles| ==>
      CubeTriangles[t].0 < 8 && CubeTriangles[t].1 < 8 && CubeTriangles[t].2 < 8;
  }

  /**
    InitData(l, w, h): the two tables of a cuboid with extents l, h and w
    along x, y and z.  Every vertex is white with texture coordinate (0, 0).
   */
  function InitData(l: real, w: real, h: real): (m: Model)
    ensures WellFormed(m)
    ensures m.indices == CubeIndices()
    ensures forall k :: 0 <= k < |m.vertices| ==> m.vertices[k] == Vertex(Corner(k, l, w, h), White, Origin2)
  {
    CubeIndicesInRange();
    var vs := [ Vertex(Vec3(0.0, 0.0, 0.0), White, Origin2),  // 0
                Vertex(Vec3(0.0, 0.0, w),   White, Origin2),  // 1
                Vertex(Vec3(0.0, h,   0.0), White, Origin2),  // 2
                Vertex(Vec3(0.0, h,   w),   White, Origin2),  // 3
                Vertex(Vec3(l,   0.0, 0.0), White, Origin2),  // 4
                Vertex(Vec3(l,   0.0, w),   White, Origin2),  // 5
                Vertex(Vec3(l,   h,   0.0), White, Origin2),  // 6
                Vertex(Vec3(l,   h,   w),   White, Origin2) ];  // 7
    assert forall k :: 0 <= k < 8 ==> vs[k] == Vertex(Corner(k, l, w, h), White, Origin2) by {
      forall k | 0 <= k < 8 ensures vs[k] == Vertex(Corner(k, l, w, h), White, Origin2) {
        assert k in {0, 1, 2, 3, 4, 5, 6, 7};
      }
    }
    Model(vs, CubeIndices())
  }

  /**
    The constructor taking a size vector: InitData(size.x, size.y, size.z), so
    size.y becomes the z extent (width) and size.z the y extent (height).
   */
  function Sized(size: Vec3): (m: Model)
    ensures WellFormed(m) && m.indices == CubeIndices()
    ensures forall k :: 0 <= k < |m.vertices| ==>
      m.vertices[k].pos == Vec3(if XBit(k) then size.x else 0.0,
                                if YBit(k) then size.z else 0.0,
                                if ZBit(k) then size.y else 0.0)
  {
    InitData(size.x, size.y, size.z)
  }

  /** The default constructor: the unit cube with corners at 0/1 coordinates. */
  function Default(): (m: Model)
    ensures WellFormed(m) && m.indices == CubeIndices()
    ensures forall k :: 0 <= k < |m.vertices| ==>
      m.vertices[k].pos == Vec3(if XBit(k) then 1.0 else 0.0,
                                if YBit(k) then 1.0 else 0.0,
                                if ZBit(k) then 1.0 else 0.0)
  {
    InitData(1.0, 1.0, 1.0)
  }

  lemma {:induction false} CornersDistinct(l: real, w: real, h: real, j: nat, k: nat)
    requires l != 0.0 && w != 0.0 && h != 0.0
    requires j < VerticesPerVoxel && k < VerticesPerVoxel && j != k
    ensures InitData(l, w, h).vertices[j] != InitData(l, w, h).vertices[k]
  {
    assert j in {0, 1, 2, 3, 4, 5, 6, 7};
    assert k in {0, 1, 2, 3, 4, 5, 6, 7};
  }

  /** The three corners of triangle t, in drawing order. */
  function Triangle(t: nat): (nat, nat, nat)
    requires t < TrianglesPerVoxel
  {
    CubeTriangles[t]
  }

  /** Triangle t is read from index slots 3t, 3t + 1 and 3t + 2 of the flat table. */
  lemma TriangleSlots(t: nat)
    requires t < TrianglesPerVoxel
    ensures Triangle(t) == (CubeIndices()[3 * t], CubeIndices()[3 * t + 1], CubeIndices()[3 * t + 2])
  {
    assert (3 * t) / 3 == t && (3 * t + 1) / 3 == t && (3 * t + 2) / 3 == t;
    assert (3 * t) % 3 == 0 && (3 * t + 1) % 3 == 1 && (3 * t + 2) % 3 == 2;
  }

  /** The face label the table gives triangle t. */
  function FaceOf(t: nat): Face
    requires t < TrianglesPerVoxel
  {
    FaceOrder[t / 2]
  }

  /** Position of a face in FaceOrder: its triangles are 2 * FaceSlot(f) and 2 * FaceSlot(f) + 1. */
  function FaceSlot(f: Face): nat
  {
    match f
    case NegZ => 0
    case NegX => 1
    case PosZ => 2
    case PosX => 3
    case PosY => 4
    case NegY => 5
  }

  /** Corner k lies in the plane of face f. */
  predicate OnFace(f: Face, k: nat)
  {
    match f
    case NegZ => !ZBit(k)
    case PosZ => ZBit(k)
    case NegX => !XBit(k)
    case PosX => XBit(k)
    case NegY => !YBit(k)
    case PosY => YBit(k)
  }

  /** The four corners in the plane of face f. */
  function PlaneCorners(f: Face): set<nat>
  {
    set k: nat | k < VerticesPerVoxel && OnFace(f, k)
  }

  /** The corners used by the two triangles labelled f. */
  function FaceCorners(f: Face): set<nat>
  {
    var t := 2 * FaceSlot(f);
    var (a, b, c) := Triangle(t);
    var (d, e, g) := Triangle(t + 1);
    {a, b, c, d, e, g}
  }

  lemma {:induction false} FaceLabelsAreABijection(t: nat)
    requires t < TrianglesPerVoxel
    ensures FaceSlot(FaceOf(t)) == t / 2
    ensures forall f :: FaceSlot(f) < |FaceOrder| && FaceOrder[FaceSlot(f)] == f
  {
    assert t / 2 in {0, 1, 2, 3, 4, 5};
  }

  lemma {:induction false} TriangleDistinctCorners(t: nat)
    requires t < TrianglesPerVoxel
    ensures Triangle(t).0 != Triangle(t).1 && Triangle(t).1 != Triangle(t).2 && Triangle(t).0 != Triangle(t).2
  {
    assert t in {0, 1, 2, 3, 4, 5, 6, 7, 8, 9, 10, 11};
  }

  lemma {:induction false} TriangleOnItsFace(t: nat)
    requires t < TrianglesPerVoxel
    ensures OnFace(FaceOf(t), Triangle(t).0) && OnFace(FaceOf(t), Triangle(t).1) && OnFace(FaceOf(t), Triangle(t).2)
  {
    assert t in {0, 1, 2, 3, 4, 5, 6, 7, 8, 9, 10, 11};
  }

  /** The corners in each face plane, written out. */
  lemma PlaneCornersDisplay(f: Face)
    ensures PlaneCorners(f) == match f
      case NegZ => {0, 2, 4, 6}
      case PosZ => {1, 3, 5, 7}
      case NegX => {0, 1, 2, 3}
      case PosX => {4, 5, 6, 7}
      case NegY => {0, 1, 4, 5}
      case PosY => {2, 3, 6, 7}
  {
    forall k: nat | k in PlaneCorners(f) ensures k in {0, 1, 2, 3, 4, 5, 6, 7} {
      assert k < 8;
    }
  }

  /** The two triangles labelled f use exactly the corners of f's plane ... */
  lemma {:induction false} FaceUsesItsPlane(f: Face)
    ensures FaceCorners(f) == PlaneCorners(f)
  {
    PlaneCornersDisplay(f);
    match f
    case NegZ => assert Triangle(0) == (0, 2, 4) && Triangle(1) == (2, 6, 4);
    case NegX => assert Triangle(2) == (3, 0, 1) && Triangle(3) == (3, 2, 0);
    case PosZ => assert Triangle(4) == (7, 1, 5) && Triangle(5) == (7, 3, 1);
    case PosX => assert Triangle(6) == (6, 5, 4) && Triangle(7) == (6, 7, 5);
    case PosY => assert Triangle(8) == (3, 6, 2) && Triangle(9) == (3, 7, 6);
    case NegY => assert Triangle(10) == (0, 5, 1) && Triangle(11) == (0, 4, 5);
  }

  /** ... and every such plane holds four corners. */
  lemma {:induction false} PlaneHasFourCorners(f: Face)
    ensures |PlaneCorners(f)| == 4
  {
    PlaneCornersDisplay(f);
  }

  /** Together the six faces use all eight corners. */
  lemma {:induction false} FacesCoverAllCorners()
    ensures FaceCorners(NegZ) + FaceCorners(NegX) + FaceCorners(PosZ)
          + FaceCorners(PosX) + FaceCorners(PosY) + FaceCorners(NegY)
         == {0, 1, 2, 3, 4, 5, 6, 7}
  {
    FaceUsesItsPlane(NegZ);
    FaceUsesItsPlane(NegX);
    FaceUsesItsPlane(PosZ);
    FaceUsesItsPlane(PosX);
    FaceUsesItsPlane(PosY);
    FaceUsesItsPlane(NegY);
    PlanesCoverAllCorners();
  }

  /** The -z and +z planes split the corners; every other plane lies inside the cuboid's corners. */
  lemma PlanesCoverAllCorners()
    ensures PlaneCorners(NegZ) + PlaneCorners(NegX) + PlaneCorners(PosZ)
          + PlaneCorners(PosX) + PlaneCorners(PosY) + PlaneCorners(NegY)
         == {0, 1, 2, 3, 4, 5, 6, 7}
  {
    var all: set<nat> := {0, 1, 2, 3, 4, 5, 6, 7};
    PlaneCornersDisplay(NegZ);
    PlaneCornersDisplay(PosZ);
    assert PlaneCorners(NegZ) + PlaneCorners(PosZ) == all;
    forall f: Face ensures PlaneCorners(f) <= all {
      PlaneCornersDisplay(f);
    }
  }

  /** The normal (b - a) x (c - a) of the triangle in index slots 3t .. 3t + 2 of model m. */
  function TriangleNormal(m: Model, t: nat): Vec3
    requires WellFormed(m) && t < TrianglesPerVoxel
  {
    var a, b, c := m.indices[3 * t], m.indices[3 * t + 1], m.indices[3 * t + 2];
    Cross(Sub(m.vertices[b].pos, m.vertices[a].pos), Sub(m.vertices[c].pos, m.vertices[a].pos))
  }

  /** n is parallel to the outward axis of face f and points the same way. */
  predicate PointsOutward(n: Vec3, f: Face)
  {
    match f
    case NegZ => n.x == 0.0 && n.y == 0.0 && n.z < 0.0
    case PosZ => n.x == 0.0 && n.y == 0.0 && n.z > 0.0
    case NegX => n.y == 0.0 && n.z == 0.0 && n.x < 0.0
    case PosX => n.y == 0.0 && n.z == 0.0 && n.x > 0.0
    case NegY => n.x == 0.0 && n.z == 0.0 && n.y < 0.0
    case PosY => n.x == 0.0 && n.z == 0.0 && n.y > 0.0
  }

  /** Consistent winding: every triangle's normal points out of its labelled face. */
  lemma {:induction false} WindingOutward(l: real, w: real, h: real, t: nat)
    requires l > 0.0 && w > 0.0 && h > 0.0
    requires t < TrianglesPerVoxel
    ensures PointsOutward(TriangleNormal(InitData(l, w, h), t), FaceOf(t))
  {
    PositiveProduct(h, l);
    PositiveProduct(w, h);
    PositiveProduct(w, l);
    NormalOfCorners(l, w, h, t);
    if t < 6 {
      WindingLow(l, w, h, t);
    } else {
      WindingHigh(l, w, h, t);
    }
  }

  /** Winding of the -z, -x and +z triangles. */
  lemma WindingLow(l: real, w: real, h: real, t: nat)
    requires l * h > 0.0 && h * w > 0.0 && w * l > 0.0
    requires t < 6
    ensures PointsOutward(Normal(l, w, h, t), FaceOf(t))
  {
    CornerValues(l, w, h);
    assert t in {0, 1, 2, 3, 4, 5};
  }

  /** Winding of the +x, +y and -y triangles. */
  lemma WindingHigh(l: real, w: real, h: real, t: nat)
    requires l * h > 0.0 && h * w > 0.0 && w * l > 0.0
    requires 6 <= t < 12
    ensures PointsOutward(Normal(l, w, h, t), FaceOf(t))
  {
    CornerValues(l, w, h);
    assert t in {6, 7, 8, 9, 10, 11};
  }

  /** (b - a) x (c - a) for the symbolic corners a, b, c of triangle t. */
  function Normal(l: real, w: real, h: real, t: nat): Vec3
    requires t < TrianglesPerVoxel
  {
    var (a, b, c) := Triangle(t);
    Cross(Sub(Corner(b, l, w, h), Corner(a, l, w, h)), Sub(Corner(c, l, w, h), Corner(a, l, w, h)))
  }

  /** Corner, evaluated at each of the eight corners. */
  lemma CornerValues(l: real, w: real, h: real)
    ensures Corner(0, l, w, h) == Vec3(0.0, 0.0, 0.0) && Corner(1, l, w, h) == Vec3(0.0, 0.0, w)
    ensures Corner(2, l, w, h) == Vec3(0.0, h, 0.0) && Corner(3, l, w, h) == Vec3(0.0, h, w)
    ensures Corner(4, l, w, h) == Vec3(l, 0.0, 0.0) && Corner(5, l, w, h) == Vec3(l, 0.0, w)
    ensures Corner(6, l, w, h) == Vec3(l, h, 0.0) && Corner(7, l, w, h) == Vec3(l, h, w)
  {
  }

  /** The normal of triangle t, in terms of the symbolic corners it joins. */
  lemma NormalOfCorners(l: real, w: real, h: real, t: nat)
    requires t < TrianglesPerVoxel
    ensures TriangleNormal(InitData(l, w, h), t) == Normal(l, w, h, t)
  {
    TriangleSlots(t);
    CubeIndicesInRange();
  }

  lemma PositiveProduct(a: real, b: real)
    requires a > 0.0 && b > 0.0
    ensures a * b > 0.0
  {
  }
}
