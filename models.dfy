/** The rasterizer's meshes: vertices, coloured triangles over vertex
    indices, and a bounding sphere; the cube is the one model. */
module Models {
  import opened Algebra
  import opened Colors
  import opened Numeric

  /** A triangle given by the indices of its three vertices. */
  datatype Triangle = Triangle(a: int, b: int, c: int, color: Color)

  datatype RasterModel = RasterModel(vertices: seq<Point3D>, triangles: seq<Triangle>,
                                     center: Point3D, radius: real)

  const CubeVertices: seq<Point3D> := [
    Point3D(1.0, 1.0, 1.0),
    Point3D(-1.0, 1.0, 1.0),
    Point3D(-1.0, -1.0, 1.0),
    Point3D(1.0, -1.0, 1.0),
    Point3D(1.0, 1.0, -1.0),
    Point3D(-1.0, 1.0, -1.0),
    Point3D(-1.0, -1.0, -1.0),
    Point3D(1.0, -1.0, -1.0)
  ]

  const CubeTriangles: seq<Triangle> := [
    Triangle(0, 1, 2, Red),
    Triangle(0, 2, 3, Red),
    Triangle(4, 0, 3, Green),
    Triangle(4, 3, 7, Green),
    Triangle(5, 4, 7, Blue),
    Triangle(5, 7, 6, Blue),
    Triangle(1, 5, 6, Yellow),
    Triangle(1, 6, 2, Yellow),
    Triangle(4, 5, 1, Purple),
    Triangle(4, 1, 0, Purple),
    Triangle(2, 6, 7, Cyan),
    Triangle(2, 7, 3, Cyan)
  ]

  /** `cubeModel`: the cube of side 2 about the origin; the radius of its
      bounding sphere is `Math.sqrt(3)`. */
  function CubeModel(sqrt: real -> real): RasterModel {
    RasterModel(CubeVertices, CubeTriangles, Point3D(0.0, 0.0, 0.0), sqrt(3.0))
  }

  /** `modelMap`: the models by name. */
  function ModelMap(sqrt: real -> real): map<string, RasterModel> {
    map["cube" := CubeModel(sqrt)]
  }

  function SquaredDistance(p: Point3D, q: Point3D): real {
    (p.x - q.x) * (p.x - q.x) + (p.y - q.y) * (p.y - q.y) + (p.z - q.z) * (p.z - q.z)
  }

  /** Every triangle names three different vertices of the model. */
  predicate WellFormed(m: RasterModel) {
    forall i | 0 <= i < |m.triangles| :: TriangleFits(m.triangles[i], |m.vertices|)
  }

  predicate TriangleFits(t: Triangle, n: nat) {
    && 0 <= t.a < n && 0 <= t.b < n && 0 <= t.c < n
    && t.a != t.b && t.b != t.c && t.a != t.c
  }

  /** The cube has 8 vertices and 12 triangles, each over three different
      vertices. */
  lemma CubeWellFormed(sqrt: real -> real)
    ensures |CubeModel(sqrt).vertices| == 8 && |CubeModel(sqrt).triangles| == 12
    ensures WellFormed(CubeModel(sqrt))
  {
  }

  /** Every vertex lies on the bounding sphere: at squared distance 3 from
      the centre, the square of the radius. */
  lemma CubeOnBoundingSphere(sqrt: real -> real)
    requires IsSqrt(sqrt)
    ensures 0.0 < CubeModel(sqrt).radius
    ensures forall v | v in CubeModel(sqrt).vertices ::
              SquaredDistance(v, CubeModel(sqrt).center) == CubeModel(sqrt).radius * CubeModel(sqrt).radius
  {
    SqrtPositive(sqrt, 3.0);
    assert sqrt(3.0) * sqrt(3.0) == 3.0;
  }

  /** The triangles come in pairs of one colour, one pair per face: the
      triangles `2 * i` and `2 * i + 1` share their colour and the first and
      third vertex of the first, and the six colours differ. */
  lemma CubeFacesPaired()
    ensures forall i | 0 <= i < 6 ::
              && CubeTriangles[2 * i].color == CubeTriangles[2 * i + 1].color
              && CubeTriangles[2 * i].a == CubeTriangles[2 * i + 1].a
              && CubeTriangles[2 * i].c == CubeTriangles[2 * i + 1].b
    ensures forall i, j | 0 <= i < j < 6 :: CubeTriangles[2 * i].color != CubeTriangles[2 * j].color
  {
  }

  /** Each colour of the cube labels exactly two triangles, and they are
      neighbours in the list: two triangles share a colour exactly when
      they belong to the same pair. */
  lemma CubeColorsCountTwo()
    ensures forall i, j | 0 <= i < |CubeTriangles| && 0 <= j < |CubeTriangles| ::
              CubeTriangles[i].color == CubeTriangles[j].color <==> i / 2 == j / 2
  {
    CubeFacesPaired();
    forall i, j | 0 <= i < |CubeTriangles| && 0 <= j < |CubeTriangles|
      ensures CubeTriangles[i].color == CubeTriangles[j].color <==> i / 2 == j / 2
    {
      var p, q := i / 2, j / 2;
      assert CubeTriangles[i].color == CubeTriangles[2 * p].color;
      assert CubeTriangles[j].color == CubeTriangles[2 * q].color;
    }
  }

  /** Every triangle lies in a face of the cube: its three vertices share
      the value 1 or -1 of one coordinate. */
  lemma CubeTrianglesOnFaces()
    ensures forall t | t in CubeTriangles ::
              var p, q, r := CubeVertices[t.a], CubeVertices[t.b], CubeVertices[t.c];
              || (p.x == q.x == r.x) || (p.y == q.y == r.y) || (p.z == q.z == r.z)
  {
  }

  /** The map knows the cube and nothing else. */
  lemma ModelMapHoldsCube(sqrt: real -> real)
    ensures ModelMap(sqrt).Keys == {"cube"}
    ensures ModelMap(sqrt)["cube"] == CubeModel(sqrt)
  {
  }
}
