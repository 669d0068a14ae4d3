/** The ray tracer's renderer: the recursive `traceRay` that colours one
    ray, with a bounded number of reflections, and the renderer object that
    holds the canvas buffer, the camera and the scene. The intersection
    search, the lighting and the reflection of the ray tracer's own helper
    modules are parameters of a `Tracer`. */
module RayTracer {
  import opened Wrappers
  import opened Numeric
  import opened Algebra
  import opened Colors
  import opened Shapes
  import opened Canvas
  import Lights
  import Scenes
  import Intersections

  /** `MAX_RECURSION_DEPTH`: the deepest reflection that is still traced. */
  const MaxRecursionDepth: nat := 3

  /** The spheres and lights a renderer traces. */
  datatype StaticScene = StaticScene(spheres: seq<Sphere>, lights: seq<Lights.SceneLight>)

  /** The outcome of the closest-intersection search: no sphere, or the
      closest sphere and the time at which the ray meets it. */
  datatype Hit = Miss | Hit(sphere: Sphere, t: real)

  /** The helpers `traceRay` calls:
      - `closest`: the closest intersection of a ray with the scene's
        spheres, for times strictly between `minTime` and `maxTime`;
      - `lighting`: the light intensity at a point of the scene, for a
        normal, a view vector and a specular exponent;
      - `reflect`: the reflection of a vector about a normal;
      - `sqrt`: the square root behind `length`;
      - `minTimeAboveZero`: the lower time bound of reflected rays. */
  datatype Tracer = Tracer(
    closest: (StaticScene, Vector3, Vector3, real, ExtReal) -> Hit,
    lighting: (StaticScene, Vector3, Vector3, Vector3, real) -> real,
    reflect: (Vector3, Vector3) -> Vector3,
    sqrt: real -> real,
    minTimeAboveZero: real)

  /** What the old application's search returns, read as a `Hit`. */
  function AsHit(c: Intersections.ClosestIntersection): Hit {
    if c.closestSphere.Some? && c.closestT.Finite? then Hit(c.closestSphere.value, c.closestT.value)
    else Miss
  }

  /** A result of the closest-intersection search is a miss exactly when no
      sphere was found, and otherwise a hit on one of the scene's spheres at a
      time inside the window: the contract `traceRay` expects of `closest`. */
  lemma SearchResultAsHit(origin: Vector3, direction: Vector3, spheres: seq<Sphere>, sqrt: real -> real,
                          minTime: real, maxTime: ExtReal, c: Intersections.ClosestIntersection)
    requires Intersections.IsClosestIntersection(origin, direction, spheres, sqrt, minTime, maxTime, c)
    ensures AsHit(c).Miss? <==> c.closestSphere.None?
    ensures AsHit(c).Hit? ==>
              AsHit(c).sphere in spheres && minTime < AsHit(c).t && Less(Finite(AsHit(c).t), maxTime)
  {
    if c.closestSphere.Some? {
      Intersections.FoundSphereOwnsTime(origin, direction, spheres, sqrt, minTime, maxTime, c);
    }
  }

  /** `closest` only ever returns a sphere of the scene it searches. */
  ghost predicate ReturnsSceneSpheres(tr: Tracer) {
    forall scene, origin, direction, minTime, maxTime ::
      tr.closest(scene, origin, direction, minTime, maxTime).Hit? ==>
        tr.closest(scene, origin, direction, minTime, maxTime).sphere in scene.spheres
  }

  /** `multiply(1.0 / length(normal), normal)`. A zero normal, which the
      source divides by zero, is left as it is. */
  function UnitNormal(normal: Vector3, sqrt: real -> real): Vector3 {
    var len := Lights.Length(normal, sqrt);
    if len == 0.0 then normal else Multiply(1.0 / len, normal)
  }

  /** A non-zero normal is scaled to length 1, in its own direction. */
  lemma UnitNormalHasLengthOne(normal: Vector3, sqrt: real -> real)
    requires IsSqrt(sqrt)
    requires normal != Zero
    ensures DotProduct(UnitNormal(normal, sqrt), UnitNormal(normal, sqrt)) == 1.0
    ensures exists k :: 0.0 < k && UnitNormal(normal, sqrt) == Multiply(k, normal)
  {
    var d := DotProduct(normal, normal);
    DotSelfPositive(normal);
    SqrtPositive(sqrt, d);
    var len := Lights.Length(normal, sqrt);
    assert len * len == d;
    var k := 1.0 / len;
    var u := Multiply(k, normal);
    DotProductLinear(normal, u, k, u);
    DotProductLinear(normal, normal, k, normal);
    DotProductCommutative(normal, u);
    var kd := k * d;
    assert DotProduct(u, u) == k * kd;
    assert kd == len by {
      assert k * len == 1.0;
      assert kd == (k * len) * len;
    }
    assert k * len == 1.0;
  }

  /** The sphere's colour under light `intensity`, each of red, green and
      blue clamped to [0, 255]; the alpha channel is the sphere's. */
  function LocalColor(color: Color, intensity: real): (c: Color)
    ensures InByteRange(c)
    ensures c.alpha == color.alpha
    ensures 0.0 <= color.red * intensity <= 255.0 ==> c.red == color.red * intensity
    ensures 0.0 <= color.green * intensity <= 255.0 ==> c.green == color.green * intensity
    ensures 0.0 <= color.blue * intensity <= 255.0 ==> c.blue == color.blue * intensity
  {
    color.(red := Clamp(color.red * intensity, 0.0, 255.0),
           green := Clamp(color.green * intensity, 0.0, 255.0),
           blue := Clamp(color.blue * intensity, 0.0, 255.0))
  }

  /** The local colour mixed with the reflected one in the proportion
      `reflectivity`; a missing or zero alpha counts as 255. */
  function Blend(local: Color, reflected: Color, reflectivity: real): Color {
    Color(local.red * (1.0 - reflectivity) + reflected.red * reflectivity,
          local.green * (1.0 - reflectivity) + reflected.green * reflectivity,
          local.blue * (1.0 - reflectivity) + reflected.blue * reflectivity,
          Some(AlphaOr255(local.alpha) * (1.0 - reflectivity) + AlphaOr255(reflected.alpha) * reflectivity))
  }

  /** A mix `a * (1 - k) + b * k` with `k` in [0, 1] lies between the
      smaller and the larger of `a` and `b`. */
  lemma ConvexCombinationInRange(a: real, b: real, k: real, lo: real, hi: real)
    requires lo <= a <= hi && lo <= b <= hi && 0.0 <= k <= 1.0
    ensures lo <= a * (1.0 - k) + b * k <= hi
  {
    assert a * (1.0 - k) + b * k - lo == (a - lo) * (1.0 - k) + (b - lo) * k;
    assert hi - (a * (1.0 - k) + b * k) == (hi - a) * (1.0 - k) + (hi - b) * k;
    ProductNonNegative(a - lo, 1.0 - k);
    ProductNonNegative(b - lo, k);
    ProductNonNegative(hi - a, 1.0 - k);
    ProductNonNegative(hi - b, k);
  }

  /** With a reflectivity in [0, 1], blending two colours whose channels are
      bytes gives channels that are bytes; a reflectivity of 1 gives the
      reflected colour's channels. */
  lemma BlendInRange(local: Color, reflected: Color, reflectivity: real)
    ensures 0.0 <= reflectivity <= 1.0 && InByteRange(local) && InByteRange(reflected) ==>
              InByteRange(Blend(local, reflected, reflectivity))
    ensures var c := Blend(local, reflected, 1.0);
            c.red == reflected.red && c.green == reflected.green && c.blue == reflected.blue
            && c.alpha == Some(AlphaOr255(reflected.alpha))
  {
    if 0.0 <= reflectivity <= 1.0 && InByteRange(local) && InByteRange(reflected) {
      ConvexCombinationInRange(local.red, reflected.red, reflectivity, 0.0, 255.0);
      ConvexCombinationInRange(local.green, reflected.green, reflectivity, 0.0, 255.0);
      ConvexCombinationInRange(local.blue, reflected.blue, reflectivity, 0.0, 255.0);
    }
  }

  /** `recursionDepth || 0`. */
  function ActualRecursion(recursionDepth: Option<nat>): nat {
    recursionDepth.GetOr(0)
  }

  /** The number of reflections still allowed below a call at this depth. */
  function RemainingDepth(recursionDepth: Option<nat>): nat {
    var depth := ActualRecursion(recursionDepth);
    if depth < MaxRecursionDepth then MaxRecursionDepth - depth else 0
  }

  /** The colour `traceRay` returns, and how many `traceRay` calls
      computing it took, the first call included. */
  datatype Traced = Traced(color: Color, calls: nat)

  /** `traceRay`: the background colour when the ray meets no sphere;
      otherwise the lit colour of the closest sphere, mixed with the colour
      seen along the reflected ray unless the sphere does not reflect or the
      depth limit is reached. A call at depth `d` makes at most `1 + max(0, 3 - d)`
      calls in all, so a top-level call, whose depth is absent, makes at most
      four. */
  function TraceRay(tr: Tracer, scene: StaticScene, background: Color, origin: Vector3, direction: Vector3,
                    minTime: real, maxTime: ExtReal, recursionDepth: Option<nat>): (r: Traced)
    ensures 1 <= r.calls <= 1 + RemainingDepth(recursionDepth)
    ensures recursionDepth == None ==> r.calls <= 4
    decreases RemainingDepth(recursionDepth)
  {
    var depth := ActualRecursion(recursionDepth);
    match tr.closest(scene, origin, direction, minTime, maxTime)
    case Miss => Traced(background, 1)
    case Hit(sphere, t) =>
      var point := Add(origin, Multiply(t, direction));
      var normal := UnitNormal(Subtract(point, sphere.center), tr.sqrt);
      var viewVector := Multiply(-1.0, direction);
      var intensity := tr.lighting(scene, point, normal, viewVector, sphere.specular);
      var localColor := LocalColor(sphere.color, intensity);
      if depth >= MaxRecursionDepth || sphere.reflectivity <= 0.0 then Traced(localColor, 1)
      else
        var reflectedRay := tr.reflect(normal, viewVector);
        var reflected := TraceRay(tr, scene, background, point, reflectedRay, tr.minTimeAboveZero,
                                  PosInfinity, Some(depth + 1));
        Traced(Blend(localColor, reflected.color, sphere.reflectivity), 1 + reflected.calls)
  }

  /** A ray that meets no sphere has the background colour. */
  lemma MissGivesBackground(tr: Tracer, scene: StaticScene, background: Color, origin: Vector3,
                            direction: Vector3, minTime: real, maxTime: ExtReal, recursionDepth: Option<nat>)
    requires tr.closest(scene, origin, direction, minTime, maxTime).Miss?
    ensures TraceRay(tr, scene, background, origin, direction, minTime, maxTime, recursionDepth)
         == Traced(background, 1)
  {
  }

  /** At the depth limit, or on a sphere that does not reflect, the result
      is the local colour and no further ray is traced. */
  lemma StopGivesLocalColor(tr: Tracer, scene: StaticScene, background: Color, origin: Vector3,
                            direction: Vector3, minTime: real, maxTime: ExtReal, recursionDepth: Option<nat>)
    requires tr.closest(scene, origin, direction, minTime, maxTime).Hit?
    requires ActualRecursion(recursionDepth) >= MaxRecursionDepth
          || tr.closest(scene, origin, direction, minTime, maxTime).sphere.reflectivity <= 0.0
    ensures var h := tr.closest(scene, origin, direction, minTime, maxTime);
            var point := Add(origin, Multiply(h.t, direction));
            var normal := UnitNormal(Subtract(point, h.sphere.center), tr.sqrt);
            TraceRay(tr, scene, background, origin, direction, minTime, maxTime, recursionDepth)
              == Traced(LocalColor(h.sphere.color,
                                   tr.lighting(scene, point, normal, Multiply(-1.0, direction), h.sphere.specular)),
                        1)
  {
  }

  /** When the background's channels are bytes and every sphere of the scene
      has a reflectivity of at most 1, every traced colour has byte channels. */
  lemma {:induction false} TraceRayInByteRange(tr: Tracer, scene: StaticScene, background: Color,
                                               origin: Vector3, direction: Vector3, minTime: real,
                                               maxTime: ExtReal, recursionDepth: Option<nat>)
    requires ReturnsSceneSpheres(tr)
    requires forall s | s in scene.spheres :: s.reflectivity <= 1.0
    requires InByteRange(background)
    ensures InByteRange(TraceRay(tr, scene, background, origin, direction, minTime, maxTime, recursionDepth).color)
    decreases RemainingDepth(recursionDepth)
  {
    var depth := ActualRecursion(recursionDepth);
    match tr.closest(scene, origin, direction, minTime, maxTime)
    case Miss =>
    case Hit(sphere, t) =>
      var point := Add(origin, Multiply(t, direction));
      var normal := UnitNormal(Subtract(point, sphere.center), tr.sqrt);
      var viewVector := Multiply(-1.0, direction);
      var localColor := LocalColor(sphere.color, tr.lighting(scene, point, normal, viewVector, sphere.specular));
      if !(depth >= MaxRecursionDepth || sphere.reflectivity <= 0.0) {
        var reflectedRay := tr.reflect(normal, viewVector);
        TraceRayInByteRange(tr, scene, background, point, reflectedRay, tr.minTimeAboveZero,
                            PosInfinity, Some(depth + 1));
        var reflectedColor := TraceRay(tr, scene, background, point, reflectedRay, tr.minTimeAboveZero,
                                       PosInfinity, Some(depth + 1)).color;
        assert sphere in scene.spheres;
        BlendInRange(localColor, reflectedColor, sphere.reflectivity);
      }
  }

  /** The ray tracer's renderer: a canvas of `width` by `height` pixels
      whose RGBA bytes are `buffer`, four bytes per pixel and `pitch` bytes
      per row, and the viewport, camera, background and scene it draws. */
  class Renderer {
    const width: nat
    const height: nat
    const buffer: array<int>
    const pitch: int
    const viewportSize: real
    const zProjectionPlane: real
    const cameraPosition: Vector3
    const backgroundColor: Color
    const scene: StaticScene

    /** The buffer holds one RGBA pixel per canvas pixel. */
    predicate Valid()
      reads this
    {
      buffer.Length == 4 * width * height && pitch == 4 * width
    }

    /** `pixels` is the canvas's image data. A missing or zero viewport size
        or projection plane becomes 1, a missing camera sits at the origin,
        a missing background is opaque white and a missing scene is a new,
        empty one. */
    constructor(width: nat, height: nat, pixels: array<int>, viewportSize: Option<real>,
                zProjectionPlane: Option<real>, cameraPosition: Option<Vector3>,
                backgroundColor: Option<Color>, scene: Option<StaticScene>)
      requires pixels.Length == 4 * width * height
      ensures this.width == width && this.height == height && buffer == pixels
      ensures pitch == 4 * width
      ensures this.viewportSize == Or(viewportSize, 1.0)
      ensures this.zProjectionPlane == Or(zProjectionPlane, 1.0)
      ensures this.cameraPosition == cameraPosition.GetOr(Zero)
      ensures this.backgroundColor == backgroundColor.GetOr(Color(255.0, 255.0, 255.0, None))
      ensures this.scene == scene.GetOr(StaticScene([], []))
      ensures Valid()
    {
      this.width := width;
      this.height := height;
      buffer := pixels;
      pitch := 4 * width;
      this.viewportSize := Or(viewportSize, 1.0);
      this.zProjectionPlane := Or(zProjectionPlane, 1.0);
      this.cameraPosition := cameraPosition.GetOr(Zero);
      this.backgroundColor := backgroundColor.GetOr(Color(255.0, 255.0, 255.0, None));
      if scene.Some? {
        this.scene := scene.value;
      } else {
        var empty := new Scenes.Scene(false);
        this.scene := StaticScene(empty.spheres, empty.lights);
      }
    }

    /** `putPixel`: the four bytes of `color` at the shifted coordinates,
        which are used unfloored; an absent alpha is stored as 255. */
    method PutPixel(x: real, y: real, color: Color)
      requires Valid()
      modifies buffer
      ensures Valid()
      ensures buffer[..] == PutPixelUnfloored(old(buffer[..]), width, height, pitch, x, y, color,
                                              AlphaOrOpaque(color.alpha))
      ensures OutsideUnfloored(width, height, x, y) ==> buffer[..] == old(buffer[..])
      ensures forall i | 0 <= i < buffer.Length
                         && !(UnflooredOffset(width, height, pitch, x, y) <= i as real
                              < UnflooredOffset(width, height, pitch, x, y) + 4.0) ::
                buffer[i] == old(buffer[i])
    {
      ghost var before := buffer[..];
      PutPixelUnflooredWritesAtOffset(before, width, height, x, y, color, AlphaOrOpaque(color.alpha));
      if OutsideUnfloored(width, height, x, y) {
        return;
      }
      var offset := UnflooredOffset(width, height, pitch, x, y);
      StorePixelInto(buffer, offset, color, AlphaOrOpaque(color.alpha));
    }
  }
}
