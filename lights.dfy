/** Shading: the intensity that the lights of a scene shed on a surface
    point, as the sum of an ambient, a diffuse and a specular part per
    light. `Math.sqrt` and `Math.pow` are parameters. */
module Lights {
  import opened Algebra
  import opened Numeric

  /** The three kinds of light; `intensity` is common to all of them. */
  datatype SceneLight =
    | Ambient(intensity: real)
    | Point(position: Vector3, intensity: real)
    | Directional(direction: Vector3, intensity: real)

  /** The specular exponent that means "no highlight"; it is the default of
      `computeLighting`. */
  const NoSpecular: real := -1.0

  /** `length(v)`: the Euclidean length, through the runtime's square root. */
  function Length(v: Vector3, sqrt: real -> real): real {
    sqrt(DotProduct(v, v))
  }

  /** `pow` gives a positive power of every positive base. */
  ghost predicate PowPositive(pow: (real, real) -> real) {
    forall base, exponent :: 0.0 < base ==> 0.0 < pow(base, exponent)
  }

  /** Two vectors with a positive dot product both have a positive length,
      so their lengths can be divided by. */
  lemma LengthsPositive(u: Vector3, w: Vector3, sqrt: real -> real)
    requires IsSqrt(sqrt)
    requires 0.0 < DotProduct(u, w)
    ensures 0.0 < Length(u, sqrt) && 0.0 < Length(w, sqrt)
    ensures 0.0 < Length(u, sqrt) * Length(w, sqrt)
  {
    PositiveDotSelf(u, w);
    DotProductCommutative(u, w);
    PositiveDotSelf(w, u);
    SqrtPositive(sqrt, DotProduct(u, u));
    SqrtPositive(sqrt, DotProduct(w, w));
    ProductPositive(Length(u, sqrt), Length(w, sqrt));
  }

  /** `a * n / d` has the sign of `a` when `n` and `d` are positive. */
  lemma QuotientSign(a: real, n: real, d: real)
    requires 0.0 < n && 0.0 < d
    ensures 0.0 < a ==> 0.0 < a * n / d
    ensures a < 0.0 ==> a * n / d < 0.0
    ensures a == 0.0 ==> a * n / d == 0.0
  {
    if 0.0 < a {
      ProductPositive(a, n);
    } else if a < 0.0 {
      ProductPositive(-a, n);
    }
  }

  /** The diffuse term: the light's intensity scaled by the cosine of the
      angle between normal and light vector, and nothing for light arriving
      from behind the surface. */
  function CalculateDiffuseLightIntensity(lightVector: Vector3, normal: Vector3,
                                          lightIntensity: real, sqrt: real -> real): (r: real)
    requires IsSqrt(sqrt)
    ensures DotProduct(normal, lightVector) <= 0.0 ==> r == 0.0
    ensures 0.0 < DotProduct(normal, lightVector) ==>
      && (0.0 < r <==> 0.0 < lightIntensity)
      && (r < 0.0 <==> lightIntensity < 0.0)
      && (r == 0.0 <==> lightIntensity == 0.0)
  {
    var normalLightDotProduct := DotProduct(normal, lightVector);
    if 0.0 < normalLightDotProduct then
      LengthsPositive(normal, lightVector, sqrt);
      var d := Length(normal, sqrt) * Length(lightVector, sqrt);
      QuotientSign(lightIntensity, normalLightDotProduct, d);
      lightIntensity * normalLightDotProduct / d
    else
      0.0
  }

  /** The mirror image of `l` about the normal `n`, written as the source
      writes it: `(n . l) (2 n) - l`. */
  function ReflectionVector(n: Vector3, l: Vector3): Vector3 {
    Subtract(Multiply(DotProduct(n, l), Multiply(2.0, n)), l)
  }

  /** About a unit normal, the reflection keeps the angle with the normal
      and the length, and `r + l` points along the normal. */
  lemma ReflectionMirrors(n: Vector3, l: Vector3)
    requires DotProduct(n, n) == 1.0
    ensures DotProduct(ReflectionVector(n, l), n) == DotProduct(l, n)
    ensures DotProduct(ReflectionVector(n, l), ReflectionVector(n, l)) == DotProduct(l, l)
    ensures Add(ReflectionVector(n, l), l) == Multiply(2.0 * DotProduct(n, l), n)
  {
    var k := DotProduct(n, l);
    var r := ReflectionVector(n, l);
    assert r == Vector3(2.0 * k * n.x - l.x, 2.0 * k * n.y - l.y, 2.0 * k * n.z - l.z);
    assert DotProduct(r, n) == 2.0 * k * DotProduct(n, n) - DotProduct(l, n);
    assert DotProduct(r, r) == 4.0 * k * k * DotProduct(n, n) - 4.0 * k * DotProduct(n, l) + DotProduct(l, l);
  }

  /** The specular term: nothing for a matte surface (exponent -1) or when
      the reflected light points away from the viewer, otherwise the light's
      intensity times a power of the cosine between reflection and view. */
  function CalculateSpecularLightIntensity(specular: real, normal: Vector3, lightVector: Vector3,
                                           viewVector: Vector3, lightIntensity: real,
                                           sqrt: real -> real, pow: (real, real) -> real): (r: real)
    requires IsSqrt(sqrt)
    ensures specular == NoSpecular ==> r == 0.0
    ensures DotProduct(ReflectionVector(normal, lightVector), viewVector) <= 0.0 ==> r == 0.0
    ensures PowPositive(pow) && specular != NoSpecular
            && 0.0 < DotProduct(ReflectionVector(normal, lightVector), viewVector) ==>
      (0.0 < r <==> 0.0 < lightIntensity) && (r < 0.0 <==> lightIntensity < 0.0)
  {
    if specular != NoSpecular then
      var reflectionVector := ReflectionVector(normal, lightVector);
      var reflectionViewDot := DotProduct(reflectionVector, viewVector);
      if 0.0 < reflectionViewDot then
        LengthsPositive(reflectionVector, viewVector, sqrt);
        var cosine := reflectionViewDot / (Length(reflectionVector, sqrt) * Length(viewVector, sqrt));
        QuotientSign(1.0, reflectionViewDot, Length(reflectionVector, sqrt) * Length(viewVector, sqrt));
        PowScaledSign(lightIntensity, pow, cosine, specular);
        lightIntensity * pow(cosine, specular)
      else
        0.0
    else
      0.0
  }

  /** A positive power keeps the sign of the factor it scales. */
  lemma PowScaledSign(a: real, pow: (real, real) -> real, base: real, exponent: real)
    requires 0.0 < base
    ensures PowPositive(pow) ==>
      (0.0 < a * pow(base, exponent) <==> 0.0 < a) && (a * pow(base, exponent) < 0.0 <==> a < 0.0)
  {
    if PowPositive(pow) {
      var p := pow(base, exponent);
      if 0.0 < a {
        ProductPositive(a, p);
      } else if a < 0.0 {
        ProductPositive(-a, p);
      }
    }
  }

  /** Diffuse plus specular light from one light vector. */
  function CalculateLightIntensity(direction: Vector3, normal: Vector3, viewVector: Vector3,
                                   lightIntensity: real, specular: real,
                                   sqrt: real -> real, pow: (real, real) -> real): (r: real)
    requires IsSqrt(sqrt)
    ensures specular == NoSpecular ==>
      r == CalculateDiffuseLightIntensity(direction, normal, lightIntensity, sqrt)
    ensures PowPositive(pow) && 0.0 <= lightIntensity ==> 0.0 <= r
    ensures PowPositive(pow) && 0.0 < lightIntensity && 0.0 < DotProduct(normal, direction) ==> 0.0 < r
  {
    CalculateDiffuseLightIntensity(direction, normal, lightIntensity, sqrt)
      + CalculateSpecularLightIntensity(specular, normal, direction, viewVector, lightIntensity, sqrt, pow)
  }

  /** `light.calculateIntensity(point, normal, viewVector, specular)`. */
  function CalculateIntensity(light: SceneLight, point: Vector3, normal: Vector3, viewVector: Vector3,
                              specular: real, sqrt: real -> real, pow: (real, real) -> real): (r: real)
    requires IsSqrt(sqrt)
    ensures PowPositive(pow) && 0.0 <= light.intensity ==> 0.0 <= r
  {
    match light
    case Ambient(intensity) => intensity
    case Point(position, intensity) =>
      CalculateLightIntensity(Subtract(position, point), normal, viewVector, intensity, specular, sqrt, pow)
    case Directional(direction, intensity) =>
      CalculateLightIntensity(direction, normal, viewVector, intensity, specular, sqrt, pow)
  }

  /** An ambient light gives its intensity whatever it is asked about. */
  lemma AmbientIgnoresInputs(intensity: real, point: Vector3, normal: Vector3, viewVector: Vector3,
                             specular: real, sqrt: real -> real, pow: (real, real) -> real)
    requires IsSqrt(sqrt)
    ensures CalculateIntensity(Ambient(intensity), point, normal, viewVector, specular, sqrt, pow) == intensity
  {
  }

  /** A directional light does not depend on the lit point. */
  lemma DirectionalIgnoresPoint(direction: Vector3, intensity: real, p: Vector3, q: Vector3,
                                normal: Vector3, viewVector: Vector3, specular: real,
                                sqrt: real -> real, pow: (real, real) -> real)
    requires IsSqrt(sqrt)
    ensures CalculateIntensity(Directional(direction, intensity), p, normal, viewVector, specular, sqrt, pow)
         == CalculateIntensity(Directional(direction, intensity), q, normal, viewVector, specular, sqrt, pow)
  {
  }

  /** A point light depends on the lit point only through the offset
      `position - point`: moving light and point together changes nothing. */
  lemma PointLightUsesOffset(position: Vector3, intensity: real, point: Vector3, offset: Vector3,
                             normal: Vector3, viewVector: Vector3, specular: real,
                             sqrt: real -> real, pow: (real, real) -> real)
    requires IsSqrt(sqrt)
    ensures CalculateIntensity(Point(Add(position, offset), intensity), Add(point, offset),
                               normal, viewVector, specular, sqrt, pow)
         == CalculateIntensity(Point(position, intensity), point, normal, viewVector, specular, sqrt, pow)
  {
    assert Subtract(Add(position, offset), Add(point, offset)) == Subtract(position, point);
  }

  /** The sum of the lights' contributions, accumulated from the first light
      to the last as the source's loop does. */
  function TotalLighting(lights: seq<SceneLight>, point: Vector3, normal: Vector3, viewVector: Vector3,
                         specular: real, sqrt: real -> real, pow: (real, real) -> real): real
    requires IsSqrt(sqrt)
  {
    if |lights| == 0 then 0.0
    else TotalLighting(lights[..|lights| - 1], point, normal, viewVector, specular, sqrt, pow)
         + CalculateIntensity(lights[|lights| - 1], point, normal, viewVector, specular, sqrt, pow)
  }

  /** `computeLighting`: the total intensity at `point`. */
  method ComputeLighting(point: Vector3, normal: Vector3, viewVector: Vector3, lights: seq<SceneLight>,
                         sqrt: real -> real, pow: (real, real) -> real, specular: real := NoSpecular)
    returns (intensity: real)
    requires IsSqrt(sqrt)
    ensures intensity == TotalLighting(lights, point, normal, viewVector, specular, sqrt, pow)
  {
    intensity := 0.0;
    var i := 0;
    while i < |lights|
      invariant 0 <= i <= |lights|
      invariant intensity == TotalLighting(lights[..i], point, normal, viewVector, specular, sqrt, pow)
    {
      assert lights[..i + 1][..i] == lights[..i];
      intensity := intensity + CalculateIntensity(lights[i], point, normal, viewVector, specular, sqrt, pow);
      i := i + 1;
    }
    assert lights[..i] == lights;
  }

  /** No lights give no light, and the lighting of two lists of lights one
      after the other is the sum of their lightings. */
  lemma {:induction false} TotalLightingAppend(ls: seq<SceneLight>, ms: seq<SceneLight>, point: Vector3,
                                               normal: Vector3, viewVector: Vector3, specular: real,
                                               sqrt: real -> real, pow: (real, real) -> real)
    requires IsSqrt(sqrt)
    ensures TotalLighting([], point, normal, viewVector, specular, sqrt, pow) == 0.0
    ensures TotalLighting(ls + ms, point, normal, viewVector, specular, sqrt, pow)
         == TotalLighting(ls, point, normal, viewVector, specular, sqrt, pow)
          + TotalLighting(ms, point, normal, viewVector, specular, sqrt, pow)
    decreases |ms|
  {
    if |ms| == 0 {
      assert ls + ms == ls;
    } else {
      var front := ms[..|ms| - 1];
      assert (ls + ms)[..|ls + ms| - 1] == ls + front;
      TotalLightingAppend(ls, front, point, normal, viewVector, specular, sqrt, pow);
    }
  }

  /** The sum of the lights' intensities, as the scene's `reduce` adds them. */
  function TotalIntensity(lights: seq<SceneLight>): real {
    if |lights| == 0 then 0.0
    else TotalIntensity(lights[..|lights| - 1]) + lights[|lights| - 1].intensity
  }

  predicate AllAmbient(lights: seq<SceneLight>) {
    forall i | 0 <= i < |lights| :: lights[i].Ambient?
  }

  /** Under ambient lights only, every point receives the lights' total
      intensity. */
  lemma {:induction false} AmbientLightingIsTotalIntensity(lights: seq<SceneLight>, point: Vector3,
                                                           normal: Vector3, viewVector: Vector3,
                                                           specular: real, sqrt: real -> real,
                                                           pow: (real, real) -> real)
    requires IsSqrt(sqrt)
    requires AllAmbient(lights)
    ensures TotalLighting(lights, point, normal, viewVector, specular, sqrt, pow) == TotalIntensity(lights)
  {
    if |lights| != 0 {
      var front := lights[..|lights| - 1];
      assert AllAmbient(front) by {
        forall i | 0 <= i < |front| ensures front[i].Ambient? {
          assert front[i] == lights[i];
        }
      }
      AmbientLightingIsTotalIntensity(front, point, normal, viewVector, specular, sqrt, pow);
    }
  }

  /** With non-negative intensities and a positive `pow`, the lighting is
      never negative. */
  lemma {:induction false} LightingNonNegative(lights: seq<SceneLight>, point: Vector3, normal: Vector3,
                                               viewVector: Vector3, specular: real,
                                               sqrt: real -> real, pow: (real, real) -> real)
    requires IsSqrt(sqrt) && PowPositive(pow)
    requires forall i | 0 <= i < |lights| :: 0.0 <= lights[i].intensity
    ensures 0.0 <= TotalLighting(lights, point, normal, viewVector, specular, sqrt, pow)
  {
    if |lights| != 0 {
      var front := lights[..|lights| - 1];
      assert forall i | 0 <= i < |front| :: front[i] == lights[i];
      LightingNonNegative(front, point, normal, viewVector, specular, sqrt, pow);
    }
  }
}
