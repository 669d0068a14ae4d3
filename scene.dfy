/** The ray tracer's scene: a list of spheres and a list of lights whose
    intensities are renormalised to sum to 1 each time a light is added. */
module Scenes {
  import opened Algebra
  import opened Lights
  import opened Shapes

  /** Two lights of the same kind at the same place or in the same
      direction; they may differ in intensity. */
  predicate SameSource(a: SceneLight, b: SceneLight) {
    a.(intensity := 0.0) == b.(intensity := 0.0)
  }

  /** Every intensity divided by `total`, as `l.intensity / totalIntensity`. */
  function DividedBy(lights: seq<SceneLight>, total: real): seq<SceneLight>
    requires total != 0.0
  {
    seq(|lights|, i requires 0 <= i < |lights| => lights[i].(intensity := lights[i].intensity / total))
  }

  /** The lights after renormalisation. A zero total is left as it is: the
      source would divide by zero there. */
  function Normalized(lights: seq<SceneLight>): seq<SceneLight> {
    var total := TotalIntensity(lights);
    if total == 0.0 then lights else DividedBy(lights, total)
  }

  lemma DivisionDistributes(a: real, b: real, t: real)
    requires t != 0.0
    ensures a / t + b / t == (a + b) / t
  {
  }

  /** Dividing every intensity by `t` divides their sum by `t`. */
  lemma {:induction false} TotalIntensityDividedBy(lights: seq<SceneLight>, t: real)
    requires t != 0.0
    ensures TotalIntensity(DividedBy(lights, t)) == TotalIntensity(lights) / t
  {
    if |lights| != 0 {
      var n := |lights| - 1;
      assert DividedBy(lights, t)[..n] == DividedBy(lights[..n], t);
      TotalIntensityDividedBy(lights[..n], t);
      DivisionDistributes(TotalIntensity(lights[..n]), lights[n].intensity, t);
    }
  }

  /** After renormalisation with a non-zero total the intensities sum to 1. */
  lemma NormalizedSumsToOne(lights: seq<SceneLight>)
    requires TotalIntensity(lights) != 0.0
    ensures TotalIntensity(Normalized(lights)) == 1.0
  {
    var total := TotalIntensity(lights);
    TotalIntensityDividedBy(lights, total);
    assert total / total == 1.0;
  }

  /** Renormalisation keeps the number, the order, the kinds and the places
      of the lights, and the ratios between their intensities. */
  lemma NormalizedKeepsLights(lights: seq<SceneLight>)
    ensures |Normalized(lights)| == |lights|
    ensures forall i | 0 <= i < |lights| :: SameSource(Normalized(lights)[i], lights[i])
    ensures forall i, j | 0 <= i < |lights| && 0 <= j < |lights| ::
      Normalized(lights)[i].intensity * lights[j].intensity
        == Normalized(lights)[j].intensity * lights[i].intensity
  {
    var total := TotalIntensity(lights);
    if total != 0.0 {
      var r := DividedBy(lights, total);
      forall i, j | 0 <= i < |lights| && 0 <= j < |lights|
        ensures r[i].intensity * lights[j].intensity == r[j].intensity * lights[i].intensity
      {
        CrossRatio(lights[i].intensity, lights[j].intensity, total);
      }
    }
  }

  lemma CrossRatio(a: real, b: real, t: real)
    requires t != 0.0
    ensures (a / t) * b == (b / t) * a
  {
    assert (a / t) * b == (a * b) / t;
    assert (b / t) * a == (b * a) / t;
  }

  /** Renormalising lights that already sum to 1 changes nothing. */
  lemma NormalizedIdempotent(lights: seq<SceneLight>)
    requires TotalIntensity(lights) != 0.0
    ensures Normalized(Normalized(lights)) == Normalized(lights)
  {
    NormalizedSumsToOne(lights);
    var r := Normalized(lights);
    assert DividedBy(r, 1.0) == r;
  }

  class Scene {
    var spheres: seq<Sphere>
    var lights: seq<SceneLight>

    /** `new Scene(useStaticLight)`: no spheres, and a single ambient light
        of intensity 1 when asked for. */
    constructor(useStaticLight: bool)
      ensures spheres == []
      ensures lights == if useStaticLight then [Ambient(1.0)] else []
    {
      spheres := [];
      lights := [];
      new;
      if useStaticLight {
        AddLight(Ambient(1.0));
        assert DividedBy([Ambient(1.0)], 1.0) == [Ambient(1.0)];
      }
    }

    method ClearLights()
      modifies this
      ensures lights == [] && spheres == old(spheres)
    {
      lights := [];
    }

    method ClearSpheres()
      modifies this
      ensures spheres == [] && lights == old(lights)
    {
      spheres := [];
    }

    method AddSphere(sphere: Sphere)
      modifies this
      ensures spheres == old(spheres) + [sphere] && lights == old(lights)
    {
      spheres := spheres + [sphere];
    }

    /** Appends `light`, then divides every intensity by the new total.
        Lights are values here: each entry of the list is divided once,
        where the source divides a light object listed twice twice over. */
    method AddLight(light: SceneLight)
      modifies this
      ensures spheres == old(spheres)
      ensures lights == Normalized(old(lights) + [light])
    {
      lights := lights + [light];
      var totalIntensity := TotalIntensity(lights);
      if totalIntensity != 0.0 {
        ghost var original := lights;
        var i := 0;
        while i < |lights|
          invariant 0 <= i <= |lights| == |original|
          invariant lights[..i] == DividedBy(original, totalIntensity)[..i]
          invariant lights[i..] == original[i..]
          invariant spheres == old(spheres)
        {
          lights := lights[i := lights[i].(intensity := lights[i].intensity / totalIntensity)];
          i := i + 1;
        }
        assert lights == lights[..i];
      }
    }
  }

  /** After `addLight` the scene's intensities sum to 1 (unless they summed
      to 0), the new light is last, and the earlier lights keep their order,
      kinds and places. */
  lemma AddLightNormalizes(before: seq<SceneLight>, light: SceneLight)
    requires TotalIntensity(before + [light]) != 0.0
    ensures TotalIntensity(Normalized(before + [light])) == 1.0
    ensures |Normalized(before + [light])| == |before| + 1
    ensures SameSource(Normalized(before + [light])[|before|], light)
    ensures forall i | 0 <= i < |before| :: SameSource(Normalized(before + [light])[i], before[i])
  {
    NormalizedSumsToOne(before + [light]);
    NormalizedKeepsLights(before + [light]);
    assert forall i | 0 <= i < |before| :: (before + [light])[i] == before[i];
  }

  /** A scene lit only by ambient lights, once renormalised, lights every
      point with intensity exactly 1. */
  lemma NormalizedAmbientLightsGiveOne(lights: seq<SceneLight>, point: Vector3, normal: Vector3,
                                       viewVector: Vector3, specular: real,
                                       sqrt: real -> real, pow: (real, real) -> real)
    requires Numeric.IsSqrt(sqrt)
    requires AllAmbient(lights) && TotalIntensity(lights) != 0.0
    ensures TotalLighting(Normalized(lights), point, normal, viewVector, specular, sqrt, pow) == 1.0
  {
    NormalizedKeepsLights(lights);
    var r := Normalized(lights);
    assert AllAmbient(r) by {
      forall i | 0 <= i < |r| ensures r[i].Ambient? {
        assert SameSource(r[i], lights[i]);
      }
    }
    AmbientLightingIsTotalIntensity(r, point, normal, viewVector, specular, sqrt, pow);
    NormalizedSumsToOne(lights);
  }
}
