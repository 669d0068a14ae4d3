/** The rasterizer's renderer: `putPixel` on floored coordinates and the
    naive `drawLine` that plots one pixel per unit step along x. */
module Rasterizer {
  import opened Wrappers
  import opened Numeric
  import opened Algebra
  import opened Colors
  import opened Canvas

  /** A point of the canvas, `[x, y]`. */
  type Vector2 = (real, real)

  /** The points `drawLine` plots: one for each `x` from the start's `x` up
      to the end's, in unit steps, on the line `y = a * x + b` through the
      two end points. With equal `x` coordinates the slope is infinite (or
      not a number), `y` is not a number, and no pixel is stored, so there
      are no points. */
  function LinePoints(startPoint: Vector2, endPoint: Vector2): seq<Vector2> {
    if startPoint.0 == endPoint.0 then []
    else seq(StepCount(startPoint.0, endPoint.0), k => LinePoint(startPoint, endPoint, k))
  }

  /** The slope `a` of the line through two points with different `x`. */
  function Slope(startPoint: Vector2, endPoint: Vector2): real
    requires startPoint.0 != endPoint.0
  {
    (endPoint.1 - startPoint.1) / (endPoint.0 - startPoint.0)
  }

  /** The intercept `b` of that line. */
  function Intercept(startPoint: Vector2, endPoint: Vector2): real
    requires startPoint.0 != endPoint.0
  {
    startPoint.1 - Slope(startPoint, endPoint) * startPoint.0
  }

  /** The `k`-th point: `x = startX + k`, `y = a * x + b`. */
  function LinePoint(startPoint: Vector2, endPoint: Vector2, k: int): Vector2
    requires startPoint.0 != endPoint.0
  {
    var x := startPoint.0 + k as real;
    (x, Slope(startPoint, endPoint) * x + Intercept(startPoint, endPoint))
  }

  lemma LinePointAt(startPoint: Vector2, endPoint: Vector2, k: nat)
    requires startPoint.0 != endPoint.0 && k < StepCount(startPoint.0, endPoint.0)
    ensures k < |LinePoints(startPoint, endPoint)|
    ensures LinePoints(startPoint, endPoint)[k] == LinePoint(startPoint, endPoint, k)
  {
  }

  /** While `x == startX + k` has not passed the end, the `k`-th point is
      `(x, a * x + b)`. */
  lemma NextLinePoint(startPoint: Vector2, endPoint: Vector2, k: nat, x: real)
    requires startPoint.0 != endPoint.0
    requires x == startPoint.0 + k as real && x <= endPoint.0
    ensures k < |LinePoints(startPoint, endPoint)|
    ensures LinePoints(startPoint, endPoint)[k].0 == x
    ensures LinePoints(startPoint, endPoint)[k].1 == Slope(startPoint, endPoint) * x + Intercept(startPoint, endPoint)
  {
    StepCountBound(startPoint.0, endPoint.0, k);
    LinePointAt(startPoint, endPoint, k);
  }

  /** The buffer after `putPixel` at each of `points` in turn. */
  function Plotted(data: seq<int>, width: nat, height: nat, pitch: int, points: seq<Vector2>,
                   color: Color, alpha: real): seq<int>
  {
    if |points| == 0 then data
    else
      var p := points[|points| - 1];
      PutPixelFloored(Plotted(data, width, height, pitch, points[..|points| - 1], color, alpha),
                      width, height, pitch, p.0, p.1, color, alpha)
  }

  /** Plotting one more point is one more `putPixel`. */
  lemma PlottedStep(data: seq<int>, width: nat, height: nat, pitch: int, points: seq<Vector2>, k: nat,
                    x: real, y: real, color: Color, alpha: real)
    requires k < |points| && points[k].0 == x && points[k].1 == y
    ensures Plotted(data, width, height, pitch, points[..k + 1], color, alpha)
         == PutPixelFloored(Plotted(data, width, height, pitch, points[..k], color, alpha),
                            width, height, pitch, x, y, color, alpha)
  {
    assert points[..k + 1][..k] == points[..k];
  }

  /** A start to the right of the end plots nothing. */
  lemma LineEmptyWhenReversed(startPoint: Vector2, endPoint: Vector2)
    requires endPoint.0 < startPoint.0
    ensures LinePoints(startPoint, endPoint) == []
  {
  }

  /** The first point plotted is the start point. */
  lemma LineStartsAtStart(startPoint: Vector2, endPoint: Vector2)
    requires startPoint.0 < endPoint.0
    ensures |LinePoints(startPoint, endPoint)| == (endPoint.0 - startPoint.0).Floor + 1
    ensures LinePoints(startPoint, endPoint)[0] == startPoint
  {
    LinePointAt(startPoint, endPoint, 0);
    var a := Slope(startPoint, endPoint);
    assert a * startPoint.0 + Intercept(startPoint, endPoint) == startPoint.1;
  }

  /** When the end lies a whole number `n` of steps to the right, the last
      of the `n + 1` points plotted is the end point. */
  lemma LineEndsAtEnd(startPoint: Vector2, endPoint: Vector2, n: nat)
    requires 0 < n && endPoint.0 - startPoint.0 == n as real
    ensures |LinePoints(startPoint, endPoint)| == n + 1
    ensures LinePoints(startPoint, endPoint)[n] == endPoint
  {
    LinePointAt(startPoint, endPoint, n);
    var a := Slope(startPoint, endPoint);
    var b := Intercept(startPoint, endPoint);
    assert a * n as real == endPoint.1 - startPoint.1;
    assert a * (startPoint.0 + n as real) + b == endPoint.1;
    var p := LinePoint(startPoint, endPoint, n);
    assert p.0 == endPoint.0 && p.1 == endPoint.1;
  }

  /** Every point plotted lies on the line through the two end points, one
      unit step after the one before. */
  lemma LinePointsOnLine(startPoint: Vector2, endPoint: Vector2)
    ensures forall k | 0 <= k < |LinePoints(startPoint, endPoint)| ::
              var p := LinePoints(startPoint, endPoint)[k];
              && p.0 == startPoint.0 + k as real
              && (p.1 - startPoint.1) * (endPoint.0 - startPoint.0) == (endPoint.1 - startPoint.1) * (p.0 - startPoint.0)
  {
    if startPoint.0 != endPoint.0 {
      var dx := endPoint.0 - startPoint.0;
      var a := Slope(startPoint, endPoint);
      forall k | 0 <= k < |LinePoints(startPoint, endPoint)|
        ensures var p := LinePoints(startPoint, endPoint)[k];
                (p.1 - startPoint.1) * dx == (endPoint.1 - startPoint.1) * (p.0 - startPoint.0)
      {
        LinePointAt(startPoint, endPoint, k);
        var p := LinePoints(startPoint, endPoint)[k];
        var run := p.0 - startPoint.0;
        assert p.1 - startPoint.1 == a * run;
        assert a * run * dx == (a * dx) * run;
        assert a * dx == endPoint.1 - startPoint.1;
      }
    }
  }

  /** Plotting keeps the buffer's length and keeps its values bytes. */
  lemma {:induction false} PlottedKeepsBuffer(data: seq<int>, width: nat, height: nat, pitch: int,
                                              points: seq<Vector2>, color: Color, alpha: real)
    ensures |Plotted(data, width, height, pitch, points, color, alpha)| == |data|
    ensures IsByteBuffer(data) ==> IsByteBuffer(Plotted(data, width, height, pitch, points, color, alpha))
  {
    if |points| != 0 {
      var p := points[|points| - 1];
      var before := Plotted(data, width, height, pitch, points[..|points| - 1], color, alpha);
      PlottedKeepsBuffer(data, width, height, pitch, points[..|points| - 1], color, alpha);
      if !OutsideFloored(width, height, p.0, p.1) {
        StorePixelFrame(before, FlooredOffset(width, height, pitch, p.0, p.1) as real, color, alpha);
      }
    }
  }

  /** The rasterizer's renderer: a canvas of `width` by `height` pixels
      whose RGBA bytes are `buffer`, and the viewport, camera and background
      it draws with. */
  class Renderer {
    const width: nat
    const height: nat
    const buffer: array<int>
    const pitch: int
    const viewportSize: real
    const zProjectionPlane: real
    const cameraPosition: Vector3
    const backgroundColor: Color

    /** The buffer holds one RGBA pixel per canvas pixel. */
    predicate Valid()
      reads this
    {
      buffer.Length == 4 * width * height && pitch == 4 * width
    }

    /** `pixels` is the canvas's image data. A missing or zero viewport size
        or projection plane becomes 1, a missing camera sits at the origin
        and a missing background is opaque white. */
    constructor(width: nat, height: nat, pixels: array<int>, viewportSize: Option<real>,
                zProjectionPlane: Option<real>, cameraPosition: Option<Vector3>,
                backgroundColor: Option<Color>)
      requires pixels.Length == 4 * width * height
      ensures this.width == width && this.height == height && buffer == pixels
      ensures pitch == 4 * width
      ensures this.viewportSize == Or(viewportSize, 1.0)
      ensures this.zProjectionPlane == Or(zProjectionPlane, 1.0)
      ensures this.cameraPosition == cameraPosition.GetOr(Zero)
      ensures this.backgroundColor == backgroundColor.GetOr(Color(255.0, 255.0, 255.0, None))
      ensures Valid()
    {
      this.width := width;
      this.height := height;
      buffer := pixels;
      pitch := 4 * width;
      this.viewportSize := Or(viewportSize, 1.0);
      this.zProjectionPlane := Or(zProjectionPlane, 1.0);
      this.cameraPosition := cameraPosition.GetOr(Zero);
      this.backgroundColor := backgroundColor.GetOr(Color(255.0, 255.0, 255.0, None));
    }

    /** `putPixel`: the four bytes of `color` at the floored shifted
        coordinates; an absent alpha is stored as 255. */
    method PutPixel(x: real, y: real, color: Color)
      requires Valid()
      modifies buffer
      ensures Valid()
      ensures buffer[..] == PutPixelFloored(old(buffer[..]), width, height, pitch, x, y, color,
                                            AlphaOrOpaque(color.alpha))
      ensures var actualX, actualY := ShiftX(width, x).Floor, ShiftY(height, y).Floor;
              if 0 <= actualX < width && 0 <= actualY < height then
                var offset := 4 * (actualX + width * actualY);
                && 0 <= offset && offset + 4 <= buffer.Length
                && buffer[..] == old(buffer[..])[..offset]
                                 + [ClampToByte(color.red), ClampToByte(color.green),
                                    ClampToByte(color.blue), ClampToByte(AlphaOrOpaque(color.alpha))]
                                 + old(buffer[..])[offset + 4..]
              else buffer[..] == old(buffer[..])
    {
      ghost var before := buffer[..];
      PutPixelFlooredWritesOnePixel(before, width, height, x, y, color, AlphaOrOpaque(color.alpha));
      if OutsideFloored(width, height, x, y) {
        return;
      }
      var offset := FlooredOffset(width, height, pitch, x, y);
      StorePixelInto(buffer, offset as real, color, AlphaOrOpaque(color.alpha));
    }

    /** `drawLine`: `putPixel` at every point of the line from `startPoint`
        to `endPoint`, left to right. */
    method DrawLine(startPoint: Vector2, endPoint: Vector2, color: Color)
      requires Valid()
      modifies buffer
      ensures Valid()
      ensures buffer[..] == Plotted(old(buffer[..]), width, height, pitch, LinePoints(startPoint, endPoint),
                                    color, AlphaOrOpaque(color.alpha))
    {
      if startPoint.0 == endPoint.0 {
        // The slope is infinite and `y` is not a number: the one pass of the loop stores nothing.
        return;
      }
      var a := Slope(startPoint, endPoint);
      var b := Intercept(startPoint, endPoint);
      ghost var initial := buffer[..];
      ghost var points := LinePoints(startPoint, endPoint);
      ghost var alpha := AlphaOrOpaque(color.alpha);
      ghost var k: nat := 0;
      var x := startPoint.0;
      while x <= endPoint.0
        invariant x == startPoint.0 + k as real
        invariant k <= |points|
        invariant buffer[..] == Plotted(initial, width, height, pitch, points[..k], color, alpha)
        decreases |points| - k
      {
        var y := a * x + b;
        NextLinePoint(startPoint, endPoint, k, x);
        PlottedStep(initial, width, height, pitch, points, k, x, y, color, alpha);
        PutPixel(x, y, color);
        x := x + 1.0;
        k := k + 1;
      }
      StepCountBound(startPoint.0, endPoint.0, k);
      assert points[..k] == points;
    }
  }
}
