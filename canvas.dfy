/** The pixel buffer shared by the renderers: the RGBA bytes of a canvas,
    row after row, four bytes per pixel, and the stores `putPixel` makes
    into it. */
module Canvas {
  import opened Algebra
  import opened Colors

  predicate IsByte(v: int) {
    0 <= v <= 255
  }

  predicate IsByteBuffer(data: seq<int>) {
    forall i | 0 <= i < |data| :: IsByte(data[i])
  }

  /** The byte a `Uint8ClampedArray` stores for the number `v`: clamped to
      [0, 255] and rounded to the nearest integer, ties to even. */
  function ClampToByte(v: real): (b: int)
    ensures IsByte(b)
    ensures v <= 0.0 ==> b == 0
    ensures 255.0 <= v ==> b == 255
    ensures 0.0 <= v <= 255.0 ==> -0.5 <= b as real - v <= 0.5
  {
    if v <= 0.0 then 0
    else if 255.0 <= v then 255
    else
      var f := v.Floor;
      if f as real + 0.5 < v then f + 1
      else if v < f as real + 0.5 then f
      else if f % 2 == 0 then f
      else f + 1
  }

  /** A byte is stored as itself, and a half-way value goes to the even
      neighbour. */
  lemma ClampToByteRounding(n: int)
    requires 0 <= n < 255
    ensures ClampToByte(n as real) == n
    ensures ClampToByte(n as real + 0.5) % 2 == 0
    ensures ClampToByte(n as real + 0.5) == n || ClampToByte(n as real + 0.5) == n + 1
  {
    assert (n as real).Floor == n;
    assert (n as real + 0.5).Floor == n;
  }

  /** `data[index] = v` on a `Uint8ClampedArray`: an index that is not an
      integer inside the array stores nothing. */
  function StoreAt(data: seq<int>, index: real, v: real): seq<int> {
    if index.Floor as real == index && 0 <= index.Floor < |data| then data[index.Floor := ClampToByte(v)]
    else data
  }

  /** A store changes at most the byte at `index` and keeps a byte buffer
      one. */
  lemma StoreAtFrame(data: seq<int>, index: real, v: real)
    ensures |StoreAt(data, index, v)| == |data|
    ensures forall i | 0 <= i < |data| && i as real != index :: StoreAt(data, index, v)[i] == data[i]
    ensures IsByteBuffer(data) ==> IsByteBuffer(StoreAt(data, index, v))
    ensures 0.0 <= index < |data| as real && index.Floor as real == index ==>
      StoreAt(data, index, v)[index.Floor] == ClampToByte(v)
  {
  }

  method Store(data: array<int>, index: real, v: real)
    modifies data
    ensures data[..] == StoreAt(old(data[..]), index, v)
  {
    if index.Floor as real == index && 0 <= index.Floor < data.Length {
      data[index.Floor] := ClampToByte(v);
    }
  }

  /** The four stores of `putPixel`, from `offset` on: red, green, blue and
      the alpha byte. */
  function StorePixel(data: seq<int>, offset: real, color: Color, alpha: real): seq<int> {
    StoreAt(StoreAt(StoreAt(StoreAt(data, offset, color.red), offset + 1.0, color.green),
                    offset + 2.0, color.blue),
            offset + 3.0, alpha)
  }

  /** The four stores at `offset`, `offset + 1`, `offset + 2`, `offset + 3`
      as `method`s on the array. */
  method StorePixelInto(data: array<int>, offset: real, color: Color, alpha: real)
    modifies data
    ensures data[..] == StorePixel(old(data[..]), offset, color, alpha)
  {
    var o := offset;
    Store(data, o, color.red);
    o := o + 1.0;
    Store(data, o, color.green);
    o := o + 1.0;
    Store(data, o, color.blue);
    o := o + 1.0;
    Store(data, o, alpha);
  }

  /** A pixel store touches at most the four bytes from `offset` on. */
  lemma StorePixelFrame(data: seq<int>, offset: real, color: Color, alpha: real)
    ensures |StorePixel(data, offset, color, alpha)| == |data|
    ensures IsByteBuffer(data) ==> IsByteBuffer(StorePixel(data, offset, color, alpha))
    ensures forall i | 0 <= i < |data| && !(offset <= i as real < offset + 4.0) ::
      StorePixel(data, offset, color, alpha)[i] == data[i]
  {
    var d1 := StoreAt(data, offset, color.red);
    var d2 := StoreAt(d1, offset + 1.0, color.green);
    var d3 := StoreAt(d2, offset + 2.0, color.blue);
    StoreAtFrame(data, offset, color.red);
    StoreAtFrame(d1, offset + 1.0, color.green);
    StoreAtFrame(d2, offset + 2.0, color.blue);
    StoreAtFrame(d3, offset + 3.0, alpha);
  }

  /** At an integer offset with room for four bytes, the pixel's four bytes
      replace exactly `data[offset .. offset + 4]`. */
  lemma StorePixelAligned(data: seq<int>, offset: int, color: Color, alpha: real)
    requires 0 <= offset && offset + 4 <= |data|
    ensures StorePixel(data, offset as real, color, alpha)
         == data[..offset]
          + [ClampToByte(color.red), ClampToByte(color.green), ClampToByte(color.blue), ClampToByte(alpha)]
          + data[offset + 4..]
  {
    var o := offset as real;
    assert o.Floor == offset;
    assert (o + 1.0).Floor == offset + 1;
    assert (o + 2.0).Floor == offset + 2;
    assert (o + 3.0).Floor == offset + 3;
  }

  /** The column and row a canvas coordinate lands on: the origin is the
      centre of the canvas and y grows upwards. */
  function ShiftX(width: nat, x: real): real {
    width as real / 2.0 + x
  }

  function ShiftY(height: nat, y: real): real {
    height as real / 2.0 - y - 1.0
  }

  /** The buffer after the ray tracer's and the base renderer's `putPixel`:
      the shifted coordinates are used as they are. */
  function PutPixelUnfloored(data: seq<int>, width: nat, height: nat, pitch: int,
                             x: real, y: real, color: Color, alpha: real): seq<int>
  {
    if OutsideUnfloored(width, height, x, y) then data
    else StorePixel(data, UnflooredOffset(width, height, pitch, x, y), color, alpha)
  }

  /** The shifted coordinates, unfloored, fall outside the canvas. */
  predicate OutsideUnfloored(width: nat, height: nat, x: real, y: real) {
    var actualX, actualY := ShiftX(width, x), ShiftY(height, y);
    actualX < 0.0 || actualX >= width as real || actualY < 0.0 || actualY >= height as real
  }

  /** `4 * actualX + pitch * actualY` on the unfloored coordinates. */
  function UnflooredOffset(width: nat, height: nat, pitch: int, x: real, y: real): real {
    4.0 * ShiftX(width, x) + pitch as real * ShiftY(height, y)
  }

  /** The buffer after the rasterizer's `putPixel`: the shifted coordinates
      are floored first. */
  function PutPixelFloored(data: seq<int>, width: nat, height: nat, pitch: int,
                           x: real, y: real, color: Color, alpha: real): seq<int>
  {
    if OutsideFloored(width, height, x, y) then data
    else StorePixel(data, FlooredOffset(width, height, pitch, x, y) as real, color, alpha)
  }

  /** The shifted coordinates, floored, fall outside the canvas. */
  predicate OutsideFloored(width: nat, height: nat, x: real, y: real) {
    var actualX, actualY := ShiftX(width, x).Floor, ShiftY(height, y).Floor;
    actualX < 0 || actualX >= width || actualY < 0 || actualY >= height
  }

  /** `4 * actualX + pitch * actualY` on the floored coordinates. */
  function FlooredOffset(width: nat, height: nat, pitch: int, x: real, y: real): int {
    4 * ShiftX(width, x).Floor + pitch * ShiftY(height, y).Floor
  }

  lemma FlooredOffsetInBounds(width: nat, height: nat, ax: int, ay: int)
    requires 0 <= ax < width && 0 <= ay < height
    ensures 0 <= 4 * ax + 4 * width * ay
    ensures 4 * ax + 4 * width * ay + 4 <= 4 * width * height
    ensures (4 * ax + 4 * width * ay) % 4 == 0
  {
    var row := width * ay;
    assert row + width == width * (ay + 1);
    MultiplyMonotonic(width, ay + 1, height);
    assert 0 <= row by {
      MultiplyMonotonic(width, 0, ay);
    }
    assert 4 * ax + 4 * width * ay == 4 * (ax + row);
  }

  lemma MultiplyMonotonic(a: nat, b: int, c: int)
    requires b <= c
    ensures a * b <= a * c
  {
    var d := c - b;
    assert a * c == a * b + a * d;
  }

  lemma CastProduct(a: int, b: int)
    ensures (a * b) as real == a as real * b as real
  {
  }

  /** The rasterizer's `putPixel` on a buffer of `4 * width * height` bytes
      with `pitch == 4 * width`: outside the canvas it changes nothing;
      inside, it replaces exactly the four bytes of the pixel in column
      `floor(width/2 + x)` and row `floor(height/2 - y - 1)`. */
  lemma PutPixelFlooredWritesOnePixel(data: seq<int>, width: nat, height: nat, x: real, y: real,
                                      color: Color, alpha: real)
    requires |data| == 4 * width * height
    ensures var actualX, actualY := ShiftX(width, x).Floor, ShiftY(height, y).Floor;
            var r := PutPixelFloored(data, width, height, 4 * width, x, y, color, alpha);
            if 0 <= actualX < width && 0 <= actualY < height then
              var offset := 4 * (actualX + width * actualY);
              && 0 <= offset && offset + 4 <= |data|
              && r == data[..offset]
                      + [ClampToByte(color.red), ClampToByte(color.green), ClampToByte(color.blue),
                         ClampToByte(alpha)]
                      + data[offset + 4..]
            else r == data
  {
    var actualX, actualY := ShiftX(width, x).Floor, ShiftY(height, y).Floor;
    if 0 <= actualX < width && 0 <= actualY < height {
      FlooredOffsetInBounds(width, height, actualX, actualY);
      var offset := 4 * actualX + 4 * width * actualY;
      assert offset == 4 * (actualX + width * actualY);
      StorePixelAligned(data, offset, color, alpha);
    }
  }

  /** The ray tracer's and the base renderer's `putPixel` on a buffer of
      `4 * width * height` bytes with `pitch == 4 * width`: outside the
      canvas it changes nothing; inside, it changes at most the four bytes
      from the offset on, and when the shifted coordinates are whole numbers
      it replaces exactly those four bytes. */
  lemma PutPixelUnflooredWritesAtOffset(data: seq<int>, width: nat, height: nat, x: real, y: real,
                                        color: Color, alpha: real)
    requires |data| == 4 * width * height
    ensures var r := PutPixelUnfloored(data, width, height, 4 * width, x, y, color, alpha);
            var offset := UnflooredOffset(width, height, 4 * width, x, y);
            && |r| == |data|
            && (OutsideUnfloored(width, height, x, y) ==> r == data)
            && (forall i | 0 <= i < |data| && !(offset <= i as real < offset + 4.0) :: r[i] == data[i])
    ensures var actualX, actualY := ShiftX(width, x), ShiftY(height, y);
            var r := PutPixelUnfloored(data, width, height, 4 * width, x, y, color, alpha);
            !OutsideUnfloored(width, height, x, y)
            && actualX == actualX.Floor as real && actualY == actualY.Floor as real ==>
              var offset := 4 * (actualX.Floor + width * actualY.Floor);
              && 0 <= offset && offset + 4 <= |data|
              && r == data[..offset]
                      + [ClampToByte(color.red), ClampToByte(color.green), ClampToByte(color.blue),
                         ClampToByte(alpha)]
                      + data[offset + 4..]
  {
    var actualX, actualY := ShiftX(width, x), ShiftY(height, y);
    StorePixelFrame(data, UnflooredOffset(width, height, 4 * width, x, y), color, alpha);
    if !OutsideUnfloored(width, height, x, y) && actualX == actualX.Floor as real
       && actualY == actualY.Floor as real {
      var ax, ay := actualX.Floor, actualY.Floor;
      UnflooredAtIntegers(data, width, height, 4 * width, x, y, color, alpha, ax, ay);
      FlooredAtIntegers(data, width, height, 4 * width, x, y, color, alpha, ax, ay);
      PutPixelFlooredWritesOnePixel(data, width, height, x, y, color, alpha);
    }
  }

  /** On a canvas of even width and height and at integer coordinates both
      forms of `putPixel` agree. */
  lemma UnflooredAgreesOnEvenCanvas(data: seq<int>, width: nat, height: nat, pitch: int,
                                    x: int, y: int, color: Color, alpha: real)
    requires width % 2 == 0 && height % 2 == 0
    ensures PutPixelUnfloored(data, width, height, pitch, x as real, y as real, color, alpha)
         == PutPixelFloored(data, width, height, pitch, x as real, y as real, color, alpha)
  {
    var ax := width / 2 + x;
    var ay := height / 2 - y - 1;
    HalfIsExact(width, x as real, x);
    HalfIsExact(height, -y as real - 1.0, -y - 1);
    assert ShiftY(height, y as real) == ay as real;
    UnflooredAtIntegers(data, width, height, pitch, x as real, y as real, color, alpha, ax, ay);
    FlooredAtIntegers(data, width, height, pitch, x as real, y as real, color, alpha, ax, ay);
  }

  lemma HalfIsExact(width: nat, x: real, n: int)
    requires width % 2 == 0 && x == n as real
    ensures width as real / 2.0 + x == (width / 2 + n) as real
  {
    var hw := width / 2;
    assert width == 2 * hw;
    assert width as real == 2.0 * hw as real;
  }

  lemma UnflooredAtIntegers(data: seq<int>, width: nat, height: nat, pitch: int,
                            x: real, y: real, color: Color, alpha: real, ax: int, ay: int)
    requires ShiftX(width, x) == ax as real && ShiftY(height, y) == ay as real
    ensures PutPixelUnfloored(data, width, height, pitch, x, y, color, alpha)
         == if ax < 0 || ax >= width || ay < 0 || ay >= height then data
            else StorePixel(data, (4 * ax + pitch * ay) as real, color, alpha)
  {
    CastProduct(pitch, ay);
    assert 4.0 * ShiftX(width, x) + pitch as real * ShiftY(height, y) == (4 * ax + pitch * ay) as real;
  }

  lemma FlooredAtIntegers(data: seq<int>, width: nat, height: nat, pitch: int,
                          x: real, y: real, color: Color, alpha: real, ax: int, ay: int)
    requires ShiftX(width, x) == ax as real && ShiftY(height, y) == ay as real
    ensures PutPixelFloored(data, width, height, pitch, x, y, color, alpha)
         == if ax < 0 || ax >= width || ay < 0 || ay >= height then data
            else StorePixel(data, (4 * ax + pitch * ay) as real, color, alpha)
  {
    assert ShiftX(width, x).Floor == ax;
    assert ShiftY(height, y).Floor == ay;
  }

  /** On a canvas of odd width the unfloored `putPixel` of the centre pixel
      starts at byte 6, the blue byte of pixel 1: red lands in pixel 1 and
      blue and alpha in pixel 2. */
  lemma UnflooredMisalignsOnOddWidth(data: seq<int>)
    requires |data| == 4 * 3 * 2
    ensures var r := PutPixelUnfloored(data, 3, 2, 4 * 3, 0.0, 0.0, Red, AlphaOrOpaque(Red.alpha));
            && r[6] == 255 && r[7] == 0 && r[8] == 0 && r[9] == 255
            && r[4] == data[4] && r[5] == data[5] && r[10] == data[10] && r[11] == data[11]
  {
    assert ShiftX(3, 0.0) == 1.5;
    assert ShiftY(2, 0.0) == 0.0;
    assert (6.0).Floor == 6;
    assert (7.0).Floor == 7;
    assert (8.0).Floor == 8;
    assert (9.0).Floor == 9;
  }

  /** On a canvas of odd height the unfloored offset is half a row past the
      floored one: on a 2 by 3 canvas, `putPixel(0, 0)` writes the whole
      pixel at byte 8 (row 1, column 0) where the floored form writes the
      pixel at byte 4 (row 0, column 1). */
  lemma UnflooredShiftsOnOddHeight()
    ensures UnflooredOffset(2, 3, 4 * 2, 0.0, 0.0) == 8.0
    ensures FlooredOffset(2, 3, 4 * 2, 0.0, 0.0) == 4
  {
    assert ShiftX(2, 0.0) == 1.0;
    assert ShiftY(3, 0.0) == 0.5;
    assert (1.0).Floor == 1;
    assert (0.5).Floor == 0;
  }

  /** `canvasToViewport`: scales canvas coordinates to the viewport and puts
      the point on the projection plane. Every point of the canvas, whose
      coordinates run from `-width/2` to `width/2` and from `-height/2` to
      `height/2`, lands in the viewport, which runs from `-viewportSize/2` to
      `viewportSize/2` both ways; with a positive viewport size `x`
      and `y` keep their sign. */
  function CanvasToViewport(x: real, y: real, viewportSize: real, width: nat, height: nat,
                            zProjectionPlane: real): (p: Vector3)
    requires 0 < width && 0 < height
    ensures p.z == zProjectionPlane
    ensures 0.0 <= viewportSize && -(width as real) / 2.0 <= x <= width as real / 2.0 ==>
              -viewportSize / 2.0 <= p.x <= viewportSize / 2.0
    ensures 0.0 <= viewportSize && -(height as real) / 2.0 <= y <= height as real / 2.0 ==>
              -viewportSize / 2.0 <= p.y <= viewportSize / 2.0
    ensures 0.0 < viewportSize ==> (0.0 < x <==> 0.0 < p.x) && (0.0 < y <==> 0.0 < p.y)
  {
    var px, py := (x * viewportSize) / width as real, (y * viewportSize) / height as real;
    ScaledIntoViewport(x, viewportSize, width as real);
    ScaledIntoViewport(y, viewportSize, height as real);
    Vector3(px, py, zProjectionPlane)
  }

  /** `x * size / extent` maps `[-extent/2, extent/2]` into
      `[-size/2, size/2]`, and keeps the sign of `x` when `size > 0`. */
  lemma ScaledIntoViewport(x: real, size: real, extent: real)
    requires 0.0 < extent
    ensures 0.0 <= size && -extent / 2.0 <= x <= extent / 2.0 ==>
              -size / 2.0 <= (x * size) / extent <= size / 2.0
    ensures 0.0 < size ==> (0.0 < x <==> 0.0 < (x * size) / extent)
  {
    var q := x / extent;
    assert (x * size) / extent == q * size;
    assert q * extent == x;
    if 0.0 <= size && -extent / 2.0 <= x <= extent / 2.0 {
      QuotientFollowsSign(x + extent / 2.0, extent);
      QuotientFollowsSign(extent / 2.0 - x, extent);
      assert (q + 0.5) * extent == x + extent / 2.0;
      assert (0.5 - q) * extent == extent / 2.0 - x;
      DivideBack(x + extent / 2.0, extent, q + 0.5);
      DivideBack(extent / 2.0 - x, extent, 0.5 - q);
      ProductNonNegative(q + 0.5, size);
      ProductNonNegative(0.5 - q, size);
    }
    if 0.0 < size {
      if 0.0 < x {
        assert 0.0 < q;
        assert 0.0 < q * size;
      } else {
        assert q <= 0.0;
        ProductNonNegative(-q, size);
      }
    }
  }

  /** Dividing `r * e` by `e` gives back `r`. */
  lemma DivideBack(a: real, e: real, r: real)
    requires e != 0.0 && r * e == a
    ensures a / e == r
  {
  }

  /** The canvas's corners map to the viewport's corners. */
  lemma CanvasCornersToViewportCorners(viewportSize: real, width: nat, height: nat, z: real)
    requires 0 < width && 0 < height
    ensures CanvasToViewport(width as real / 2.0, height as real / 2.0, viewportSize, width, height, z)
         == Vector3(viewportSize / 2.0, viewportSize / 2.0, z)
  {
  }
}
