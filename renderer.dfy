/** The plain renderer of the first chapters: a canvas buffer and
    `putPixel`, whose alpha byte defaults through `||`. */
module BaseRenderer {
  import opened Colors
  import opened Canvas

  class Renderer {
    const width: nat
    const height: nat
    const buffer: array<int>
    const pitch: int

    /** The buffer holds one RGBA pixel per canvas pixel. */
    predicate Valid()
      reads this
    {
      buffer.Length == 4 * width * height && pitch == 4 * width
    }

    /** `pixels` is the canvas's image data; a row is `4 * width` bytes. */
    constructor(width: nat, height: nat, pixels: array<int>)
      requires pixels.Length == 4 * width * height
      ensures this.width == width && this.height == height && buffer == pixels
      ensures pitch == 4 * width
      ensures Valid()
    {
      this.width := width;
      this.height := height;
      buffer := pixels;
      pitch := 4 * width;
    }

    /** `putPixel`: the four bytes of `color` at the unfloored shifted
        coordinates; an absent or zero alpha is stored as 255. */
    method PutPixel(x: real, y: real, color: Color)
      requires Valid()
      modifies buffer
      ensures Valid()
      ensures buffer[..] == PutPixelUnfloored(old(buffer[..]), width, height, pitch, x, y, color,
                                              AlphaOr255(color.alpha))
      ensures OutsideUnfloored(width, height, x, y) ==> buffer[..] == old(buffer[..])
      ensures forall i | 0 <= i < buffer.Length
                         && !(UnflooredOffset(width, height, pitch, x, y) <= i as real
                              < UnflooredOffset(width, height, pitch, x, y) + 4.0) ::
                buffer[i] == old(buffer[i])
    {
      ghost var before := buffer[..];
      PutPixelUnflooredWritesAtOffset(before, width, height, x, y, color, AlphaOr255(color.alpha));
      if OutsideUnfloored(width, height, x, y) {
        return;
      }
      var offset := UnflooredOffset(width, height, pitch, x, y);
      StorePixelInto(buffer, offset, color, AlphaOr255(color.alpha));
    }
  }
}
