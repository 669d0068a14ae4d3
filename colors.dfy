/** Colours as the renderers receive them: three channels and an optional
    alpha channel, each a number meant for one byte of an RGBA buffer. */
module Colors {
  import opened Wrappers
  import Numeric

  /** An absent `alpha` property is `None`. */
  datatype Color = Color(red: real, green: real, blue: real, alpha: Option<real>)

  const Red: Color := Color(255.0, 0.0, 0.0, None)
  const Green: Color := Color(0.0, 255.0, 0.0, None)
  const Blue: Color := Color(0.0, 0.0, 255.0, None)
  // The cube model also names Yellow, Purple and Cyan, which the colour
  // file does not declare; these are their conventional RGB values.
  const Yellow: Color := Color(255.0, 255.0, 0.0, None)
  const Purple: Color := Color(128.0, 0.0, 128.0, None)
  const Cyan: Color := Color(0.0, 255.0, 255.0, None)

  /** The alpha byte under `color.alpha !== undefined ? color.alpha : 255`. */
  function AlphaOrOpaque(alpha: Option<real>): real {
    alpha.GetOr(255.0)
  }

  /** The alpha byte under `color.alpha || 255`. */
  function AlphaOr255(alpha: Option<real>): real {
    Numeric.Or(alpha, 255.0)
  }

  /** The two alpha defaults agree on every colour except one whose alpha is
      present and 0: the first keeps it transparent, the second makes it
      opaque. Both make a colour without alpha opaque. */
  lemma AlphaDefaultsDiffer(alpha: Option<real>)
    ensures AlphaOrOpaque(alpha) == AlphaOr255(alpha) <==> alpha != Some(0.0)
    ensures alpha == None ==> AlphaOrOpaque(alpha) == 255.0 && AlphaOr255(alpha) == 255.0
    ensures alpha.Some? ==> AlphaOrOpaque(alpha) == alpha.value
    ensures AlphaOr255(Some(0.0)) == 255.0
  {
  }

  /** The red, green and blue channels lie in the byte range. */
  predicate InByteRange(c: Color) {
    && 0.0 <= c.red <= 255.0 && 0.0 <= c.green <= 255.0 && 0.0 <= c.blue <= 255.0
  }
}
