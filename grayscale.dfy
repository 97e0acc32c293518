/** Grayscale conversion: each RGB pixel is reduced to one real intensity by
    one of three per-pixel formulas, and an image is converted cell by cell. */
module Grayscale {
  import opened Buffers

  datatype Rgb = Rgb(r: Byte, g: Byte, b: Byte)

  /** The three conversion methods offered by the editor's radio buttons. */
  datatype Method = Lightness | Average | Luminosity

  /** The method a radio-button value selects: "average" and "luminosity"
      are recognised and every other value falls through to lightness. */
  function MethodNamed(name: string): (m: Method)
    ensures m == Average <==> name == "average"
    ensures m == Luminosity <==> name == "luminosity"
    ensures m == Lightness <==> name != "average" && name != "luminosity"
  {
    if name == "average" then Average
    else if name == "luminosity" then Luminosity
    else Lightness
  }

  /** The largest of the three channels. */
  function Max3(p: Rgb): (m: int)
    ensures m == p.r || m == p.g || m == p.b
    ensures p.r <= m && p.g <= m && p.b <= m
  {
    if p.r >= p.g && p.r >= p.b then p.r
    else if p.g >= p.b then p.g
    else p.b
  }

  /** The smallest of the three channels. */
  function Min3(p: Rgb): (m: int)
    ensures m == p.r || m == p.g || m == p.b
    ensures m <= p.r && m <= p.g && m <= p.b
  {
    if p.r <= p.g && p.r <= p.b then p.r
    else if p.g <= p.b then p.g
    else p.b
  }

  /** A pixel whose three channels are equal. */
  predicate IsGray(p: Rgb)
  {
    p.r == p.g == p.b
  }

  /** Mean of the three channels (`pixels.mean(axis=2)`). */
  function AverageOf(p: Rgb): (v: real)
    ensures Min3(p) as real <= v <= Max3(p) as real
    ensures IsGray(p) ==> v == p.r as real
  {
    (p.r + p.g + p.b) as real / 3.0
  }

  /** The luma weights of Recommendation ITU-R BT.709, section 3. */
  const RedWeight: real := 0.2126
  const GreenWeight: real := 0.7152
  const BlueWeight: real := 0.0722

  /** Weighted sum of the channels. The three weights are positive and add
      up to exactly 1, so the result stays between the smallest and the
      largest channel. */
  function LuminosityOf(p: Rgb): (v: real)
    ensures Min3(p) as real <= v <= Max3(p) as real
    ensures IsGray(p) ==> v == p.r as real
  {
    RedWeight * p.r as real + GreenWeight * p.g as real + BlueWeight * p.b as real
  }

  /** Midpoint of the largest and the smallest channel, taken over all three
      channels. This is the formula the lightness branch is meant to compute;
      the line as written differs (see LightnessAsWritten) and the model
      deliberately follows the intended formula everywhere else. */
  function LightnessOf(p: Rgb): (v: real)
    ensures Min3(p) as real <= v <= Max3(p) as real
    ensures IsGray(p) ==> v == p.r as real
  {
    (Max3(p) + Min3(p)) as real / 2.0
  }

  /** The lightness branch exactly as written. NumPy's third positional
      argument to `maximum` and `minimum` is the output array, so both calls
      store into the `uint8` channel `blue` and both return that same array:
      first max(R, G) is written there, then min(R, G) overwrites it, and the
      sum adds the array to itself with 8-bit wrap-around before the division
      by 2. Blue never takes part: the result is the smaller of red and
      green, less 128 when that is 128 or more, so it never exceeds 127. */
  function LightnessAsWritten(p: Rgb): (v: real)
    ensures var m := if p.r <= p.g then p.r else p.g;
      v == (if m < 128 then m else m - 128) as real
    ensures 0.0 <= v <= 127.0
  {
    var blue := if p.r <= p.g then p.r else p.g;  // the last write: minimum(red, green, out=blue)
    ((blue + blue) % 256) as real / 2.0
  }

  /** The intensity the chosen method gives one pixel. */
  function Intensity(p: Rgb, m: Method): (v: real)
    ensures Min3(p) as real <= v <= Max3(p) as real
    ensures 0.0 <= v <= 255.0
    ensures IsGray(p) ==> v == p.r as real
  {
    match m
    case Average => AverageOf(p)
    case Luminosity => LuminosityOf(p)
    case Lightness => LightnessOf(p)
  }

  /** The grayscale buffer of an RGB image: same shape, each cell converted
      on its own, every intensity in [0, 255]. */
  function GrayscaleOf(img: seq<seq<Rgb>>, m: Method): (g: seq<seq<real>>)
    ensures SameShape(g, img)
    ensures IsRect(img) ==> IsRect(g)
    ensures InIntensityRange(g)
    ensures forall i, j | 0 <= i < |g| && 0 <= j < |g[i]| :: g[i][j] == Intensity(img[i][j], m)
  {
    seq(|img|, i requires 0 <= i < |img| =>
      seq(|img[i]|, j requires 0 <= j < |img[i]| => Intensity(img[i][j], m)))
  }

  /** Each method is monotone: brightening any channel never darkens the
      intensity. */
  lemma IntensityMonotone(p: Rgb, q: Rgb, m: Method)
    requires p.r <= q.r && p.g <= q.g && p.b <= q.b
    ensures Intensity(p, m) <= Intensity(q, m)
  {
    if m == Lightness {
      assert Max3(p) <= Max3(q) && Min3(p) <= Min3(q);
    }
  }

  /** A gray image converts to its own channel value under every method. */
  lemma GrayImageIsFixed(img: seq<seq<Rgb>>, m: Method, i: nat, j: nat)
    requires i < |img| && j < |img[i]| && IsGray(img[i][j])
    ensures GrayscaleOf(img, m)[i][j] == img[i][j].r as real
  {
  }

  /** Luminosity of the primaries (0.7152 * 255 = 182.376 for green, and so on). */
  lemma LuminosityOfPrimaries()
    ensures LuminosityOf(Rgb(255, 0, 0)) == 54.213
    ensures LuminosityOf(Rgb(0, 255, 0)) == 182.376
    ensures LuminosityOf(Rgb(0, 0, 255)) == 18.411
    ensures RedWeight + GreenWeight + BlueWeight == 1.0
  {
  }

  /** The lightness line as written ignores the blue channel, so pixels
      that differ only in blue get the same value. */
  lemma LightnessAsWrittenIgnoresBlue(p: Rgb)
    ensures forall b: Byte :: LightnessAsWritten(p.(b := b)) == LightnessAsWritten(p)
  {
  }

  /** The lightness line as written disagrees with the intended formula: on
      (10, 200, 50) it gives min(R, G) = 10 instead of (200 + 10) / 2 = 105,
      and on the gray pixel (200, 200, 200) the 8-bit sum 400 wraps to 144,
      giving 72 instead of 200. */
  lemma LightnessAsWrittenCounterexamples()
    ensures LightnessAsWritten(Rgb(10, 200, 50)) == 10.0
    ensures LightnessOf(Rgb(10, 200, 50)) == 105.0
    ensures LightnessAsWritten(Rgb(200, 200, 200)) == 72.0
    ensures LightnessOf(Rgb(200, 200, 200)) == 200.0
  {
  }

  /** The lightness line as written is not even monotone: raising red and
      green from 127 to 128 drops the result from 127 to 0. */
  lemma LightnessAsWrittenNotMonotone()
    ensures LightnessAsWritten(Rgb(127, 127, 0)) == 127.0
    ensures LightnessAsWritten(Rgb(128, 128, 0)) == 0.0
  {
  }
}
