/** Dithering: a grayscale buffer becomes a black (0) and white (255) buffer
    of the same shape, either by comparing every cell with one threshold or
    by comparing it with a random draw of its own. */
module Dithering {
  import opened Buffers

  /** The strategies offered by the editor's radio buttons. */
  datatype Strategy = Threshold | Random

  /** The strategy a radio-button value selects: "threshold" is recognised
      and every other value falls through to random dithering. */
  function StrategyNamed(name: string): (s: Strategy)
    ensures s == Threshold <==> name == "threshold"
  {
    if name == "threshold" then Threshold else Random
  }

  /** One cell of threshold dithering. */
  function ThresholdPixel(v: real, threshold: int): int
  {
    if v < threshold as real then 0 else 255
  }

  /** One cell of random dithering, given the draw `u` made for it. */
  function RandomPixel(v: real, u: real): int
  {
    if u <= v / 255.0 then 255 else 0
  }

  /** Threshold dithering of a whole buffer: same shape, only 0 and 255, and
      a cell is black exactly when its intensity is below the threshold (a
      value equal to the threshold is white). */
  function ThresholdDithered(gray: seq<seq<real>>, threshold: int): (d: seq<seq<int>>)
    ensures SameShape(d, gray) && IsBinary(d)
    ensures IsRect(gray) ==> IsRect(d)
    ensures forall i, j | 0 <= i < |d| && 0 <= j < |d[i]| ::
      (d[i][j] == 0 <==> gray[i][j] < threshold as real) &&
      (d[i][j] == 255 <==> gray[i][j] >= threshold as real)
  {
    seq(|gray|, i requires 0 <= i < |gray| =>
      seq(|gray[i]|, j requires 0 <= j < |gray[i]| => ThresholdPixel(gray[i][j], threshold)))
  }

  /** Random dithering of a whole buffer, given one draw per cell: same
      shape, only 0 and 255, and a cell is white exactly when its draw is at
      most its intensity divided by 255. */
  function RandomDithered(gray: seq<seq<real>>, draws: seq<seq<real>>): (d: seq<seq<int>>)
    requires SameShape(draws, gray)
    ensures SameShape(d, gray) && IsBinary(d)
    ensures IsRect(gray) ==> IsRect(d)
    ensures forall i, j | 0 <= i < |d| && 0 <= j < |d[i]| ::
      d[i][j] == 255 <==> draws[i][j] <= gray[i][j] / 255.0
  {
    seq(|gray|, i requires 0 <= i < |gray| =>
      seq(|gray[i]|, j requires 0 <= j < |gray[i]| => RandomPixel(gray[i][j], draws[i][j])))
  }

  /** The result of the chosen strategy. */
  function Dithered(gray: seq<seq<real>>, strategy: Strategy, threshold: int, draws: seq<seq<real>>): (d: seq<seq<int>>)
    requires strategy == Random ==> SameShape(draws, gray)
    ensures SameShape(d, gray) && IsBinary(d)
    ensures IsRect(gray) ==> IsRect(d)
  {
    match strategy
    case Threshold => ThresholdDithered(gray, threshold)
    case Random => RandomDithered(gray, draws)
  }

  /** Threshold dithering as the editor runs it: a zero buffer of the
      grayscale buffer's shape is filled row by row, then frozen into an
      image. */
  method ThresholdDithering(gray: seq<seq<real>>, threshold: int) returns (image: seq<seq<int>>)
    requires IsRect(gray)
    ensures image == ThresholdDithered(gray, threshold)
  {
    var height, width := |gray|, Width(gray);
    var dithered := new int[height, width]((i, j) => 0);
    for i := 0 to height
      invariant forall r, c | 0 <= r < i && 0 <= c < width ::
        dithered[r, c] == ThresholdPixel(gray[r][c], threshold)
    {
      for j := 0 to width
        invariant forall r, c | 0 <= r < i && 0 <= c < width ::
          dithered[r, c] == ThresholdPixel(gray[r][c], threshold)
        invariant forall c | 0 <= c < j :: dithered[i, c] == ThresholdPixel(gray[i][c], threshold)
      {
        if gray[i][j] < threshold as real {
          dithered[i, j] := 0;
        } else {
          dithered[i, j] := 255;
        }
      }
    }
    image := Snapshot(dithered);
    forall i | 0 <= i < height
      ensures image[i] == ThresholdDithered(gray, threshold)[i]
    {
    }
  }

  /** Random dithering as the editor runs it, with the draw for cell (i, j)
      taken from `draws[i][j]` instead of a call to the random generator. */
  method RandomDithering(gray: seq<seq<real>>, draws: seq<seq<real>>) returns (image: seq<seq<int>>)
    requires IsRect(gray) && SameShape(draws, gray)
    ensures image == RandomDithered(gray, draws)
  {
    var height, width := |gray|, Width(gray);
    var dithered := new int[height, width]((i, j) => 0);
    for i := 0 to height
      invariant forall r, c | 0 <= r < i && 0 <= c < width ::
        dithered[r, c] == RandomPixel(gray[r][c], draws[r][c])
    {
      for j := 0 to width
        invariant forall r, c | 0 <= r < i && 0 <= c < width ::
          dithered[r, c] == RandomPixel(gray[r][c], draws[r][c])
        invariant forall c | 0 <= c < j :: dithered[i, c] == RandomPixel(gray[i][c], draws[i][c])
      {
        if draws[i][j] <= gray[i][j] / 255.0 {
          dithered[i, j] := 255;
        } else {
          dithered[i, j] := 0;
        }
      }
    }
    image := Snapshot(dithered);
    forall i | 0 <= i < height
      ensures image[i] == RandomDithered(gray, draws)[i]
    {
    }
  }

  /** A threshold of 0 or below turns every non-negative buffer all white. */
  lemma NonPositiveThresholdAllWhite(gray: seq<seq<real>>, threshold: int)
    requires threshold <= 0 && InIntensityRange(gray)
    ensures forall i, j | 0 <= i < |gray| && 0 <= j < |gray[i]| ::
      ThresholdDithered(gray, threshold)[i][j] == 255
  {
  }

  /** A threshold above 255 turns every intensity buffer all black. */
  lemma HighThresholdAllBlack(gray: seq<seq<real>>, threshold: int)
    requires threshold > 255 && InIntensityRange(gray)
    ensures forall i, j | 0 <= i < |gray| && 0 <= j < |gray[i]| ::
      ThresholdDithered(gray, threshold)[i][j] == 0
  {
  }

  /** Raising the threshold only turns white cells black, never the reverse. */
  lemma ThresholdMonotone(gray: seq<seq<real>>, low: int, high: int, i: nat, j: nat)
    requires low <= high && i < |gray| && j < |gray[i]|
    ensures ThresholdDithered(gray, high)[i][j] <= ThresholdDithered(gray, low)[i][j]
  {
  }

  /** With draws in [0, 1), full intensity is always white. Zero intensity is
      white only on a draw of exactly 0, so black for every positive draw. */
  lemma RandomExtremes(v: real, u: real)
    requires 0.0 <= u < 1.0
    ensures v == 255.0 ==> RandomPixel(v, u) == 255
    ensures v == 0.0 ==> (RandomPixel(v, u) == 255 <==> u == 0.0)
  {
  }

  /** A random cell is a threshold cell whose threshold is 255 times its draw. */
  lemma RandomIsThresholdAgainstNoise(v: real, u: real)
    ensures RandomPixel(v, u) == 255 <==> v >= 255.0 * u
  {
  }

  /** Every draw in the buffer equals `threshold / 255`. */
  predicate ConstantDraws(draws: seq<seq<real>>, threshold: int)
  {
    forall i, j | 0 <= i < |draws| && 0 <= j < |draws[i]| :: draws[i][j] == threshold as real / 255.0
  }

  /** Random dithering whose every draw is `threshold / 255` is threshold
      dithering with that threshold. */
  lemma ConstantDrawsGiveThreshold(gray: seq<seq<real>>, draws: seq<seq<real>>, threshold: int)
    requires SameShape(draws, gray) && ConstantDraws(draws, threshold)
    ensures RandomDithered(gray, draws) == ThresholdDithered(gray, threshold)
  {
    var rd, td := RandomDithered(gray, draws), ThresholdDithered(gray, threshold);
    forall i | 0 <= i < |gray|
      ensures rd[i] == td[i]
    {
      forall j | 0 <= j < |gray[i]|
        ensures rd[i][j] == td[i][j]
      {
        RandomIsThresholdAgainstNoise(gray[i][j], draws[i][j]);
      }
    }
  }
}
