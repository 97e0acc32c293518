/** Pixel buffers: the rectangular grids of samples that flow between the
    stages of the dithering pipeline (a decoded RGB image, its grayscale
    intensities, the black-and-white result). */
module Buffers {

  /** One 8-bit channel sample, as NumPy's `uint8`. */
  type Byte = x: int | 0 <= x < 256

  datatype Option<+T> = None | Some(value: T)

  /** The number of cells per row, read off the first row (0 when there are no rows). */
  function Width<T>(g: seq<seq<T>>): nat
  {
    if |g| == 0 then 0 else |g[0]|
  }

  /** Every row holds the same number of cells, as in an array of shape (H, W). */
  predicate IsRect<T>(g: seq<seq<T>>)
  {
    forall i | 0 <= i < |g| :: |g[i]| == Width(g)
  }

  /** `a` and `b` have the same number of rows and the same row lengths. */
  predicate SameShape<A, B>(a: seq<seq<A>>, b: seq<seq<B>>)
  {
    |a| == |b| && forall i | 0 <= i < |a| :: |a[i]| == |b[i]|
  }

  /** Every sample is black (0) or white (255). */
  predicate IsBinary(g: seq<seq<int>>)
  {
    forall i, j | 0 <= i < |g| && 0 <= j < |g[i]| :: g[i][j] == 0 || g[i][j] == 255
  }

  /** Every sample is an intensity between 0 and 255. */
  predicate InIntensityRange(g: seq<seq<real>>)
  {
    forall i, j | 0 <= i < |g| && 0 <= j < |g[i]| :: 0.0 <= g[i][j] <= 255.0
  }

  /** The immutable image a filled array becomes (`Image.fromarray`): a copy
      of its cells, row by row. */
  function Snapshot(a: array2<int>): (g: seq<seq<int>>)
    reads a
    ensures |g| == a.Length0 && IsRect(g)
    ensures forall i | 0 <= i < |g| :: |g[i]| == a.Length1
    ensures forall i, j | 0 <= i < a.Length0 && 0 <= j < a.Length1 :: g[i][j] == a[i, j]
  {
    seq(a.Length0, i requires 0 <= i < a.Length0 reads a =>
      seq(a.Length1, j requires 0 <= j < a.Length1 reads a => a[i, j]))
  }
}
