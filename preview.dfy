/** The preview size `display_image` computes before handing an image to the
    toolkit: the width is first clamped to the box and the height follows
    from the aspect ratio; if that height is still too tall, the height is
    clamped instead and the width follows from the ratio. `int(...)` of a
    non-negative number is its floor. */
module Preview {
  import opened Buffers

  /** The side of the square display box. */
  const MaxSide: int := 350

  datatype Size = Size(width: int, height: int)

  /** `min(max_width, original_width)`. */
  function Clamped(w: nat): nat
  {
    if MaxSide < w then MaxSide else w
  }

  /** The preview size of a `w` by `h` image, or None where the ratio
      computation divides by zero (Python raises ZeroDivisionError). */
  function PreviewSize(w: nat, h: nat): (r: Option<Size>)
    ensures r.None? <==> w == 0 || h == 0
  {
    if h == 0 then None
    else
      var aspect := w as real / h as real;
      var width := Clamped(w);
      if aspect == 0.0 then None
      else
        var height := (width as real / aspect).Floor;
        if height > MaxSide then Some(Size((MaxSide as real * aspect).Floor, MaxSide))
        else Some(Size(width, height))
  }

  /** The height that keeps the aspect ratio of a `w` by `h` image at the
      given width, truncated. */
  function HeightAt(width: nat, w: nat, h: nat): int
    requires w > 0
  {
    (width as real * h as real / w as real).Floor
  }

  /** The width that keeps the aspect ratio of a `w` by `h` image at the
      given height, truncated. */
  function WidthAt(height: nat, w: nat, h: nat): int
    requires h > 0
  {
    (height as real * w as real / h as real).Floor
  }

  lemma HeightAtIs(width: nat, w: nat, h: nat)
    requires w > 0
    ensures HeightAt(width, w, h) == (width as real * h as real / w as real).Floor
  {
  }

  lemma WidthAtIs(height: nat, w: nat, h: nat)
    requires h > 0
    ensures WidthAt(height, w, h) == (height as real * w as real / h as real).Floor
  {
  }

  // Facts about truncation, stated on a plain real so that the solver never
  // truncates a product.

  lemma FloorBetween(t: real, b: int)
    requires 0.0 <= t <= b as real
    ensures 0 <= t.Floor <= b
  {
  }

  lemma FloorBelow(t: real, b: int)
    requires 0.0 <= t < b as real
    ensures 0 <= t.Floor < b
  {
  }

  lemma FloorAbove(t: real, k: int)
    requires t.Floor > k
    ensures t >= k as real + 1.0
  {
  }

  lemma FloorExceeds(t: real, k: int)
    requires t >= (k + 1) as real
    ensures t.Floor > k
  {
  }

  lemma FloorOfEqual(t: real, u: real)
    requires t == u
    ensures t.Floor == u.Floor
  {
  }

  lemma FloorIsZero(t: real)
    requires t >= 0.0
    ensures t.Floor == 0 <==> t < 1.0
  {
  }

  // Facts about scaling by a ratio, stated on plain reals.

  /** Dividing by the ratio `w / h` is scaling by `h / w`, and multiplying by
      it is scaling by `w / h`. */
  lemma DivideByRatio(x: real, y: real, w: real, h: real)
    requires w > 0.0 && h > 0.0
    ensures w / h > 0.0
    ensures x / (w / h) == x * h / w
    ensures y * (w / h) == y * w / h
  {
    assert (w / h) * h == w;
    calc {
      x / (w / h);
      (x * h) / ((w / h) * h);
      x * h / w;
    }
  }

  /** `a * b / c` lies in [0, b] when `0 <= a <= c`. */
  lemma ScaledAtMost(a: real, b: real, c: real)
    requires 0.0 <= a <= c && c > 0.0 && b >= 0.0
    ensures 0.0 <= a * b / c <= b
  {
    assert a * b <= c * b;
    assert a * b / c <= c * b / c;
  }

  lemma TimesAtLeast(a: real, b: real, c: real)
    requires a >= b && c > 0.0
    ensures a * c >= b * c
  {
  }

  lemma QuotientBelow(x: real, c: real, bound: real)
    requires c > 0.0 && x < bound * c
    ensures x / c < bound
  {
    assert x / c * c == x;
  }

  /** If `x` scaled by `h / w` reaches past the side `s`, then `s` scaled
      back by `w / h` is below `x`, and `h` is above `s`. */
  lemma ScaledBackBelow(x: real, w: real, h: real, s: real)
    requires 0.0 <= x <= w && w > 0.0 && h > 0.0 && s >= 0.0
    requires x * h / w >= s + 1.0
    ensures 0.0 <= s * w / h < x
    ensures s < h
  {
    ScaledAtMost(x, h, w);
    assert x * h / w * w == x * h;
    TimesAtLeast(x * h / w, s + 1.0, w);
    assert s * w < x * h;
    QuotientBelow(s * w, h, x);
    ScaledAtMost(0.0, 0.0, 1.0);
  }

  /** `s * w / h` is below 1 exactly when `s * w` is below `h`. */
  lemma QuotientBelowOne(s: real, w: real, h: real)
    requires s >= 0.0 && w >= 0.0 && h > 0.0
    ensures s * w / h >= 0.0
    ensures s * w / h < 1.0 <==> s * w < h
  {
    assert s * w / h * h == s * w;
  }

  /** Scaling by `h / w` a side `s` of at least 2, where `h > s * w`, gives
      at least `s + 1`. */
  lemma TallScaled(s: real, w: real, h: real)
    requires s >= 2.0 && w > 0.0 && h > s * w
    ensures s * h / w >= s + 1.0
  {
    assert s * h > s * (s * w);
    assert s * h / w * w == s * h;
    assert s * h / w > s * s;
  }

  lemma CastProduct(a: int, b: int)
    ensures (a * b) as real == a as real * b as real
  {
  }

  // The same facts for image sides. Callers pass plain variables, so the
  // solver never has to match products of different terms.

  lemma SidesByRatio(x: nat, y: nat, w: nat, h: nat)
    requires w > 0 && h > 0
    ensures w as real / h as real > 0.0
    ensures x as real / (w as real / h as real) == x as real * h as real / w as real
    ensures y as real * (w as real / h as real) == y as real * w as real / h as real
  {
    DivideByRatio(x as real, y as real, w as real, h as real);
  }

  lemma SideScaledAtMost(a: nat, b: nat, c: nat)
    requires a <= c && c > 0
    ensures 0.0 <= a as real * b as real / c as real <= b as real
  {
    ScaledAtMost(a as real, b as real, c as real);
  }

  lemma SideScaledBackBelow(x: nat, w: nat, h: nat, s: nat)
    requires x <= w && w > 0 && h > 0
    requires x as real * h as real / w as real >= s as real + 1.0
    ensures 0.0 <= s as real * w as real / h as real < x as real
    ensures s < h
  {
    ScaledBackBelow(x as real, w as real, h as real, s as real);
  }

  lemma SideBelowOne(s: nat, w: nat, h: nat)
    requires h > 0
    ensures s as real * w as real / h as real >= 0.0
    ensures s as real * w as real / h as real < 1.0 <==> s * w < h
  {
    CastProduct(s, w);
    QuotientBelowOne(s as real, w as real, h as real);
  }

  lemma TallSide(s: nat, w: nat, h: nat)
    requires s >= 2 && w > 0 && h > s * w
    ensures s as real * h as real / w as real >= s as real + 1.0
  {
    CastProduct(s, w);
    TallScaled(s as real, w as real, h as real);
  }

  /** An image scaled to its own width keeps its height. */
  lemma ScaledByItself(w: nat, h: nat)
    requires w > 0
    ensures (w as real * h as real / w as real).Floor == h
  {
    assert w as real * h as real / w as real == h as real;
  }

  /** The height `display_image` computes from the clamped width. */
  lemma PreviewHeightIs(w: nat, h: nat)
    requires w > 0 && h > 0
    ensures w as real / h as real > 0.0
    ensures (Clamped(w) as real / (w as real / h as real)).Floor == HeightAt(Clamped(w), w, h)
  {
    SidesByRatio(Clamped(w), 0, w, h);
    FloorOfEqual(Clamped(w) as real / (w as real / h as real), Clamped(w) as real * h as real / w as real);
    HeightAtIs(Clamped(w), w, h);
  }

  /** The width `display_image` computes from the box side. */
  lemma PreviewWidthIs(w: nat, h: nat)
    requires w > 0 && h > 0
    ensures (MaxSide as real * (w as real / h as real)).Floor == WidthAt(MaxSide, w, h)
  {
    SidesByRatio(0, MaxSide, w, h);
    FloorOfEqual(MaxSide as real * (w as real / h as real), MaxSide as real * w as real / h as real);
    WidthAtIs(MaxSide, w, h);
  }

  /** The preview size in terms of the two scaled sides. */
  lemma PreviewSizeScaled(w: nat, h: nat)
    requires w > 0 && h > 0
    ensures PreviewSize(w, h) ==
      if HeightAt(Clamped(w), w, h) > MaxSide then Some(Size(WidthAt(MaxSide, w, h), MaxSide))
      else Some(Size(Clamped(w), HeightAt(Clamped(w), w, h)))
  {
    PreviewHeightIs(w, h);
    PreviewWidthIs(w, h);
  }

  /** Scaling a width no larger than the image's gives a height in [0, h]. */
  lemma HeightAtBounds(width: nat, w: nat, h: nat)
    requires 0 < w && width <= w
    ensures 0 <= HeightAt(width, w, h) <= h
  {
    SideScaledAtMost(width, h, w);
    FloorBetween(width as real * h as real / w as real, h);
    HeightAtIs(width, w, h);
  }

  /** When the scaled height overflows the box, the width scaled back from
      the box side is smaller than the width it started from, and the image
      is taller than the box. */
  lemma OverflowShrinksWidth(width: nat, w: nat, h: nat)
    requires 0 < w && 0 < h && width <= w && HeightAt(width, w, h) > MaxSide
    ensures 0 <= WidthAt(MaxSide, w, h) < width
    ensures MaxSide < h
  {
    HeightAtIs(width, w, h);
    WidthAtIs(MaxSide, w, h);
    FloorAbove(width as real * h as real / w as real, MaxSide);
    SideScaledBackBelow(width, w, h, MaxSide);
    FloorBelow(MaxSide as real * w as real / h as real, width);
  }

  /** The width of an image scaled to its own width is its height. */
  lemma HeightAtOwnWidth(w: nat, h: nat)
    requires 0 < w
    ensures HeightAt(w, w, h) == h
  {
    ScaledByItself(w, h);
    HeightAtIs(w, w, h);
  }

  /** The preview fits the 350 by 350 box and never enlarges the image. */
  lemma PreviewFits(w: nat, h: nat)
    requires w > 0 && h > 0
    ensures PreviewSize(w, h).Some?
    ensures var s := PreviewSize(w, h).value;
      0 <= s.width <= w && s.width <= MaxSide &&
      0 <= s.height <= h && s.height <= MaxSide
  {
    PreviewSizeScaled(w, h);
    HeightAtBounds(Clamped(w), w, h);
    if HeightAt(Clamped(w), w, h) > MaxSide {
      OverflowShrinksWidth(Clamped(w), w, h);
    }
  }

  /** An image that already fits the box is shown at its own size. */
  lemma SmallImageKeepsSize(w: nat, h: nat)
    requires 0 < w <= MaxSide && 0 < h <= MaxSide
    ensures PreviewSize(w, h) == Some(Size(w, h))
  {
    PreviewSizeScaled(w, h);
    HeightAtOwnWidth(w, h);
  }

  /** One side is the clamped side and the other follows from the aspect
      ratio, truncated: either the height is the width scaled by h / w, or
      the height is the box side and the width is it scaled by w / h. */
  lemma PreviewKeepsRatio(w: nat, h: nat)
    requires w > 0 && h > 0
    ensures var s := PreviewSize(w, h).value;
      (s.width >= 0 && s.height == HeightAt(s.width, w, h)) ||
      (s.height == MaxSide && s.width == WidthAt(MaxSide, w, h))
  {
    PreviewSizeScaled(w, h);
  }

  /** A width scaled from the box side truncates to 0 exactly when the image
      is more than 350 times taller than wide. */
  lemma WidthAtZero(w: nat, h: nat)
    requires w > 0 && h > 0
    ensures WidthAt(MaxSide, w, h) == 0 <==> h > MaxSide * w
  {
    SideBelowOne(MaxSide, w, h);
    FloorIsZero(MaxSide as real * w as real / h as real);
    WidthAtIs(MaxSide, w, h);
  }

  /** An image more than 350 times taller than wide overflows the box once
      its width is clamped. */
  lemma TallImageOverflows(w: nat, h: nat)
    requires w > 0 && h > MaxSide * w
    ensures HeightAt(Clamped(w), w, h) > MaxSide
  {
    if w <= MaxSide {
      HeightAtOwnWidth(w, h);
      assert MaxSide * w >= MaxSide;
    } else {
      TallSide(MaxSide, w, h);
      FloorExceeds(MaxSide as real * h as real / w as real, MaxSide);
      HeightAtIs(Clamped(w), w, h);
    }
  }

  /** The preview width truncates to 0 exactly when the image is more than
      350 times taller than it is wide. */
  lemma PreviewWidthVanishes(w: nat, h: nat)
    requires w > 0 && h > 0
    ensures PreviewSize(w, h).value.width == 0 <==> h > MaxSide * w
  {
    PreviewSizeScaled(w, h);
    WidthAtZero(w, h);
    if h > MaxSide * w {
      TallImageOverflows(w, h);
    }
  }
}
