# Black-and-white dithering editor, modelled in Dafny

The editor loads a colour image and reduces every pixel to one grayscale
intensity with a chosen method: the channel average, the ITU-R BT.709
luminosity weights, or lightness, the midpoint of the largest and smallest
channel. It then turns the grayscale buffer into a black (0) and white (255)
buffer. Threshold dithering turns a cell black when its intensity is below an
integer threshold typed into a text field. Random dithering turns a cell white
when a uniform draw in [0, 1) is at most its intensity divided by 255. A
controller holds the loaded image, the grayscale buffer and the result. It
refuses to generate without an image or while a worker is alive. It saves only
when a result exists. It also computes the preview size that fits an image
into a 350 by 350 box.

Modules, one per component:

- `Buffers` (buffers.dfy): the pixel buffers as rectangular `seq<seq<T>>`, the
  shape, binary and range predicates, and `Snapshot`, which freezes a filled
  `array2` into an image value.
- `Grayscale` (grayscale.dfy): the per-pixel formulas over exact `real`
  arithmetic and the cell-by-cell conversion of an image.
- `Dithering` (dithering.dfy): the per-cell rules and their buffer-level
  specifications. `ThresholdDithering` and `RandomDithering` allocate a zero
  `array2`, fill it with nested row-major loops and are proved equal to those
  specifications.
- `PyInt` (pyint.dfy): Python's `int()` on the threshold text, since whether
  that text parses decides whether generating proceeds.
- `Preview` (preview.dfy): the sizing arithmetic of `display_image`.
- `Editor` (editor.dfy): the `DitherEditor` class. It has the three optional
  buffers and the `busy` flag (a worker thread is alive), with `Valid()` as its
  invariant. Its methods say exactly what each guard leaves unchanged.

Three behaviours of the code that a reader might not expect, which the model keeps:

- The code accepts any integer threshold, negative or above 255. There is no
  range check.
- A failed generate leaves the old buffers in place; it does not clear them.
- Loading a new image does not clear the previous grayscale buffer or result.

The lightness line, main.py:149, is the one place where the model departs
from the code. The model uses the intended three-way formula and keeps the
line as written beside it, as reported under "## Findings".

## Model

| member | source | states |
|---|---|---|
| Grayscale.MethodNamed | main.py:144-149 | "average" selects the mean, "luminosity" the weighted sum, and every other name falls through to lightness |
| Grayscale.AverageOf | main.py:145 | the mean of the channels lies between the smallest and the largest channel, and a gray pixel (v, v, v) gives v |
| Grayscale.LuminosityOf | main.py:147 | the BT.709 weighted sum lies between the smallest and the largest channel, and a gray pixel gives its own value |
| Grayscale.LightnessOf | main.py:149 | the intended lightness (max3 + min3) / 2 lies between min3 and max3, and a gray pixel gives its own value |
| Grayscale.Intensity | main.py:144-149 | whichever method is chosen, the intensity lies within the channel range, hence in [0, 255], and a gray pixel gives its own value |
| Grayscale.GrayscaleOf | main.py:142-150 | the grayscale buffer has the image's shape and every cell is that pixel's intensity, in [0, 255] |
| Grayscale.IntensityMonotone | main.py:144-149 | under each method, raising any channel never lowers the intensity |
| Grayscale.GrayImageIsFixed | main.py:144-149 | a gray pixel converts to its own channel value under every method |
| Grayscale.LuminosityOfPrimaries | main.py:147 | the weights add up to exactly 1; pure red, green and blue give 54.213, 182.376 and 18.411 |
| Grayscale.LightnessAsWritten | main.py:149 | the line as written yields min(R, G), less 128 when that is at least 128, so it never exceeds 127 |
| Grayscale.LightnessAsWrittenIgnoresBlue | main.py:149 | pixels that differ only in blue get the same value from the line as written |
| Grayscale.LightnessAsWrittenCounterexamples | main.py:149 | the line as written gives 10 for (10, 200, 50) and 72 for (200, 200, 200), where the intended formula gives 105 and 200 |
| Grayscale.LightnessAsWrittenNotMonotone | main.py:149 | the line as written drops from 127 to 0 when red and green rise from 127 to 128 |
| Dithering.StrategyNamed | main.py:153-156 | "threshold" selects threshold dithering and every other name selects random dithering |
| Dithering.ThresholdDithered | main.py:158-167 | the result has the grayscale buffer's shape and only 0 and 255; a cell is 0 exactly when its intensity is below the threshold and 255 exactly when it is at or above it |
| Dithering.RandomDithered | main.py:169-178 | the result has the grayscale buffer's shape and only 0 and 255; a cell is 255 exactly when its draw is at most its intensity over 255 |
| Dithering.Dithered | main.py:152-156 | either strategy keeps the shape and yields a black-and-white buffer |
| Dithering.ThresholdDithering | main.py:158-167 | filling a zero buffer row by row yields exactly the threshold-dithered buffer |
| Dithering.RandomDithering | main.py:169-178 | filling a zero buffer row by row, one draw per cell, yields exactly the random-dithered buffer |
| Dithering.NonPositiveThresholdAllWhite | main.py:162-165 | a threshold of 0 or below turns every intensity buffer all white |
| Dithering.HighThresholdAllBlack | main.py:162-165 | a threshold above 255 turns every intensity buffer all black |
| Dithering.ThresholdMonotone | main.py:162-165 | raising the threshold can only turn white cells black |
| Dithering.RandomExtremes | main.py:173-176 | with a draw in [0, 1), intensity 255 is always white and intensity 0 is white only for a draw of exactly 0 |
| Dithering.RandomIsThresholdAgainstNoise | main.py:173 | a random cell is white exactly when its intensity is at least 255 times its draw |
| Dithering.ConstantDrawsGiveThreshold | main.py:158-178 | random dithering whose every draw is t / 255 equals threshold dithering with threshold t |
| PyInt.ParseInt | main.py:132 | text without a digit is rejected, a negative value needs a minus sign in the text, and text of digits alone reads as the number they spell |
| PyInt.ParseShow | main.py:132 | the threshold text reads back every integer that `str` writes |
| PyInt.ParseIgnoresSurroundingSpace | main.py:132 | whitespace around the threshold text does not change what it reads as |
| PyInt.ParseDefaultThreshold | main.py:67 | the field's initial text "128" reads as 128 |
| PyInt.ParseSignedGrouped | main.py:132 | a sign and underscores between digits are accepted: "-1_000" reads as -1000 |
| PyInt.ParseRejects | main.py:132 | empty text, "12.5", "1__0" and "128" after the separator U+001C are rejected |
| Preview.PreviewSize | main.py:105-116 | the size computation fails, by division by zero, exactly when a side is 0 |
| Preview.PreviewFits | main.py:106-116 | for W, H >= 1 the preview width is at most min(350, W), the height at most 350 and at most H, and both are non-negative |
| Preview.SmallImageKeepsSize | main.py:110-112 | an image within 350 by 350 is previewed at its own size |
| Preview.PreviewKeepsRatio | main.py:110-116 | either the height is the width times H / W, truncated, or the height is 350 and the width is 350 times W / H, truncated |
| Preview.PreviewWidthVanishes | main.py:110-116 | the preview width truncates to 0 exactly when H > 350 W |
| Editor.DitherEditor.constructor | main.py:13-16 | the editor starts with no buffers and no live worker |
| Editor.DitherEditor.LoadOriginalImage | main.py:98-103 | a decoded image replaces the source; a failed decode keeps the previous state; other buffers are untouched |
| Editor.DitherEditor.ConvertToGrayscale | main.py:140-150 | the grayscale field becomes the conversion of the source with the named method, of the same shape |
| Editor.DitherEditor.DitherImage | main.py:152-156 | the result field becomes the named strategy applied to the grayscale buffer |
| Editor.DitherEditor.GenerateDitheredImage | main.py:123-138 | no source: nothing changes; live worker: nothing changes; unparsable threshold: nothing changes, also in random mode; otherwise both buffers are recomputed from the source and the worker is joined; the invariant is kept |
| Editor.DitherEditor.SaveDitheredImage | main.py:180-186 | something is written exactly when a result exists and the dialog returned a non-empty path, and what is written is that path and the result |
| Editor.SampleImageAverageThreshold | main.py:140-167 | the 2 by 2 sample image averages to [[0, 255], [128, 116.67]] and dithers at 128 to [[0, 255], [255, 0]] |

## Findings

| source | as written | input that shows it | evidently intended | confidence | as-written member | corrected member |
|---|---|---|---|---|---|---|
| main.py:149 | the third positional argument of NumPy's `maximum` and `minimum` is the output array. Both calls store into the `uint8` blue channel and return it, so the sum is the 8-bit wrap of twice min(R, G), halved | (10, 200, 50) gives 10; the gray pixel (200, 200, 200) gives 72 | (max(R, G, B) + min(R, G, B)) / 2, giving 105 and 200 | high (the NumPy signature is documented); not executed | Grayscale.LightnessAsWrittenCounterexamples | Grayscale.LightnessOf |

## Left out

- Window layout, widgets, radio buttons and the open and save dialogs are UI. The chosen names, the threshold text and the save path are parameters.
- Decoding with PIL is not modelled. `LoadOriginalImage` takes the decoded RGB buffer, or None for a failed decode. The conversion to RGB mode is assumed done.
- Resizing, the photo widget and encoding to a file are PIL calls and are not modelled. `SaveDitheredImage` returns what would be written.
- If `display_image` raises after a load, the new image stays installed; the model does not include the preview call.
- The preview of the result at the end of `generate_dithered_image` is not modelled.
- Threading is reduced to the `busy` flag. The worker is started and joined inside one call, so no second call can observe it alive in this sequential model.
- The random generator is replaced by a buffer of draws, one per cell. The statistical claim (the white fraction approaches v / 255) is not a verifiable property of one run.
- Floating-point rounding is not modelled: the formulas and the sizing use exact reals, and `int` of a non-negative float is `Floor`.
- The result buffer's element type is float64 in the source. The model keeps it as the integers 0 and 255.
- `threshold_dithering` and `random_dithering` ignore their `image` argument and read the editor's grayscale buffer. Their one caller passes that same buffer, so the model passes it directly.
- The literal lightness line also overwrites the blue channel of a local pixel copy; nothing outside the function sees it.
- PyInt.ParseInt: non-ASCII decimal digits, which Python's `int` also accepts, are not modelled. The whitespace it skips is the ASCII set `int` strips plus the non-ASCII characters `str.isspace` accepts.
- PyInt.ParseInt: the limit on the number of digits (4300 by default since Python 3.11, configurable through `sys.set_int_max_str_digits`) is not modelled. Longer text is accepted here and rejected by those Python versions.
- GenerateDitheredImage: when random dithering is chosen, it requires the draws buffer to match the image's shape. This stands in for a random generator that never runs dry.
