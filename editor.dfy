/** The editor's pipeline state: the loaded RGB image, the grayscale buffer
    and the dithered result, each possibly absent, and whether a dithering
    worker is running. Generating converts and dithers; saving hands the
    result to the file writer. */
module Editor {
  import opened Buffers
  import opened Grayscale
  import opened Dithering
  import opened PyInt

  /** How a press of Generate ended. */
  datatype GenerateOutcome =
    | NoSource      // no image loaded: nothing happens
    | WorkerBusy    // a dithering worker is still alive: nothing happens
    | BadThreshold  // the threshold text is not an integer: `int` raises before any buffer is touched
    | Generated     // grayscale and dithered buffers recomputed

  class DitherEditor {
    var original: Option<seq<seq<Rgb>>>
    var grayscale: Option<seq<seq<real>>>
    var dithered: Option<seq<seq<int>>>
    /** The worker thread is alive. */
    var busy: bool

    /** Every buffer is rectangular; the grayscale buffer and the result are
        produced together, so they are present together, have the same
        shape, and the result is black and white. */
    ghost predicate Valid()
      reads this
    {
      (original.Some? ==> IsRect(original.value)) &&
      (grayscale.Some? <==> dithered.Some?) &&
      (grayscale.Some? ==>
        IsRect(grayscale.value) && InIntensityRange(grayscale.value) &&
        SameShape(dithered.value, grayscale.value) && IsBinary(dithered.value))
    }

    constructor ()
      ensures Valid()
      ensures original == None && grayscale == None && dithered == None && !busy
    {
      original, grayscale, dithered := None, None, None;
      busy := false;
    }

    /** Installs a decoded image; `decoded` is None when decoding failed, and
        then the previous state is kept. The other buffers are not cleared. */
    method LoadOriginalImage(decoded: Option<seq<seq<Rgb>>>)
      requires Valid()
      requires decoded.Some? ==> IsRect(decoded.value)
      modifies this`original
      ensures Valid()
      ensures original == if decoded.Some? then decoded else old(original)
    {
      if decoded.Some? {
        original := decoded;
      }
    }

    /** `grayscale(method)`: converts the loaded image with the named method.
        An internal step of GenerateDitheredImage: on its own it does not keep
        Valid(), since the old result may have a different shape until
        DitherImage replaces it. */
    method ConvertToGrayscale(methodName: string)
      requires original.Some? && IsRect(original.value)
      modifies this`grayscale
      ensures grayscale == Some(GrayscaleOf(original.value, MethodNamed(methodName)))
      ensures IsRect(grayscale.value) && SameShape(grayscale.value, original.value)
    {
      grayscale := Some(GrayscaleOf(original.value, MethodNamed(methodName)));
    }

    /** `dither_image(conversion_method, threshold)`: dithers the grayscale
        buffer with the named strategy. `draws` stands for the random draws.
        An internal step of GenerateDitheredImage, which re-establishes
        Valid() once both buffers are replaced; it does not keep Valid() on
        its own. */
    method DitherImage(conversion: string, threshold: int, draws: seq<seq<real>>)
      requires grayscale.Some? && IsRect(grayscale.value)
      requires StrategyNamed(conversion) == Random ==> SameShape(draws, grayscale.value)
      modifies this`dithered
      ensures dithered == Some(Dithered(grayscale.value, StrategyNamed(conversion), threshold, draws))
    {
      var image;
      if conversion == "threshold" {
        image := ThresholdDithering(grayscale.value, threshold);
      } else {
        image := RandomDithering(grayscale.value, draws);
      }
      dithered := Some(image);
    }

    /** `generate_dithered_image`: nothing happens without an image or while a
        worker is alive, and an unparsable threshold stops it before any
        buffer changes (also when random dithering is selected, because the
        field is read in either case). Otherwise the grayscale buffer and the
        result are both replaced and the worker has been joined. */
    method GenerateDitheredImage(grayMethod: string, conversion: string, thresholdText: string,
                                 draws: seq<seq<real>>)
      returns (outcome: GenerateOutcome)
      requires Valid()
      requires original.Some? && StrategyNamed(conversion) == Random ==> SameShape(draws, original.value)
      modifies this
      ensures Valid()
      ensures outcome == (if old(original).None? then NoSource
                          else if old(busy) then WorkerBusy
                          else if ParseInt(thresholdText).None? then BadThreshold
                          else Generated)
      ensures original == old(original)
      ensures outcome != Generated ==>
        grayscale == old(grayscale) && dithered == old(dithered) && busy == old(busy)
      ensures outcome == Generated ==>
        !busy &&
        grayscale == Some(GrayscaleOf(original.value, MethodNamed(grayMethod))) &&
        dithered == Some(Dithered(grayscale.value, StrategyNamed(conversion),
                                  ParseInt(thresholdText).value, draws))
    {
      if original.None? {
        return NoSource;
      } else if busy {
        return WorkerBusy;
      }
      var threshold := ParseInt(thresholdText);
      if threshold.None? {
        return BadThreshold;
      }
      ConvertToGrayscale(grayMethod);
      busy := true;   // the worker thread starts
      DitherImage(conversion, threshold.value, draws);
      busy := false;  // and is joined
      outcome := Generated;
    }

    /** `save_dithered_image`: without a result nothing is written. Otherwise
        the result is written to the path the save dialog returned, unless
        the dialog was cancelled (an empty path). Returns what is written. */
    method SaveDitheredImage(chosenPath: string) returns (written: Option<(string, seq<seq<int>>)>)
      ensures written.Some? <==> dithered.Some? && chosenPath != ""
      ensures written.Some? ==> written.value == (chosenPath, dithered.value)
    {
      if dithered.None? {
        return None;
      }
      if chosenPath != "" {
        written := Some((chosenPath, dithered.value));
      } else {
        written := None;
      }
    }
  }

  /** The 2 by 2 image with black, white, mid-gray and (200, 100, 50) pixels. */
  function SampleImage(): seq<seq<Rgb>>
  {
    [[Rgb(0, 0, 0), Rgb(255, 255, 255)], [Rgb(128, 128, 128), Rgb(200, 100, 50)]]
  }

  /** Average grayscale then a threshold of 128: mid-gray 128 is not below
      the threshold and turns white, (200 + 100 + 50) / 3 is below and turns
      black. */
  lemma SampleImageAverageThreshold()
    ensures GrayscaleOf(SampleImage(), Average) == [[0.0, 255.0], [128.0, 350.0 / 3.0]]
    ensures ThresholdDithered(GrayscaleOf(SampleImage(), Average), 128) == [[0, 255], [255, 0]]
  {
    var g := GrayscaleOf(SampleImage(), Average);
    assert g[0] == [0.0, 255.0];
    assert g[1] == [128.0, 350.0 / 3.0];
    var d := ThresholdDithered(g, 128);
    assert d[0] == [0, 255];
    assert d[1] == [255, 0];
  }
}
