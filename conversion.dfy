/** The per-file converter: the decoded file, the choice between the
    windowing and the normalisation transform, and the frame-by-frame
    iteration that yields one image per frame. */
module Conversion {
  import opened Common
  import opened Tags
  import opened Windowing
  import opened Normalization

  /** The decoded pixel buffer: a single plane for a single-frame file, a
      stack of planes for a multi-frame file. */
  datatype PixelArray = Plane(samples: Frame) | Stack(frames: seq<Frame>)

  /** What decoding a file yields: the pixel buffer, the minimum and
      maximum over the whole buffer, the decimal-string elements (rescale
      slope and intercept) and the integer-string elements (instance number,
      number of frames). */
  datatype DecodedFile = DecodedFile(
    pixels: PixelArray,
    minValue: int,
    maxValue: int,
    decimals: map<Tag, real>,
    integers: map<Tag, int>)

  /** An output image: its samples and its sample depth in bits. */
  datatype Image = Image(samples: Frame, bits: int)

  /** The outcome of iterating over a file's frames: the images produced,
      and the error that stopped the iteration, if any. */
  datatype Iteration = Iteration(images: seq<Image>, failure: Option<Error>)

  datatype Transform = Windowed | Normalized

  /** The settings every frame of one file is converted with. */
  datatype Settings = Settings(
    windowCentre: Option<int>,
    windowWidth: Option<int>,
    intercept: Option<real>,
    slope: Option<real>,
    minValue: int,
    maxValue: int,
    depth: int)

  /** The number of frames: the NumberOfFrames element, 1 when absent. */
  function FrameCount(file: DecodedFile): (n: int)
    ensures NUMBER_OF_FRAMES_TAG !in file.integers ==> n == 1
    ensures NUMBER_OF_FRAMES_TAG in file.integers ==> n == file.integers[NUMBER_OF_FRAMES_TAG]
  {
    match ReadTag(file.integers, NUMBER_OF_FRAMES_TAG)
    case Some(n) => n
    case None => 1
  }

  predicate WithinRange(frame: Frame, min: int, max: int) {
    forall i :: 0 <= i < |frame| ==> min <= frame[i] <= max
  }

  /** What the decoder guarantees: a single plane exactly when the file has
      one frame, a stack of the announced number of frames otherwise, and
      every sample within the observed minimum and maximum. */
  predicate WellFormed(file: DecodedFile) {
    && file.minValue <= file.maxValue
    && (FrameCount(file) == 1 <==> file.pixels.Plane?)
    && (file.pixels.Plane? ==> WithinRange(file.pixels.samples, file.minValue, file.maxValue))
    && (file.pixels.Stack? ==>
          && |file.pixels.frames| == FrameCount(file)
          && forall k :: 0 <= k < |file.pixels.frames| ==>
               WithinRange(file.pixels.frames[k], file.minValue, file.maxValue))
  }

  /** The frames iteration visits: a single plane is wrapped as one frame. */
  function FramesOf(pixels: PixelArray): (frames: seq<Frame>)
    ensures pixels.Plane? ==> frames == [pixels.samples]
    ensures pixels.Stack? ==> frames == pixels.frames
  {
    match pixels
    case Plane(samples) => [samples]
    case Stack(frames) => frames
  }

  /** The settings of a file: the batch's window, the file's calibration
      elements, its observed range, and the fixed output depth of 16 bits. */
  function SettingsOf(file: DecodedFile, windowCentre: Option<int>, windowWidth: Option<int>): (s: Settings)
    ensures s.intercept == ReadTag(file.decimals, INTERCEPT_TAG)
    ensures s.slope == ReadTag(file.decimals, SLOPE_TAG)
    ensures s.depth == 16
  {
    Settings(windowCentre, windowWidth,
             ReadTag(file.decimals, INTERCEPT_TAG), ReadTag(file.decimals, SLOPE_TAG),
             file.minValue, file.maxValue, 16)
  }

  /** The selection rule: windowing only when the window centre, the window
      width, the intercept and the slope are all truthy. */
  function SelectTransform(s: Settings): (t: Transform)
    ensures t == Windowed <==>
              TruthyInt(s.windowCentre) && TruthyInt(s.windowWidth) && Truthy(s.intercept) && Truthy(s.slope)
  {
    if TruthyInt(s.windowCentre) && TruthyInt(s.windowWidth) && Truthy(s.intercept) && Truthy(s.slope)
    then Windowed else Normalized
  }

  /** The conversion of one frame along the selected transform: an 8-bit
      image from windowing, a `depth`-bit image from normalisation. */
  function ConvertFrame(frame: Frame, s: Settings): (r: Result<Image>)
    ensures r.Ok? ==> |r.value.samples| == |frame|
    ensures r.Ok? && SelectTransform(s) == Windowed ==> r.value.bits == 8
    ensures r.Ok? && SelectTransform(s) == Normalized ==> r.value.bits == s.depth
  {
    match SelectTransform(s)
    case Windowed =>
      (match WindowFrame(frame, s.windowCentre.value, s.windowWidth.value, s.intercept.value, s.slope.value)
       case Ok(samples) => Ok(Image(samples, 8))
       case Err(e) => Err(e))
    case Normalized =>
      (match NormalizeFrame(frame, s.minValue, s.maxValue, s.depth)
       case Ok(samples) => Ok(Image(samples, s.depth))
       case Err(e) => Err(e))
  }

  /** The iteration's outcome over a sequence of frames: the images of the
      frames in order up to the first frame that fails, and that frame's
      error. */
  function ConvertAll(frames: seq<Frame>, s: Settings): (c: Iteration)
    ensures |c.images| <= |frames|
    ensures forall k {:trigger c.images[k]} :: 0 <= k < |c.images| ==> ConvertFrame(frames[k], s) == Ok(c.images[k])
    ensures c.failure.None? ==> |c.images| == |frames|
    ensures c.failure.Some? ==>
              |c.images| < |frames| && ConvertFrame(frames[|c.images|], s) == Err(c.failure.value)
  {
    if frames == [] then Iteration([], None)
    else
      match ConvertFrame(frames[0], s)
      case Err(e) => Iteration([], Some(e))
      case Ok(image) =>
        var rest := ConvertAll(frames[1..], s);
        Iteration([image] + rest.images, rest.failure)
  }

  // ---------------------------------------------------------------------
  // Properties

  /** A present-but-zero intercept or slope, like an absent one, sends the
      frame to normalisation. */
  lemma ZeroCalibrationNormalizes(s: Settings)
    requires s.intercept == Some(0.0) || s.slope == Some(0.0) || s.intercept == None || s.slope == None
    ensures SelectTransform(s) == Normalized
  {
  }

  /** Every image of a well-formed frame holds samples in
      `[0, 2^bits - 1]`, where the depth is 8 for windowing and 8 or 16 for
      normalisation. */
  lemma ConvertFrameInRange(frame: Frame, s: Settings)
    requires s.minValue <= s.maxValue && WithinRange(frame, s.minValue, s.maxValue)
    ensures ConvertFrame(frame, s).Ok? ==>
              var image := ConvertFrame(frame, s).value;
              && (image.bits == 8 || image.bits == 16)
              && forall i :: 0 <= i < |image.samples| ==> 0 <= image.samples[i] <= Pow2(image.bits) - 1
  {
    var r := ConvertFrame(frame, s);
    if r.Ok? {
      if SelectTransform(s) == Windowed {
        assert Pow2(8) == 256;
      } else {
        NormalizeFrameInRange(frame, s.minValue, s.maxValue, s.depth);
      }
    }
  }

  /** Conversion fails exactly on a degenerate window along the windowing
      path, and on an unsupported depth or a flat range along the
      normalisation path. */
  lemma ConvertFrameFails(frame: Frame, s: Settings)
    ensures ConvertFrame(frame, s).Err? <==>
              if SelectTransform(s) == Windowed
              then WindowLow(s.windowCentre.value, s.windowWidth.value) == WindowHigh(s.windowCentre.value, s.windowWidth.value)
              else !SupportedDepth(s.depth) || s.maxValue == s.minValue
  {
  }

  /** The iteration's outcome is determined by the properties `ConvertAll`
      promises: any images and failure that satisfy them are its result. */
  lemma {:induction false} ConvertAllUnique(frames: seq<Frame>, s: Settings, images: seq<Image>, failure: Option<Error>)
    requires |images| <= |frames|
    requires forall k :: 0 <= k < |images| ==> ConvertFrame(frames[k], s) == Ok(images[k])
    requires failure.None? ==> |images| == |frames|
    requires failure.Some? ==> |images| < |frames| && ConvertFrame(frames[|images|], s) == Err(failure.value)
    ensures ConvertAll(frames, s) == Iteration(images, failure)
  {
    if frames != [] {
      if images == [] {
        if failure.None? {
          assert false;
        }
      } else {
        ConvertAllUnique(frames[1..], s, images[1..], failure);
        assert images == [images[0]] + images[1..];
      }
    }
  }

  /** When every frame converts, iteration yields exactly one image per
      frame and no failure. */
  lemma OneImagePerFrame(frames: seq<Frame>, s: Settings)
    requires forall k :: 0 <= k < |frames| ==> ConvertFrame(frames[k], s).Ok?
    ensures |ConvertAll(frames, s).images| == |frames|
    ensures ConvertAll(frames, s).failure == None
  {
  }

  /** A well-formed file has as many frames to iterate as it announces, and
      a single-frame file has exactly one. */
  lemma FramesOfWellFormed(file: DecodedFile)
    requires WellFormed(file)
    ensures |FramesOf(file.pixels)| == FrameCount(file)
    ensures NUMBER_OF_FRAMES_TAG !in file.integers ==> |FramesOf(file.pixels)| == 1
    ensures forall k :: 0 <= k < |FramesOf(file.pixels)| ==>
              WithinRange(FramesOf(file.pixels)[k], file.minValue, file.maxValue)
  {
  }

  /** The converter of a well-formed file never fails on its output depth;
      along the normalisation path it fails only on a flat file. */
  lemma ConverterDepthSupported(file: DecodedFile, windowCentre: Option<int>, windowWidth: Option<int>, frame: Frame)
    requires SelectTransform(SettingsOf(file, windowCentre, windowWidth)) == Normalized
    ensures ConvertFrame(frame, SettingsOf(file, windowCentre, windowWidth)).Err? <==> file.minValue == file.maxValue
    ensures ConvertFrame(frame, SettingsOf(file, windowCentre, windowWidth)).Err? ==>
              ConvertFrame(frame, SettingsOf(file, windowCentre, windowWidth)).error == FlatRange
  {
  }

  // ---------------------------------------------------------------------
  // The converter object

  /** One file's converter.  Only the pixel buffer changes after
      construction: iteration wraps a single plane as a one-frame stack. */
  class Converter {
    var pixelArray: PixelArray
    const minValue: int
    const maxValue: int
    const slope: Option<real>
    const intercept: Option<real>
    const instanceNumber: Option<int>
    const depth: int
    const windowCentre: Option<int>
    const windowLength: Option<int>
    const length: int

    /** The state before iteration: a plane exactly when there is one
        frame, a stack of `length` frames otherwise. */
    predicate Ready()
      reads this
    {
      && (length == 1 <==> pixelArray.Plane?)
      && (pixelArray.Stack? ==> |pixelArray.frames| == length)
    }

    function FileSettings(): (s: Settings)
      ensures s.depth == depth && s.slope == slope && s.intercept == intercept
    {
      Settings(windowCentre, windowLength, intercept, slope, minValue, maxValue, depth)
    }

    /** Reads the pixel buffer, the observed range and the optional
        calibration elements from the decoded file. */
    constructor (file: DecodedFile, windowCentre: Option<int>, windowLength: Option<int>)
      requires WellFormed(file)
      ensures Ready()
      ensures pixelArray == file.pixels && length == FrameCount(file)
      ensures minValue == file.minValue && maxValue == file.maxValue
      ensures slope == ReadTag(file.decimals, SLOPE_TAG)
      ensures intercept == ReadTag(file.decimals, INTERCEPT_TAG)
      ensures instanceNumber == ReadTag(file.integers, INSTANCE_NUMBER_TAG)
      ensures depth == 16
      ensures this.windowCentre == windowCentre && this.windowLength == windowLength
      ensures FileSettings() == SettingsOf(file, windowCentre, windowLength)
    {
      pixelArray := file.pixels;
      minValue := file.minValue;
      maxValue := file.maxValue;
      slope := ReadTag(file.decimals, SLOPE_TAG);
      intercept := ReadTag(file.decimals, INTERCEPT_TAG);
      instanceNumber := ReadTag(file.integers, INSTANCE_NUMBER_TAG);
      depth := 16;
      this.windowCentre := windowCentre;
      this.windowLength := windowLength;
      length := FrameCount(file);
    }

    /** Converts one frame along the selected transform. */
    method ConvertOne(frame: Frame) returns (r: Result<Image>)
      ensures r == ConvertFrame(frame, FileSettings())
    {
      if windowCentre.Some? && windowCentre.value != 0 && windowLength.Some? && windowLength.value != 0
         && intercept.Some? && intercept.value != 0.0 && slope.Some? && slope.value != 0.0 {
        var w := WindowImage(frame, windowCentre.value, windowLength.value, intercept.value, slope.value);
        r := if w.Ok? then Ok(Image(w.value, 8)) else Err(w.error);
      } else {
        var n := NormalizeFrame(frame, minValue, maxValue, depth);
        r := if n.Ok? then Ok(Image(n.value, depth)) else Err(n.error);
      }
    }

    /** Iterates over the frames: wraps a single plane as one frame, then
        converts frame after frame until all are done or one fails. */
    method Iterate() returns (images: seq<Image>, failure: Option<Error>)
      requires Ready()
      modifies this`pixelArray
      ensures pixelArray == Stack(FramesOf(old(pixelArray)))
      ensures |pixelArray.frames| == length
      ensures Iteration(images, failure) == ConvertAll(pixelArray.frames, FileSettings())
    {
      if length == 1 {
        pixelArray := Stack([pixelArray.samples]);
      }
      var frames := pixelArray.frames;
      images, failure := [], None;
      var i := 0;
      while i < |frames| && failure.None?
        invariant pixelArray == Stack(frames) == Stack(FramesOf(old(pixelArray)))
        invariant 0 <= i <= |frames| && |images| == i
        invariant forall k :: 0 <= k < i ==> ConvertFrame(frames[k], FileSettings()) == Ok(images[k])
        invariant failure.Some? ==> i < |frames| && ConvertFrame(frames[i], FileSettings()) == Err(failure.value)
        decreases |frames| - i, failure.None?
      {
        var r := ConvertOne(frames[i]);
        if r.Err? {
          failure := Some(r.error);
        } else {
          images := images + [r.value];
          i := i + 1;
        }
      }
      ConvertAllUnique(frames, FileSettings(), images, failure);
    }
  }
}
