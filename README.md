# DICOM to PNG conversion: windowing, normalisation and output naming

This project models the pixel-intensity core of the DICOM-to-PNG conversion script
(`script_window.py`) and proves properties of it.

- **Tag reader** (`Tags`): optional data elements (rescale slope, rescale intercept,
  instance number, number of frames). A missing element reads as `None` and never fails.
  Truthiness (`Truthy`, `TruthyInt`: present and non-zero) is kept apart from presence.
- **Windowing** (`Windowing`): a linear rescale `v * slope + intercept`. Then a clamp into
  `[c - w // 2, c + w // 2]`, done as two in-place masks on a buffer (`RaiseBelow`,
  `LowerAbove`). Then a linear map of the window onto `[0, 255]` and a cast to `uint8`.
  The arithmetic is exact (`real`) and the cast is `.Floor`, since the value is never negative.
- **Normalisation** (`Normalization`): `(v - min) * (2^depth - 1) // (max - min)` in
  integers, then a cast to the unsigned type of `depth` bits. Depths other than 8 and 16
  are an error.
- **Converter** (`Conversion`): the decoded file and the selection rule. Windowing is used
  only when the window centre, window width, intercept and slope are all truthy.
  `Converter` is a class. Its constructor reads the tags. `Iterate` wraps a single plane as
  a one-frame stack by updating the `pixelArray` field, then converts the frames in order.
  It stops at the first frame that fails.
- **Naming and driver** (`Naming`, `Driver`): the ordinal is the instance number when it is
  truthy, otherwise the frame index. The output path is
  `join(output_root, zfill(str(ordinal), 3) + "_" + splitext(basename(input))[0] + ".png")`.
  The `basename`, `splitext`, `join`, `str` and `zfill` functions of the platform are
  modelled as they behave on POSIX paths. `ConvertFile` names the images of one file.
  `ConvertTree` runs over a batch, records failed files and carries on. `Saved` gives the
  output directory after the saves, where a later save to the same path wins.

Behaviour the model keeps as the code has it:

- The ordinal test at script_window.py:160 is truthiness. So instance number 0 falls back
  to the frame index, and does not collapse the frames onto 0.
- The output depth is fixed at 16 (script_window.py:64). It is not configurable.
- An unsupported depth is raised per frame, while iterating (script_window.py:124-125). It
  is not a start-up error.
- A negative window width gives `hi < lo`. The two masks, applied in order, then send every
  sample to `hi`, and every output sample is 255. The model reproduces this
  (`Windowing.Clamped`, `Windowing.WindowSample`).
- The output path is flat: the name is joined onto the output root (script_window.py:166).
  The help text of `--output` (script_window.py:37) says the input's directory structure
  is repeated, and the mirrored sub-directory is computed at script_window.py:145-148, but
  it is not used for the write.
  `Naming.DirectoriesCollide` shows the consequence: two inputs with the same file name in
  different directories are saved to the same path.

## Model

| member | source | states |
|---|---|---|
| `Tags.ReadTag` | script_window.py:83-88 | The result is `Some` of the element's value exactly when the tag is in the data set, and `None` otherwise; no precondition, so it never fails |
| `Tags.Truthy` | script_window.py:110 | A real-valued element is falsy exactly when it is absent or present with value 0 |
| `Tags.TruthyInt` | script_window.py:160 | An integer element is falsy exactly when it is absent or present with value 0 |
| `Tags.ZeroConflatedWithAbsent` | script_window.py:110 | An absent element and one present with value 0 read differently, yet both are falsy, so the selection test cannot tell them apart |
| `Windowing.Clamped` | script_window.py:94-95 | The two masks in order: for `lo <= hi` the result lies in `[lo, hi]` and values inside are unchanged; for `hi < lo` every value becomes `hi` |
| `Windowing.RaiseBelow` | script_window.py:94 | In place, every buffer element below `lo` becomes `lo` and the others keep their value |
| `Windowing.LowerAbove` | script_window.py:95 | In place, every buffer element above `hi` becomes `hi` and the others keep their value |
| `Windowing.WindowFrame` | script_window.py:90-99 | One output sample per input sample; the only error is a window whose bounds coincide, reported as `DegenerateWindow` |
| `Windowing.DegenerateIffNarrow` | script_window.py:92-93 | With floor division of the width, the bounds coincide exactly for widths 0 and 1, and `lo < hi` exactly for widths of at least 2 |
| `Windowing.ClampedWithinWindow` | script_window.py:92-95 | For a non-negative width every clamped value lies in `[c - w // 2, c + w // 2]` |
| `Windowing.WindowSample` | script_window.py:91-98 | For a window whose bounds differ, every output sample lies in `[0, 255]`, so the `uint8` cast does not wrap; with a negative width (`hi < lo`) every sample is 255 |
| `Windowing.WindowSampleSaturates` | script_window.py:94-98 | Rescaled values at or below the low bound map to 0; at or above the high bound map to 255 |
| `Windowing.WindowSampleMonotone` | script_window.py:91-98 | For a positive slope, `a <= b` implies the output of `a` is at most the output of `b` |
| `Windowing.WindowExample` | script_window.py:90-99 | Centre 50, width 100, intercept 0, slope 1 map `[-100, 0, 50, 200]` to `[0, 0, 127, 255]` |
| `Windowing.WindowImage` | script_window.py:90-99 | The buffer routine (rescale into a buffer, two in-place masks, map to bytes) returns exactly `WindowFrame` of its inputs, the error included |
| `Normalization.FloorDiv` | script_window.py:119 | The quotient is the floor of `a / b` for either sign of `b`: `q*b <= a < q*b + b` for `b > 0`, mirrored for `b < 0` |
| `Normalization.NormalizeFrame` | script_window.py:116-125 | An unsupported depth (neither 8 nor 16) is an error, and so is a flat range; otherwise there is one output sample per input sample |
| `Normalization.NormalizeSample` | script_window.py:117-123 | For a range with `max != min`, the result is reduced to a level of the unsigned output type: it lies in `[0, 2^depth - 1]` |
| `Normalization.NormalizeSampleInRange` | script_window.py:117-119 | A sample within `[min, max]`, with `min < max`, normalises into `[0, 2^depth - 1]`, so the unsigned cast does not wrap |
| `Normalization.NormalizeEndpoints` | script_window.py:117-119 | `min` maps to 0 and `max` maps to `2^depth - 1` |
| `Normalization.NormalizeMonotone` | script_window.py:117-119 | Within the observed range, normalisation preserves the order of samples |
| `Normalization.NormalizeFrameInRange` | script_window.py:116-123 | A frame inside the observed range normalises without error to samples all in `[0, 2^depth - 1]` |
| `Normalization.NormalizeExample` | script_window.py:116-121 | `[10, 20, 30]` with range `[10, 30]` at depth 8 gives `[0, 127, 255]` |
| `Naming.Ordinal` | script_window.py:160-163 | The ordinal is the instance number when it is truthy, and the frame index otherwise |
| `Naming.Basename` | script_window.py:142 | The final path component contains no separator, is a suffix of the path, and is preceded by a separator unless it is the whole path |
| `Naming.SplitExtRoot` | script_window.py:167 | The root of the split is a prefix of the name; when it is shorter, what is cut off starts with a dot and contains no separator and no other dot, so the split is at the last dot |
| `Naming.Join` | script_window.py:166 | An absolute name replaces the root; otherwise the result starts with the root, ends with the name, and has at most one added character between them; with a non-empty root, a separator comes right before the name |
| `Naming.IntToDecimal` | script_window.py:165 | The decimal form reads back as the integer: all digits for a non-negative value, and a minus sign followed by the digits of its magnitude for a negative one |
| `Naming.ZFill` | script_window.py:165 | Strings at least as long as the width are unchanged; shorter ones grow to the width; a digit string is padded by leading zeros |
| `Naming.FrameIndex` | script_window.py:165 | The zero-padded index is at least 3 characters long; it is all digits for a non-negative ordinal, and a minus sign followed by digits for a negative one |
| `Naming.FrameIndexRoundTrip` | script_window.py:165 | For a non-negative ordinal the index is all digits, and reading it back gives the ordinal |
| `Naming.FrameIndexExamples` | script_window.py:165 | 7 gives `007`, 42 gives `042`, 1234 gives `1234`, and -7 gives `-07` |
| `Naming.FrameIndexNegative` | script_window.py:165 | The index of a negative ordinal starts with its sign |
| `Naming.OutputName` | script_window.py:165-168 | The file name has no separator, is at least 8 characters long and ends in `.png` |
| `Naming.OutputPath` | script_window.py:165-168 | The path starts with the output root, adds at most a separator and the file name, and its basename is that file name: the image lands directly in the output root |
| `Naming.BasenameOfSuffix` | script_window.py:142 | A final segment without separators that follows a separator, or is the whole path, is the basename |
| `Naming.BasenameOfChild` | script_window.py:142 | The basename of `<dir>/<name>` is `name` when the name has no separator |
| `Naming.OutputNamesDistinct` | script_window.py:165-168 | Distinct non-negative ordinals give distinct file names for the same input |
| `Naming.OutputPathsDistinct` | script_window.py:165-168 | Distinct non-negative ordinals give distinct output paths for the same input |
| `Naming.StemOfDicomName` | script_window.py:166-168 | The stem of `<name>.dcm` is `name` when the name has no separator and is not made only of dots |
| `Naming.DirectoriesCollide` | script_window.py:142-168 | The output path ignores the input's directory: `d1/x.dcm` and `d2/x.dcm` are written to the same path |
| `Naming.OutputPathOfDicomFile` | script_window.py:165-168 | `<dir>/<name>.dcm` with ordinal `k` is written to `join(root, zfill(str(k), 3) + "_" + name + ".png")` |
| `Naming.OutputPathExample` | script_window.py:165-168 | Ordinal 7 for `/in/series/scan.dcm` under `/out` gives exactly the path `/out/007_scan.png` |
| `Conversion.FrameCount` | script_window.py:78-81 | The frame count is the NumberOfFrames element, and 1 when that element is absent |
| `Conversion.FramesOf` | script_window.py:105-108 | A single plane is iterated as exactly one frame, and a stack as its frames |
| `Conversion.SettingsOf` | script_window.py:61-66 | The converter takes its intercept and slope from the data set through the tag reader, and its depth is 16 |
| `Conversion.SelectTransform` | script_window.py:110 | Windowing is chosen exactly when the window centre, the window width, the intercept and the slope are all truthy |
| `Conversion.ZeroCalibrationNormalizes` | script_window.py:110-125 | An intercept or slope that is 0 or absent routes the frame to normalisation |
| `Conversion.ConvertFrame` | script_window.py:110-125 | A converted image has one sample per input sample, 8 bits along the windowing path, and the configured depth along the normalisation path |
| `Conversion.ConvertFrameInRange` | script_window.py:110-123 | The samples of every converted image lie in `[0, 2^bits - 1]`, with 8 or 16 bits |
| `Conversion.ConvertFrameFails` | script_window.py:110-125 | Conversion fails exactly on a degenerate window along the windowing path, or on an unsupported depth or a flat range along the normalisation path |
| `Conversion.ConvertAll` | script_window.py:108-129 | The images are those of the frames in order, up to the first frame that fails; that frame's error is reported, and no failure means one image per frame |
| `Conversion.ConvertAllUnique` | script_window.py:108-129 | Any images and failure with the properties of `ConvertAll` are its result |
| `Conversion.OneImagePerFrame` | script_window.py:108-129 | When every frame converts, the iteration yields exactly one image per frame and no failure |
| `Conversion.FramesOfWellFormed` | script_window.py:105-106 | A decoded file yields as many frames as it announces, exactly one without a NumberOfFrames element, each within the observed range |
| `Conversion.ConverterDepthSupported` | script_window.py:116-125 | With the fixed depth of 16, normalisation fails only on a flat file, and then with `FlatRange` |
| `Conversion.Converter.constructor` | script_window.py:55-81 | The converter holds the decoded buffer and observed range, the three tags as read by the tag reader, depth 16, the batch's window and the frame count |
| `Conversion.Converter.ConvertOne` | script_window.py:110-125 | One frame's conversion (the windowing routine or normalisation) equals `ConvertFrame` under the converter's settings |
| `Conversion.Converter.Iterate` | script_window.py:104-129 | The buffer becomes the stack of frames (a single plane is wrapped). The images and failure equal `ConvertAll` of those frames |
| `Driver.Saved` | script_window.py:170 | The images this run saved, keyed by path: its paths are exactly those saved to (which image a path holds is `SavedLastWrite`) |
| `Driver.SavedLastWrite` | script_window.py:170 | A save that no later save overwrites is what the directory holds under its path |
| `Driver.FileWrites` | script_window.py:156-170 | A file saves at most one image per frame, and one per frame when its conversion did not stop; save `i` holds the conversion of frame `i` |
| `Driver.FileWritesComplete` | script_window.py:156-170 | When every frame converts, one image is saved per announced frame and nothing fails |
| `Driver.InstanceNumberCollapses` | script_window.py:160-168 | With a truthy instance number, every image of the file is saved under the path of that number |
| `Driver.PositionalNames` | script_window.py:160-168 | Without a truthy instance number, image `i` is saved under ordinal `i`, and no two images share a path |
| `Driver.OrdinalExamples` | script_window.py:160-163 | Three frames give ordinals 7, 7, 7 with instance number 7, and 0, 1, 2 without one or with instance number 0 |
| `Driver.PositionalImagesKept` | script_window.py:156-170 | Without a truthy instance number, every image of the file survives in the output directory under its own path |
| `Driver.InstanceNumberKeepsLast` | script_window.py:156-170 | With a truthy instance number, the output directory keeps a single image of the file: the last one converted |
| `Driver.BatchWrites` | script_window.py:140-174 | An empty batch saves nothing, and a batch of one file saves exactly that file's images |
| `Driver.BatchFailures` | script_window.py:140-174 | At most one entry per file, none when no file failed, and a file alone in its batch is listed exactly when its conversion failed |
| `Driver.BatchWritesSplit` | script_window.py:140-174 | Files are converted independently: the saves of a batch are those of its parts, one after the other |
| `Driver.BatchFailuresSplit` | script_window.py:140-174 | A failure in one file does not affect the others: the failed files of a batch are those of its parts, one after the other |
| `Driver.ConvertFile` | script_window.py:153-174 | The saves of one file are its converted images, in order, each under its ordinal's output path; the failure is the one that stopped the iteration |
| `Driver.NameImages` | script_window.py:156-170 | Image `i` is saved under the output path of its ordinal (the truthy instance number, or `i`), in order |
| `Driver.ConvertTree` | script_window.py:140-174 | The batch's saves are the files' saves in order, and the failed files are listed in order, with the batch continuing past each |

## Left out

- Decoding of DICOM files and reading of `PhotometricInterpretation` (script_window.py:56-58). A decoded file is an input (`DecodedFile`). `WellFormed` states what the decoder guarantees: a single plane exactly when there is one frame, and every sample within the observed minimum and maximum.
- The minimum and maximum are taken over the buffer before its `int16` cast (script_window.py:57-60). The model takes them as given, and does not model the `int16` wrap-around of the cast.
- Normalization.NormalizeFrame: the subtraction of the minimum happens in the buffer's 16-bit type before widening (script_window.py:117-118). The model subtracts in unbounded integers. For a sample within the observed range, that agrees with the program whenever `max - min` fits in the pixel type, since `v - min` then fits as well.
- Normalization.NormalizeFrame: the divisor `max - min` (script_window.py:119) is computed in the decoded array's type, because both bounds are scalars of that type (script_window.py:59-60). For signed data whose range exceeds 32767, it wraps to a wrong, possibly negative, divisor. For example, `min = -32768` and `max = 3000` give `-29768`. The model divides by the exact `max - min`, so `NormalizeSample`, `NormalizeSampleInRange` and `NormalizeEndpoints` describe the program only when that difference fits in the pixel type.
- Floating-point rounding of the windowing arithmetic. The model computes in exact rationals, so a result at an exact integer boundary may differ by one from the float computation.
- Windowing.WindowFrame: a window of width 0 or 1, whose bounds coincide, is reported as `DegenerateWindow`. The code divides by zero there and casts NaN to `uint8` without raising.
- Normalization.NormalizeFrame: a flat range is reported as `FlatRange`. The code's integer division by zero yields zeros with a warning.
- Driver.ConvertFile: because of the two error choices above, a file with a degenerate window or a flat range is listed as failed and none of its images are saved. The program raises nothing for such a file: it saves every frame, with NaN-cast or all-zero samples, and logs no error.
- The `rescale=False` branch of `window_image` (script_window.py:96). The only caller always passes the default `True`.
- `__len__` (script_window.py:101-102) is the `length` field. Its only use in `main` feeds commented-out code.
- Re-iterating a converter. `Iterate` requires the state before iteration, because a second call would wrap the buffer again. `main` iterates each converter once.
- File discovery by `glob`, directory creation (script_window.py:133, 150-151), the actual PNG encoding and write of `Image.save`, argument parsing, logging, progress display and `print`. `Driver.Saved` models the writes of one run as a map from path to image; files already in the output directory and the directories created are not part of it.
- Exceptions raised while opening or decoding a file, which `main` also catches (script_window.py:172-174). Only conversion errors are modelled, as failures.
- `import_dcm_files.py` is not part of this model. It is an HTTP upload client with no part in the conversion.
- The decimal form of the instance number is taken as that of its integer value. A leading `+`, leading zeros or spaces in the element's original text are not modelled.
