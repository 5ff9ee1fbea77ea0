/** The batch driver: converts each decoded input file, names every image
    produced and saves it under the output root; an error in one file is
    logged and the batch goes on with the next. */
module Driver {
  import opened Common
  import opened Tags
  import opened Naming
  import opened Conversion

  /** One saved image: the path it is written to and the image. */
  datatype Write = Write(path: Path, image: Image)

  /** One input: its file name and what decoding it yields. */
  datatype Input = Input(filename: Path, file: DecodedFile)

  /** The saves of a file's images, in order: image `i` is written under
      `pathOf(i)`. */
  function NamedWrites(images: seq<Image>, pathOf: nat -> Path): seq<Write> {
    seq(|images|, i requires 0 <= i < |images| => Write(pathOf(i), images[i]))
  }

  /** Where image `i` of a file is saved: the output path of its ordinal. */
  function FramePaths(instanceNumber: Option<int>, outputRoot: Path, filename: Path): nat -> Path {
    (i: nat) => OutputPath(outputRoot, Ordinal(instanceNumber, i), filename)
  }

  /** The saves one file's conversion performs: save `i` holds the image
      of frame `i` (its path is given by `InstanceNumberCollapses` and
      `PositionalNames`), and a file whose conversion did not stop early
      saves one image per frame. */
  function FileWrites(input: Input, outputRoot: Path, windowCentre: Option<int>, windowWidth: Option<int>): (saves: seq<Write>)
    ensures |saves| <= |FramesOf(input.file.pixels)|
    ensures FileFailure(input, windowCentre, windowWidth) == None ==> |saves| == |FramesOf(input.file.pixels)|
    ensures forall i :: 0 <= i < |saves| ==>
              ConvertFrame(FramesOf(input.file.pixels)[i], SettingsOf(input.file, windowCentre, windowWidth)) == Ok(saves[i].image)
  {
    NamedWrites(ConvertAll(FramesOf(input.file.pixels), SettingsOf(input.file, windowCentre, windowWidth)).images,
                FramePaths(ReadTag(input.file.integers, INSTANCE_NUMBER_TAG), outputRoot, input.filename))
  }

  /** The error that stopped a file's conversion, if any. */
  function FileFailure(input: Input, windowCentre: Option<int>, windowWidth: Option<int>): Option<Error> {
    ConvertAll(FramesOf(input.file.pixels), SettingsOf(input.file, windowCentre, windowWidth)).failure
  }

  /** The saves of a batch, file after file, where `saves` gives the saves
      of one file. */
  function Flatten(inputs: seq<Input>, saves: Input -> seq<Write>): (r: seq<Write>)
    ensures inputs == [] ==> r == []
    ensures |inputs| == 1 ==> r == saves(inputs[0])
  {
    if inputs == [] then []
    else Flatten(inputs[..|inputs| - 1], saves) + saves(inputs[|inputs| - 1])
  }

  /** The saves of a whole batch: nothing for an empty batch, and a file's
      own saves for a batch of one file (`BatchWritesSplit` gives the rest). */
  function BatchWrites(inputs: seq<Input>, outputRoot: Path, windowCentre: Option<int>, windowWidth: Option<int>): (saves: seq<Write>)
    ensures inputs == [] ==> saves == []
    ensures |inputs| == 1 ==> saves == FileWrites(inputs[0], outputRoot, windowCentre, windowWidth)
  {
    Flatten(inputs, input => FileWrites(input, outputRoot, windowCentre, windowWidth))
  }

  /** The names of the inputs that `failed` picks, in order. */
  function FailedNames(inputs: seq<Input>, failed: Input -> bool): (names: seq<Path>)
    ensures |names| <= |inputs|
    ensures (forall k :: 0 <= k < |inputs| ==> !failed(inputs[k])) ==> names == []
    ensures |inputs| == 1 ==> names == if failed(inputs[0]) then [inputs[0].filename] else []
  {
    if inputs == [] then []
    else FailedNames(inputs[..|inputs| - 1], failed)
         + (if failed(inputs[|inputs| - 1]) then [inputs[|inputs| - 1].filename] else [])
  }

  /** The names of the batch's files whose conversion stopped on an error:
      at most one per file, none when no file failed, and a file of its own
      is listed exactly when it failed (`BatchFailuresSplit` gives the rest). */
  function BatchFailures(inputs: seq<Input>, windowCentre: Option<int>, windowWidth: Option<int>): (failed: seq<Path>)
    ensures |failed| <= |inputs|
    ensures (forall k :: 0 <= k < |inputs| ==> FileFailure(inputs[k], windowCentre, windowWidth) == None) ==> failed == []
    ensures |inputs| == 1 ==> (failed == [inputs[0].filename] <==> FileFailure(inputs[0], windowCentre, windowWidth).Some?)
    ensures |inputs| == 1 ==> (failed == [] <==> FileFailure(inputs[0], windowCentre, windowWidth) == None)
  {
    FailedNames(inputs, input => FileFailure(input, windowCentre, windowWidth).Some?)
  }

  /** The output directory after a sequence of saves: a later save to a
      path replaces an earlier one. */
  function Saved(writes: seq<Write>): (m: map<Path, Image>)
    ensures m.Keys == set k | 0 <= k < |writes| :: writes[k].path
  {
    if writes == [] then map[]
    else Saved(writes[..|writes| - 1])[writes[|writes| - 1].path := writes[|writes| - 1].image]
  }

  // ---------------------------------------------------------------------
  // Properties

  /** When every frame of a well-formed file converts, one image is saved
      per announced frame, and nothing failed. */
  lemma FileWritesComplete(input: Input, outputRoot: Path, windowCentre: Option<int>, windowWidth: Option<int>)
    requires WellFormed(input.file)
    requires forall k :: 0 <= k < |FramesOf(input.file.pixels)| ==>
               ConvertFrame(FramesOf(input.file.pixels)[k], SettingsOf(input.file, windowCentre, windowWidth)).Ok?
    ensures |FileWrites(input, outputRoot, windowCentre, windowWidth)| == FrameCount(input.file)
    ensures FileFailure(input, windowCentre, windowWidth) == None
  {
    FramesOfWellFormed(input.file);
    OneImagePerFrame(FramesOf(input.file.pixels), SettingsOf(input.file, windowCentre, windowWidth));
  }

  /** With a truthy instance number every image of the file is saved under
      the same path, the one of that number. */
  lemma InstanceNumberCollapses(input: Input, outputRoot: Path, windowCentre: Option<int>, windowWidth: Option<int>)
    requires TruthyInt(ReadTag(input.file.integers, INSTANCE_NUMBER_TAG))
    ensures forall i :: 0 <= i < |FileWrites(input, outputRoot, windowCentre, windowWidth)| ==>
              FileWrites(input, outputRoot, windowCentre, windowWidth)[i].path
                == OutputPath(outputRoot, input.file.integers[INSTANCE_NUMBER_TAG], input.filename)
  {
  }

  /** Without a truthy instance number image `i` is saved under ordinal `i`,
      and no two images of the file share a path. */
  lemma PositionalNames(input: Input, outputRoot: Path, windowCentre: Option<int>, windowWidth: Option<int>)
    requires !TruthyInt(ReadTag(input.file.integers, INSTANCE_NUMBER_TAG))
    ensures forall i :: 0 <= i < |FileWrites(input, outputRoot, windowCentre, windowWidth)| ==>
              FileWrites(input, outputRoot, windowCentre, windowWidth)[i].path == OutputPath(outputRoot, i, input.filename)
    ensures forall i, j :: 0 <= i < j < |FileWrites(input, outputRoot, windowCentre, windowWidth)| ==>
              FileWrites(input, outputRoot, windowCentre, windowWidth)[i].path
                != FileWrites(input, outputRoot, windowCentre, windowWidth)[j].path
  {
    var w := FileWrites(input, outputRoot, windowCentre, windowWidth);
    forall i, j | 0 <= i < j < |w|
      ensures w[i].path != w[j].path
    {
      OutputPathsDistinct(outputRoot, i, j, input.filename);
    }
  }

  /** The ordinals of a three-frame file: 7, 7, 7 with instance number 7,
      and 0, 1, 2 without an instance number. */
  lemma OrdinalExamples()
    ensures seq(3, i requires 0 <= i < 3 => Ordinal(Some(7), i)) == [7, 7, 7]
    ensures seq(3, i requires 0 <= i < 3 => Ordinal(None, i)) == [0, 1, 2]
    ensures seq(3, i requires 0 <= i < 3 => Ordinal(Some(0), i)) == [0, 1, 2]
  {
  }

  /** A save that no later save overwrites is what the output directory
      holds under its path. */
  lemma {:induction false} SavedLastWrite(writes: seq<Write>, i: nat)
    requires i < |writes|
    requires forall j :: i < j < |writes| ==> writes[j].path != writes[i].path
    ensures writes[i].path in Saved(writes) && Saved(writes)[writes[i].path] == writes[i].image
  {
    if i < |writes| - 1 {
      SavedLastWrite(writes[..|writes| - 1], i);
    }
  }

  /** Without a truthy instance number every image of a file survives in
      the output directory under its own path. */
  lemma PositionalImagesKept(input: Input, outputRoot: Path, windowCentre: Option<int>, windowWidth: Option<int>, i: nat)
    requires !TruthyInt(ReadTag(input.file.integers, INSTANCE_NUMBER_TAG))
    requires i < |FileWrites(input, outputRoot, windowCentre, windowWidth)|
    ensures var w := FileWrites(input, outputRoot, windowCentre, windowWidth);
            && OutputPath(outputRoot, i, input.filename) in Saved(w)
            && Saved(w)[OutputPath(outputRoot, i, input.filename)] == w[i].image
  {
    PositionalNames(input, outputRoot, windowCentre, windowWidth);
    SavedLastWrite(FileWrites(input, outputRoot, windowCentre, windowWidth), i);
  }

  lemma SavedOnePath(writes: seq<Write>, p: Path)
    requires |writes| > 0
    requires forall i :: 0 <= i < |writes| ==> writes[i].path == p
    ensures Saved(writes) == map[p := writes[|writes| - 1].image]
  {
    SavedLastWrite(writes, |writes| - 1);
    assert Saved(writes).Keys == {p} by {
      assert writes[0].path == p;
    }
  }

  /** With a truthy instance number the output directory keeps a single
      image of the file: the last one converted. */
  lemma InstanceNumberKeepsLast(input: Input, outputRoot: Path, windowCentre: Option<int>, windowWidth: Option<int>)
    requires TruthyInt(ReadTag(input.file.integers, INSTANCE_NUMBER_TAG))
    requires |FileWrites(input, outputRoot, windowCentre, windowWidth)| > 0
    ensures var w := FileWrites(input, outputRoot, windowCentre, windowWidth);
            Saved(w) == map[OutputPath(outputRoot, input.file.integers[INSTANCE_NUMBER_TAG], input.filename) := w[|w| - 1].image]
  {
    InstanceNumberCollapses(input, outputRoot, windowCentre, windowWidth);
    SavedOnePath(FileWrites(input, outputRoot, windowCentre, windowWidth),
                 OutputPath(outputRoot, input.file.integers[INSTANCE_NUMBER_TAG], input.filename));
  }

  /** Naming one more image appends its save. */
  lemma NamedWritesStep(images: seq<Image>, n: nat, pathOf: nat -> Path, path: Path)
    requires n < |images| && pathOf(n) == path
    ensures NamedWrites(images[..n + 1], pathOf) == NamedWrites(images[..n], pathOf) + [Write(path, images[n])]
  {
    assert NamedWrites(images[..n + 1], pathOf)[..n] == NamedWrites(images[..n], pathOf);
  }

  /** Files are converted independently: the saves of a batch are those of
      its parts, one after the other, whatever happens in either part. */
  lemma {:induction false} FlattenSplit(a: seq<Input>, b: seq<Input>, saves: Input -> seq<Write>)
    ensures Flatten(a + b, saves) == Flatten(a, saves) + Flatten(b, saves)
    decreases |b|
  {
    if b == [] {
      assert a + b == a;
    } else {
      var front := b[..|b| - 1];
      assert (a + b)[..|a + b| - 1] == a + front;
      assert (a + b)[|a + b| - 1] == b[|b| - 1];
      FlattenSplit(a, front, saves);
    }
  }

  lemma BatchWritesSplit(a: seq<Input>, b: seq<Input>, outputRoot: Path, windowCentre: Option<int>, windowWidth: Option<int>)
    ensures BatchWrites(a + b, outputRoot, windowCentre, windowWidth)
              == BatchWrites(a, outputRoot, windowCentre, windowWidth) + BatchWrites(b, outputRoot, windowCentre, windowWidth)
  {
    FlattenSplit(a, b, input => FileWrites(input, outputRoot, windowCentre, windowWidth));
  }

  /** Failures are recorded file by file: the failures of a batch are those
      of its parts, one after the other. */
  lemma {:induction false} FailedNamesSplit(a: seq<Input>, b: seq<Input>, failed: Input -> bool)
    ensures FailedNames(a + b, failed) == FailedNames(a, failed) + FailedNames(b, failed)
    decreases |b|
  {
    if b == [] {
      assert a + b == a;
    } else {
      var front := b[..|b| - 1];
      assert (a + b)[..|a + b| - 1] == a + front;
      assert (a + b)[|a + b| - 1] == b[|b| - 1];
      FailedNamesSplit(a, front, failed);
    }
  }

  lemma BatchFailuresSplit(a: seq<Input>, b: seq<Input>, windowCentre: Option<int>, windowWidth: Option<int>)
    ensures BatchFailures(a + b, windowCentre, windowWidth)
              == BatchFailures(a, windowCentre, windowWidth) + BatchFailures(b, windowCentre, windowWidth)
  {
    FailedNamesSplit(a, b, input => FileFailure(input, windowCentre, windowWidth).Some?);
  }

  /** Extending a batch by one file appends that file's saves. */
  lemma BatchWritesStep(inputs: seq<Input>, n: nat, outputRoot: Path, windowCentre: Option<int>, windowWidth: Option<int>)
    requires n < |inputs|
    ensures BatchWrites(inputs[..n + 1], outputRoot, windowCentre, windowWidth)
              == BatchWrites(inputs[..n], outputRoot, windowCentre, windowWidth)
                 + FileWrites(inputs[n], outputRoot, windowCentre, windowWidth)
  {
    assert inputs[..n + 1][..n] == inputs[..n];
  }

  /** Extending a batch by one file appends its name to the failures when
      its conversion failed. */
  lemma BatchFailuresStep(inputs: seq<Input>, n: nat, windowCentre: Option<int>, windowWidth: Option<int>)
    requires n < |inputs|
    ensures BatchFailures(inputs[..n + 1], windowCentre, windowWidth)
              == BatchFailures(inputs[..n], windowCentre, windowWidth)
                 + (if FileFailure(inputs[n], windowCentre, windowWidth).Some? then [inputs[n].filename] else [])
  {
    assert inputs[..n + 1][..n] == inputs[..n];
  }

  /** A file's saves name the images of its iteration, and its failure is
      the iteration's failure. */
  lemma FileOutcome(input: Input, outputRoot: Path, windowCentre: Option<int>, windowWidth: Option<int>,
                    images: seq<Image>, failure: Option<Error>)
    requires Iteration(images, failure) == ConvertAll(FramesOf(input.file.pixels), SettingsOf(input.file, windowCentre, windowWidth))
    ensures FileWrites(input, outputRoot, windowCentre, windowWidth)
              == NamedWrites(images, FramePaths(ReadTag(input.file.integers, INSTANCE_NUMBER_TAG), outputRoot, input.filename))
    ensures FileFailure(input, windowCentre, windowWidth) == failure
  {
  }

  // ---------------------------------------------------------------------
  // The driver loops

  /** Converts one file, then names each image it yielded. The saves equal
      those of naming each image as it is produced, so an error after some
      frames leaves the earlier frames saved. */
  method ConvertFile(input: Input, outputRoot: Path, windowCentre: Option<int>, windowWidth: Option<int>)
    returns (writes: seq<Write>, failure: Option<Error>)
    requires WellFormed(input.file)
    ensures writes == FileWrites(input, outputRoot, windowCentre, windowWidth)
    ensures failure == FileFailure(input, windowCentre, windowWidth)
  {
    var converter := new Converter(input.file, windowCentre, windowWidth);
    var images;
    images, failure := converter.Iterate();
    FileOutcome(input, outputRoot, windowCentre, windowWidth, images, failure);
    writes := NameImages(images, converter.instanceNumber, outputRoot, input.filename);
  }

  /** Names each image of a file in turn: image `i` is saved under the
      output path of its ordinal. */
  method NameImages(images: seq<Image>, instanceNumber: Option<int>, outputRoot: Path, filename: Path)
    returns (writes: seq<Write>)
    ensures writes == NamedWrites(images, FramePaths(instanceNumber, outputRoot, filename))
  {
    ghost var pathOf := FramePaths(instanceNumber, outputRoot, filename);
    writes := [];
    var i := 0;
    while i < |images|
      invariant 0 <= i <= |images|
      invariant writes == NamedWrites(images[..i], pathOf)
    {
      var number := if TruthyInt(instanceNumber) then instanceNumber.value else i;
      var path := OutputPath(outputRoot, number, filename);
      NamedWritesStep(images, i, pathOf, path);
      writes := writes + [Write(path, images[i])];
      i := i + 1;
    }
    assert images[..i] == images;
  }

  /** Converts every input in turn; a file whose conversion stops on an
      error is recorded and the batch continues. */
  method ConvertTree(inputs: seq<Input>, outputRoot: Path, windowCentre: Option<int>, windowWidth: Option<int>)
    returns (writes: seq<Write>, failed: seq<Path>)
    requires forall k :: 0 <= k < |inputs| ==> WellFormed(inputs[k].file)
    ensures writes == BatchWrites(inputs, outputRoot, windowCentre, windowWidth)
    ensures failed == BatchFailures(inputs, windowCentre, windowWidth)
  {
    writes, failed := [], [];
    var n := 0;
    while n < |inputs|
      invariant 0 <= n <= |inputs|
      invariant writes == BatchWrites(inputs[..n], outputRoot, windowCentre, windowWidth)
      invariant failed == BatchFailures(inputs[..n], windowCentre, windowWidth)
    {
      var fileWrites, failure := ConvertFile(inputs[n], outputRoot, windowCentre, windowWidth);
      BatchWritesStep(inputs, n, outputRoot, windowCentre, windowWidth);
      BatchFailuresStep(inputs, n, windowCentre, windowWidth);
      writes := writes + fileWrites;
      if failure.Some? {
        failed := failed + [inputs[n].filename];
      }
      n := n + 1;
    }
    assert inputs[..n] == inputs;
  }
}
