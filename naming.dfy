/** Output naming: the frame ordinal, its zero-padded decimal form and the
    output path `<root>/<index>_<stem>.png`, together with the string
    functions of the platform that the name is built from. */
module Naming {
  import opened Common
  import opened Tags

  type Path = seq<char>

  /** The frame ordinal: the instance number when it is truthy, otherwise
      the frame's position in the file. */
  function Ordinal(instanceNumber: Option<int>, i: nat): (k: int)
    ensures TruthyInt(instanceNumber) ==> k == instanceNumber.value
    ensures !TruthyInt(instanceNumber) ==> k == i
  {
    if TruthyInt(instanceNumber) then instanceNumber.value else i
  }

  /** Index of the last occurrence of `c` in `s`, or -1 when there is none. */
  function LastIndexOf(s: seq<char>, c: char): (r: int)
    ensures -1 <= r < |s|
    ensures r >= 0 ==> s[r] == c
    ensures forall k :: r < k < |s| ==> s[k] != c
  {
    if s == [] then -1
    else if s[|s| - 1] == c then |s| - 1
    else LastIndexOf(s[..|s| - 1], c)
  }

  /** The final component of a path: everything after its last separator. */
  function Basename(p: Path): (r: Path)
    ensures '/' !in r
    ensures |r| <= |p| && r == p[|p| - |r|..]
    ensures |r| < |p| ==> p[|p| - |r| - 1] == '/'
  {
    p[LastIndexOf(p, '/') + 1..]
  }

  /** Whether `s[from..to]` holds a character other than a dot. */
  predicate HasNonDot(s: seq<char>, from: int, to: int)
    requires 0 <= from <= to <= |s|
  {
    exists k :: from <= k < to && s[k] != '.'
  }

  /** The root part of a path split at its extension: the text before the
      last dot, provided that dot follows the last separator and something
      other than dots precedes it in the final component; otherwise the
      whole path (leading dots do not start an extension). */
  function SplitExtRoot(p: Path): (r: Path)
    ensures r <= p
    ensures r != p ==> p[|r|] == '.' && '/' !in p[|r|..]
    ensures r != p ==> '.' !in p[|r| + 1..]
  {
    var sepIndex := LastIndexOf(p, '/');
    var dotIndex := LastIndexOf(p, '.');
    if dotIndex > sepIndex && HasNonDot(p, sepIndex + 1, dotIndex) then
      p[..dotIndex]
    else p
  }

  /** Joins a directory and a name.  An absolute name replaces the
      directory; otherwise the name follows the directory, separated by one
      separator unless the directory is empty or already ends in one. */
  function Join(root: Path, name: Path): (r: Path)
    ensures name != [] && name[0] == '/' ==> r == name
    ensures name == [] || name[0] != '/' ==>
              && |root| + |name| <= |r| <= |root| + |name| + 1
              && r[..|root|] == root && r[|r| - |name|..] == name
    ensures (name == [] || name[0] != '/') && root != [] ==> r[|r| - |name| - 1] == '/'
  {
    if name != [] && name[0] == '/' then name
    else if root == [] || root[|root| - 1] == '/' then root + name
    else root + "/" + name
  }

  predicate IsDigit(c: char) {
    '0' <= c <= '9'
  }

  predicate AllDigits(s: seq<char>) {
    forall i :: 0 <= i < |s| ==> IsDigit(s[i])
  }

  function DigitChar(d: int): (c: char)
    requires 0 <= d < 10
    ensures IsDigit(c)
  {
    (d + '0' as int) as char
  }

  /** Decimal form of a natural number, most significant digit first. */
  function NatToDecimal(n: nat): (s: seq<char>)
    ensures |s| >= 1 && AllDigits(s)
  {
    if n < 10 then [DigitChar(n)] else NatToDecimal(n / 10) + [DigitChar(n % 10)]
  }

  /** Decimal form of an integer, with a leading minus sign when negative. */
  function IntToDecimal(n: int): (s: seq<char>)
    ensures |s| >= 1
    ensures n >= 0 ==> AllDigits(s) && ParseDigits(s) == n
    ensures n < 0 ==> s[0] == '-' && AllDigits(s[1..]) && ParseDigits(s[1..]) == -n
  {
    if n < 0 then
      var digits := NatToDecimal(-n);
      DecimalRoundTrip(-n);
      assert ("-" + digits)[1..] == digits;
      "-" + digits
    else
      DecimalRoundTrip(n);
      NatToDecimal(n)
  }

  /** The value of a digit string. */
  function ParseDigits(s: seq<char>): int
    requires AllDigits(s)
  {
    if s == [] then 0 else 10 * ParseDigits(s[..|s| - 1]) + (s[|s| - 1] as int - '0' as int)
  }

  function Zeros(k: nat): (z: seq<char>)
    ensures |z| == k && AllDigits(z)
    ensures forall i :: 0 <= i < k ==> z[i] == '0'
  {
    seq(k, _ => '0')
  }

  /** Pads `s` on the left with zeros to `width` characters; a leading sign
      stays in front of the padding. */
  function ZFill(s: seq<char>, width: int): (r: seq<char>)
    ensures |s| >= width ==> r == s
    ensures |s| < width ==> |r| == width
    ensures AllDigits(s) ==> AllDigits(r)
    ensures AllDigits(s) && |s| < width ==> r == Zeros(width - |s|) + s
  {
    if |s| >= width then s
    else if |s| > 0 && (s[0] == '+' || s[0] == '-') then [s[0]] + Zeros(width - |s|) + s[1..]
    else Zeros(width - |s|) + s
  }

  /** The zero-padded index that starts an output file name. */
  function FrameIndex(ordinal: int): (r: seq<char>)
    ensures |r| >= 3
    ensures ordinal >= 0 ==> AllDigits(r)
    ensures ordinal < 0 ==> r[0] == '-' && AllDigits(r[1..])
  {
    var s := IntToDecimal(ordinal);
    assert ordinal < 0 && |s| < 3 ==>
             ([s[0]] + Zeros(3 - |s|) + s[1..])[1..] == Zeros(3 - |s|) + s[1..];
    ZFill(s, 3)
  }

  /** The index holds no separator. */
  lemma IndexCharacters(ordinal: int)
    ensures '/' !in FrameIndex(ordinal)
  {
    var r := FrameIndex(ordinal);
    if ordinal < 0 {
      assert forall k :: 1 <= k < |r| ==> r[k] == r[1..][k - 1];
    }
  }

  /** The output file name `<index>_<stem>.png` for an input file: a single
      path component that starts with the index and ends in `.png`. */
  function OutputName(ordinal: int, inputFilename: Path): (r: Path)
    ensures '/' !in r && |r| >= 8
    ensures r[|r| - 4..] == ".png"
  {
    var index := FrameIndex(ordinal);
    var base := Basename(inputFilename);
    var stem := SplitExtRoot(base);
    IndexCharacters(ordinal);
    assert '/' !in stem by {
      assert stem == base[..|stem|];
    }
    NameShape(index, stem);
    index + "_" + stem + ".png"
  }

  /** An index and a stem without separators make a name without
      separators: the index, an underscore, the stem and `.png`. */
  lemma NameShape(index: seq<char>, stem: seq<char>)
    requires '/' !in index && '/' !in stem && |index| >= 3
    ensures var name := index + "_" + stem + ".png";
            && '/' !in name && |name| >= 8
            && name[..|index|] == index && name[|index|] == '_'
            && name[|name| - 4..] == ".png"
  {
    var name := index + "_" + stem + ".png";
    assert forall k :: 0 <= k < |name| ==>
             name[k] == if k < |index| then index[k]
                        else if k == |index| then '_'
                        else if k < |index| + 1 + |stem| then stem[k - |index| - 1]
                        else ".png"[k - |index| - 1 - |stem|];
  }

  /** The output path: the output name placed directly in the output root,
      not in the input's mirrored sub-directory. */
  function OutputPath(outputRoot: Path, ordinal: int, inputFilename: Path): (r: Path)
    ensures |outputRoot| <= |r| <= |outputRoot| + 1 + |OutputName(ordinal, inputFilename)|
    ensures r[..|outputRoot|] == outputRoot
    ensures Basename(r) == OutputName(ordinal, inputFilename)
  {
    var name := OutputName(ordinal, inputFilename);
    var r := Join(outputRoot, name);
    BasenameOfSuffix(r, name);
    r
  }

  // ---------------------------------------------------------------------
  // Properties of the index

  lemma {:induction false} DecimalRoundTrip(n: nat)
    ensures ParseDigits(NatToDecimal(n)) == n
  {
    if n >= 10 {
      var s := NatToDecimal(n);
      assert s[..|s| - 1] == NatToDecimal(n / 10);
      DecimalRoundTrip(n / 10);
    }
  }

  lemma {:induction false} LeadingZerosIgnored(k: nat, s: seq<char>)
    requires AllDigits(s)
    ensures ParseDigits(Zeros(k) + s) == ParseDigits(s)
    decreases |s|, k
  {
    var t := Zeros(k) + s;
    if s == [] {
      assert t == Zeros(k);
      if k > 0 {
        assert t[..|t| - 1] == Zeros(k - 1) + [];
        LeadingZerosIgnored(k - 1, []);
      }
    } else {
      assert t[..|t| - 1] == Zeros(k) + s[..|s| - 1];
      LeadingZerosIgnored(k, s[..|s| - 1]);
    }
  }

  /** Reading the zero-padded index of a non-negative ordinal back gives
      the ordinal. */
  lemma FrameIndexRoundTrip(n: nat)
    ensures AllDigits(FrameIndex(n))
    ensures ParseDigits(FrameIndex(n)) == n
  {
    var s := NatToDecimal(n);
    DecimalRoundTrip(n);
    if |s| < 3 {
      LeadingZerosIgnored(3 - |s|, s);
    }
  }

  /** An index of a negative ordinal keeps its sign in front. */
  lemma FrameIndexNegative(n: int)
    requires n < 0
    ensures FrameIndex(n)[0] == '-'
  {
  }

  /** The worked examples of the index. */
  lemma FrameIndexExamples()
    ensures FrameIndex(7) == "007"
    ensures FrameIndex(42) == "042"
    ensures FrameIndex(1234) == "1234"
    ensures FrameIndex(-7) == "-07"
  {
    assert NatToDecimal(42) == NatToDecimal(4) + [DigitChar(2)];
    assert NatToDecimal(1234) == NatToDecimal(123) + [DigitChar(4)];
    assert NatToDecimal(123) == NatToDecimal(12) + [DigitChar(3)];
    assert NatToDecimal(12) == NatToDecimal(1) + [DigitChar(2)];
  }

  // ---------------------------------------------------------------------
  // Properties of the path

  lemma DigitsBeforeSeparator(a: seq<char>, b: seq<char>, t: seq<char>)
    requires AllDigits(a) && AllDigits(b) && a != b
    ensures a + "_" + t != b + "_" + t
  {
    var x, y := a + "_" + t, b + "_" + t;
    if |a| < |b| {
      assert x[|a|] != y[|a|];
    } else if |b| < |a| {
      assert x[|b|] != y[|b|];
    } else {
      var k :| 0 <= k < |a| && a[k] != b[k];
      assert x[k] != y[k];
    }
  }

  lemma JoinInjective(root: Path, x: Path, y: Path)
    requires x != [] && y != [] && x[0] != '/' && y[0] != '/'
    requires x != y
    ensures Join(root, x) != Join(root, y)
  {
    var prefix := if root == [] || root[|root| - 1] == '/' then root else root + "/";
    assert Join(root, x) == prefix + x && Join(root, y) == prefix + y;
    assert x == (prefix + x)[|prefix|..];
    assert y == (prefix + y)[|prefix|..];
  }

  lemma NameAfterIndex(ordinal: int, inputFilename: Path)
    ensures OutputName(ordinal, inputFilename)
              == FrameIndex(ordinal) + "_" + (SplitExtRoot(Basename(inputFilename)) + ".png")
    ensures OutputName(ordinal, inputFilename)[0] == FrameIndex(ordinal)[0]
  {
    NameRegrouped(FrameIndex(ordinal), SplitExtRoot(Basename(inputFilename)));
  }

  /** The name built from an index and a stem, grouped as the index, an
      underscore and the rest; it starts with the index's first character. */
  lemma NameRegrouped(index: seq<char>, stem: seq<char>)
    requires index != []
    ensures index + "_" + stem + ".png" == index + "_" + (stem + ".png")
    ensures (index + "_" + stem + ".png")[0] == index[0]
  {
  }

  /** Distinct non-negative ordinals give distinct output names for the
      same input file. */
  lemma OutputNamesDistinct(i: nat, j: nat, inputFilename: Path)
    requires i != j
    ensures OutputName(i, inputFilename) != OutputName(j, inputFilename)
    ensures IsDigit(OutputName(i, inputFilename)[0]) && IsDigit(OutputName(j, inputFilename)[0])
  {
    var a, b := FrameIndex(i), FrameIndex(j);
    FrameIndexRoundTrip(i);
    FrameIndexRoundTrip(j);
    var stem := SplitExtRoot(Basename(inputFilename)) + ".png";
    NameAfterIndex(i, inputFilename);
    NameAfterIndex(j, inputFilename);
    DigitsBeforeSeparator(a, b, stem);
  }

  /** Distinct non-negative ordinals give distinct output paths for the same
      input file, so frames named by position never overwrite each other. */
  lemma OutputPathsDistinct(outputRoot: Path, i: nat, j: nat, inputFilename: Path)
    requires i != j
    ensures OutputPath(outputRoot, i, inputFilename) != OutputPath(outputRoot, j, inputFilename)
  {
    OutputNamesDistinct(i, j, inputFilename);
    JoinInjective(outputRoot, OutputName(i, inputFilename), OutputName(j, inputFilename));
  }

  /** A final segment without separators that follows a separator, or
      makes up the whole path, is the basename. */
  lemma BasenameOfSuffix(p: Path, name: Path)
    requires '/' !in name && |name| <= |p| && p[|p| - |name|..] == name
    requires |name| == |p| || p[|p| - |name| - 1] == '/'
    ensures Basename(p) == name
  {
    var start := |p| - |name|;
    assert forall k :: start <= k < |p| ==> p[k] == name[k - start];
    var i := LastIndexOf(p, '/');
    assert i < start;
    if start > 0 {
      assert i >= start - 1;
    }
  }

  /** The basename of `<dir>/<name>` is `name`. */
  lemma BasenameOfChild(dir: Path, name: Path)
    requires '/' !in name
    ensures Basename(dir + "/" + name) == name
  {
    var p := dir + "/" + name;
    assert p[|p| - |name|..] == name;
    BasenameOfSuffix(p, name);
  }

  /** The stem of `<name>.dcm`, where the name has no separator and is not
      made only of dots, is the name itself. */
  lemma StemOfDicomName(name: Path)
    requires '/' !in name && HasNonDot(name, 0, |name|)
    ensures SplitExtRoot(name + ".dcm") == name
  {
    var p := name + ".dcm";
    assert forall k :: 0 <= k < |name| ==> p[k] == name[k];
    assert LastIndexOf(p, '/') == -1;
    assert p[|name|] == '.' && p[|name| + 1..] == "dcm";
    assert LastIndexOf(p, '.') == |name|;
    var k :| 0 <= k < |name| && name[k] != '.';
    assert p[k] != '.';
    assert p[..|name|] == name;
  }

  /** The output path ignores the input's directory: two inputs with the
      same file name in different directories are written to the same
      path, so the later overwrites the earlier. */
  lemma DirectoriesCollide(outputRoot: Path, ordinal: int, dir1: Path, dir2: Path, name: Path)
    requires '/' !in name
    ensures OutputPath(outputRoot, ordinal, dir1 + "/" + name) == OutputPath(outputRoot, ordinal, dir2 + "/" + name)
  {
    BasenameOfChild(dir1, name);
    BasenameOfChild(dir2, name);
  }

  /** The output path of `<dir>/<name>.dcm`: the zero-padded ordinal, an
      underscore, the name and `.png`, directly under the output root. */
  lemma OutputPathOfDicomFile(outputRoot: Path, ordinal: int, dir: Path, name: Path)
    requires '/' !in name && HasNonDot(name, 0, |name|)
    ensures OutputPath(outputRoot, ordinal, dir + "/" + name + ".dcm")
              == Join(outputRoot, FrameIndex(ordinal) + "_" + name + ".png")
  {
    var file := name + ".dcm";
    assert dir + "/" + name + ".dcm" == dir + "/" + file;
    assert '/' !in file by {
      assert forall k :: 0 <= k < |file| ==> file[k] == if k < |name| then name[k] else ".dcm"[k - |name|];
    }
    BasenameOfChild(dir, file);
    StemOfDicomName(name);
  }

  /** The worked example: ordinal 7 for `/in/series/scan.dcm` under the
      output root `/out` is written to `/out/007_scan.png`. */
  lemma OutputPathExample()
    ensures OutputPath("/out", 7, "/in/series/scan.dcm") == "/out/007_scan.png"
  {
    assert HasNonDot("scan", 0, 4) by { assert "scan"[0] != '.'; }
    ExampleInput();
    OutputPathOfDicomFile("/out", 7, "/in/series", "scan");
    FrameIndexExamples();
    ExampleJoin();
  }

  lemma ExampleInput()
    ensures "/in/series" + "/" + "scan" + ".dcm" == "/in/series/scan.dcm"
  {
  }

  lemma ExampleJoin()
    ensures Join("/out", "007" + "_" + "scan" + ".png") == "/out/007_scan.png"
  {
    var name := "007" + "_" + "scan" + ".png";
    assert name[0] != '/' && "/out"[3] != '/';
  }
}
