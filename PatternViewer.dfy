/**
 * The pattern viewer's command-line logic: the argument loop of `main`,
 * the pattern names and their parser, the three output file names per
 * pattern, and the loop that turns RGBA data into RGB by dropping alpha.
 *
 * Compressing and writing the JPEG files and printing to the console are
 * not modelled: `GeneratePatternSet` returns the jobs it would hand to the
 * JPEG writers.
 */
module PatternViewer {
  import opened GstTypes
  import opened PatternGenerator

  // ---------------------------------------------------------------------
  // Pattern names
  // ---------------------------------------------------------------------

  /** The name the switch in generatePatternSet gives each pattern. */
  function PatternName(p: PatternType): string
  {
    match p
    case Gradient => "gradient"
    case Checkerboard => "checkerboard"
    case SineWave => "sine_wave"
    case MixedFrequency => "mixed_frequency"
    case PhotoRealistic => "photo_realistic"
    case SmpteColorBars => "smpte_color_bars"
  }

  /** parsePatternType; `None` is the unknown-name branch, which exits with status 1. */
  function ParsePatternType(s: string): Option<PatternType>
  {
    if s == "gradient" then Some(Gradient)
    else if s == "checkerboard" then Some(Checkerboard)
    else if s == "sine_wave" then Some(SineWave)
    else if s == "mixed_frequency" then Some(MixedFrequency)
    else if s == "photo_realistic" then Some(PhotoRealistic)
    else if s == "smpte_color_bars" then Some(SmpteColorBars)
    else None
  }

  /** The parser accepts exactly the six pattern names, each naming its own pattern. */
  lemma ParseNameRoundTrip(s: string, p: PatternType)
    ensures ParsePatternType(PatternName(p)) == Some(p)
    ensures ParsePatternType(s) == Some(p) <==> s == PatternName(p)
  {
  }

  /** No two patterns share the first two letters of their names. */
  lemma NamesDifferEarly(p: PatternType, q: PatternType)
    requires p != q
    ensures |PatternName(p)| >= 2 && |PatternName(q)| >= 2
    ensures PatternName(p)[0] != PatternName(q)[0] || PatternName(p)[1] != PatternName(q)[1]
  {
  }

  // ---------------------------------------------------------------------
  // Output file names
  // ---------------------------------------------------------------------

  /** The three files generatePatternSet writes for one pattern. */
  datatype OutputKind = RgbFile | GrayFile | RgbaAsRgbFile

  function Suffix(kind: OutputKind): string
  {
    match kind
    case RgbFile => "_rgb.jpg"
    case GrayFile => "_gray.jpg"
    case RgbaAsRgbFile => "_rgba_as_rgb.jpg"
  }

  /** base + "_" + pattern name + the kind's suffix. */
  function OutputName(base: string, p: PatternType, kind: OutputKind): (name: string)
    ensures |name| == |base| + 1 + |PatternName(p)| + |Suffix(kind)|
    ensures name[..|base| + 1] == base + "_"
  {
    base + "_" + PatternName(p) + Suffix(kind)
  }

  /** The part of an output name after base + "_". */
  lemma OutputNameTail(base: string, p: PatternType, kind: OutputKind)
    ensures OutputName(base, p, kind)[|base| + 1..] == PatternName(p) + Suffix(kind)
  {
    var name := OutputName(base, p, kind);
    assert name == (base + "_") + (PatternName(p) + Suffix(kind));
  }

  /**
   * Every file a run writes has its own name: two (pattern, kind) pairs
   * give the same name only if they are the same pair.
   */
  lemma OutputNamesDistinct(base: string, p: PatternType, k1: OutputKind, q: PatternType, k2: OutputKind)
    ensures OutputName(base, p, k1) == OutputName(base, q, k2) <==> p == q && k1 == k2
  {
    if OutputName(base, p, k1) == OutputName(base, q, k2) {
      OutputNameTail(base, p, k1);
      OutputNameTail(base, q, k2);
      var t1 := PatternName(p) + Suffix(k1);
      var t2 := PatternName(q) + Suffix(k2);
      assert t1 == t2;
      if p != q {
        assert |PatternName(p)| >= 2 && |PatternName(q)| >= 2;
        assert t1[0] == PatternName(p)[0] && t1[1] == PatternName(p)[1];
        assert t2[0] == PatternName(q)[0] && t2[1] == PatternName(q)[1];
        NamesDifferEarly(p, q);
        assert false;
      }
      assert |Suffix(k1)| == |Suffix(k2)|;
    }
  }

  // ---------------------------------------------------------------------
  // Dropping alpha: the RGBA-to-RGB loop
  // ---------------------------------------------------------------------

  /** Bytes 0, 1, 2 of every group of four: R, G, B without alpha. */
  function DropAlpha(s: seq<byte>): seq<byte>
    requires |s| % 4 == 0
  {
    if |s| == 0 then [] else s[..3] + DropAlpha(s[4..])
  }

  /** Three bytes out for every four in, with out[3k + c] == in[4k + c] for c < 3. */
  lemma {:induction false} DropAlphaAt(s: seq<byte>, k: nat, c: nat)
    requires |s| % 4 == 0 && 4 * k < |s| && c < 3
    ensures |DropAlpha(s)| == |s| / 4 * 3
    ensures 3 * k + c < |DropAlpha(s)| && DropAlpha(s)[3 * k + c] == s[4 * k + c]
  {
    DropAlphaLength(s);
    if k > 0 {
      DropAlphaAt(s[4..], k - 1, c);
      assert DropAlpha(s) == s[..3] + DropAlpha(s[4..]);
    }
  }

  /** Dropping alpha keeps three bytes of every four. */
  lemma {:induction false} DropAlphaLength(s: seq<byte>)
    requires |s| % 4 == 0
    ensures |DropAlpha(s)| == |s| / 4 * 3
  {
    if |s| > 0 {
      DropAlphaLength(s[4..]);
    }
  }

  /** Dropping alpha from two pieces is dropping it from each. */
  lemma {:induction false} DropAlphaAppend(s: seq<byte>, t: seq<byte>)
    requires |s| % 4 == 0 && |t| % 4 == 0
    ensures DropAlpha(s + t) == DropAlpha(s) + DropAlpha(t)
  {
    if |s| > 0 {
      assert (s + t)[..3] == s[..3];
      assert (s + t)[4..] == s[4..] + t;
      DropAlphaAppend(s[4..], t);
    } else {
      assert s + t == t;
    }
  }

  /** Dropping alpha from a run of blocks is the run of the blocks without alpha. */
  lemma {:induction false} DropAlphaConcat(rgba: nat -> seq<byte>, rgb: nat -> seq<byte>, n: nat)
    requires forall i: nat :: i < n ==> |rgba(i)| % 4 == 0 && DropAlpha(rgba(i)) == rgb(i)
    ensures |Concat(rgba, n)| % 4 == 0
    ensures DropAlpha(Concat(rgba, n)) == Concat(rgb, n)
  {
    if n > 0 {
      var prefix := Concat(rgba, n - 1);
      DropAlphaConcat(rgba, rgb, n - 1);
      assert |rgba(n - 1)| % 4 == 0 && DropAlpha(rgba(n - 1)) == rgb(n - 1);
      WholeGroups(|prefix|, |rgba(n - 1)|);
      DropAlphaAppend(prefix, rgba(n - 1));
      assert Concat(rgba, n) == prefix + rgba(n - 1);
    }
  }

  /** Two runs of whole groups of four make whole groups of four. */
  lemma WholeGroups(a: int, b: int)
    requires a % 4 == 0 && b % 4 == 0
    ensures (a + b) % 4 == 0
  {
  }

  /** An RGBA pixel without alpha is the RGB pixel. */
  lemma DropAlphaPixel(pixel: PixelFn, x: int, y: int)
    ensures DropAlpha(PixelBytes(pixel, x, y, 4)) == PixelBytes(pixel, x, y, 3)
  {
    var px := PixelBytes(pixel, x, y, 4);
    assert px[4..] == [];
    assert px[..3] == PixelBytes(pixel, x, y, 3);
  }

  /** A row of RGBA pixels without alpha is the row of RGB pixels. */
  lemma DropAlphaRow(pixel: PixelFn, width: nat, y: nat)
    ensures |Rows(pixel, width, 4)(y)| % 4 == 0
    ensures DropAlpha(Rows(pixel, width, 4)(y)) == Rows(pixel, width, 3)(y)
  {
    forall x: nat | x < width
      ensures |RowPixels(pixel, 4, y)(x)| % 4 == 0 && DropAlpha(RowPixels(pixel, 4, y)(x)) == RowPixels(pixel, 3, y)(x)
    {
      DropAlphaPixel(pixel, x, y);
    }
    DropAlphaConcat(RowPixels(pixel, 4, y), RowPixels(pixel, 3, y), width);
  }

  /** generateRGBA's image without alpha is generateRGB's image. */
  lemma DropAlphaImage(pixel: PixelFn, width: nat, height: nat)
    ensures |Image(pixel, width, height, 4)| % 4 == 0
    ensures DropAlpha(Image(pixel, width, height, 4)) == Image(pixel, width, height, 3)
  {
    forall y: nat | y < height
      ensures |Rows(pixel, width, 4)(y)| % 4 == 0 && DropAlpha(Rows(pixel, width, 4)(y)) == Rows(pixel, width, 3)(y)
    {
      DropAlphaRow(pixel, width, y);
    }
    DropAlphaConcat(Rows(pixel, width, 4), Rows(pixel, width, 3), height);
  }

  /** Four groups of bytes at a time, R, G and B pushed and alpha skipped. */
  method StripAlpha(rgba: seq<byte>) returns (rgb: seq<byte>)
    requires |rgba| % 4 == 0
    ensures rgb == DropAlpha(rgba)
  {
    rgb := [];
    var i := 0;
    while i < |rgba|
      invariant 0 <= i <= |rgba| && i % 4 == 0
      invariant rgb == DropAlpha(rgba[..i])
    {
      var group := rgba[i..i + 4];
      assert rgba[..i + 4] == rgba[..i] + group;
      DropAlphaAppend(rgba[..i], group);
      assert group[4..] == [];
      rgb := rgb + [rgba[i], rgba[i + 1], rgba[i + 2]];
      i := i + 4;
    }
    assert rgba[..i] == rgba;
  }

  // ---------------------------------------------------------------------
  // generatePatternSet
  // ---------------------------------------------------------------------

  /** One JPEG file to write: its name, its pixels, and whether they are grayscale. */
  datatype JpegJob = JpegJob(fileName: string, pixels: seq<byte>, gray: bool)

  /**
   * generatePatternSet: the RGB image, the grayscale image and the RGBA
   * image with alpha dropped, each with its file name, in that order. The
   * third file holds the same pixels as the first.
   */
  method GeneratePatternSet(base: string, width: nat, height: nat, pattern: PatternType, floats: FloatPatterns)
    returns (jobs: seq<JpegJob>)
    ensures jobs == [
      JpegJob(OutputName(base, pattern, RgbFile), PatternImage(pattern, width, height, 3, floats), false),
      JpegJob(OutputName(base, pattern, GrayFile), PatternImage(pattern, width, height, 1, floats), true),
      JpegJob(OutputName(base, pattern, RgbaAsRgbFile), PatternImage(pattern, width, height, 3, floats), false)]
  {
    var rgbData := GenerateRGB(width, height, pattern, floats);
    var rgbName := base + "_" + PatternName(pattern) + "_rgb.jpg";
    var grayData := GenerateGrayscale(width, height, pattern, floats);
    var grayName := base + "_" + PatternName(pattern) + "_gray.jpg";
    var rgbaData := GenerateRGBA(width, height, pattern, floats);
    DropAlphaImage(PatternPixel(pattern, width, height, floats), width, height);
    var rgbaAsRgb := StripAlpha(rgbaData);
    var rgbaName := base + "_" + PatternName(pattern) + "_rgba_as_rgb.jpg";
    jobs := [JpegJob(rgbName, rgbData, false), JpegJob(grayName, grayData, true), JpegJob(rgbaName, rgbaAsRgb, false)];
  }

  // ---------------------------------------------------------------------
  // std::atoi
  // ---------------------------------------------------------------------

  /** isspace in the C locale: blank, tab, newline, vertical tab, form feed, carriage return. */
  predicate IsSpace(ch: char)
  {
    ch == ' ' || 9 <= ch as int <= 13
  }

  predicate IsDigit(ch: char)
  {
    '0' <= ch <= '9'
  }

  /** The number of leading characters of s that satisfy IsDigit. */
  function DigitRun(s: string): (n: nat)
    ensures n <= |s|
    ensures forall i :: 0 <= i < n ==> IsDigit(s[i])
    ensures n < |s| ==> !IsDigit(s[n])
  {
    if |s| == 0 || !IsDigit(s[0]) then 0 else 1 + DigitRun(s[1..])
  }

  /** The value of a run of decimal digits, most significant first. */
  function DigitsValue(d: string): nat
    requires forall i :: 0 <= i < |d| ==> IsDigit(d[i])
  {
    if |d| == 0 then 0 else
      var last := d[|d| - 1];
      assert IsDigit(last);
      10 * DigitsValue(d[..|d| - 1]) + (last as int - '0' as int)
  }

  /** The value of the digits at the start of s (0 if there are none). */
  function LeadingValue(s: string): nat
  {
    DigitsValue(s[..DigitRun(s)])
  }

  /** std::atoi: leading white space, an optional sign, then the digits up to the first non-digit. */
  function Atoi(s: string): int
    decreases |s|
  {
    if |s| > 0 && IsSpace(s[0]) then Atoi(s[1..])
    else if |s| > 0 && s[0] == '-' then -(LeadingValue(s[1..]) as int)
    else if |s| > 0 && s[0] == '+' then LeadingValue(s[1..])
    else LeadingValue(s)
  }

  /** The decimal representation of n without sign or leading zeros. */
  function Decimal(n: nat): (d: string)
    ensures |d| > 0
    ensures forall i :: 0 <= i < |d| ==> IsDigit(d[i])
  {
    (if n < 10 then "" else Decimal(n / 10)) + [('0' as int + n % 10) as char]
  }

  /** The digits of Decimal(n) are worth n. */
  lemma {:induction false} DecimalValue(n: nat)
    ensures DigitsValue(Decimal(n)) == n
  {
    var d := Decimal(n);
    var last := [('0' as int + n % 10) as char];
    if n < 10 {
      assert d == last;
    } else {
      DecimalValue(n / 10);
      assert d[..|d| - 1] == Decimal(n / 10);
    }
  }

  /** A run made only of digits is read whole. */
  lemma {:induction false} DigitRunAll(s: string)
    requires forall i :: 0 <= i < |s| ==> IsDigit(s[i])
    ensures DigitRun(s) == |s|
  {
    if |s| > 0 {
      DigitRunAll(s[1..]);
    }
  }

  /** std::atoi reads back the decimal representation of any non-negative number, with or without a minus sign. */
  lemma AtoiDecimal(n: nat)
    ensures Atoi(Decimal(n)) == n
    ensures Atoi("-" + Decimal(n)) == -(n as int)
  {
    var d := Decimal(n);
    DigitRunAll(d);
    DecimalValue(n);
    assert d[..|d|] == d;
    assert ("-" + d)[1..] == d;
  }

  /** A string that starts with neither white space, a sign nor a digit reads as 0. */
  lemma AtoiNoDigits(s: string)
    requires |s| == 0 || !(IsSpace(s[0]) || s[0] == '-' || s[0] == '+' || IsDigit(s[0]))
    ensures Atoi(s) == 0
  {
  }

  // ---------------------------------------------------------------------
  // The argument loop of main
  // ---------------------------------------------------------------------

  /** The settings main's argument loop fills in. */
  datatype Config = Config(width: int, height: int, quality: int, prefix: string, pattern: string)

  /** What the argument loop ends in: an exit status, or the settings to run with. */
  datatype CliResult = Exit(code: int) | Run(config: Config)

  const Defaults: Config := Config(512, 512, 85, "pattern", "")

  /** The checks main makes on each setting it parses. */
  predicate ValidConfig(c: Config)
  {
    c.width > 0 && c.height > 0 && 1 <= c.quality <= 100
  }

  predicate TakesValue(arg: string)
  {
    arg in {"-w", "--width", "-h", "--height", "-q", "--quality", "-o", "--output", "-p", "--pattern"}
  }

  /** The loop from argument i onward with settings c so far. */
  function Scan(argv: seq<string>, i: nat, c: Config): CliResult
    decreases |argv| - i
  {
    if i >= |argv| then Run(c)
    else
      var arg := argv[i];
      if arg == "--help" then Exit(0)
      else if (arg == "-w" || arg == "--width") && i + 1 < |argv| then
        var w := Atoi(argv[i + 1]);
        if w <= 0 then Exit(1) else Scan(argv, i + 2, c.(width := w))
      else if (arg == "-h" || arg == "--height") && i + 1 < |argv| then
        var h := Atoi(argv[i + 1]);
        if h <= 0 then Exit(1) else Scan(argv, i + 2, c.(height := h))
      else if (arg == "-q" || arg == "--quality") && i + 1 < |argv| then
        var q := Atoi(argv[i + 1]);
        if q < 1 || q > 100 then Exit(1) else Scan(argv, i + 2, c.(quality := q))
      else if (arg == "-o" || arg == "--output") && i + 1 < |argv| then
        Scan(argv, i + 2, c.(prefix := argv[i + 1]))
      else if (arg == "-p" || arg == "--pattern") && i + 1 < |argv| then
        Scan(argv, i + 2, c.(pattern := argv[i + 1]))
      else Exit(1)
  }

  /** The argument loop of main over argv (argv[0] is the program name). */
  method ParseArgs(argv: seq<string>) returns (r: CliResult)
    ensures r == Scan(argv, 1, Defaults)
  {
    var width, height, quality := 512, 512, 85;
    var prefix, pattern := "pattern", "";
    var i := 1;
    while i < |argv|
      invariant 1 <= i
      invariant Scan(argv, i, Config(width, height, quality, prefix, pattern)) == Scan(argv, 1, Defaults)
      decreases |argv| - i
    {
      var arg := argv[i];
      if arg == "--help" {
        return Exit(0);
      } else if (arg == "-w" || arg == "--width") && i + 1 < |argv| {
        i := i + 1;
        width := Atoi(argv[i]);
        if width <= 0 {
          return Exit(1);
        }
      } else if (arg == "-h" || arg == "--height") && i + 1 < |argv| {
        i := i + 1;
        height := Atoi(argv[i]);
        if height <= 0 {
          return Exit(1);
        }
      } else if (arg == "-q" || arg == "--quality") && i + 1 < |argv| {
        i := i + 1;
        quality := Atoi(argv[i]);
        if quality < 1 || quality > 100 {
          return Exit(1);
        }
      } else if (arg == "-o" || arg == "--output") && i + 1 < |argv| {
        i := i + 1;
        prefix := argv[i];
      } else if (arg == "-p" || arg == "--pattern") && i + 1 < |argv| {
        i := i + 1;
        pattern := argv[i];
      } else {
        return Exit(1);
      }
      i := i + 1;
    }
    r := Run(Config(width, height, quality, prefix, pattern));
  }

  /** Every setting the loop lets through passes main's checks. */
  lemma {:induction false} ScanValid(argv: seq<string>, i: nat, c: Config)
    requires ValidConfig(c)
    ensures Scan(argv, i, c).Run? ==> ValidConfig(Scan(argv, i, c).config)
    decreases |argv| - i
  {
    if i + 1 < |argv| && argv[i] != "--help" {
      var arg, v := argv[i], Atoi(argv[i + 1]);
      if arg == "-w" || arg == "--width" {
        if v > 0 {
          ScanValid(argv, i + 2, c.(width := v));
        }
      } else if arg == "-h" || arg == "--height" {
        if v > 0 {
          ScanValid(argv, i + 2, c.(height := v));
        }
      } else if arg == "-q" || arg == "--quality" {
        if 1 <= v <= 100 {
          ScanValid(argv, i + 2, c.(quality := v));
        }
      } else if arg == "-o" || arg == "--output" {
        ScanValid(argv, i + 2, c.(prefix := argv[i + 1]));
      } else if arg == "-p" || arg == "--pattern" {
        ScanValid(argv, i + 2, c.(pattern := argv[i + 1]));
      }
    }
  }

  /** The loop exits with 0 or 1, and with 0 only when some argument is "--help". */
  lemma {:induction false} ScanExit(argv: seq<string>, i: nat, c: Config)
    ensures Scan(argv, i, c).Exit? ==> Scan(argv, i, c).code in {0, 1}
    ensures Scan(argv, i, c) == Exit(0) ==> exists j :: i <= j < |argv| && argv[j] == "--help"
    decreases |argv| - i
  {
    if i < |argv| && i + 1 < |argv| && TakesValue(argv[i]) && argv[i] != "--help" {
      var v := Atoi(argv[i + 1]);
      ScanExit(argv, i + 2, c.(width := v));
      ScanExit(argv, i + 2, c.(height := v));
      ScanExit(argv, i + 2, c.(quality := v));
      ScanExit(argv, i + 2, c.(prefix := argv[i + 1]));
      ScanExit(argv, i + 2, c.(pattern := argv[i + 1]));
    }
  }

  /**
   * The loop's own exits: "--help" exits with 0, a width or height that
   * does not read as a positive number exits with 1, and so does a quality
   * outside 1..100.
   */
  lemma ScanErrorExits(argv: seq<string>, i: nat, c: Config)
    requires i < |argv|
    ensures argv[i] == "--help" ==> Scan(argv, i, c) == Exit(0)
    ensures i + 1 < |argv| && argv[i] in {"-w", "--width", "-h", "--height"} && Atoi(argv[i + 1]) <= 0 ==>
      Scan(argv, i, c) == Exit(1)
    ensures i + 1 < |argv| && argv[i] in {"-q", "--quality"} && !(1 <= Atoi(argv[i + 1]) <= 100) ==>
      Scan(argv, i, c) == Exit(1)
  {
  }

  /** An option that takes a value but comes last, or any unrecognised argument, exits with 1. */
  lemma ScanRejects(argv: seq<string>, i: nat, c: Config)
    requires i < |argv| && argv[i] != "--help"
    requires (TakesValue(argv[i]) && i + 1 == |argv|) || !TakesValue(argv[i])
    ensures Scan(argv, i, c) == Exit(1)
  {
  }

  /** With no arguments main runs with the defaults, which pass its checks. */
  lemma DefaultsWhenNoArguments(program: string)
    ensures Scan([program], 1, Defaults) == Run(Defaults)
    ensures ValidConfig(Defaults)
  {
  }

  // ---------------------------------------------------------------------
  // Which patterns main generates
  // ---------------------------------------------------------------------

  /** The order main generates all patterns in. */
  const AllPatterns: seq<PatternType> := [Gradient, Checkerboard, SineWave, MixedFrequency, PhotoRealistic, SmpteColorBars]

  /** The patterns main generates for the `-p` setting; `None` means it exits with status 1. */
  function PatternPlan(pattern: string): Option<seq<PatternType>>
  {
    if pattern == "" then Some(AllPatterns)
    else match ParsePatternType(pattern)
      case None => None
      case Some(p) => Some([p])
  }

  /**
   * With no `-p` every pattern is generated exactly once; with `-p NAME`
   * exactly the named pattern; any other name exits.
   */
  lemma PatternPlanCovers(pattern: string, p: PatternType)
    ensures pattern == "" ==> PatternPlan(pattern) == Some(AllPatterns)
    ensures p in AllPatterns
    ensures forall i, j :: 0 <= i < j < |AllPatterns| ==> AllPatterns[i] != AllPatterns[j]
    ensures pattern != "" ==> (PatternPlan(pattern) == Some([p]) <==> pattern == PatternName(p))
    ensures pattern != "" && PatternPlan(pattern).None? ==> forall q :: pattern != PatternName(q)
  {
    ParseNameRoundTrip(pattern, p);
    forall q
      ensures pattern != "" && PatternPlan(pattern).None? ==> pattern != PatternName(q)
    {
      ParseNameRoundTrip(pattern, q);
    }
  }

  /**
   * `-w 4` passes main's width check, and the run then generates the colour
   * bars on an image 4 pixels wide, where the bars as written divide by zero.
   */
  lemma NarrowWidthReachesColourBars(program: string)
    ensures Scan([program, "-w", "4"], 1, Defaults) == Run(Defaults.(width := 4))
    ensures SmpteColorBars in AllPatterns && PatternPlan(Defaults.pattern) == Some(AllPatterns)
    ensures SmpteColorBarsAsWritten(0, 0, 4, 512, 0) == None
  {
    AtoiDecimal(4);
    assert Decimal(4) == "4";
    NarrowImageDividesByZero(0, 0, 4, 512, 0);
  }
}
