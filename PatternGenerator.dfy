/**
 * The benchmark test-pattern generator: integer patterns (gradient,
 * checkerboard, SMPTE-style colour bars) and the three image builders that
 * lay pixels out row by row as RGB (3 bytes), grayscale (1 byte) or RGBA
 * (4 bytes, alpha 255).
 *
 * The sine-wave, mixed-frequency and photo-realistic patterns compute in
 * floating point; they are a parameter (`FloatPatterns`) of this model.
 */
module PatternGenerator {
  import opened GstTypes

  datatype PatternType = Gradient | Checkerboard | SineWave | MixedFrequency | PhotoRealistic | SmpteColorBars

  /** The floating-point patterns: (pattern, x, y, width, height, channel) to a sample. */
  type FloatPatterns = (PatternType, int, int, int, int, int) -> byte

  // ---------------------------------------------------------------------
  // Arithmetic helpers
  // ---------------------------------------------------------------------

  /** Multiplying by a non-negative factor keeps the order. */
  lemma MulMono(a: int, b: int, c: int)
    requires c >= 0
    ensures a <= b ==> a * c <= b * c
  {
    assert b * c - a * c == (b - a) * c;
  }

  /** Division and remainder are determined by any decomposition k = q*b + r with 0 <= r < b. */
  lemma DivModOf(k: int, b: int, q: int, r: int)
    requires b > 0 && 0 <= r < b && k == q * b + r
    ensures k / b == q && k % b == r
  {
    var q0, r0 := k / b, k % b;
    assert k == q0 * b + r0;
    MulMono(q0 + 1, q, b);
    MulMono(q + 1, q0, b);
    assert (q0 + 1) * b == q0 * b + b;
    assert (q + 1) * b == q * b + b;
    assert q == q0;
  }

  /** a < b*k with b > 0 gives a / b < k. */
  lemma DivBelow(a: int, b: int, k: int)
    requires 0 <= a && b > 0 && a < b * k
    ensures a / b < k
  {
    var q := a / b;
    assert a == q * b + a % b;
    MulMono(k, q, b);
    assert b * k == k * b;
  }

  // ---------------------------------------------------------------------
  // clamp
  // ---------------------------------------------------------------------

  /** std::max(min_val, std::min(value, max_val)) */
  function Clamp(value: int, minVal: int, maxVal: int): (r: int)
    ensures minVal <= maxVal ==> minVal <= r <= maxVal
    ensures minVal <= value <= maxVal ==> r == value
    ensures minVal <= maxVal && value < minVal ==> r == minVal
    ensures minVal <= maxVal && value > maxVal ==> r == maxVal
  {
    var m := if value < maxVal then value else maxVal;
    if minVal < m then m else minVal
  }

  // ---------------------------------------------------------------------
  // Integer patterns
  // ---------------------------------------------------------------------

  /** gradientPattern: R grows with x, G with y, B along the diagonal, other channels 128. */
  function GradientPattern(x: int, y: int, width: int, height: int, channel: int): byte
    requires width != 0 && height != 0 && width + height != 0
  {
    if channel == 0 then ToUint8(CDiv(x * 255, width))
    else if channel == 1 then ToUint8(CDiv(y * 255, height))
    else if channel == 2 then ToUint8(CDiv((x + y) * 255, width + height))
    else 128
  }

  /** Inside the image each gradient channel is the scaled coordinate, below 255. */
  lemma GradientInRange(x: int, y: int, width: int, height: int)
    requires 0 <= x < width && 0 <= y < height
    ensures GradientPattern(x, y, width, height, 0) == x * 255 / width < 255
    ensures GradientPattern(x, y, width, height, 1) == y * 255 / height < 255
    ensures GradientPattern(x, y, width, height, 2) == (x + y) * 255 / (width + height) < 255
    ensures forall c :: c !in {0, 1, 2} ==> GradientPattern(x, y, width, height, c) == 128
  {
    ScaledCoordinate(x, width);
    ScaledCoordinate(y, height);
    ScaledCoordinate(x + y, width + height);
  }

  /** A coordinate below n, scaled by 255 / n with C's division, is a byte below 255. */
  lemma ScaledCoordinate(v: int, n: int)
    requires 0 <= v < n
    ensures 0 <= v * 255 / n < 255
    ensures ToUint8(CDiv(v * 255, n)) == v * 255 / n
  {
    DivBelow(v * 255, n, 255);
    assert 0 <= v * 255 / n;
  }

  const CheckerSize: int := 32

  predicate IsWhiteSquare(x: int, y: int)
  {
    (CDiv(x, CheckerSize) + CDiv(y, CheckerSize)) % 2 == 0
  }

  /** checkerboardPattern: white squares are 255 on every channel, the others (64, 128, 192) and 128 beyond B. */
  function CheckerboardPattern(x: int, y: int, channel: int): byte
  {
    var white := IsWhiteSquare(x, y);
    if channel == 0 then (if white then 255 else 64)
    else if channel == 1 then (if white then 255 else 128)
    else if channel == 2 then (if white then 255 else 192)
    else (if white then 255 else 128)
  }

  /** Squares are 32 pixels wide: moving 32 pixels right in the image flips the colour. */
  lemma CheckerboardAlternates(x: int, y: int)
    requires 0 <= x && 0 <= y
    ensures IsWhiteSquare(x + CheckerSize, y) <==> !IsWhiteSquare(x, y)
    ensures IsWhiteSquare(x, y + CheckerSize) <==> !IsWhiteSquare(x, y)
  {
    DivModOf(x + 32, 32, x / 32 + 1, x % 32);
    DivModOf(y + 32, 32, y / 32 + 1, y % 32);
  }

  /** The colours of the two kinds of square. */
  lemma CheckerboardColours(x: int, y: int)
    ensures IsWhiteSquare(x, y) ==> forall c :: CheckerboardPattern(x, y, c) == 255
    ensures !IsWhiteSquare(x, y) ==>
      CheckerboardPattern(x, y, 0) == 64 && CheckerboardPattern(x, y, 1) == 128 &&
      CheckerboardPattern(x, y, 2) == 192 && CheckerboardPattern(x, y, 3) == 128
  {
  }

  // ---------------------------------------------------------------------
  // SMPTE-style colour bars
  // ---------------------------------------------------------------------

  /** 75% white, yellow, cyan, green, magenta, red, blue, black. */
  const TopColours: seq<seq<byte>> := [
    [191, 191, 191], [191, 191, 0], [0, 191, 191], [0, 191, 0],
    [191, 0, 191], [191, 0, 0], [0, 0, 191], [0, 0, 0]]

  /** Blue, black, magenta, black, cyan, black, white. */
  const MiddleColours: seq<seq<byte>> := [
    [0, 0, 191], [0, 0, 0], [191, 0, 191], [0, 0, 0],
    [0, 191, 191], [0, 0, 0], [191, 191, 191]]

  /** Black, 100% white, black, 13, 38, black. */
  const BottomColours: seq<seq<byte>> := [
    [0, 0, 0], [255, 255, 255], [0, 0, 0], [13, 13, 13], [38, 38, 38], [0, 0, 0]]

  datatype Band = Top | Middle | Bottom

  /** The band of row y: top two thirds, then a twelfth, then the rest. */
  function BandOf(y: int, height: int): Band
  {
    var topHeight := CDiv(height * 2, 3);
    var middleHeight := CDiv(height * 1, 12);
    if y < topHeight then Top
    else if y < topHeight + middleHeight then Middle
    else Bottom
  }

  function BandColours(b: Band): seq<seq<byte>>
  {
    match b
    case Top => TopColours
    case Middle => MiddleColours
    case Bottom => BottomColours
  }

  /** The number of bars of a band is the number of rows of its colour table. */
  function BarCount(b: Band): (n: nat)
    ensures n == |BandColours(b)|
  {
    match b
    case Top => 8
    case Middle => 7
    case Bottom => 6
  }

  /**
   * The bar index as the source computes it: bar width width / bars, then
   * x / bar width capped at bars - 1.  `None` marks a division by zero
   * (a bar width of 0) or an index below 0.
   */
  function BarIndexAsWritten(x: int, width: int, bars: nat): Option<int>
    requires bars > 0
  {
    var barWidth := CDiv(width, bars);
    if barWidth == 0 then None
    else
      var i := CDiv(x, barWidth);
      var capped := if i < bars - 1 then i else bars - 1;
      if capped < 0 then None else Some(capped)
  }

  /** smpteColorBarsPattern as written: `None` where the source divides by zero or indexes out of bounds. */
  function SmpteColorBarsAsWritten(x: int, y: int, width: int, height: int, channel: int): Option<byte>
  {
    var band := BandOf(y, height);
    match BarIndexAsWritten(x, width, BarCount(band))
    case None => None
    case Some(i) =>
      if 0 <= channel < 3 then Some(BandColours(band)[i][channel]) else None
  }

  /** Images narrower than 8 pixels make the top band divide by zero. */
  lemma NarrowImageDividesByZero(x: int, y: int, width: int, height: int, channel: int)
    requires 0 <= width < 8 && BandOf(y, height) == Top
    ensures SmpteColorBarsAsWritten(x, y, width, height, channel) == None
  {
  }

  /** The bar index with the bar width kept at 1 or more, so that no width divides by zero. */
  function BarIndex(x: int, width: int, bars: nat): (i: nat)
    requires 0 <= x && bars > 0
    ensures i < bars
  {
    var barWidth := CDiv(width, bars);
    var w := if barWidth < 1 then 1 else barWidth;
    var j := x / w;
    if j < bars - 1 then j else bars - 1
  }

  /** Wherever the source's bar index is defined, the guarded one is the same. */
  lemma BarIndexAgrees(x: int, width: int, bars: nat)
    requires 0 <= x && bars > 0 && width >= bars
    ensures BarIndexAsWritten(x, width, bars) == Some(BarIndex(x, width, bars) as int)
  {
    var q := width / bars;
    assert width == q * bars + width % bars;
    MulMono(q, 0, bars);
  }

  /** smpteColorBarsPattern with the bar width guarded. */
  function SmpteColorBarsPattern(x: int, y: int, width: int, height: int, channel: int): byte
    requires 0 <= x && 0 <= channel < 3
  {
    var band := BandOf(y, height);
    BandColours(band)[BarIndex(x, width, BarCount(band))][channel]
  }

  /** For images at least 8 pixels wide the guarded pattern is exactly the source's. */
  lemma SmpteAgreesWhenWide(x: int, y: int, width: int, height: int, channel: int)
    requires 0 <= x && 0 <= channel < 3 && width >= 8
    ensures SmpteColorBarsAsWritten(x, y, width, height, channel) == Some(SmpteColorBarsPattern(x, y, width, height, channel))
  {
    BarIndexAgrees(x, width, BarCount(BandOf(y, height)));
  }

  /**
   * Row y is in the top band iff y < height*2/3, in the middle band iff it
   * is below that bound plus height/12 but not above the first, and the
   * bar index stays inside each band's table.
   */
  lemma SmpteLayout(x: int, y: int, width: int, height: int)
    requires 0 <= x && 0 <= height
    ensures BandOf(y, height) == Top <==> y < height * 2 / 3
    ensures BandOf(y, height) == Middle <==> height * 2 / 3 <= y < height * 2 / 3 + height / 12
    ensures BarIndex(x, width, BarCount(BandOf(y, height))) < |BandColours(BandOf(y, height))|
  {
  }

  // ---------------------------------------------------------------------
  // The pixel switch and the images
  // ---------------------------------------------------------------------

  /** The switch on the pattern type inside the image loops. */
  function PixelValue(pattern: PatternType, x: int, y: int, width: int, height: int, channel: int, floats: FloatPatterns): byte
    requires 0 <= x < width && 0 <= y < height && 0 <= channel < 3
  {
    match pattern
    case Gradient => GradientPattern(x, y, width, height, channel)
    case Checkerboard => CheckerboardPattern(x, y, channel)
    case SmpteColorBars => SmpteColorBarsPattern(x, y, width, height, channel)
    case _ => floats(pattern, x, y, width, height, channel)
  }

  /** Channel `c` of pixel (x, y): the sample the image loops write. */
  type PixelFn = (int, int, int) -> byte

  /** The pixels of one pattern on a width x height image; outside the image it is 0. */
  function PatternPixel(pattern: PatternType, width: int, height: int, floats: FloatPatterns): (pixel: PixelFn)
    ensures forall x, y, c :: 0 <= x < width && 0 <= y < height && 0 <= c < 3 ==>
      pixel(x, y, c) == PixelValue(pattern, x, y, width, height, c, floats)
  {
    (x, y, c) => if 0 <= x < width && 0 <= y < height && 0 <= c < 3 then PixelValue(pattern, x, y, width, height, c, floats) else 0
  }

  /** One more factor m adds b to the product. */
  lemma MulSucc(m: int, b: int)
    ensures (m + 1) * b == m * b + b
  {
  }

  /** Pixel (x, y) starts x pixels into row y. */
  lemma PixelOffset(width: int, bpp: int, x: int, y: int)
    ensures (y * width + x) * bpp == y * (width * bpp) + x * bpp
  {
  }

  /** Row y + 1 starts one row of bytes after row y. */
  lemma NextRow(width: int, y: int, bpp: int)
    ensures (y + 1) * (width * bpp) == y * (width * bpp) + width * bpp
  {
  }

  /** After `height` rows of `width` pixels the whole image is written. */
  lemma RowsCoverImage(width: int, height: int, bpp: int)
    ensures height * (width * bpp) == width * height * bpp
  {
  }

  /** The blocks block(0), ..., block(n-1), one after another. */
  function Concat(block: nat -> seq<byte>, n: nat): seq<byte>
  {
    if n == 0 then [] else Concat(block, n - 1) + block(n - 1)
  }

  /** n blocks of `size` bytes take n*size bytes. */
  lemma {:induction false} ConcatLength(block: nat -> seq<byte>, n: nat, size: nat)
    requires forall i: nat :: i < n ==> |block(i)| == size
    ensures |Concat(block, n)| == n * size
  {
    if n > 0 {
      ConcatLength(block, n - 1, size);
      MulSucc(n - 1, size);
    }
  }

  /** Byte j of block i follows the blocks before it. */
  lemma {:induction false} ConcatAt(block: nat -> seq<byte>, n: nat, i: nat, j: nat)
    requires i < n && j < |block(i)|
    ensures |Concat(block, i)| + j < |Concat(block, n)|
    ensures Concat(block, n)[|Concat(block, i)| + j] == block(i)[j]
  {
    var prev := Concat(block, n - 1);
    assert Concat(block, n) == prev + block(n - 1);
    if i < n - 1 {
      ConcatAt(block, n - 1, i, j);
      assert Concat(block, n)[|Concat(block, i)| + j] == prev[|Concat(block, i)| + j];
    }
  }

  /**
   * The bytes stored for pixel (x, y): byte c is channel c, except that the
   * fourth byte of a pixel is alpha 255. With bpp 1, 3 or 4 that is the gray
   * level, the R, G, B, or the R, G, B and alpha.
   */
  function PixelBytes(pixel: PixelFn, x: int, y: int, bpp: nat): (px: seq<byte>)
    ensures |px| == bpp
  {
    seq(bpp, c => if c == 3 then 255 else pixel(x, y, c))
  }

  /** The pixels of row y, left to right. */
  function RowPixels(pixel: PixelFn, bpp: nat, y: int): nat -> seq<byte>
  {
    x => PixelBytes(pixel, x, y, bpp)
  }

  /** The rows of an image `width` pixels wide, top to bottom. */
  function Rows(pixel: PixelFn, width: nat, bpp: nat): nat -> seq<byte>
  {
    y => Concat(RowPixels(pixel, bpp, y), width)
  }

  /** Every row of an image `width` pixels wide takes width*bpp bytes. */
  lemma RowLength(pixel: PixelFn, width: nat, bpp: nat, y: nat)
    ensures |Rows(pixel, width, bpp)(y)| == width * bpp
  {
    ConcatLength(RowPixels(pixel, bpp, y), width, bpp);
  }

  /** The first n rows take n*width*bpp bytes. */
  lemma RowsLength(pixel: PixelFn, width: nat, bpp: nat, n: nat)
    ensures |Concat(Rows(pixel, width, bpp), n)| == n * (width * bpp)
  {
    forall y: nat | y < n
      ensures |Rows(pixel, width, bpp)(y)| == width * bpp
    {
      RowLength(pixel, width, bpp, y);
    }
    ConcatLength(Rows(pixel, width, bpp), n, width * bpp);
  }

  /**
   * The image generateRGB (bpp 3), generateGrayscale (bpp 1) or
   * generateRGBA (bpp 4) returns: `height` rows of `width` pixels.
   */
  function Image(pixel: PixelFn, width: nat, height: nat, bpp: nat): (img: seq<byte>)
    requires bpp in {1, 3, 4}
    ensures |img| == width * height * bpp
  {
    RowsLength(pixel, width, bpp, height);
    RowsCoverImage(width, height, bpp);
    Concat(Rows(pixel, width, bpp), height)
  }

  /** The image of one pattern. */
  function PatternImage(pattern: PatternType, width: nat, height: nat, bpp: nat, floats: FloatPatterns): (img: seq<byte>)
    requires bpp in {1, 3, 4}
    ensures |img| == width * height * bpp
  {
    Image(PatternPixel(pattern, width, height, floats), width, height, bpp)
  }

  /** Byte c of pixel (x, y) sits at (y*width + x)*bpp + c of the image. */
  lemma ImageAt(pixel: PixelFn, width: nat, height: nat, bpp: nat, x: nat, y: nat, c: nat)
    requires bpp in {1, 3, 4} && x < width && y < height && c < bpp
    ensures (y * width + x) * bpp + c < |Image(pixel, width, height, bpp)|
    ensures Image(pixel, width, height, bpp)[(y * width + x) * bpp + c] == PixelBytes(pixel, x, y, bpp)[c]
  {
    var row := RowPixels(pixel, bpp, y);
    ConcatAt(row, width, x, c);
    ConcatLength(row, x, bpp);
    RowsLength(pixel, width, bpp, y);
    PixelOffset(width, bpp, x, y);
    ConcatAt(Rows(pixel, width, bpp), height, y, |Concat(row, x)| + c);
  }

  /**
   * The layout generateRGB, generateGrayscale and generateRGBA share: byte
   * (y*width + x)*bpp + c of the image is channel c of pixel (x, y), and
   * the fourth byte of an RGBA pixel is alpha 255.
   */
  lemma ImageLayout(pixel: PixelFn, width: nat, height: nat, bpp: nat, x: nat, y: nat, c: nat)
    requires bpp in {1, 3, 4} && x < width && y < height && c < bpp
    ensures (y * width + x) * bpp + c < |Image(pixel, width, height, bpp)|
    ensures c < 3 ==> Image(pixel, width, height, bpp)[(y * width + x) * bpp + c] == pixel(x, y, c)
    ensures c == 3 ==> Image(pixel, width, height, bpp)[(y * width + x) * bpp + c] == 255
  {
    ImageAt(pixel, width, height, bpp, x, y, c);
  }

  /** In the image of a pattern, byte (y*width + x)*bpp + c is the pattern's channel c at (x, y). */
  lemma PatternImageLayout(pattern: PatternType, width: nat, height: nat, bpp: nat, floats: FloatPatterns, x: nat, y: nat, c: nat)
    requires bpp in {1, 3, 4} && x < width && y < height && c < bpp
    ensures (y * width + x) * bpp + c < |PatternImage(pattern, width, height, bpp, floats)|
    ensures c < 3 ==>
      PatternImage(pattern, width, height, bpp, floats)[(y * width + x) * bpp + c] == PixelValue(pattern, x, y, width, height, c, floats)
    ensures c == 3 ==> PatternImage(pattern, width, height, bpp, floats)[(y * width + x) * bpp + c] == 255
  {
    ImageLayout(PatternPixel(pattern, width, height, floats), width, height, bpp, x, y, c);
  }

  // ---------------------------------------------------------------------
  // The generators: nested x/y loops filling a buffer in place
  // ---------------------------------------------------------------------

  /** Two sequences that agree up to i and on the n bytes from i agree up to i + n. */
  lemma ExtendPrefix(s: seq<byte>, t: seq<byte>, i: nat, n: nat)
    requires i + n <= |s| && i + n <= |t|
    requires s[..i] == t[..i] && s[i..i + n] == t[i..i + n]
    ensures s[..i + n] == t[..i + n]
  {
    assert s[..i + n] == s[..i] + s[i..i + n];
    assert t[..i + n] == t[..i] + t[i..i + n];
  }

  /** The prefix of a sequence up to its length is the sequence itself. */
  lemma WholePrefix(s: seq<byte>)
    ensures s[..|s|] == s
  {
  }

  /** The bytes of pixel (x, y) form one slice of the image. */
  lemma PixelSlice(pixel: PixelFn, width: nat, height: nat, bpp: nat, x: nat, y: nat)
    requires bpp in {1, 3, 4} && x < width && y < height
    ensures (y * width + x) * bpp + bpp <= |Image(pixel, width, height, bpp)|
    ensures Image(pixel, width, height, bpp)[(y * width + x) * bpp..(y * width + x) * bpp + bpp] == PixelBytes(pixel, x, y, bpp)
  {
    var img := Image(pixel, width, height, bpp);
    var idx := (y * width + x) * bpp;
    ImageAt(pixel, width, height, bpp, x, y, 0);
    if bpp == 1 {
      SliceOf(img, idx, PixelBytes(pixel, x, y, bpp));
    } else {
      ImageAt(pixel, width, height, bpp, x, y, 1);
      ImageAt(pixel, width, height, bpp, x, y, 2);
      if bpp == 3 {
        SliceOf(img, idx, PixelBytes(pixel, x, y, bpp));
      } else {
        ImageAt(pixel, width, height, bpp, x, y, 3);
        SliceOf(img, idx, PixelBytes(pixel, x, y, bpp));
      }
    }
  }

  /** A slice equals a short sequence when they agree byte by byte. */
  lemma SliceOf(s: seq<byte>, i: nat, t: seq<byte>)
    requires |t| in {1, 3, 4} && i + |t| <= |s|
    requires s[i] == t[0]
    requires |t| > 1 ==> s[i + 1] == t[1] && s[i + 2] == t[2]
    requires |t| > 3 ==> s[i + 3] == t[3]
    ensures s[i..i + |t|] == t
  {
  }

  /**
   * The switch inside the x loop of generateRGB, generateGrayscale and
   * generateRGBA: the bytes of pixel (x, y) written at idx. Nothing before
   * idx or after the pixel changes.
   */
  method PutPixel(a: array<byte>, idx: int, bpp: nat, pixel: PixelFn, x: int, y: int)
    requires bpp in {1, 3, 4} && 0 <= idx && idx + bpp <= a.Length
    modifies a
    ensures a[..idx] == old(a[..idx])
    ensures a[idx..idx + bpp] == PixelBytes(pixel, x, y, bpp)
    ensures forall k :: idx + bpp <= k < a.Length ==> a[k] == old(a[k])
  {
    a[idx] := pixel(x, y, 0);
    if bpp != 1 {
      a[idx + 1] := pixel(x, y, 1);
      a[idx + 2] := pixel(x, y, 2);
    }
    if bpp == 4 {
      a[idx + 3] := 255;
    }
  }

  /**
   * The x loop of generateRGB, generateGrayscale and generateRGBA: row y,
   * written after the rows above it. The rows below it are not touched.
   */
  method FillRow(a: array<byte>, ghost img: seq<byte>, ghost rowStart: int, pixel: PixelFn, width: nat, height: nat, bpp: nat, y: nat)
    requires bpp in {1, 3, 4} && y < height && img == Image(pixel, width, height, bpp)
    requires a.Length == |img| && rowStart == y * (width * bpp)
    requires 0 <= rowStart <= a.Length && a[..rowStart] == img[..rowStart]
    modifies a
    ensures rowStart + width * bpp <= a.Length
    ensures a[..rowStart + width * bpp] == img[..rowStart + width * bpp]
    ensures forall k :: rowStart + width * bpp <= k < a.Length ==> a[k] == old(a[k])
  {
    var x := 0;
    PixelOffset(width, bpp, 0, y);
    PixelOffset(width, bpp, width, y);
    while x < width
      invariant 0 <= x <= width
      invariant (y * width + x) * bpp <= a.Length
      invariant a[..(y * width + x) * bpp] == img[..(y * width + x) * bpp]
      invariant forall k :: rowStart + width * bpp <= k < a.Length ==> a[k] == old(a[k])
    {
      var idx := (y * width + x) * bpp;
      PixelSlice(pixel, width, height, bpp, x, y);
      MulSucc(y * width + x, bpp);
      MulMono(y * width + x + 1, y * width + width, bpp);
      PutPixel(a, idx, bpp, pixel, x, y);
      ExtendPrefix(a[..], img, idx, bpp);
      x := x + 1;
    }
  }

  /** The y loop of generateRGB, generateGrayscale and generateRGBA over a buffer of width*height*bpp bytes. */
  method FillImage(pixel: PixelFn, width: nat, height: nat, bpp: nat) returns (data: seq<byte>)
    requires bpp in {1, 3, 4}
    ensures data == Image(pixel, width, height, bpp)
  {
    ghost var img := Image(pixel, width, height, bpp);
    var a := new byte[width * height * bpp];
    ghost var rowStart := 0;
    var y := 0;
    while y < height
      invariant 0 <= y <= height
      invariant rowStart == y * (width * bpp)
      invariant 0 <= rowStart <= a.Length
      invariant a[..rowStart] == img[..rowStart]
    {
      FillRow(a, img, rowStart, pixel, width, height, bpp, y);
      NextRow(width, y, bpp);
      rowStart := rowStart + width * bpp;
      y := y + 1;
    }
    RowsCoverImage(width, height, bpp);
    data := a[..];
    WholePrefix(data);
    WholePrefix(img);
  }

  /** generateRGB */
  method GenerateRGB(width: nat, height: nat, pattern: PatternType, floats: FloatPatterns) returns (data: seq<byte>)
    ensures data == PatternImage(pattern, width, height, 3, floats)
  {
    data := FillImage(PatternPixel(pattern, width, height, floats), width, height, 3);
  }

  /** generateGrayscale */
  method GenerateGrayscale(width: nat, height: nat, pattern: PatternType, floats: FloatPatterns) returns (data: seq<byte>)
    ensures data == PatternImage(pattern, width, height, 1, floats)
  {
    data := FillImage(PatternPixel(pattern, width, height, floats), width, height, 1);
  }

  /** generateRGBA */
  method GenerateRGBA(width: nat, height: nat, pattern: PatternType, floats: FloatPatterns) returns (data: seq<byte>)
    ensures data == PatternImage(pattern, width, height, 4, floats)
  {
    data := FillImage(PatternPixel(pattern, width, height, floats), width, height, 4);
  }
}
