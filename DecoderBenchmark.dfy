/**
 * The buffers the decoder benchmark prepares before it times anything: the
 * compressed test image, the RGB decode buffer, and one buffer holding the
 * Y, U and V planes of a 4:2:0 image one after another, with a stride and
 * a start offset per plane.
 *
 * The plane addresses of the benchmark are offsets into the YUV buffer.
 * Compression by TurboJPEG and its worst-case size bound are parameters.
 */
module DecoderBenchmark {
  import opened GstTypes
  import opened PatternGenerator

  // ---------------------------------------------------------------------
  // The I420 layout
  // ---------------------------------------------------------------------

  /** Bytes per row of the U and V planes: half the width, rounded up. */
  function ChromaStride(width: nat): nat
  {
    (width + 1) / 2
  }

  /** Rows of the U and V planes: half the height, rounded up. */
  function ChromaRows(height: nat): nat
  {
    (height + 1) / 2
  }

  /** The Y, U and V strides, in plane order. */
  function Strides(width: nat): seq<int>
  {
    [width, ChromaStride(width), ChromaStride(width)]
  }

  /** The Y, U and V plane sizes: stride times rows. */
  function PlaneSizes(width: nat, height: nat): seq<nat>
  {
    [width * height, ChromaStride(width) * ChromaRows(height), ChromaStride(width) * ChromaRows(height)]
  }

  /** The size of the YUV buffer: the three plane sizes added up. */
  function YuvSize(width: nat, height: nat): nat
  {
    PlaneSizes(width, height)[0] + PlaneSizes(width, height)[1] + PlaneSizes(width, height)[2]
  }

  /** Where each plane starts: Y at 0, U after Y, V after U. */
  function PlaneOffsets(width: nat, height: nat): seq<nat>
  {
    var sizes := PlaneSizes(width, height);
    [0, sizes[0], sizes[0] + sizes[1]]
  }

  /**
   * The chroma planes are exactly as large as 4:2:0 needs along a dimension
   * of n pixels: pixel p has its chroma sample p / 2 inside the plane, and
   * every chroma sample p belongs to pixel 2p, so no row or column is spare.
   */
  lemma ChromaCovers(n: nat, p: nat)
    ensures p < n ==> p / 2 < ChromaStride(n) && p / 2 < ChromaRows(n)
    ensures p < ChromaStride(n) || p < ChromaRows(n) ==> 2 * p < n
  {
  }

  /**
   * The planes tile the buffer: they follow one another without gap or
   * overlap, Y starts at 0 and V ends at the buffer's end.
   */
  lemma PlanesTile(width: nat, height: nat)
    ensures PlaneOffsets(width, height)[0] == 0
    ensures forall i :: 0 <= i < 2 ==>
      PlaneOffsets(width, height)[i] + PlaneSizes(width, height)[i] == PlaneOffsets(width, height)[i + 1]
    ensures PlaneOffsets(width, height)[2] + PlaneSizes(width, height)[2] == YuvSize(width, height)
    ensures forall i, j :: 0 <= i < j < 3 ==>
      PlaneOffsets(width, height)[i] + PlaneSizes(width, height)[i] <= PlaneOffsets(width, height)[j]
  {
  }

  /** A sample at (column, row) of a plane with `rows` rows of `stride` bytes lies inside the plane. */
  lemma SampleInPlane(stride: nat, rows: nat, column: nat, row: nat)
    requires column < stride && row < rows
    ensures row * stride + column < rows * stride
  {
    MulSucc(row, stride);
    MulMono(row + 1, rows, stride);
  }

  /**
   * Every pixel (x, y) of a width x height image has its Y sample in the Y
   * plane and its U and V samples (at x/2, y/2 of the chroma planes) in the
   * U and V planes.
   */
  lemma PixelSamplesInPlanes(width: nat, height: nat, x: nat, y: nat)
    requires x < width && y < height
    ensures y * width + x < PlaneOffsets(width, height)[1]
    ensures var c := PlaneOffsets(width, height)[1] + (y / 2) * ChromaStride(width) + x / 2;
      PlaneOffsets(width, height)[1] <= c < PlaneOffsets(width, height)[2]
    ensures var c := PlaneOffsets(width, height)[2] + (y / 2) * ChromaStride(width) + x / 2;
      PlaneOffsets(width, height)[2] <= c < YuvSize(width, height)
  {
    SampleInPlane(width, height, x, y);
    ChromaCovers(width, x);
    ChromaCovers(height, y);
    SampleInPlane(ChromaStride(width), ChromaRows(height), x / 2, y / 2);
  }

  /** With even dimensions the buffer holds 12 bits per pixel: width*height*3/2 bytes. */
  lemma EvenSizeIsTwelveBitsPerPixel(width: nat, height: nat)
    requires width % 2 == 0 && height % 2 == 0
    ensures 2 * YuvSize(width, height) == 3 * width * height
  {
    var w2, h2 := width / 2, height / 2;
    assert ChromaStride(width) == w2 && ChromaRows(height) == h2;
    assert width * height == 4 * (w2 * h2) by {
      assert width == 2 * w2 && height == 2 * h2;
    }
  }

  /** The 1080p benchmark: a 1920x1080 Y plane, two 960x540 chroma planes. */
  lemma Layout1080p()
    ensures Strides(1920) == [1920, 960, 960]
    ensures PlaneSizes(1920, 1080) == [2073600, 518400, 518400]
    ensures PlaneOffsets(1920, 1080) == [0, 2073600, 2592000]
    ensures YuvSize(1920, 1080) == 3110400
  {
  }

  // ---------------------------------------------------------------------
  // The benchmark's buffers
  // ---------------------------------------------------------------------

  /** std::vector::resize: keeps the first n elements, and pads with zeros when it grows. */
  function Resize(s: seq<byte>, n: nat): (r: seq<byte>)
    ensures |r| == n
    ensures forall i :: 0 <= i < n ==> r[i] == (if i < |s| then s[i] else 0)
  {
    if n <= |s| then s[..n] else s + seq(n - |s|, _ => 0)
  }

  /** The floating-point patterns do not enter the colour bars; any stand-in will do. */
  const NoFloats: FloatPatterns := (p, x, y, w, h, c) => 0

  /** The test image every benchmark compresses: colour bars, packed RGB. */
  function TestImage(width: nat, height: nat): seq<byte>
  {
    PatternImage(SmpteColorBars, width, height, 3, NoFloats)
  }

  /** The benchmark fixture: its buffers, its YUV strides and its plane offsets. */
  class Benchmark {
    var jpegBuffer: seq<byte>
    var decodeBuffer: seq<byte>
    var yuvBuffer: seq<byte>
    var width: int
    var height: int
    /** yuv_strides[3] */
    const yuvStrides: array<int>
    /** yuv_planes[3], as offsets into yuvBuffer */
    const yuvPlanes: array<int>

    predicate Valid()
      reads this
    {
      yuvStrides.Length == 3 && yuvPlanes.Length == 3 && yuvStrides != yuvPlanes
    }

    /** A fixture with empty buffers; its size fields start at 0. */
    constructor()
      ensures Valid() && fresh(yuvStrides) && fresh(yuvPlanes)
      ensures jpegBuffer == [] && decodeBuffer == [] && yuvBuffer == []
      ensures width == 0 && height == 0
    {
      jpegBuffer, decodeBuffer, yuvBuffer := [], [], [];
      width, height := 0, 0;
      yuvStrides := new int[3];
      yuvPlanes := new int[3];
    }

    /**
     * The YUV part of generateJpegTestData: the strides, the buffer sized to
     * the three planes, and the offsets where U and V start.
     */
    method LayOutYuv(width: nat, height: nat)
      requires Valid()
      modifies this`yuvBuffer, yuvStrides, yuvPlanes
      ensures yuvStrides[..] == Strides(width)
      ensures yuvBuffer == Resize(old(yuvBuffer), YuvSize(width, height))
      ensures yuvPlanes[..] == PlaneOffsets(width, height)
    {
      yuvStrides[0] := width;
      yuvStrides[1] := (width + 1) / 2;
      yuvStrides[2] := (width + 1) / 2;

      var ySize := yuvStrides[0] * height;
      var uSize := yuvStrides[1] * ((height + 1) / 2);
      var vSize := yuvStrides[2] * ((height + 1) / 2);
      var total := ySize + uSize + vSize;
      yuvBuffer := Resize(yuvBuffer, total);

      yuvPlanes[0] := 0;
      yuvPlanes[1] := yuvPlanes[0] + ySize;
      yuvPlanes[2] := yuvPlanes[1] + uSize;
    }

    /**
     * generateJpegTestData: compress the test image into a buffer of
     * `bufSize` bytes (tjBufSize), then size the RGB and YUV buffers and lay
     * out the planes. `compress` stands for tjCompress2 on the test image
     * with the given quality and subsampling; when it fails the method
     * reports false (the source throws), and of the buffers only the JPEG
     * buffer, now `bufSize` bytes long, may have changed.
     */
    method GenerateJpegTestData(width: nat, height: nat, quality: int, subsampling: int, bufSize: nat,
                                compress: (seq<byte>, int, int) -> Option<seq<byte>>) returns (ok: bool)
      requires Valid()
      modifies this, yuvStrides, yuvPlanes
      ensures Valid()
      ensures ok <==> compress(TestImage(width, height), quality, subsampling).Some?
      ensures !ok ==> |jpegBuffer| == bufSize
      ensures !ok ==> decodeBuffer == old(decodeBuffer) && yuvBuffer == old(yuvBuffer)
      ensures !ok ==> this.width == old(this.width) && this.height == old(this.height)
      ensures !ok ==> yuvStrides[..] == old(yuvStrides[..]) && yuvPlanes[..] == old(yuvPlanes[..])
      ensures ok ==> jpegBuffer == compress(TestImage(width, height), quality, subsampling).value
      ensures ok ==> decodeBuffer == Resize(old(decodeBuffer), width * height * 3)
      ensures ok ==> yuvStrides[..] == Strides(width)
      ensures ok ==> yuvBuffer == Resize(old(yuvBuffer), YuvSize(width, height))
      ensures ok ==> yuvPlanes[..] == PlaneOffsets(width, height)
      ensures ok ==> this.width == width && this.height == height
    {
      var rgbData := GenerateRGB(width, height, SmpteColorBars, NoFloats);
      jpegBuffer := Resize(jpegBuffer, bufSize);
      var compressed := compress(rgbData, quality, subsampling);
      if compressed.None? {
        return false;
      }
      jpegBuffer := compressed.value;
      decodeBuffer := Resize(decodeBuffer, width * height * 3);
      LayOutYuv(width, height);
      this.width := width;
      this.height := height;
      ok := true;
    }
  }
}
