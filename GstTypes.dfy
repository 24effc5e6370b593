/**
 * Types shared by the TurboJPEG decoder and encoder elements: the video
 * formats GStreamer names, the flow values a frame handler returns, the
 * TurboJPEG pixel formats, and C's truncating integer division.
 */
module GstTypes {

  datatype Option<T> = None | Some(value: T)

  /** An unsigned 8-bit sample. */
  type byte = x: int | 0 <= x < 256

  /** The largest value of a C `int` (G_MAXINT). */
  const GMaxInt: int := 0x7fff_ffff

  /**
   * GstVideoFormat values that the elements mention by name; every other
   * format is `OtherFormat`, told apart by its enum value.
   */
  datatype VideoFormat =
    | Unknown
    | I420 | YV12 | YUY2 | UYVY | YVYU
    | RGB | BGR | RGBx | BGRx | xRGB | xBGR
    | GRAY8
    | OtherFormat(id: nat)

  /** GstFlowReturn. */
  datatype FlowReturn = Ok | NotLinked | Flushing | Eos | NotNegotiated | Error | NotSupported

  /** The TurboJPEG packed pixel formats (TJPF_*) the elements can name. */
  datatype TjPixelFormat = TjRgb | TjBgr | TjRgbx | TjBgrx | TjXrgb | TjXbgr | TjGray

  /** A codec state negotiated with a neighbouring element: the video info it carries. */
  datatype VideoInfo = VideoInfo(format: VideoFormat, width: int, height: int, fpsN: int, fpsD: int)

  /** C's `/` on `int`: the quotient truncated toward zero. */
  function CDiv(a: int, b: int): (q: int)
    requires b != 0
    ensures 0 <= a && 0 < b ==> q == a / b
    ensures a < 0 && 0 < b ==> q == -((-a) / b)
  {
    var m := (if a >= 0 then a else -a) / (if b > 0 then b else -b);
    if (a >= 0) == (b > 0) then m else -m
  }

  /** C++'s conversion of an `int` to `uint8_t`: the value modulo 256. */
  function ToUint8(v: int): (r: byte)
    ensures 0 <= v < 256 ==> r == v
    ensures (r - v) % 256 == 0
  {
    v % 256
  }
}
