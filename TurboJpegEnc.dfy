/**
 * The `turbojpegenc` element: four settings (quality, chroma subsampling,
 * optimized Huffman coding, progressive mode) with their defaults, the
 * field resets of set_format and stop, and the per-frame routine that
 * hands the settings to the codec and compresses either one packed RGB
 * plane or three Y, U, V planes.
 *
 * The codec (tj3Set, tj3Compress8, tj3CompressFromYUVPlanes8) and the
 * GStreamer calls are oracles, given per frame in an `EncodeInput`.
 */
module TurboJpegEnc {
  import opened GstTypes

  /** TJSAMP_* values; the declared range of the "subsampling" property. */
  const TjSamp444: int := 0
  const TjSamp422: int := 1
  const TjSamp420: int := 2
  const TjSampGray: int := 3
  const TjSamp440: int := 4

  const DefaultQuality: int := 80
  const DefaultSubsampling: int := TjSamp420
  const DefaultOptimizedHuffman: bool := false
  const DefaultProgressive: bool := false

  // ---------------------------------------------------------------------
  // Settings and the property interface
  // ---------------------------------------------------------------------

  datatype Settings = Settings(quality: int, subsampling: int, optimizedHuffman: bool, progressive: bool)

  /** The four properties. */
  datatype PropId = PropQuality | PropSubsampling | PropOptimizedHuffman | PropProgressive

  /** A property together with a value of its type. */
  datatype PropValue =
    | Quality(q: int)
    | Subsampling(s: int)
    | OptimizedHuffman(on: bool)
    | Progressive(on: bool)
  {
    function Id(): PropId
    {
      match this
      case Quality(_) => PropQuality
      case Subsampling(_) => PropSubsampling
      case OptimizedHuffman(_) => PropOptimizedHuffman
      case Progressive(_) => PropProgressive
    }
  }

  function DefaultSettings(): Settings
  {
    Settings(DefaultQuality, DefaultSubsampling, DefaultOptimizedHuffman, DefaultProgressive)
  }

  /** The ranges declared for the properties: quality 1..100, subsampling 0..4. */
  predicate InDomain(v: PropValue)
  {
    match v
    case Quality(q) => 1 <= q <= 100
    case Subsampling(s) => TjSamp444 <= s <= TjSamp440
    case _ => true
  }

  predicate ValidSettings(s: Settings)
  {
    InDomain(Quality(s.quality)) && InDomain(Subsampling(s.subsampling))
  }

  /** set_property: the field of the property takes the value. */
  function SetProperty(s: Settings, v: PropValue): Settings
  {
    match v
    case Quality(q) => s.(quality := q)
    case Subsampling(sub) => s.(subsampling := sub)
    case OptimizedHuffman(on) => s.(optimizedHuffman := on)
    case Progressive(on) => s.(progressive := on)
  }

  /** get_property: the value of a property's field. */
  function GetProperty(s: Settings, id: PropId): (v: PropValue)
    ensures v.Id() == id
  {
    match id
    case PropQuality => Quality(s.quality)
    case PropSubsampling => Subsampling(s.subsampling)
    case PropOptimizedHuffman => OptimizedHuffman(s.optimizedHuffman)
    case PropProgressive => Progressive(s.progressive)
  }

  /** The defaults lie in the declared ranges. */
  lemma DefaultsValid()
    ensures ValidSettings(DefaultSettings())
    ensures GetProperty(DefaultSettings(), PropQuality) == Quality(80)
    ensures GetProperty(DefaultSettings(), PropSubsampling) == Subsampling(TjSamp420)
  {
  }

  /** Setting a property and reading it back gives the value set; the other three are unchanged. */
  lemma SetThenGet(s: Settings, v: PropValue, id: PropId)
    ensures GetProperty(SetProperty(s, v), v.Id()) == v
    ensures id != v.Id() ==> GetProperty(SetProperty(s, v), id) == GetProperty(s, id)
  {
  }

  /** Writing back a value just read changes nothing. */
  lemma GetThenSet(s: Settings, id: PropId)
    ensures SetProperty(s, GetProperty(s, id)) == s
  {
  }

  /** A value in its declared range keeps the settings valid. */
  lemma SetPreservesValid(s: Settings, v: PropValue)
    requires ValidSettings(s) && InDomain(v)
    ensures ValidSettings(SetProperty(s, v))
  {
  }

  // ---------------------------------------------------------------------
  // get_tj_pixel_format and the per-frame routine
  // ---------------------------------------------------------------------

  /** The encoder's TurboJPEG pixel format: TJPF_RGB for RGB, -1 (`None`) for everything else. */
  function EncTjPixelFormatOf(f: VideoFormat): (r: Option<TjPixelFormat>)
    ensures r.Some? <==> f == RGB
    ensures r.Some? ==> r.value == TjRgb
  {
    match f
    case RGB => Some(TjRgb)
    case _ => None
  }

  /** The codec parameters handle_frame sets (TJPARAM_QUALITY, _SUBSAMP, _PROGRESSIVE, _OPTIMIZE). */
  datatype CodecParams = CodecParams(quality: int, subsamp: int, progressive: int, optimize: int)

  /** The compression call made. */
  datatype CompressCall =
    | CompressPacked(slot: nat, pixelFormat: TjPixelFormat, width: int, height: int)
    | CompressYuvPlanes(slots: seq<nat>, width: int, height: int)

  /** What every collaborator answered while one frame was encoded. */
  datatype EncodeInput = EncodeInput(
    inputMapped: bool,          // gst_video_frame_map on the input
    frameFormat: VideoFormat,   // GST_VIDEO_FRAME_FORMAT
    width: int,
    height: int,
    compressOk: bool,           // tj3Compress8 / tj3CompressFromYUVPlanes8
    outputAllocated: bool,      // gst_buffer_new_allocate
    finishFlow: FlowReturn)     // gst_video_encoder_finish_frame

  datatype EncodeResult = EncodeResult(flow: FlowReturn, params: Option<CodecParams>, call: Option<CompressCall>, finished: bool)

  /** The parameters the settings give the codec. */
  function ParamsFor(s: Settings): CodecParams
  {
    CodecParams(s.quality, s.subsampling, if s.progressive then 1 else 0, if s.optimizedHuffman then 1 else 0)
  }

  /** The compression call for a frame format. */
  function CompressCallFor(f: VideoFormat, width: int, height: int): CompressCall
  {
    match EncTjPixelFormatOf(f)
    case Some(p) => CompressPacked(0, p, width, height)
    case None => CompressYuvPlanes([0, 1, 2], width, height)
  }

  /** The effect of one handle_frame call. */
  function Encode(s: Settings, input: EncodeInput): EncodeResult
  {
    if !input.inputMapped then EncodeResult(Error, None, None, false)
    else
      var params := Some(ParamsFor(s));
      var call := Some(CompressCallFor(input.frameFormat, input.width, input.height));
      if !input.compressOk || !input.outputAllocated then EncodeResult(Error, params, call, false)
      else EncodeResult(input.finishFlow, params, call, true)
  }

  /** The parameters mirror the settings: PROGRESSIVE is 1 iff progressive, OPTIMIZE is 1 iff optimized Huffman. */
  lemma ParamsMirrorSettings(s: Settings, input: EncodeInput)
    requires input.inputMapped
    ensures var p := Encode(s, input).params;
      p.Some? && p.value.quality == s.quality && p.value.subsamp == s.subsampling &&
      (p.value.progressive == 1 <==> s.progressive) && p.value.progressive in {0, 1} &&
      (p.value.optimize == 1 <==> s.optimizedHuffman) && p.value.optimize in {0, 1}
  {
  }

  /** RGB is compressed as one packed TJPF_RGB plane; every other format as planes 0, 1, 2 (Y, U, V). */
  lemma DispatchByFormat(s: Settings, input: EncodeInput)
    requires input.inputMapped
    ensures input.frameFormat == RGB ==>
      Encode(s, input).call == Some(CompressPacked(0, TjRgb, input.width, input.height))
    ensures input.frameFormat != RGB ==>
      Encode(s, input).call == Some(CompressYuvPlanes([0, 1, 2], input.width, input.height))
  {
  }

  /** A frame is finished exactly when mapping, compression and allocation all succeed; otherwise the result is GST_FLOW_ERROR. */
  lemma FailuresAreErrors(s: Settings, input: EncodeInput)
    ensures Encode(s, input).finished <==> input.inputMapped && input.compressOk && input.outputAllocated
    ensures !Encode(s, input).finished ==> Encode(s, input).flow == Error
    ensures !input.inputMapped ==> Encode(s, input).params.None? && Encode(s, input).call.None?
  {
  }

  // ---------------------------------------------------------------------
  // The element
  // ---------------------------------------------------------------------

  /** The image/jpeg caps set_format announces downstream. */
  datatype JpegCaps = JpegCaps(width: int, height: int, fpsN: int, fpsD: int)

  class Encoder {
    var hasInstance: bool            // tjInstance != NULL
    var quality: int
    var subsampling: int
    var optimizedHuffman: bool
    var progressive: bool
    var inputState: Option<VideoInfo>
    var hasJpegBuffer: bool          // jpeg_buffer != NULL
    var jpegBufferSize: nat
    var hasBufferPool: bool          // buffer_pool != NULL

    function CurrentSettings(): Settings
      reads this
    {
      Settings(quality, subsampling, optimizedHuffman, progressive)
    }

    /** No code path allocates `jpeg_buffer`, so its size stays 0 while it is NULL. */
    ghost predicate Valid()
      reads this
    {
      !hasJpegBuffer ==> jpegBufferSize == 0
    }

    /** gst_turbojpegenc_init */
    constructor ()
      ensures Valid()
      ensures CurrentSettings() == DefaultSettings()
      ensures !hasInstance && inputState == None
      ensures !hasJpegBuffer && jpegBufferSize == 0 && !hasBufferPool
    {
      hasInstance := false;
      quality := DefaultQuality;
      subsampling := DefaultSubsampling;
      optimizedHuffman := DefaultOptimizedHuffman;
      progressive := DefaultProgressive;
      inputState := None;
      hasJpegBuffer := false;
      jpegBufferSize := 0;
      hasBufferPool := false;
    }

    /** set_property; GObject only passes values in the declared ranges. */
    method SetProp(v: PropValue)
      requires Valid() && InDomain(v)
      modifies this
      ensures Valid()
      ensures CurrentSettings() == SetProperty(old(CurrentSettings()), v)
      ensures hasInstance == old(hasInstance) && inputState == old(inputState)
      ensures hasJpegBuffer == old(hasJpegBuffer) && jpegBufferSize == old(jpegBufferSize) && hasBufferPool == old(hasBufferPool)
    {
      match v
      case Quality(q) => quality := q;
      case Subsampling(s) => subsampling := s;
      case OptimizedHuffman(on) => optimizedHuffman := on;
      case Progressive(on) => progressive := on;
    }

    /** get_property */
    method GetProp(id: PropId) returns (v: PropValue)
      ensures v.Id() == id
      ensures v == GetProperty(CurrentSettings(), id)
    {
      match id
      case PropQuality => v := Quality(quality);
      case PropSubsampling => v := Subsampling(subsampling);
      case PropOptimizedHuffman => v := OptimizedHuffman(optimizedHuffman);
      case PropProgressive => v := Progressive(progressive);
    }

    /** gst_turbojpegenc_start: `initOk` is whether tj3Init returned a handle. */
    method Start(initOk: bool) returns (ok: bool)
      requires Valid()
      modifies this
      ensures Valid()
      ensures ok == initOk && hasInstance == initOk
      ensures CurrentSettings() == old(CurrentSettings()) && inputState == old(inputState)
      ensures hasJpegBuffer == old(hasJpegBuffer) && jpegBufferSize == old(jpegBufferSize) && hasBufferPool == old(hasBufferPool)
    {
      hasInstance := initOk;
      ok := initOk;
    }

    /**
     * gst_turbojpegenc_stop: the codec handle, the input state and the
     * buffer pool are released; `jpeg_buffer` is left as it is.
     */
    method Stop() returns (ok: bool)
      requires Valid()
      modifies this
      ensures Valid()
      ensures ok && !hasInstance && inputState == None && !hasBufferPool
      ensures CurrentSettings() == old(CurrentSettings())
      ensures hasJpegBuffer == old(hasJpegBuffer) && jpegBufferSize == old(jpegBufferSize)
    {
      if hasInstance {
        hasInstance := false;
      }
      if inputState.Some? {
        inputState := None;
      }
      if hasBufferPool {
        hasBufferPool := false;
      }
      ok := true;
    }

    /**
     * gst_turbojpegenc_set_format: stores the new input state, releases the
     * JPEG buffer and the pool, and announces image/jpeg caps of the same
     * size and frame rate. `negotiateOk` is gst_video_encoder_negotiate's answer.
     */
    method SetFormat(state: VideoInfo, negotiateOk: bool) returns (ok: bool, caps: JpegCaps)
      requires Valid()
      modifies this
      ensures Valid()
      ensures inputState == Some(state)
      ensures !hasJpegBuffer && jpegBufferSize == 0 && !hasBufferPool
      ensures caps == JpegCaps(state.width, state.height, state.fpsN, state.fpsD)
      ensures ok == negotiateOk
      ensures CurrentSettings() == old(CurrentSettings()) && hasInstance == old(hasInstance)
    {
      inputState := Some(state);
      if hasJpegBuffer {
        hasJpegBuffer := false;
        jpegBufferSize := 0;
      }
      if hasBufferPool {
        hasBufferPool := false;
      }
      caps := JpegCaps(state.width, state.height, state.fpsN, state.fpsD);
      ok := negotiateOk;
    }

    /** gst_turbojpegenc_handle_frame */
    method HandleFrame(input: EncodeInput) returns (r: EncodeResult)
      ensures r == Encode(CurrentSettings(), input)
    {
      if !input.inputMapped {
        return EncodeResult(Error, None, None, false);
      }
      var params := CodecParams(quality, subsampling, 0, 0);
      if progressive {
        params := params.(progressive := 1);
      } else {
        params := params.(progressive := 0);
      }
      if optimizedHuffman {
        params := params.(optimize := 1);
      } else {
        params := params.(optimize := 0);
      }
      var tjFormat := EncTjPixelFormatOf(input.frameFormat);
      var call;
      if tjFormat.Some? {
        call := CompressPacked(0, tjFormat.value, input.width, input.height);
      } else {
        call := CompressYuvPlanes([0, 1, 2], input.width, input.height);
      }
      if !input.compressOk {
        return EncodeResult(Error, Some(params), Some(call), false);
      }
      if !input.outputAllocated {
        return EncodeResult(Error, Some(params), Some(call), false);
      }
      r := EncodeResult(input.finishFlow, Some(params), Some(call), true);
    }
  }
}
