/**
 * The `turbojpegdec` element: a JPEG decoder session that reads each
 * frame's header, picks an output format from what downstream accepts,
 * renegotiates only when width, height or format changed, and decodes
 * either into three I420 planes or into one packed RGB plane.  Header and
 * decode failures are counted; `maxErrors` consecutive failures are fatal,
 * fewer only drop the frame.
 *
 * The codec and the GStreamer calls are oracles: a `FrameInput` says what
 * each of them answered for one frame.
 */
module TurboJpegDec {
  import opened GstTypes

  /** DEFAULT_MAX_ERRORS */
  const DefaultMaxErrors: int := 5

  /** The output formats tried in order: I420 first, then RGB. */
  const PreferredFormats: seq<VideoFormat> := [I420, RGB]

  // ---------------------------------------------------------------------
  // get_tj_pixel_format
  // ---------------------------------------------------------------------

  /** The TurboJPEG pixel format for a GStreamer format; `None` stands for -1. */
  function TjPixelFormatOf(f: VideoFormat): (r: Option<TjPixelFormat>)
    ensures r.Some? <==> f in {RGB, BGR, RGBx, BGRx, xRGB, xBGR, GRAY8}
  {
    match f
    case RGB => Some(TjRgb)
    case BGR => Some(TjBgr)
    case RGBx => Some(TjRgbx)
    case BGRx => Some(TjBgrx)
    case xRGB => Some(TjXrgb)
    case xBGR => Some(TjXbgr)
    case GRAY8 => Some(TjGray)
    case _ => None
  }

  /** The GStreamer format each TurboJPEG pixel format corresponds to. */
  function FormatOfTj(p: TjPixelFormat): VideoFormat
  {
    match p
    case TjRgb => RGB
    case TjBgr => BGR
    case TjRgbx => RGBx
    case TjBgrx => BGRx
    case TjXrgb => xRGB
    case TjXbgr => xBGR
    case TjGray => GRAY8
  }

  /** The mapping is a bijection between the seven packed formats and the TJPF values. */
  lemma TjPixelFormatBijective(f: VideoFormat, p: TjPixelFormat)
    ensures TjPixelFormatOf(f) == Some(p) <==> f == FormatOfTj(p)
  {
  }

  /** Planar and packed-YUV formats have no TurboJPEG pixel format. */
  lemma TjPixelFormatOfYuvIsNone(f: VideoFormat)
    requires f in {I420, YV12, YUY2, UYVY, YVYU}
    ensures TjPixelFormatOf(f) == None
  {
  }

  // ---------------------------------------------------------------------
  // Output-format choice
  // ---------------------------------------------------------------------

  /** The first of `prefs` that is in `allowed`, if any. */
  function FirstIn(prefs: seq<VideoFormat>, allowed: set<VideoFormat>): Option<VideoFormat>
  {
    if prefs == [] then None
    else if prefs[0] in allowed then Some(prefs[0])
    else FirstIn(prefs[1..], allowed)
  }

  /** FirstIn finds the earliest accepted preference, and nothing when none is accepted. */
  lemma {:induction false} FirstInIsEarliest(prefs: seq<VideoFormat>, allowed: set<VideoFormat>)
    ensures FirstIn(prefs, allowed) == None <==> forall k :: 0 <= k < |prefs| ==> prefs[k] !in allowed
    ensures FirstIn(prefs, allowed).Some? ==>
      exists k :: 0 <= k < |prefs| && prefs[k] == FirstIn(prefs, allowed).value && prefs[k] in allowed &&
        forall j :: 0 <= j < k ==> prefs[j] !in allowed
  {
    if prefs != [] && prefs[0] !in allowed {
      FirstInIsEarliest(prefs[1..], allowed);
      if FirstIn(prefs[1..], allowed).Some? {
        var k :| 0 <= k < |prefs[1..]| && prefs[1..][k] == FirstIn(prefs[1..], allowed).value && prefs[1..][k] in allowed &&
          forall j :: 0 <= j < k ==> prefs[1..][j] !in allowed;
        assert prefs[k + 1] == prefs[1..][k];
        forall j | 0 <= j < k + 1 ensures prefs[j] !in allowed {
          if j > 0 { assert prefs[j] == prefs[1..][j - 1]; }
        }
      } else {
        forall k | 0 <= k < |prefs| ensures prefs[k] !in allowed {
          if k > 0 { assert prefs[k] == prefs[1..][k - 1]; }
        }
      }
    } else if prefs != [] {
      assert prefs[0] in allowed;
    }
  }

  /**
   * The format the decoder asks downstream for: the first preferred format
   * the allowed caps accept, or I420 when none is accepted or the query
   * returned no caps.
   */
  function NegotiatedFormat(allowedCaps: Option<set<VideoFormat>>): VideoFormat
  {
    if allowedCaps.None? then I420
    else match FirstIn(PreferredFormats, allowedCaps.value)
      case Some(f) => f
      case None => I420
  }

  /** The chosen format is I420 unless downstream accepts RGB and not I420. */
  lemma NegotiatedFormatCases(allowedCaps: Option<set<VideoFormat>>)
    ensures NegotiatedFormat(allowedCaps) in {I420, RGB}
    ensures NegotiatedFormat(allowedCaps) == RGB <==>
      allowedCaps.Some? && I420 !in allowedCaps.value && RGB in allowedCaps.value
    ensures allowedCaps.Some? && I420 in allowedCaps.value ==> NegotiatedFormat(allowedCaps) == I420
  {
    if allowedCaps.Some? {
      var a := allowedCaps.value;
      assert PreferredFormats[1..] == [RGB];
      assert FirstIn(PreferredFormats, a) == if I420 in a then Some(I420) else FirstIn([RGB], a);
      assert [RGB][1..] == [];
    }
  }

  /** The preference loop of handle_frame, with its `break` on the first accepted format. */
  method ChooseOutputFormat(allowedCaps: Option<set<VideoFormat>>) returns (format: VideoFormat)
    ensures format == NegotiatedFormat(allowedCaps)
  {
    var best := Unknown;
    var i := 0;
    while i < |PreferredFormats|
      invariant 0 <= i <= |PreferredFormats|
      invariant best == Unknown
      invariant allowedCaps.Some? ==> FirstIn(PreferredFormats, allowedCaps.value) == FirstIn(PreferredFormats[i..], allowedCaps.value)
    {
      if allowedCaps.Some? && PreferredFormats[i] in allowedCaps.value {
        best := PreferredFormats[i];
        break;
      }
      assert PreferredFormats[i..][1..] == PreferredFormats[i + 1..];
      i := i + 1;
    }
    if best == Unknown {
      best := I420;
    }
    format := best;
  }

  // ---------------------------------------------------------------------
  // One call of handle_frame, as a function of the session state
  // ---------------------------------------------------------------------

  /** What tj3DecompressHeader and tj3Get report for a frame. */
  datatype Header = HeaderError | HeaderOk(width: int, height: int)

  /** What every collaborator answered while one frame was handled. */
  datatype FrameInput = FrameInput(
    inputMapped: bool,                          // gst_buffer_map on the input
    header: Header,                             // tj3DecompressHeader + tj3Get
    allowedCaps: Option<set<VideoFormat>>,      // gst_pad_get_allowed_caps, as accepted formats
    negotiateOk: bool,                          // gst_video_decoder_negotiate
    allocFlow: FlowReturn,                      // gst_video_decoder_allocate_output_frame
    outputMapped: bool,                         // gst_video_frame_map on the output
    decodeOk: bool,                             // tj3DecompressToYUVPlanes8 / tj3Decompress8
    finishFlow: FlowReturn)                     // gst_video_decoder_finish_frame

  /** The negotiated output: format and dimensions. */
  datatype OutputState = OutputState(format: VideoFormat, width: int, height: int)

  /**
   * The decode call made: three planes in the order given (frame plane
   * slots), or one packed plane with a TurboJPEG pixel format (`None` is -1).
   */
  datatype DecodeCall = YuvPlanes(slots: seq<nat>) | Packed(slot: nat, pixelFormat: Option<TjPixelFormat>)

  /** How a call ended: the frame was finished, dropped (GST_FLOW_OK), or a flow error returned. */
  datatype Outcome = Finished(flow: FlowReturn) | Dropped | Failed(flow: FlowReturn)

  /** The GstFlowReturn that handle_frame returns for an outcome. */
  function Returned(o: Outcome): FlowReturn
  {
    match o
    case Finished(f) => f
    case Dropped => Ok
    case Failed(f) => f
  }

  /** The part of the decoder the frame path reads and writes. */
  datatype DecState = DecState(maxErrors: int, errorCount: int, outputState: Option<OutputState>)

  datatype StepResult = StepResult(state: DecState, outcome: Outcome, call: Option<DecodeCall>)

  /** The output state must be replaced when it is absent or differs in width, height or format. */
  predicate NeedsRenegotiation(current: Option<OutputState>, format: VideoFormat, width: int, height: int)
  {
    current.None? || current.value.width != width || current.value.height != height || current.value.format != format
  }

  /** I420 decodes to planes 0, 1, 2 (Y, U, V); every other format to packed plane 0. */
  function DecodeCallFor(format: VideoFormat): DecodeCall
  {
    if format == I420 then YuvPlanes([0, 1, 2])
    else Packed(0, if format == RGB then Some(TjRgb) else None)
  }

  /** A failure that counts: the counter goes up by one and is compared with the limit. */
  function CountFailure(st: DecState, call: Option<DecodeCall>): StepResult
  {
    var counted := st.(errorCount := st.errorCount + 1);
    StepResult(counted, if counted.errorCount >= st.maxErrors then Failed(Error) else Dropped, call)
  }

  /** The effect of one handle_frame call. */
  function Step(st: DecState, input: FrameInput): StepResult
  {
    if !input.inputMapped then StepResult(st, Failed(Error), None)
    else match input.header
      case HeaderError => CountFailure(st, None)
      case HeaderOk(width, height) =>
        var format := NegotiatedFormat(input.allowedCaps);
        var renegotiate := NeedsRenegotiation(st.outputState, format, width, height);
        var st1 := if renegotiate then st.(outputState := Some(OutputState(format, width, height))) else st;
        if renegotiate && !input.negotiateOk then StepResult(st1, Failed(NotNegotiated), None)
        else if input.allocFlow != Ok then StepResult(st1, Failed(input.allocFlow), None)
        else if !input.outputMapped then StepResult(st1, Failed(Error), None)
        else if !input.decodeOk then CountFailure(st1, Some(DecodeCallFor(format)))
        else StepResult(st1.(errorCount := 0), Finished(input.finishFlow), Some(DecodeCallFor(format)))
  }

  // ---------------------------------------------------------------------
  // Properties of one call
  // ---------------------------------------------------------------------

  /** A header failure counts once; it is fatal exactly when the new count reaches the limit. */
  lemma HeaderFailureCounted(st: DecState, input: FrameInput)
    requires input.inputMapped && input.header == HeaderError
    ensures Step(st, input).state == st.(errorCount := st.errorCount + 1)
    ensures Step(st, input).outcome == (if st.errorCount + 1 >= st.maxErrors then Failed(Error) else Dropped)
    ensures Step(st, input).call == None
  {
  }

  /** With max-errors 0 the first failure is already fatal. */
  lemma ZeroLimitFirstFailureFatal(st: DecState, input: FrameInput)
    requires st.maxErrors == 0 && st.errorCount == 0
    requires input.inputMapped && input.header == HeaderError
    ensures Returned(Step(st, input).outcome) == Error
  {
  }

  /** A decode failure counts like a header failure, on the YUV path and on the RGB path alike. */
  lemma DecodeFailureCounted(st: DecState, input: FrameInput)
    requires input.inputMapped && input.header.HeaderOk?
    requires Step(st, input).call.Some? && !input.decodeOk
    ensures Step(st, input).state.errorCount == st.errorCount + 1
    ensures Step(st, input).outcome == (if st.errorCount + 1 >= st.maxErrors then Failed(Error) else Dropped)
  {
  }

  /** A frame is finished exactly when every step succeeded, and then the counter is 0. */
  lemma SuccessResetsCounter(st: DecState, input: FrameInput)
    ensures Step(st, input).outcome.Finished? <==>
      input.inputMapped && input.header.HeaderOk? && input.allocFlow == Ok && input.outputMapped && input.decodeOk &&
      (input.negotiateOk || !NeedsRenegotiation(st.outputState, NegotiatedFormat(input.allowedCaps), input.header.width, input.header.height))
    ensures Step(st, input).outcome.Finished? ==> Step(st, input).state.errorCount == 0
  {
  }

  /**
   * The counter changes only by a counted failure (+1) or a success (reset);
   * mapping, negotiation and allocation failures leave it alone.
   */
  lemma CounterChangesOnlyOnCountedEvents(st: DecState, input: FrameInput)
    ensures Step(st, input).outcome == Failed(NotNegotiated) ==> Step(st, input).state.errorCount == st.errorCount
    ensures !input.inputMapped ==> Step(st, input) == StepResult(st, Failed(Error), None)
    ensures input.inputMapped && input.header.HeaderOk? && (input.allocFlow != Ok || !input.outputMapped) ==>
      Step(st, input).state.errorCount == st.errorCount
    ensures var e := Step(st, input).state.errorCount;
      e == st.errorCount || e == st.errorCount + 1 || (e == 0 && Step(st, input).outcome.Finished?)
    ensures Step(st, input).state.errorCount != st.errorCount && !Step(st, input).outcome.Finished? <==>
      input.inputMapped && (input.header == HeaderError || (Step(st, input).call.Some? && !input.decodeOk))
    ensures Step(st, input).outcome.Failed? && Step(st, input).call.None? && !IsHeaderFailure(input) ==>
      Step(st, input).state.errorCount == st.errorCount
    ensures Step(st, input).state.maxErrors == st.maxErrors
  {
  }

  /**
   * The flow of each failure that does not count: a refused renegotiation
   * returns GST_FLOW_NOT_NEGOTIATED, a failed allocation returns the
   * allocation's flow, and a failed output map returns GST_FLOW_ERROR. None
   * of them decodes or touches the counter.
   */
  lemma UncountedFailureFlows(st: DecState, input: FrameInput)
    requires input.inputMapped && input.header.HeaderOk?
    ensures (NeedsRenegotiation(st.outputState, NegotiatedFormat(input.allowedCaps), input.header.width, input.header.height) &&
             !input.negotiateOk) ==>
      Step(st, input).outcome == Failed(NotNegotiated) && Step(st, input).call.None? &&
      Step(st, input).state.errorCount == st.errorCount
    ensures Step(st, input).outcome != Failed(NotNegotiated) && input.allocFlow != Ok ==>
      Step(st, input).outcome == Failed(input.allocFlow) && Step(st, input).call.None? &&
      Step(st, input).state.errorCount == st.errorCount
    ensures Step(st, input).outcome != Failed(NotNegotiated) && input.allocFlow == Ok && !input.outputMapped ==>
      Step(st, input).outcome == Failed(Error) && Step(st, input).call.None? &&
      Step(st, input).state.errorCount == st.errorCount
  {
  }

  /**
   * The output state is replaced (with the new format and size) exactly when
   * it was absent or differed; negotiation failing does not undo the
   * replacement.
   */
  lemma RenegotiationRule(st: DecState, input: FrameInput)
    requires input.inputMapped && input.header.HeaderOk?
    ensures var format := NegotiatedFormat(input.allowedCaps);
      var w, h := input.header.width, input.header.height;
      Step(st, input).state.outputState ==
        if NeedsRenegotiation(st.outputState, format, w, h) then Some(OutputState(format, w, h)) else st.outputState
    ensures Step(st, input).state.outputState.Some?
  {
  }

  /** On a steady stream (same size and format) the negotiation answer plays no part. */
  lemma SteadyStateSkipsNegotiation(st: DecState, input: FrameInput, negotiateOk: bool)
    requires input.inputMapped && input.header.HeaderOk?
    requires st.outputState == Some(OutputState(NegotiatedFormat(input.allowedCaps), input.header.width, input.header.height))
    ensures Step(st, input) == Step(st, input.(negotiateOk := negotiateOk))
    ensures Step(st, input).state.outputState == st.outputState
  {
  }

  /** I420 decodes into planes 0, 1, 2 (Y, U, V); otherwise one packed TJPF_RGB plane. */
  lemma DispatchByFormat(st: DecState, input: FrameInput)
    requires Step(st, input).call.Some?
    ensures input.header.HeaderOk?
    ensures NegotiatedFormat(input.allowedCaps) == I420 ==> Step(st, input).call == Some(YuvPlanes([0, 1, 2]))
    ensures NegotiatedFormat(input.allowedCaps) != I420 ==> Step(st, input).call == Some(Packed(0, Some(TjRgb)))
  {
    NegotiatedFormatCases(input.allowedCaps);
  }

  // ---------------------------------------------------------------------
  // Properties of a stream of frames
  // ---------------------------------------------------------------------

  /** The state after a sequence of frames, and the outcome of each. */
  function Run(st: DecState, frames: seq<FrameInput>): (r: (DecState, seq<Outcome>))
    ensures |r.1| == |frames|
    ensures r.0.maxErrors == st.maxErrors
    decreases |frames|
  {
    if frames == [] then (st, [])
    else
      var r := Step(st, frames[0]);
      var rest := Run(r.state, frames[1..]);
      (rest.0, [r.outcome] + rest.1)
  }

  /** The header could not be read. */
  predicate IsHeaderFailure(input: FrameInput)
  {
    input.inputMapped && input.header == HeaderError
  }

  /**
   * A failure that counts, whatever the session state: the header could not
   * be read, or every step up to the decode succeeded and the decode failed.
   */
  predicate IsCountedFailure(input: FrameInput)
  {
    IsHeaderFailure(input) ||
    (input.inputMapped && input.header.HeaderOk? && input.negotiateOk && input.allocFlow == Ok &&
     input.outputMapped && !input.decodeOk)
  }

  /** A counted failure raises the count by one and is fatal exactly when the new count reaches the limit. */
  lemma CountedFailureStep(st: DecState, input: FrameInput)
    requires IsCountedFailure(input)
    ensures Step(st, input).state.errorCount == st.errorCount + 1
    ensures Step(st, input).state.maxErrors == st.maxErrors
    ensures Step(st, input).outcome == (if st.errorCount + 1 >= st.maxErrors then Failed(Error) else Dropped)
    ensures IsHeaderFailure(input) ==> Step(st, input).state == st.(errorCount := st.errorCount + 1)
  {
  }

  /**
   * After k consecutive counted failures starting from count c, the count is
   * c + k and failure i is fatal exactly when c + i + 1 reaches the limit.
   * Header failures change nothing else; decode failures may also have
   * replaced the output state.
   */
  lemma {:induction false} ConsecutiveFailures(st: DecState, frames: seq<FrameInput>)
    requires forall i :: 0 <= i < |frames| ==> IsCountedFailure(frames[i])
    ensures Run(st, frames).0.errorCount == st.errorCount + |frames|
    ensures (forall i :: 0 <= i < |frames| ==> IsHeaderFailure(frames[i])) ==>
      Run(st, frames).0 == st.(errorCount := st.errorCount + |frames|)
    ensures |Run(st, frames).1| == |frames|
    ensures forall i :: 0 <= i < |frames| ==>
      Run(st, frames).1[i] == if st.errorCount + i + 1 >= st.maxErrors then Failed(Error) else Dropped
    decreases |frames|
  {
    if frames != [] {
      var next := Step(st, frames[0]).state;
      CountedFailureStep(st, frames[0]);
      ConsecutiveFailures(next, frames[1..]);
      if forall i :: 0 <= i < |frames| ==> IsHeaderFailure(frames[i]) {
        assert IsHeaderFailure(frames[0]);
        assert forall i :: 0 <= i < |frames[1..]| ==> IsHeaderFailure(frames[1..][i]) by {
          forall i | 0 <= i < |frames[1..]|
            ensures IsHeaderFailure(frames[1..][i])
          {
            assert frames[1..][i] == frames[i + 1];
          }
        }
      }
      var out := Run(st, frames).1;
      assert out == [Step(st, frames[0]).outcome] + Run(next, frames[1..]).1;
      forall i | 0 <= i < |frames|
        ensures out[i] == if st.errorCount + i + 1 >= st.maxErrors then Failed(Error) else Dropped
      {
        if i > 0 {
          assert out[i] == Run(next, frames[1..]).1[i - 1];
        }
      }
    }
  }

  /** Starting from 0, exactly the last of maxErrors consecutive counted failures is fatal. */
  lemma ThresholdFailuresFatal(st: DecState, frames: seq<FrameInput>)
    requires st.errorCount == 0 && st.maxErrors == |frames| >= 1
    requires forall i :: 0 <= i < |frames| ==> IsCountedFailure(frames[i])
    ensures Run(st, frames).1[|frames| - 1] == Failed(Error)
    ensures forall i :: 0 <= i < |frames| - 1 ==> Run(st, frames).1[i] == Dropped
  {
    ConsecutiveFailures(st, frames);
  }

  /**
   * maxErrors - 1 failures followed by a successful frame are never fatal,
   * and leave the counter at 0.
   */
  lemma RecoveryBeforeThreshold(st: DecState, failures: seq<FrameInput>, good: FrameInput)
    requires st.errorCount == 0 && st.maxErrors == |failures| + 1
    requires forall i :: 0 <= i < |failures| ==> IsCountedFailure(failures[i])
    requires good.inputMapped && good.header.HeaderOk? && good.negotiateOk && good.allocFlow == Ok
    requires good.outputMapped && good.decodeOk && good.finishFlow == Ok
    ensures Run(st, failures + [good]).0.errorCount == 0
    ensures forall i :: 0 <= i < |failures| + 1 ==> Run(st, failures + [good]).1[i] != Failed(Error)
  {
    RunAppend(st, failures, [good]);
    ConsecutiveFailures(st, failures);
    var mid := Run(st, failures).0;
    assert Run(mid, [good]).1 == [Step(mid, good).outcome];
  }

  /** Running two batches is running their concatenation. */
  lemma {:induction false} RunAppend(st: DecState, a: seq<FrameInput>, b: seq<FrameInput>)
    ensures Run(st, a + b).0 == Run(Run(st, a).0, b).0
    ensures Run(st, a + b).1 == Run(st, a).1 + Run(Run(st, a).0, b).1
    decreases |a|
  {
    if a == [] {
      assert a + b == b;
    } else {
      assert (a + b)[0] == a[0];
      assert (a + b)[1..] == a[1..] + b;
      RunAppend(Step(st, a[0]).state, a[1..], b);
    }
  }

  // ---------------------------------------------------------------------
  // The element
  // ---------------------------------------------------------------------

  class Decoder {
    var hasInstance: bool                   // tjInstance != NULL
    var maxErrors: int
    var errorCount: int
    var inputState: Option<VideoInfo>
    var outputState: Option<OutputState>

    function State(): DecState
      reads this
    {
      DecState(maxErrors, errorCount, outputState)
    }

    /** gst_turbojpegdec_init */
    constructor ()
      ensures !hasInstance && maxErrors == DefaultMaxErrors && errorCount == 0
      ensures inputState == None && outputState == None
    {
      hasInstance := false;
      maxErrors := DefaultMaxErrors;
      errorCount := 0;
      inputState := None;
      outputState := None;
    }

    /** gst_turbojpegdec_start: `initOk` is whether tj3Init returned a handle. */
    method Start(initOk: bool) returns (ok: bool)
      modifies this
      ensures ok == initOk && hasInstance == initOk
      ensures errorCount == if initOk then 0 else old(errorCount)
      ensures maxErrors == old(maxErrors) && inputState == old(inputState) && outputState == old(outputState)
    {
      hasInstance := initOk;
      if !hasInstance {
        return false;
      }
      errorCount := 0;
      return true;
    }

    /** gst_turbojpegdec_stop */
    method Stop() returns (ok: bool)
      modifies this
      ensures ok && !hasInstance && inputState == None && outputState == None
      ensures maxErrors == old(maxErrors) && errorCount == old(errorCount)
    {
      if hasInstance {
        hasInstance := false;
      }
      if inputState.Some? {
        inputState := None;
      }
      if outputState.Some? {
        outputState := None;
      }
      return true;
    }

    /** gst_turbojpegdec_set_format */
    method SetFormat(state: VideoInfo) returns (ok: bool)
      modifies this
      ensures ok && inputState == Some(state)
      ensures State() == old(State()) && hasInstance == old(hasInstance)
    {
      inputState := Some(state);
      return true;
    }

    /** set_property for "max-errors"; GObject only passes values in the declared range 0..G_MAXINT. */
    method SetMaxErrors(value: int)
      requires 0 <= value <= GMaxInt
      modifies this
      ensures maxErrors == value
      ensures errorCount == old(errorCount) && outputState == old(outputState)
      ensures inputState == old(inputState) && hasInstance == old(hasInstance)
    {
      maxErrors := value;
    }

    /** get_property for "max-errors". */
    method GetMaxErrors() returns (value: int)
      ensures value == maxErrors
    {
      value := maxErrors;
    }

    /** gst_turbojpegdec_handle_frame */
    method HandleFrame(input: FrameInput) returns (flow: FlowReturn, outcome: Outcome, call: Option<DecodeCall>)
      modifies this
      ensures State() == Step(old(State()), input).state
      ensures outcome == Step(old(State()), input).outcome && call == Step(old(State()), input).call
      ensures flow == Returned(outcome)
      ensures hasInstance == old(hasInstance) && inputState == old(inputState)
    {
      call := None;
      if !input.inputMapped {
        outcome := Failed(Error);
        return Error, outcome, call;
      }
      if input.header.HeaderError? {
        errorCount := errorCount + 1;
        outcome := if errorCount >= maxErrors then Failed(Error) else Dropped;
        return Returned(outcome), outcome, call;
      }
      var width, height := input.header.width, input.header.height;
      var format := ChooseOutputFormat(input.allowedCaps);
      var tjFormat := if format == RGB then Some(TjRgb) else None;
      if outputState.None? || outputState.value.width != width || outputState.value.height != height
         || outputState.value.format != format
      {
        outputState := Some(OutputState(format, width, height));
        if !input.negotiateOk {
          outcome := Failed(NotNegotiated);
          return NotNegotiated, outcome, call;
        }
      }
      if input.allocFlow != Ok {
        outcome := Failed(input.allocFlow);
        return input.allocFlow, outcome, call;
      }
      if !input.outputMapped {
        outcome := Failed(Error);
        return Error, outcome, call;
      }
      if format == I420 {
        call := Some(YuvPlanes([0, 1, 2]));
      } else {
        call := Some(Packed(0, tjFormat));
      }
      if !input.decodeOk {
        errorCount := errorCount + 1;
        outcome := if errorCount >= maxErrors then Failed(Error) else Dropped;
        return Returned(outcome), outcome, call;
      }
      errorCount := 0;
      outcome := Finished(input.finishFlow);
      flow := input.finishFlow;
    }
  }
}
