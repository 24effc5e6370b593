# gst-turbojpeg in Dafny

This project models the logic of gst-turbojpeg, a GStreamer plugin pair (`turbojpegdec`, `turbojpegenc`) built on libturbojpeg, together with the integer parts of its benchmark tools. The model covers five parts:

- **Decoder session** (`TurboJpegDec.dfy`). Each `handle_frame` call does the following:
  - maps the input and reads the JPEG header;
  - picks the output format, taking the first of I420 and RGB that downstream accepts and falling back to I420;
  - replaces the output state, and renegotiates, only when the width, the height or the format changed;
  - decodes either into three Y/U/V planes (I420) or into one packed TJPF_RGB plane.

  Header and decode failures increment `error_count`. Every such failure after which the count is at or above `max_errors` is fatal, including failures after `max_errors` was lowered mid-stream. Other counted failures return `GST_FLOW_OK` without a frame, and a decoded frame resets the count. One call is the function `Step`, a stream of frames is `Run`, and the element is the class `Decoder`, whose `HandleFrame` is proved to perform `Step`.
- **Encoder** (`TurboJpegEnc.dfy`). It has four properties:
  - quality 1..100, default 80;
  - subsampling 0..4, default 4:2:0;
  - optimized Huffman coding, default off;
  - progressive mode, default off.

  It also covers the resets done by `set_format` and `stop`, and the per-frame routine. That routine passes the settings to the codec, then compresses RGB as one packed plane and every other format as three planes.
- **Test patterns** (`PatternGenerator.dfy`):
  - the integer patterns: gradient, checkerboard, and the colour bars the source calls SMPTE;
  - `clamp`;
  - the three image builders `generateRGB`, `generateGrayscale` and `generateRGBA`. They are imperative nested loops over an `array<byte>`, proved to produce the image the function `Image` describes: channel `c` of pixel `(x, y)` at byte `(y*width + x)*bpp + c`, with alpha 255 in RGBA.
- **Pattern viewer logic** (`PatternViewer.dfy`):
  - the argument loop of `main`, with `std::atoi`, and its defaults and checks;
  - the pattern names and `parsePatternType`;
  - the three output file names per pattern;
  - the loop that drops alpha from RGBA data;
  - `generatePatternSet`, which returns the three files it would write.
- **I420 layout in the decoder benchmark** (`DecoderBenchmark.dfy`). These are the strides, plane sizes and plane offsets that `generateJpegTestData` computes for one buffer holding the Y, U and V planes. The addresses of the planes become offsets into that buffer.

`GstTypes.dfy` holds the shared types. It also defines C's truncating division `CDiv` and the conversion to `uint8_t`.

The codec and GStreamer calls are oracles. For each frame, a record such as `FrameInput` or `EncodeInput` says what every collaborator answered: whether a map succeeded, the header the codec read, the formats downstream accepts, whether negotiation and decoding succeeded, and the flow returned by allocation and `finish_frame`.

The decoder offers only I420 and RGB (src/gstturbojpegdec.c:280-308). It falls back to I420 when downstream accepts neither, and does not treat that as an error. It decodes I420 straight into the three planes of the output frame and RGB into one packed plane (src/gstturbojpegdec.c:347-386). It neither resamples chroma nor swaps planes for YV12.

## Model

| member | source | states |
|---|---|---|
| GstTypes.CDiv | benchmarks/pattern_generator.cpp:142-146 | with a positive divisor, C division truncates toward zero: it is Dafny's division for a non-negative dividend and the negated quotient of the negated dividend for a negative one |
| GstTypes.ToUint8 | benchmarks/pattern_generator.cpp:142 | the cast to `uint8_t` is the identity on 0..255 and otherwise agrees with the value modulo 256 |
| TurboJpegDec.TjPixelFormatOf | src/gstturbojpegdec.c:198-224 | a TurboJPEG pixel format exists exactly for RGB, BGR, RGBx, BGRx, xRGB, xBGR and GRAY8 |
| TurboJpegDec.TjPixelFormatBijective | src/gstturbojpegdec.c:198-224 | the mapping is a bijection between those seven formats and the TJPF values, in both directions |
| TurboJpegDec.TjPixelFormatOfYuvIsNone | src/gstturbojpegdec.c:216-222 | I420, YV12, YUY2, UYVY and YVYU map to -1 |
| TurboJpegDec.NegotiatedFormat | src/gstturbojpegdec.c:280-308 | the format handle_frame decodes to: the first of I420 and RGB the allowed caps accept, or I420 when there are no caps or neither is accepted; its properties are stated by `FirstInIsEarliest` and `NegotiatedFormatCases` |
| TurboJpegDec.FirstInIsEarliest | src/gstturbojpegdec.c:286-299 | the preference scan finds nothing iff no preference is accepted; otherwise it finds an accepted preference with none accepted before it |
| TurboJpegDec.NegotiatedFormatCases | src/gstturbojpegdec.c:280-308 | the chosen format is always I420 or RGB; it is RGB iff the allowed caps exist and accept RGB but not I420; I420 is chosen whenever it is accepted |
| TurboJpegDec.ChooseOutputFormat | src/gstturbojpegdec.c:280-308 | the loop with its `break` and the I420 fallback computes the negotiated format |
| TurboJpegDec.Step | src/gstturbojpegdec.c:242-394 | one handle_frame call as a function of the session state (max-errors, error count, output state) and the collaborators' answers, giving the new state, the outcome and the decode call; its properties are stated by the lemmas from `HeaderFailureCounted` to `DispatchByFormat` and by `UncountedFailureFlows` |
| TurboJpegDec.HeaderFailureCounted | src/gstturbojpegdec.c:261-269 | a header failure raises the count by one, changes nothing else and decodes nothing; it is fatal iff the new count reaches max-errors |
| TurboJpegDec.ZeroLimitFirstFailureFatal | src/gstturbojpegdec.c:264-266 | with max-errors 0 the first header failure returns GST_FLOW_ERROR |
| TurboJpegDec.DecodeFailureCounted | src/gstturbojpegdec.c:360-385 | a failed decode, on the YUV path or the RGB path, counts like a header failure |
| TurboJpegDec.SuccessResetsCounter | src/gstturbojpegdec.c:256-393 | a frame is finished iff the input map, the header, negotiation when needed, allocation, the output map and the decode all succeed; a finished frame leaves the count at 0 |
| TurboJpegDec.CounterChangesOnlyOnCountedEvents | src/gstturbojpegdec.c:256-393 | the count changes only by +1 on a counted failure or by a reset on success: it changes without a finished frame iff the header or the decode failed; input-map, negotiation, allocation and output-map failures leave it alone, and an input-map failure changes no state at all; max-errors never changes |
| TurboJpegDec.UncountedFailureFlows | src/gstturbojpegdec.c:311-342 | a refused renegotiation returns GST_FLOW_NOT_NEGOTIATED, a failed allocation returns the allocation's flow, and a failed output map returns GST_FLOW_ERROR; none of them decodes or changes the count |
| TurboJpegDec.RenegotiationRule | src/gstturbojpegdec.c:311-327 | the output state is replaced by (format, width, height) exactly when it was absent or differed, and the replacement stays even when negotiation fails; the flow a refused renegotiation returns is stated by `UncountedFailureFlows` |
| TurboJpegDec.SteadyStateSkipsNegotiation | src/gstturbojpegdec.c:311-327 | when the size and format are unchanged, the outcome does not depend on the negotiation answer and the output state is kept |
| TurboJpegDec.DispatchByFormat | src/gstturbojpegdec.c:347-386 | I420 decodes into plane slots 0, 1, 2; every other choice decodes one packed plane with TJPF_RGB |
| TurboJpegDec.Run | src/gstturbojpegdec.c:242-394 | handle_frame applied to a stream of frames: one outcome per frame, and max-errors never changes; `ConsecutiveFailures`, `ThresholdFailuresFatal`, `RecoveryBeforeThreshold` and `RunAppend` state its properties |
| TurboJpegDec.CountedFailureStep | src/gstturbojpegdec.c:261-269 | a header failure, or a decode failure after every earlier step succeeded, raises the count by one and is fatal iff the new count reaches max-errors; a header failure changes nothing else |
| TurboJpegDec.ConsecutiveFailures | src/gstturbojpegdec.c:261-385 | after k consecutive counted failures (header or decode) the count has grown by k, and failure i is fatal exactly when count + i + 1 reaches max-errors; header failures alone change nothing else |
| TurboJpegDec.ThresholdFailuresFatal | src/gstturbojpegdec.c:261-385 | starting from 0, of max-errors consecutive counted failures only the last is fatal |
| TurboJpegDec.RecoveryBeforeThreshold | src/gstturbojpegdec.c:261-391 | max-errors - 1 counted failures followed by a good frame are never fatal and leave the count at 0 |
| TurboJpegDec.RunAppend | src/gstturbojpegdec.c:242-394 | handling two batches of frames one after the other is the same as handling their concatenation |
| TurboJpegDec.Decoder.constructor | src/gstturbojpegdec.c:95-105 | no codec handle, max-errors 5, count 0, no input or output state |
| TurboJpegDec.Decoder.Start | src/gstturbojpegdec.c:157-172 | succeeds iff the codec handle was created, and then resets the count |
| TurboJpegDec.Decoder.Stop | src/gstturbojpegdec.c:174-196 | releases the handle and both states, and keeps max-errors and the count |
| TurboJpegDec.Decoder.SetFormat | src/gstturbojpegdec.c:226-239 | stores the input state and changes nothing else |
| TurboJpegDec.Decoder.SetMaxErrors | src/gstturbojpegdec.c:125-139 | the property takes the value, and nothing else changes |
| TurboJpegDec.Decoder.GetMaxErrors | src/gstturbojpegdec.c:141-155 | returns the current max-errors |
| TurboJpegDec.Decoder.HandleFrame | src/gstturbojpegdec.c:242-394 | the fields change as `Step` prescribes, the outcome and decode call are `Step`'s, and the returned flow matches the outcome |
| TurboJpegEnc.DefaultsValid | src/gstturbojpegenc.c:23-26 | the defaults (quality 80, 4:2:0) lie in the declared ranges |
| TurboJpegEnc.SetProperty | src/gstturbojpegenc.c:165-188 | set_property: replaces exactly the named setting; `SetThenGet`, `GetThenSet` and `SetPreservesValid` state its properties |
| TurboJpegEnc.GetProperty | src/gstturbojpegenc.c:190-213 | reading a property yields a value of that property |
| TurboJpegEnc.SetThenGet | src/gstturbojpegenc.c:165-213 | reading a property after setting it returns the value set, and the other three properties are unchanged |
| TurboJpegEnc.GetThenSet | src/gstturbojpegenc.c:165-213 | writing back a value just read changes nothing |
| TurboJpegEnc.SetPreservesValid | src/gstturbojpegenc.c:79-89 | values in the declared ranges keep the settings in range |
| TurboJpegEnc.EncTjPixelFormatOf | src/gstturbojpegenc.c:256-266 | TJPF_RGB for RGB and -1 for every other format, I420 included |
| TurboJpegEnc.Encode | src/gstturbojpegenc.c:315-421 | handle_frame as a function of the settings and the collaborators' answers: the codec parameters, the compression call and the flow; `ParamsMirrorSettings`, `DispatchByFormat` and `FailuresAreErrors` state its properties |
| TurboJpegEnc.ParamsMirrorSettings | src/gstturbojpegenc.c:338-359 | the codec receives the quality and subsampling; PROGRESSIVE is 1 iff progressive, OPTIMIZE is 1 iff optimized Huffman, and both are otherwise 0 |
| TurboJpegEnc.DispatchByFormat | src/gstturbojpegenc.c:361-402 | RGB compresses packed plane 0 as TJPF_RGB; other formats compress planes 0, 1, 2 |
| TurboJpegEnc.FailuresAreErrors | src/gstturbojpegenc.c:328-420 | a frame is finished iff the map, the compression and the allocation succeed; otherwise the result is GST_FLOW_ERROR, and with no mapped input no codec call is made |
| TurboJpegEnc.Encoder.constructor | src/gstturbojpegenc.c:122-136 | the default settings, with no handle, no input state, no JPEG buffer and no pool |
| TurboJpegEnc.Encoder.SetProp | src/gstturbojpegenc.c:165-188 | the settings become `SetProperty` of the old settings, and nothing else changes |
| TurboJpegEnc.Encoder.GetProp | src/gstturbojpegenc.c:190-213 | returns the property's current value |
| TurboJpegEnc.Encoder.Start | src/gstturbojpegenc.c:215-228 | succeeds iff the handle was created; the settings are kept |
| TurboJpegEnc.Encoder.Stop | src/gstturbojpegenc.c:230-254 | releases the handle, the input state and the pool; the JPEG buffer is not touched |
| TurboJpegEnc.Encoder.SetFormat | src/gstturbojpegenc.c:268-312 | stores the input state, drops the JPEG buffer and the pool, announces image/jpeg caps with the same size and frame rate, and returns the negotiation answer |
| TurboJpegEnc.Encoder.HandleFrame | src/gstturbojpegenc.c:315-421 | computes `Encode` of the current settings |
| PatternGenerator.Clamp | benchmarks/pattern_generator.cpp:5-8 | with min <= max, the result lies in [min, max], is the value itself when that value is inside, and is the nearer bound when it is outside |
| PatternGenerator.GradientPattern | benchmarks/pattern_generator.cpp:139-150 | gradientPattern with C division and the `uint8_t` cast; `GradientInRange` and `ScaledCoordinate` state its values |
| PatternGenerator.GradientInRange | benchmarks/pattern_generator.cpp:139-150 | inside the image, R, G and B are x*255/width, y*255/height and (x+y)*255/(width+height), each below 255; other channels are 128 |
| PatternGenerator.ScaledCoordinate | benchmarks/pattern_generator.cpp:142-146 | a coordinate below n, scaled by 255 with C division by n, is a byte below 255 |
| PatternGenerator.CheckerboardPattern | benchmarks/pattern_generator.cpp:152-166 | checkerboardPattern on 32-pixel squares; `CheckerboardAlternates` and `CheckerboardColours` state its properties |
| PatternGenerator.CheckerboardAlternates | benchmarks/pattern_generator.cpp:153-154 | moving 32 pixels right or down flips the colour of the square |
| PatternGenerator.CheckerboardColours | benchmarks/pattern_generator.cpp:152-166 | white squares are 255 on every channel; the others are 64, 128, 192 on R, G, B and 128 on the fourth channel |
| PatternGenerator.BandOf | benchmarks/pattern_generator.cpp:292-303 | the band of row y: top below height*2/3, middle below that plus height/12, bottom otherwise; `SmpteLayout` states it |
| PatternGenerator.BarCount | benchmarks/pattern_generator.cpp:260-290 | each band has as many bars as its colour table has rows |
| PatternGenerator.SmpteColorBarsAsWritten | benchmarks/pattern_generator.cpp:254-315 | smpteColorBarsPattern as written, with `None` where it divides by zero; `NarrowImageDividesByZero` and `SmpteAgreesWhenWide` state where that happens |
| PatternGenerator.SmpteColorBarsPattern | benchmarks/pattern_generator.cpp:254-315 | the colour bars with a bar width of at least 1; `BarIndex` keeps every index inside its table and `SmpteAgreesWhenWide` ties it to the source from width 8 up |
| PatternGenerator.NarrowImageDividesByZero | benchmarks/pattern_generator.cpp:297-301 | below 8 pixels of width, the top band divides by zero |
| PatternGenerator.BarIndex | benchmarks/pattern_generator.cpp:299-312 | the guarded bar index is always below the number of bars |
| PatternGenerator.BarIndexAgrees | benchmarks/pattern_generator.cpp:299-312 | when width >= bars, the source's bar index is defined and equals the guarded one |
| PatternGenerator.SmpteLayout | benchmarks/pattern_generator.cpp:292-314 | the top band is the upper two thirds, the middle band the next twelfth, and every bar index lands inside its band's colour table |
| PatternGenerator.SmpteAgreesWhenWide | benchmarks/pattern_generator.cpp:254-315 | from width 8 upward, the guarded colour bars equal the source's everywhere |
| PatternGenerator.ImageAt | benchmarks/pattern_generator.cpp:13-15 | byte (y*width + x)*bpp + c of the image exists and is byte c of pixel (x, y) |
| PatternGenerator.ImageLayout | benchmarks/pattern_generator.cpp:88-131 | byte (y*width + x)*bpp + c is channel c of pixel (x, y), and the fourth byte of an RGBA pixel is 255 |
| PatternGenerator.PatternImageLayout | benchmarks/pattern_generator.cpp:17-48 | the pattern switch of the three builders: in the RGB, gray and RGBA images of a pattern, byte (y*width + x)*bpp + c is the pattern's channel c at (x, y), and alpha is 255 |
| PatternGenerator.PixelSlice | benchmarks/pattern_generator.cpp:15-46 | the bpp bytes from (y*width + x)*bpp are exactly pixel (x, y) |
| PatternGenerator.Image | benchmarks/pattern_generator.cpp:11 | an image holds width*height*bpp bytes |
| PatternGenerator.PatternImage | benchmarks/pattern_generator.cpp:89 | a pattern's image holds width*height*bpp bytes |
| PatternGenerator.ConcatAt | benchmarks/pattern_generator.cpp:13-15 | in a row-major layout, byte j of block i follows all the blocks before it |
| PatternGenerator.ConcatLength | benchmarks/pattern_generator.cpp:11 | n blocks of size s take n*s bytes |
| PatternGenerator.PutPixel | benchmarks/pattern_generator.cpp:95-131 | the switch body writes pixel (x, y) at idx and leaves every byte before and after those bpp bytes alone |
| PatternGenerator.FillRow | benchmarks/pattern_generator.cpp:92-133 | the x loop extends the correctly written prefix of the buffer by one row and leaves the rows below untouched |
| PatternGenerator.FillImage | benchmarks/pattern_generator.cpp:91-136 | the y loop fills the whole buffer with the image |
| PatternGenerator.GenerateRGB | benchmarks/pattern_generator.cpp:10-53 | returns the pattern's 3-bytes-per-pixel image |
| PatternGenerator.GenerateGrayscale | benchmarks/pattern_generator.cpp:55-86 | returns the pattern's 1-byte-per-pixel image |
| PatternGenerator.GenerateRGBA | benchmarks/pattern_generator.cpp:88-137 | returns the pattern's 4-bytes-per-pixel image |
| PatternViewer.PatternName | benchmarks/pattern_viewer.cpp:86-106 | the name of each pattern used in file names; `NamesDifferEarly` and `ParseNameRoundTrip` state its properties |
| PatternViewer.ParsePatternType | benchmarks/pattern_viewer.cpp:161-172 | the pattern whose name the string is, or none; `ParseNameRoundTrip` states it in both directions |
| PatternViewer.ParseNameRoundTrip | benchmarks/pattern_viewer.cpp:161-172 | parsing a pattern's name gives that pattern; a string parses to p iff it is p's name |
| PatternViewer.NamesDifferEarly | benchmarks/pattern_viewer.cpp:86-106 | no two pattern names share their first two letters |
| PatternViewer.OutputName | benchmarks/pattern_viewer.cpp:112-132 | a file name begins with base + "_" and is as long as its parts |
| PatternViewer.OutputNamesDistinct | benchmarks/pattern_viewer.cpp:112-132 | two (pattern, kind) pairs give the same file name iff they are the same pair, so a run never overwrites its own files |
| PatternViewer.DropAlpha | benchmarks/pattern_viewer.cpp:121-130 | the RGBA data with every fourth byte left out; the `DropAlpha` lemmas and `StripAlpha` state its properties |
| PatternViewer.DropAlphaLength | benchmarks/pattern_viewer.cpp:121-130 | the strip produces 3 bytes for every 4 |
| PatternViewer.DropAlphaAt | benchmarks/pattern_viewer.cpp:121-130 | out[3k + c] == in[4k + c] for c < 3; the alpha bytes are skipped |
| PatternViewer.DropAlphaAppend | benchmarks/pattern_viewer.cpp:125-130 | stripping two pieces of whole pixels is stripping each |
| PatternViewer.DropAlphaConcat | benchmarks/pattern_viewer.cpp:125-130 | stripping a row-major run of blocks strips each block |
| PatternViewer.DropAlphaImage | benchmarks/pattern_viewer.cpp:120-133 | generateRGBA's image without alpha is generateRGB's image |
| PatternViewer.StripAlpha | benchmarks/pattern_viewer.cpp:122-130 | the loop over groups of four computes the strip |
| PatternViewer.GeneratePatternSet | benchmarks/pattern_viewer.cpp:85-134 | the RGB, gray and alpha-stripped RGBA files of a pattern, with their names; the third holds the same pixels as the first |
| PatternViewer.Atoi | benchmarks/pattern_viewer.cpp:189 | `std::atoi`: leading white space, an optional sign, then the longest run of digits, and 0 without digits; `AtoiDecimal` and `AtoiNoDigits` state its properties |
| PatternViewer.AtoiDecimal | benchmarks/pattern_viewer.cpp:189 | `std::atoi` reads back any decimal number, with or without a minus sign |
| PatternViewer.AtoiNoDigits | benchmarks/pattern_viewer.cpp:189 | a string that starts with no space, sign or digit reads as 0 |
| PatternViewer.DecimalValue | benchmarks/pattern_viewer.cpp:189 | the digits of a number's decimal form are worth that number |
| PatternViewer.Scan | benchmarks/pattern_viewer.cpp:182-215 | the argument loop from argument i with the settings so far, ending in an exit status or the settings to run with; `ScanValid`, `ScanExit`, `ScanErrorExits` and `ScanRejects` state its properties |
| PatternViewer.ParseArgs | benchmarks/pattern_viewer.cpp:174-215 | the argument loop computes `Scan` from argument 1 with the defaults |
| PatternViewer.ScanValid | benchmarks/pattern_viewer.cpp:188-205 | every run the loop lets through has a positive width and height and a quality of 1..100; the exits for bad values are stated by `ScanErrorExits` |
| PatternViewer.ScanExit | benchmarks/pattern_viewer.cpp:185-214 | the loop exits only with 0 or 1, and with 0 only if some argument is `--help` |
| PatternViewer.ScanErrorExits | benchmarks/pattern_viewer.cpp:184-205 | `--help` exits with 0; a width or height that reads as 0 or less exits with 1, and so does a quality outside 1..100 |
| PatternViewer.ScanRejects | benchmarks/pattern_viewer.cpp:188-214 | an option that needs a value but comes last, or an unknown argument, exits with 1 |
| PatternViewer.DefaultsWhenNoArguments | benchmarks/pattern_viewer.cpp:175-179 | with no arguments the run uses 512, 512, 85, "pattern" and no pattern, and these pass the checks |
| PatternViewer.PatternPlan | benchmarks/pattern_viewer.cpp:220-238 | the patterns main generates for the `-p` setting, or none when the name is unknown; `PatternPlanCovers` states its properties |
| PatternViewer.PatternPlanCovers | benchmarks/pattern_viewer.cpp:220-238 | with no `-p`, all six patterns, each once; with `-p NAME` exactly the named pattern; a name that is no pattern's yields no plan |
| PatternViewer.NarrowWidthReachesColourBars | benchmarks/pattern_viewer.cpp:188-229 | `-w 4` is accepted, all patterns are generated, and the colour bars as written divide by zero at width 4 |
| DecoderBenchmark.Strides | benchmarks/decoder_benchmark.cpp:47-49 | the Y stride is the width and the U and V strides are half the width rounded up; `Layout1080p` gives an instance |
| DecoderBenchmark.PlaneSizes | benchmarks/decoder_benchmark.cpp:51-53 | each plane's size is its stride times its rows; `PlanesTile`, `SampleInPlane` and `EvenSizeIsTwelveBitsPerPixel` state its properties |
| DecoderBenchmark.YuvSize | benchmarks/decoder_benchmark.cpp:55-56 | the buffer size is the sum of the three plane sizes; `PlanesTile` and `EvenSizeIsTwelveBitsPerPixel` state its properties |
| DecoderBenchmark.PlaneOffsets | benchmarks/decoder_benchmark.cpp:59-61 | Y at 0, U after Y, V after U; `PlanesTile` and `PixelSamplesInPlanes` state its properties |
| DecoderBenchmark.ChromaCovers | benchmarks/decoder_benchmark.cpp:48-53 | along a dimension of n pixels, pixel p's chroma sample p/2 lies inside the chroma stride and rows, and every chroma sample p serves pixel 2p, so the planes have no spare row or column |
| DecoderBenchmark.PlanesTile | benchmarks/decoder_benchmark.cpp:51-61 | Y starts at 0 and each plane ends where the next begins; V ends at the buffer length, so the planes are disjoint |
| DecoderBenchmark.SampleInPlane | benchmarks/decoder_benchmark.cpp:51-53 | a sample inside a plane's rows and stride lies within the plane's size |
| DecoderBenchmark.PixelSamplesInPlanes | benchmarks/decoder_benchmark.cpp:47-61 | the Y, U and V samples of every pixel fall inside their own plane |
| DecoderBenchmark.EvenSizeIsTwelveBitsPerPixel | benchmarks/decoder_benchmark.cpp:51-56 | with even dimensions the YUV buffer holds width*height*3/2 bytes |
| DecoderBenchmark.Layout1080p | benchmarks/decoder_benchmark.cpp:47-61 | at 1920x1080 the strides are 1920/960/960, the planes 2073600/518400/518400, and U and V start at 2073600 and 2592000 |
| DecoderBenchmark.Resize | benchmarks/decoder_benchmark.cpp:44 | `std::vector::resize` keeps the first n elements and pads with zeros |
| DecoderBenchmark.Benchmark.constructor | benchmarks/decoder_benchmark.cpp:11-17 | empty buffers and the two three-entry arrays |
| DecoderBenchmark.Benchmark.LayOutYuv | benchmarks/decoder_benchmark.cpp:47-61 | strides, YUV buffer size and plane offsets become the I420 layout |
| DecoderBenchmark.Benchmark.GenerateJpegTestData | benchmarks/decoder_benchmark.cpp:24-65 | compresses the colour-bar image with the given quality and subsampling; on failure only the JPEG buffer, now bufSize bytes long, may differ; on success it holds the JPEG and the RGB and YUV buffers are sized and laid out |

## Left out

- The floating-point patterns `sineWavePattern`, `mixedFrequencyPattern` and `photoRealisticPattern` (benchmarks/pattern_generator.cpp:168-252) compute in double precision. They are the parameter `FloatPatterns` of every image builder.
- The JPEG writers, file output and console output of the pattern viewer (`writeJPEG`, `writeGrayscaleJPEG`, `printUsage`) are left out. `GeneratePatternSet` returns the files it would hand to the writers, and the quality setting travels no further than `Config`.
- PatternViewer.Atoi: does not model overflow of a C `int`, which is undefined behaviour in `std::atoi`. The result is unbounded.
- PatternGenerator.GenerateRGB, PatternGenerator.GenerateGrayscale, PatternGenerator.GenerateRGBA: the sizes are `nat`. The 32-bit overflow of `width * height * bpp` and negative sizes are not modelled.
- PatternGenerator.FillImage: the buffer is a fresh `array<byte>` returned as a sequence. The `std::vector` and its copy on return are not modelled.
- The codec (`tj3Init`, `tj3DecompressHeader`, `tj3Decompress8`, `tj3DecompressToYUVPlanes8`, `tj3Set`, `tj3Compress8`, `tj3CompressFromYUVPlanes8`, `tjCompress2`, `tjBufSize`) and the GStreamer calls are left out. Their answers are inputs. The bytes they produce are not modelled, and neither are the frame strides they report.
- TurboJpegDec.NegotiatedFormat: the allowed caps are reduced to the set of formats downstream accepts. `gst_caps_can_intersect` on width and height is not modelled.
- TurboJpegDec.Decoder.HandleFrame: a counted failure returns GST_FLOW_OK without finishing or dropping the frame. The model records it as `Dropped`, and the frame that is never released is not modelled. Reading the subsampling and colourspace from the header (values that are never used) is left out, as is the buffer unmapping.
- TurboJpegEnc.Encoder.HandleFrame: failures of `tj3Set` are only logged and are not modelled. A NULL input state would make the source crash, and that is not modelled either. The output buffer's contents are not modelled.
- The element boilerplate is left out: class_init, pad templates, finalize and plugin registration.
- DecoderBenchmark.Benchmark.GenerateJpegTestData: the compressed image is assumed to fit the `tjBufSize` bound. The reallocation TurboJPEG would make if it did not fit is not modelled. A failure ends the method with `false` where the source throws. After a failure only the JPEG buffer's length is promised, because `tjCompress2` may already have written into it.
- DecoderBenchmark.Benchmark.GenerateJpegTestData, DecoderBenchmark.Benchmark.LayOutYuv: the sizes are `nat`. The source's `int` products `width * height * 3`, the plane sizes and the total YUV size can overflow for large images; that is not modelled.
- DecoderBenchmark.Benchmark.constructor: the failure of `tjInitCompress` and `tjInitDecompress`, and the exception it raises, are not modelled. The `width` and `height` fields, left uninitialised by the source, start at 0.
- PatternGenerator.PatternPixel, PatternGenerator.PatternImage, PatternGenerator.GenerateRGB, PatternGenerator.GenerateGrayscale, PatternGenerator.GenerateRGBA, PatternViewer.GeneratePatternSet, DecoderBenchmark.TestImage: the colour bars use the corrected bar width of "## Findings". For images narrower than 8 pixels (7 in the middle band, 6 in the bottom band) the source divides by zero instead of producing these bytes; `SmpteColorBarsAsWritten` models that behaviour.
- TurboJpegDec.Step: `error_count` and `max_errors` are C `gint` values, but the model's counter is an unbounded `int`. With `max-errors` near G_MAXINT, the source's `error_count++` would overflow; that is not modelled.
- The timed decode loops of the benchmark (`benchmarkDecodeToRGB`, `benchmarkDecodeToYUV`) and the Google Benchmark registrations are left out.

## Findings

| source | as written | input that shows it | evidently intended | confidence | as-written member | corrected member |
|---|---|---|---|---|---|---|
| benchmarks/pattern_generator.cpp:299-300 | `bar_width = width / 8` followed by `x / bar_width`; the viewer accepts any positive width (benchmarks/pattern_viewer.cpp:188-193) and draws the colour bars by default | `pattern_viewer -w 4`: at (0, 0) of a 4x512 image `bar_width` is 0, so the code divides by zero (the middle and bottom bands do the same below 7 and 6 pixels) | a bar width of at least 1, so that narrow images get bars of one pixel each | high, not executed | PatternGenerator.SmpteColorBarsAsWritten, PatternGenerator.NarrowImageDividesByZero, PatternViewer.NarrowWidthReachesColourBars | PatternGenerator.SmpteColorBarsPattern, PatternGenerator.BarIndex, PatternGenerator.SmpteAgreesWhenWide |
