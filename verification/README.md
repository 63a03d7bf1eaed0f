# MIPI camera pipeline: a verified model

The repository captures MIPI CSI-2 video on an FPGA and processes it beat by beat. Its reference models are
written as streaming machines: rotating line buffers, windows that are never reset, wrapping counters, a
shift register that runs across frames. Each is meant to equal a simple index formula. This project states
those formulas, proves the machines equal to them for streams of any length, and builds on them.

- **Pixel pipeline** (`Arithmetic`, `Bits`, `Pixels`, `Windows`, `Convolution`, `ConvolutionLaws`, `Rectifier`,
  `Separable`, `SeparableLaws`, `Dog`, `Cascade`, `Median`, `Prefilter`, `Dither` and the tone modules `Sums`, `Hermite`,
  `DitherTone`, `DitherBits`, `Lfsr`, `Orbits`, `RandomTone`, `Outputs`): the in-place window generator refines a delay line; the
  streaming methods equal closed forms; frame isolation, kernel embedding, separable against general,
  locality and range of cascades, the median network, exact tone and exact bits of dithering. `Outputs` says what
  every output lane is worth by inequalities on the exact sums, without the models' own rounding functions.
- **CSI-2 integrity** (`Crc`, `CrcDetection`, `CrcDoubleErrors`, `CrcOrder`, `HeaderEcc`, `HeaderDistance`,
  `HeaderReceiver`, `Packets`): burst, odd and two-bit error detection of the payload checksum, the minimum
  distance of the header code, exact bounded-distance decoding in the receiver, and the sender's packets.
- **PPM files** (`PpmHeader`, `PpmFile`): tokeniser, reader and writer, round trip and comments.
- **Register shadows** (`IdelayLatch`, `FilterRegisters`, `FilterChain`, `FilterChainLaws`, `FilterPictures`,
  `ChainHistory`, `ChainPictures`, `InitSteps`, `Coefficients`, `Options`): the latched control word, the filter-chain configurator down to the picture
  the fabric shows, the patched init table and its replay.

Classes and loops stand where the source keeps state: line buffers and window are arrays updated in place,
the driver objects are classes whose methods issue the writes in order. Each method is proved against a
specification function; the theorems are about those functions.

Beat k of a stream is P(k), and P(k) = 0 for k < 0. Python's `>>` is division by a power of two rounding
towards minus infinity, which Dafny's `/` is for a positive divisor.

## Where code and documentation part

The model follows the code.

- `dog_combine_golden` calls the k-th pair "the same spatial pixel" (golden.py:154). The window centres are
  one row and one column apart: `Dog.PairingIsShifted`, and for the edge filter `FilterPictures.EdgesShow`.
- The separable stage is documented as within 2 of the general one (golden.py:114). With unit gains it is
  never more than one below (`SeparableLaws.SepIsGeneralOrOneBelow`). Without saturation the bound is the sum
  of the vertical gains, and `SeparableLaws.NoSaturationIff` says for which taps that is; past the rails the two
  can be 128 apart (`SeparableLaws.SaturationParts`).
- `set_proc_op` and `set_settle_blank` promise "no APPLY edge" (v65_capture.py:411, 427). With a select of 8 or
  more their word has bit 24 set, so it can rise: `IdelayLatch.CallEffect` says when, and
  `IdelayLatch.RequestIsLost` what that costs; `IdelayLatch.TapsFollowIff` is exact over whole runs.
- `cascade` documents a stage given as None as identity (camera_repl.py:883). The registers keep the last
  kernel (`ChainHistory.CascadeKeepsUngivenStages`), so it is the identity if and only if the identity was
  there before (`ChainHistory.FirstStageLeftOut`, `SecondStageLeftOut`, `ThirdStageLeftOut`); after a blur it is
  not (`ChainHistory.BlurStaysInCascade`).
- `patch_init_steps` applies overrides "in place" (frame_height_stability.py:94), but only to the first entry
  of an address; a later entry wins. `InitSteps.PatchThenReplay` gives the exact condition.
- Register 0xFE45 is written by `set_edges` only, so it survives every later chain. That
  shows exactly for 3x3 kernels that weigh some beat negatively: `ChainHistory.ChainForgetsIff`, and
  `ChainHistory.MagnitudeCarriesOver` for whole pictures.
- The median pre-filter does not invert with its input on the first two rows and two beats, where the window
  holds padding: `Prefilter.InversionIff`.
- A comment line is skipped (image_io.py:31-33), but moves the raster of a gray file whose header gives a
  negative pixel count, as the slice end counts from the end of the file: `PpmFile.CommentsInFiles`.
- One tap or a row width of zero raise an index error in the source's own loops on the first beat, so the
  window models ask for two taps and a nonempty row. A zero-sized frame divides by zero in the dither model.

## Model

| member | source | states |
|---|---|---|
| Pixels.LanesRebuild | verification/cocotb/img_file_uvm/golden.py:32-34 | the three byte lanes of any integer, packed again, are its low 24 bits; a 24-bit pixel is rebuilt exactly |
| Pixels.RgbLanes | verification/cocotb/img_file_uvm/golden.py:32-34 | packing three bytes and reading a lane back are inverse |
| Windows.WindowGenerator.constructor | verification/cocotb/img_file_uvm/golden.py:52-55 | zeroed line buffers and window are the delay line before the first beat |
| Windows.WindowGenerator.Cascade | verification/cocotb/img_file_uvm/golden.py:57-60 | the read-before-write column cascade on the line buffers in place: what was read, and the whole new contents of every buffer |
| Windows.WindowGenerator.ShiftIn | verification/cocotb/img_file_uvm/golden.py:61-66 | the in-place window shift: every entry of the new window |
| Windows.WindowGenerator.Step | verification/cocotb/img_file_uvm/golden.py:56-68 | refinement of the rotating buffers by a delay line: after every beat of any stream, window tap (r, c) is the beat (taps-1-r) rows and (taps-1-c) columns back, line buffer i at column c is that column i rows up, both zero before the stream; holds across rows and frames with no reset |
| Windows.BufferStep | verification/cocotb/img_file_uvm/golden.py:57-60 | one beat moves only the current column, each buffer taking over the content of the one before it, as beat numbers |
| Windows.WindowEntry | verification/cocotb/img_file_uvm/golden.py:61-66 | the newest column of the window comes from the line buffers exactly where the delay line says |
| Windows.LineBufferEntry | verification/cocotb/img_file_uvm/golden.py:57-60 | the line-buffer half of the refinement step |
| Convolution.AccumulateRow | verification/cocotb/img_file_uvm/golden.py:87-90 | the inner tap loop over the live window adds one row of the index formula to the accumulator |
| Convolution.Accumulate | verification/cocotb/img_file_uvm/golden.py:85-90 | the double tap loop over the live window computes the weighted sum of delay-line values |
| Convolution.ConvBeat | verification/cocotb/img_file_uvm/golden.py:79-95 | one output beat read off the live window is the closed-form pixel, disabled case included |
| Convolution.ConvGolden | verification/cocotb/img_file_uvm/golden.py:73-96 | the streaming model equals the closed-form stream for every stream, kernel, shift, magnitude flag, enable and window size from two taps up |
| Convolution.CausalPixel | verification/cocotb/img_file_uvm/golden.py:73-96 | an output beat does not depend on later input beats |
| Outputs.ConvOutput | verification/cocotb/img_file_uvm/golden.py:91-94 | every lane of every convolved beat in numbers: the accumulator over 2^shift rounded down and held to a byte; rectified, the magnitude of a negative one rounded up |
| Outputs.RectifiedIsLarger | verification/cocotb/img_file_uvm/golden.py:91-94 | without a shift, rectifying shows the larger of what a kernel and its negation show |
| Outputs.RoundsOnce | verification/cocotb/img_file_uvm/golden.py:91-94 | those inequalities leave one value only |
| Outputs.RoundsUpOnce | verification/cocotb/img_file_uvm/golden.py:91-94 | the same for rounding up |
| ConvolutionLaws.FrameIsolation | verification/cocotb/img_file_uvm/golden.py:7-9 | in a stream of any number of frames, every output at row and column at least taps-1 of frame f is the plain 2-D convolution of frame f alone, although nothing is reset in between |
| ConvolutionLaws.PlaneSumIsWindowSum | verification/cocotb/img_file_uvm/golden.py:47-68 | the accumulator over the delay line is the accumulator over the frame as a plane |
| ConvolutionLaws.K3To5 | scripts/camera_repl.py:868-874 | the double loop places the nine coefficients in the centre of 25 |
| ConvolutionLaws.EmbeddingIsPureDelay | verification/cocotb/img_file_uvm/golden.py:73-96 | a 3x3 kernel embedded in a 5x5 one outputs at beat k what the 3x3 outputs at beat k-width-1, and zero before, for every stream, kernel, shift and magnitude flag |
| ConvolutionLaws.EmbeddedSum | scripts/v65_capture.py:291-295 | the same statement for the unnormalised accumulators of one channel |
| ConvolutionLaws.DisabledIsDelay | verification/cocotb/img_file_uvm/golden.py:80-82 | disabled, an odd window is a delay of taps/2 rows and columns |
| ConvolutionLaws.UnitKernelIsDelay | verification/cocotb/img_file_uvm/golden.py:83-95 | a kernel with a single tap of one is that tap of the delay line, for every window size and position |
| Separable.HorizontalPass | verification/cocotb/img_file_uvm/golden.py:118-126 | the shifting five-column window computes the requantised horizontal sums, zero-padded before the stream only |
| Separable.VerticalBeat | verification/cocotb/img_file_uvm/golden.py:131-142 | one column of the rotating line buffers: the output pixel and the whole new contents of the buffers |
| Separable.Conv5x5SepGolden | verification/cocotb/img_file_uvm/golden.py:101-144 | both passes with their buffers equal the closed form for every stream, kernels and shifts |
| Outputs.SepOutput | verification/cocotb/img_file_uvm/golden.py:118-142 | every lane of the separable stage in numbers: row sums over 2^hshift rounded down between -2048 and 2047, their vertical weighting over 2^vshift rounded down to a byte |
| SeparableLaws.SepVersusGeneral | verification/cocotb/axis_rgb_conv5x5_sep/test_axis_rgb_conv5x5_sep.py:214-216 | without 12-bit saturation the separable channel lies within [general - m, general + n] of the general 5x5 with the outer-product kernel, m and n bounding the positive and negative vertical gain, in every beat including borders |
| SeparableLaws.SepIsGeneralOrOneBelow | verification/cocotb/axis_rgb_conv5x5_sep/test_axis_rgb_conv5x5_sep.py:214-216 | nonnegative taps of at most unit gain per pass: the separable output is the general one or exactly one below it, sharper than the documented two |
| SeparableLaws.GaussianSplit | verification/cocotb/axis_rgb_conv5x5_sep/test_axis_rgb_conv5x5_sep.py:38-46 | the shipped Gaussian with shifts 4+4 against the general kernel with shift 8 |
| SeparableLaws.GaussIsBinomial | scripts/v65_capture.py:93-99 | the shipped 1-D kernel is the binomial row of four, the 5x5 one its outer square |
| SeparableLaws.OneBelowHappens | verification/cocotb/img_file_uvm/golden.py:120-142 | the difference of one does occur |
| SeparableLaws.NoSaturationIff | verification/cocotb/img_file_uvm/golden.py:124-125 | that premise is exact: the horizontal pass is the plain shifted row sum on every stream if and only if neither the positive nor the negative taps can reach a 12-bit rail |
| SeparableLaws.RailsIff | verification/cocotb/img_file_uvm/golden.py:125-125 | requantising leaves one shifted sum alone exactly within the rails, and gives -2048 below and 2047 above them |
| SeparableLaws.SaturationParts | verification/cocotb/img_file_uvm/golden.py:125-125 | every corner tap of 9 or more on a white beat: the separable channel stops at 127, the general one is at 143 or above and at 255 from tap 16 on |
| SeparableLaws.OuterSum | verification/cocotb/axis_rgb_conv5x5_sep/test_axis_rgb_conv5x5_sep.py:41-46 | the general accumulator of an outer-product kernel is the vertical weighting of exact row sums |
| SeparableLaws.HColumnIsQuotients | verification/cocotb/img_file_uvm/golden.py:124-125 | when no row sum can reach the 12-bit rails, the horizontal pass is the plain floor of the row sums |
| Dog.DogCombineGolden | verification/cocotb/img_file_uvm/golden.py:149-173 | the pairing loop equals the beat-by-beat combination, to the length of the shorter stream |
| Dog.DogBeat | verification/cocotb/img_file_uvm/golden.py:158-172 | the per-channel branches and packing of one pair |
| Dog.DogChainGolden | verification/cocotb/img_file_uvm/golden.py:176-183 | the composed chain equals the combination of the two closed-form branches |
| Dog.DogModes | verification/cocotb/img_file_uvm/golden.py:162-168 | modes 0 and 1 show one branch unchanged; mode 3 with equal weights does not depend on which branch is which |
| Outputs.DogOutput | verification/cocotb/img_file_uvm/golden.py:158-172 | every lane of the combiner in numbers, for any two streams: one branch in modes 0 and 1; the weighted sum in mode 3 and the weighted difference otherwise, over 2^shift rounded down, plus the offset, held to a byte |
| Dog.PairingIsShifted | verification/cocotb/img_file_uvm/golden.py:151-154 | the k-th outputs of the branches are not the same spatial pixel: with the same 3x3 filter in both, the chain subtracts the filter output one row and one column earlier, and reads the offset exactly where the two agree |
| Cascade.FlatDog | verification/cocotb/img_file_uvm/golden.py:149-173 | over a flat neighbourhood two unity-gain branches leave (alpha - beta) * v shifted, plus the offset; with equal weights exactly the offset |
| Cascade.CascadeGolden | verification/cocotb/axis_rgb_cascade/test_axis_rgb_cascade.py:303-306 | the composed golden calls are the three-stage cascade and its difference |
| Cascade.CascadeLocality | verification/cocotb/axis_rgb_cascade/test_axis_rgb_cascade.py:303-306 | after n stages with any kernels, beat k depends only on beats up to 4n rows and 4n columns back |
| Cascade.CascadeRange | verification/cocotb/axis_rgb_cascade/test_axis_rgb_cascade.py:303-306 | unity-gain nonnegative stages stay between the minimum and maximum of the inputs they can see |
| Cascade.ThirteenByThirteen | scripts/v65_capture.py:272-281 | the shipped cascade: the 13x13 output lies between the extremes of the 13x13 square |
| Cascade.StageLocality | verification/cocotb/img_file_uvm/golden.py:101-144 | one stage of either kind depends on the 5x5 square behind the beat |
| Cascade.StageRange | verification/cocotb/img_file_uvm/golden.py:101-144 | one unity-gain stage of either kind keeps the range |
| Cascade.ShippedIsUnity | verification/cocotb/axis_rgb_cascade/test_axis_rgb_cascade.py:45-54 | the shipped kernels have gain exactly one |
| Prefilter.PrefilterGolden | verification/cocotb/img_file_uvm/golden.py:214-239 | the windowed pre-filter equals its closed form for every op, stream and width |
| Prefilter.PrefilterBeat | verification/cocotb/img_file_uvm/golden.py:220-238 | one output beat read off the live window |
| Prefilter.GaussianAgreesWithConv | verification/cocotb/img_file_uvm/golden.py:221-230 | op 8 is the 3x3 convolution with the Gaussian kernel and shift 4, on every beat of every stream |
| Outputs.GaussianOutput | verification/cocotb/img_file_uvm/golden.py:221-230 | every lane of op 8 in numbers: the 1-2-1 weighting of the nine taps over sixteen, rounded down |
| Prefilter.PointOpsAgreeWithSlot | verification/cocotb/img_file_uvm/golden.py:237-238 | the other ops are the point slot of the beat one row and one column back, of the zero pixel before the stream |
| Prefilter.PointOpLanes | verification/cocotb/img_file_uvm/golden.py:188-206 | every point operation lane by lane, for any integer pixel and op code |
| Prefilter.PointOpTwice | verification/cocotb/img_file_uvm/golden.py:188-206 | inversion and the red-blue swap undo themselves, grey and single-channel ops are idempotent |
| Prefilter.MedianCommutesWithInversion | verification/cocotb/img_file_uvm/golden.py:231-236 | from the first full window on, op 9 commutes with inverting the whole stream |
| Prefilter.InversionIff | verification/cocotb/img_file_uvm/golden.py:231-236 | for every row width: op 9 commutes with inversion at beat k of every stream if and only if k is at least two rows and two beats into the stream |
| Prefilter.BorderBreaksInversion | verification/cocotb/img_file_uvm/golden.py:231-236 | for every width and every earlier beat, a stream for which it does not: the padding stays black |
| Prefilter.MajorityOverStreams | verification/cocotb/img_file_uvm/golden.py:231-236 | a value held by at least five of the nine taps is the output of op 9 |
| Median.MedianIsMiddleRank | verification/cocotb/img_file_uvm/golden.py:234-235 | the middle element of the sort is the one value with at most four below and at least five up to it |
| Median.SortedKeeps | verification/cocotb/img_file_uvm/golden.py:234-234 | the sort is ascending and a permutation |
| Median.MedianInverts | verification/cocotb/img_file_uvm/golden.py:234-235 | the median of the inverted nine is the inverted median |
| Median.MajorityWins | verification/cocotb/img_file_uvm/golden.py:234-235 | five equal values of nine decide the median |
| Median.NetworkIsMedian | rtl/img_proc/median9.sv:35-130 | the compare-exchange network computes the middle of the sort for all nine inputs |
| Dither.DitherGolden | verification/cocotb/img_file_uvm/golden.py:274-296 | the beat loop with the running register equals the closed form: register state by beat number, Bayer cell by position in the frame |
| Dither.CodeIsQuotient | verification/cocotb/img_file_uvm/golden.py:250-271 | up to four bits the top bits of the output are the truncated biased value, in both modes |
| Dither.CodeSurvivesIff | verification/cocotb/img_file_uvm/golden.py:267-271 | among the active depths 1..6, the smear leaves the code alone for all inputs exactly when the depth is at most 4 |
| Dither.SmearCorruptsFive | verification/cocotb/img_file_uvm/golden.py:267-271 | an input whose 5-bit code the smear changes |
| Dither.SmearCorruptsSix | verification/cocotb/img_file_uvm/golden.py:267-271 | an input whose 6-bit code the smear changes |
| Dither.SmearBelow | verification/cocotb/img_file_uvm/golden.py:268-270 | or-ing in a copy shifted by at least n leaves the top n bits of a byte |
| Dither.BlackStaysBlack | verification/cocotb/img_file_uvm/golden.py:250-271 | black stays black at every depth, bias and mode; depths 0 and 7 pass every value |
| Dither.WhiteStaysWhite | verification/cocotb/img_file_uvm/golden.py:263-271 | white stays white at every depth, although two of the smear shifts wrap |
| DitherBits.StreamBits | verification/cocotb/img_file_uvm/golden.py:250-296 | every bit of every dithered lane, depths 1 to 6, both modes: set exactly when a kept bit of the biased value is, at the same place or at a sum of the distances n, 2n mod 8 and 4n mod 8 above it |
| DitherBits.ChannelBits | verification/cocotb/img_file_uvm/golden.py:266-271 | the same for one channel value: distances 3, 6 and 4 at depth 3 |
| DitherBits.BiasedIs | verification/cocotb/img_file_uvm/golden.py:257-265 | the biased value at every depth: the register modulo the step in random mode, the cell's sixteenths of the step rounded down in ordered mode, saturated |
| DitherBits.BayerIsInterleaved | verification/cocotb/img_file_uvm/golden.py:242-247 | the matrix by the bits of row and column |
| DitherBits.StreamPasses | verification/cocotb/img_file_uvm/golden.py:251-252 | switched off, or at depth 0 or 7, every lane passes |
| DitherTone.CellOf | verification/cocotb/img_file_uvm/golden.py:289-291 | the Bayer cell of row r and column c of any frame |
| DitherTone.TileTone | verification/cocotb/img_file_uvm/golden.py:244-296 | ordered, depth 1..4: over every aligned 4x4 tile of one channel value inside a frame of any size the sixteen codes add up to min(16*(2^n-1), v >> (4-n)) |
| DitherTone.FrameTone | verification/cocotb/img_file_uvm/golden.py:274-296 | hence the total of a flat frame of any size in multiples of four |
| DitherTone.StreamTone | verification/cocotb/img_file_uvm/golden.py:274-296 | and of any number of frames |
| DitherTone.SixteenLevels | verification/cocotb/img_file_uvm/golden.py:257-266 | sixteen bias levels add up exactly, with saturation |
| Hermite.RunOfCodes | verification/cocotb/img_file_uvm/golden.py:257-266 | Hermite's identity with a ceiling: biases 0..m-1 spread a value over two neighbouring codes with its exact sum |
| RandomTone.RandomPeriodTone | verification/cocotb/img_file_uvm/golden.py:274-296 | random mode: over any 255 consecutive beats of one channel value, wherever they start, the codes add up to 2^n * min(v, 256 - 2^(8-n)) - (v >> (8-n)) |
| RandomTone.StatesWalk | verification/cocotb/img_file_uvm/golden.py:283-295 | any 255 consecutive register states visit 1..255 without repetition |
| Lfsr.NeverZero | verification/cocotb/img_file_uvm/golden.py:295-295 | the register is never zero |
| Lfsr.SameStateIffPeriodApart | verification/cocotb/img_file_uvm/golden.py:283-295 | two beats use the same state exactly when they are a multiple of 255 apart; the state depends on the beat number alone |
| Lfsr.FullPeriod | verification/cocotb/img_file_uvm/golden.py:295-295 | state(k+255) = state(k), and any 255 consecutive states are distinct, for every k |
| Lfsr.Recurrence | verification/cocotb/img_file_uvm/golden.py:283-295 | the states from the seed 0xA5 follow the recurrence of x^8 + x^4 + x^3 + x^2 + 1 |
| Bits.OrDisjoint | verification/cocotb/img_file_uvm/golden.py:41-41 | or-ing in a field above all set bits is addition |
| Coefficients.PackCoeffs | verification/cocotb/img_file_uvm/golden.py:37-42 | the shift-and-or loop computes the byte-positional value, because the bytes never overlap |
| Coefficients.PackConcat | verification/cocotb/axis_rgb_dog/test_axis_rgb_dog.py:57-62 | the concatenating loop, for every element width |
| Coefficients.FieldOfPacked | verification/cocotb/axis_rgb_dog/test_axis_rgb_dog.py:57-62 | for every width, field i of the packed word is the low bits of coefficient i |
| Coefficients.ByteOfPacked | verification/cocotb/img_file_uvm/golden.py:37-42 | byte i of the word is the low byte of coefficient i, for lists of any length |
| Coefficients.PackRoundTrip | verification/cocotb/img_file_uvm/golden.py:37-42 | sign-extending byte i gives a signed-8 coefficient back |
| Coefficients.PackedAlike | verification/cocotb/img_file_uvm/golden.py:37-42 | two lists of one length give equal words exactly when they agree field by field, for every width |
| Coefficients.ConcatIsReversed | verification/cocotb/axis_rgb_dog/test_axis_rgb_dog.py:57-66 | concatenation packs the reverse, for every width |
| Coefficients.PackingsAgree | verification/cocotb/axis_rgb_dog/test_axis_rgb_dog.py:57-66 | the two packings agree exactly on lists whose fields are palindromic, for every width |
| Crc.CrcUpdateByte | verification/cocotb/csi2_ddrloop_hdmi_640x480/test_csi2_ddrloop_hdmi_640x480.py:81-89 | the bit loop on the 16-bit word is eight steps of the bit-serial register over the byte in transmission order |
| Crc.PayloadCrc | verification/cocotb/csi2_ddrloop_hdmi_640x480/test_csi2_ddrloop_hdmi_640x480.py:132-136 | the loop over a payload of any length |
| Crc.Footer | verification/cocotb/csi2_ddrloop_hdmi_640x480/test_csi2_ddrloop_hdmi_640x480.py:147-148 | the footer bytes carry the register bits, low byte first, and spell the register |
| CrcDetection.SameCrcIffZeroDifference | verification/cocotb/csi2_ddrloop_hdmi_640x480/test_csi2_ddrloop_hdmi_640x480.py:81-89 | linearity: two equal-length packets share a checksum exactly when their difference leaves a zero register |
| CrcDetection.BurstsAreDetected | verification/cocotb/csi2_ddrloop_hdmi_640x480/test_csi2_ddrloop_hdmi_640x480.py:81-89 | two different packets whose differing bits lie within 16 consecutive transmitted bits never share a checksum |
| CrcDetection.OddErrorsAreDetected | verification/cocotb/csi2_ddrloop_hdmi_640x480/test_csi2_ddrloop_hdmi_640x480.py:81-89 | an odd number of wrong bits is always detected |
| CrcDetection.RunParity | verification/cocotb/csi2_ddrloop_hdmi_640x480/test_csi2_ddrloop_hdmi_640x480.py:81-89 | the parity of the register is the parity of everything sent through it |
| CrcDetection.FooterLeavesNothing | verification/cocotb/csi2_ddrloop_hdmi_640x480/test_csi2_ddrloop_hdmi_640x480.py:132-148 | payload followed by its footer leaves a zero register |
| CrcDetection.CorruptedPacketShows | verification/cocotb/csi2_ddrloop_hdmi_640x480/test_csi2_ddrloop_hdmi_640x480.py:132-148 | a received packet that differs from a sent one by such an error leaves a nonzero register |
| CrcDetection.ByteAsSent | verification/cocotb/csi2_ddrloop_hdmi_640x480/test_csi2_ddrloop_hdmi_640x480.py:81-89 | bytes go out in order, lowest bit first: each eight transmitted bits spell their byte |
| CrcDetection.ChecksumIsRemainder | verification/cocotb/csi2_ddrloop_hdmi_640x480/test_csi2_ddrloop_hdmi_640x480.py:132-136 | starting from all ones is starting from zero with the first sixteen sent bits complemented, for every payload of two bytes and more |
| CrcDoubleErrors.ShiftEquation | verification/cocotb/csi2_ddrloop_hdmi_640x480/test_csi2_ddrloop_hdmi_640x480.py:85-88 | sixteen data-free shifts equal the sum of the register and its images after 5 and 12 shifts, on every register |
| CrcDoubleErrors.ShiftsAreMul | verification/cocotb/csi2_ddrloop_hdmi_640x480/test_csi2_ddrloop_hdmi_640x480.py:85-88 | n shifts are multiplication by one fixed register, for every n |
| CrcDoubleErrors.AfterSum | verification/cocotb/csi2_ddrloop_hdmi_640x480/test_csi2_ddrloop_hdmi_640x480.py:85-88 | powers of the shift by multiplication: after a + b shifts is after a times after b |
| CrcOrder.TopPeriod | verification/cocotb/csi2_ddrloop_hdmi_640x480/test_csi2_ddrloop_hdmi_640x480.py:85-88 | a single register bit comes back after d data-free shifts exactly when 32767 divides d |
| CrcOrder.DoubleErrors | verification/cocotb/csi2_ddrloop_hdmi_640x480/test_csi2_ddrloop_hdmi_640x480.py:81-89 | packets differing in exactly two bits share a checksum exactly when those bits are a multiple of 32767 apart |
| CrcOrder.ShortPacketsSafe | verification/cocotb/csi2_ddrloop_hdmi_640x480/test_csi2_ddrloop_hdmi_640x480.py:132-148 | so up to 4095 bytes, more than a line with its footer, every two-bit error is detected |
| CrcOrder.ChecksumWordsDiffer | verification/cocotb/csi2_ddrloop_hdmi_640x480/test_csi2_ddrloop_hdmi_640x480.py:132-148 | the same on the transmitted 16-bit words: they differ for bursts and odd errors, and for two-bit errors exactly unless those are a multiple of 32767 apart |
| HeaderEcc.DataBitsAsSent | verification/cocotb/csi2_ddrloop_hdmi_640x480/test_csi2_ddrloop_hdmi_640x480.py:64-66 | bit i of the 24-bit data word is the i-th transmitted bit of identifier and word count |
| HeaderEcc.EccIsFold | verification/cocotb/csi2_ddrloop_hdmi_640x480/test_csi2_ddrloop_hdmi_640x480.py:64-73 | the six written-out parities are the sum of one column per set data bit |
| HeaderEcc.XoredIsGated | verification/cocotb/csi2_ddrloop_hdmi_640x480/test_csi2_ddrloop_hdmi_640x480.py:68-73 | a left-to-right exclusive or over an ascending pick list adds exactly the picked bits |
| HeaderDistance.EccIsLinear | verification/cocotb/csi2_ddrloop_hdmi_640x480/test_csi2_ddrloop_hdmi_640x480.py:64-73 | the check bits of a difference are the difference of the check bits |
| HeaderDistance.HeadersFarApart | verification/cocotb/csi2_ddrloop_hdmi_640x480/test_csi2_ddrloop_hdmi_640x480.py:64-78 | two distinct 24-bit headers give 30-bit words at Hamming distance at least 4 |
| HeaderDistance.FieldsFarApart | verification/cocotb/csi2_ddrloop_hdmi_640x480/test_csi2_ddrloop_hdmi_640x480.py:76-78 | the same for any difference in identifier or word count |
| HeaderDistance.ColumnsDiffer | verification/cocotb/csi2_ddrloop_hdmi_640x480/test_csi2_ddrloop_hdmi_640x480.py:68-73 | no two data bits have the same column |
| HeaderDistance.ColumnsInOrder | verification/cocotb/csi2_ddrloop_hdmi_640x480/test_csi2_ddrloop_hdmi_640x480.py:68-73 | the columns are the twenty words of three bits and then four of five, each group ascending, from 7 to 56 and from 31 to 59 |
| HeaderReceiver.CheckNumberIsValue | verification/cocotb/csi2_ddrloop_hdmi_640x480/test_csi2_ddrloop_hdmi_640x480.py:73-73 | check bit i weighs 2^i in the header byte |
| HeaderDistance.FoldParity | verification/cocotb/csi2_ddrloop_hdmi_640x480/test_csi2_ddrloop_hdmi_640x480.py:68-73 | the parity of the check bits is the parity of the data bits |
| HeaderReceiver.DecodeDataBit | rtl/mipi_rx/csi2_header_ecc.sv:44-58 | the search finds the data bit of a column and reports -1 exactly for non-columns |
| HeaderReceiver.OneHotWeight | rtl/mipi_rx/csi2_header_ecc.sv:60-62 | the bit trick recognises exactly the words with one bit set |
| HeaderReceiver.Correct | rtl/mipi_rx/csi2_header_ecc.sv:94-113 | bounded-distance decoding, exactly: no-error means distance 0, corrected means distance 1, uncorrectable means no header within distance 1; any header within distance 1 is the output |
| HeaderReceiver.DoubleErrorsLeaveNothingNear | rtl/mipi_rx/csi2_header_ecc.sv:94-113 | two wrong bits of a sent header: no header is within one bit, so the word is reported, never miscorrected |
| Packets.SendShortPacket | verification/cocotb/csi2_ddrloop_hdmi_640x480/test_csi2_ddrloop_hdmi_640x480.py:120-125 | the bytes and markers of a short packet; read off the bus, its header is a codeword with the data type modulo 64 and the data field |
| Packets.SendYuv422Line | verification/cocotb/csi2_ddrloop_hdmi_640x480/test_csi2_ddrloop_hdmi_640x480.py:127-149 | the bytes of a line packet in order with its footer, start marker only on the first and end marker only on the last beat; read off the bus, its header is a codeword, type 0x1E, and its word count is the number of bytes less six |
| Packets.PayloadAt | verification/cocotb/csi2_ddrloop_hdmi_640x480/test_csi2_ddrloop_hdmi_640x480.py:135-145 | the payload in numbers: 128 in every even byte, (640 * line + column) modulo 256 in every odd one |
| Packets.SentHeaderIsClean | verification/cocotb/csi2_ddrloop_hdmi_640x480/test_csi2_ddrloop_hdmi_640x480.py:76-78 | a sent header is a codeword for the receiver |
| Packets.SentLineIsClean | verification/cocotb/csi2_ddrloop_hdmi_640x480/test_csi2_ddrloop_hdmi_640x480.py:127-149 | behind the header the receiver's register ends at zero |
| PpmHeader.ReadPpmTokens | verification/cocotb/img_file_uvm/image_io.py:20-41 | the nested index loops equal the recursive reading of the remaining bytes, errors included, and end |
| PpmHeader.ScanShape | verification/cocotb/img_file_uvm/image_io.py:20-41 | success means exactly the asked number of nonempty whitespace-free tokens, none starting with #, within the data |
| PpmHeader.ByteClasses | verification/cocotb/img_file_uvm/image_io.py:27-33 | the tokeniser's byte classes as characters |
| PpmHeader.PauseSplits | verification/cocotb/img_file_uvm/image_io.py:25-39 | where the tokeniser stands between tokens, the reading splits into before and after |
| PpmHeader.CommentAtPause | verification/cocotb/img_file_uvm/image_io.py:31-33 | a comment line at such a place changes nothing but the place of the raster |
| PpmHeader.LineStartsPause | verification/cocotb/img_file_uvm/image_io.py:25-39 | every line start is such a place until the header is complete |
| PpmHeader.CommentLines | verification/cocotb/img_file_uvm/image_io.py:20-41 | a comment line at the start of any line: the same tokens always; the raster moves exactly when the header was not complete before |
| PpmFile.DecimalRoundTrip | verification/cocotb/img_file_uvm/image_io.py:49-49 | a printed integer of either sign is read back |
| PpmFile.NoLeadingZero | verification/cocotb/img_file_uvm/image_io.py:73-73 | printed numbers have no leading zero |
| PpmFile.ReadPpm | verification/cocotb/img_file_uvm/image_io.py:44-66 | the reader with its error order: truncated header, bad number, bad magic, bad maxval, short raster |
| PpmFile.WritePpm | verification/cocotb/img_file_uvm/image_io.py:69-73 | the growing byte array holds header text and three bytes per chosen pixel |
| PpmFile.HeaderScan | verification/cocotb/img_file_uvm/image_io.py:73-73 | the written header is read as its four tokens, whatever raster follows |
| PpmFile.WordsScan | verification/cocotb/img_file_uvm/image_io.py:20-41 | any four words in the writer's layout are read as those words, whatever follows |
| PpmFile.HeaderIsText | verification/cocotb/img_file_uvm/image_io.py:73-73 | what the writer puts before the raster, as text |
| PpmFile.HeaderVerdict | verification/cocotb/img_file_uvm/image_io.py:44-66 | every file that starts with four words so laid out: a number that does not parse is refused first, then any magic but P6 and P5, then any maxval but 255 |
| PpmFile.ColourFiles | verification/cocotb/img_file_uvm/image_io.py:56-60 | a colour file of any size: pixel k is 65536, 256 and 1 times its three bytes; a short raster is refused, a negative count has no pixels |
| PpmFile.RoundTrip | verification/cocotb/img_file_uvm/image_io.py:44-73 | reading what was written, for all sizes and pixel lists: the first w*h pixels modulo 2^24 with w and h, a refusal when the list is shorter, no pixels when w*h is negative |
| PpmFile.GrayFiles | verification/cocotb/img_file_uvm/image_io.py:61-65 | a gray file of any size: its first w*h bytes, each in all three lanes; a short raster is refused, trailing bytes are ignored, and a negative count reads the bytes its slice end leaves |
| PpmFile.CommentsInFiles | verification/cocotb/img_file_uvm/image_io.py:44-66 | a comment line at any place of the header where the tokeniser pauses leaves the reading unchanged, errors included, if and only if no negative gray count reaches into the file, before or after |
| PpmFile.CommentChangesTail | verification/cocotb/img_file_uvm/image_io.py:61-65 | the files for which it does not: every gray header whose negative count ends its slice inside the file, with any comment after the magic number |
| IdelayLatch.IdelayControl.Set | scripts/v65_capture.py:375-380 | three ordered writes after updating the shadow: the whole new state |
| IdelayLatch.IdelayControl.SetClk | scripts/v65_capture.py:382-385 | the clock tap through the same three writes |
| IdelayLatch.IdelayControl.LongAsLine | scripts/v65_capture.py:387-397 | one write that carries only the data taps and bit 26 |
| IdelayLatch.IdelayControl.SettleBlank | scripts/v65_capture.py:399-412 | one level write |
| IdelayLatch.IdelayControl.ProcOp | scripts/v65_capture.py:414-428 | one level write of a 4-bit select whose top bit is the apply bit |
| IdelayLatch.IdelayControl.BoundaryTrace | scripts/v65_capture.py:430-446 | one write that reuses the clock-tap field |
| IdelayLatch.IdelayControl.WriteGpio | rtl/prototype/mipi_to_hdmi_probe_top.sv:393-399 | the fabric latches the taps exactly when bit 24 rises |
| IdelayLatch.BitOfPack | scripts/v65_capture.py:365-371 | bit 24 of a shadow word is set exactly for selects of 8 and more |
| IdelayLatch.TapsOfPack | scripts/v65_capture.py:365-368 | the tap fields are read back from the packed word |
| IdelayLatch.LevelsOfPack | scripts/v65_capture.py:365-368 | so are select, blank, freeze and bit 26, and the word has 31 bits |
| IdelayLatch.CallEffect | scripts/v65_capture.py:358-446 | every call on every state: shadow, word left behind, and whether the taps follow the shadow |
| IdelayLatch.WordFields | scripts/v65_capture.py:358-446 | every field of the 31-bit word any call leaves: taps, clock tap or trace index, select, freeze, bit 26 and blank |
| IdelayLatch.RequestIsMet | scripts/v65_capture.py:375-380 | a tap request takes effect exactly if the select is below 8 or bit 24 was clear or the taps were already those |
| IdelayLatch.RequestIsLost | scripts/v65_capture.py:414-428 | after selecting 8 or more a request is lost: the taps stay what they were, or become what was asked for before |
| IdelayLatch.TapsFollowIff | scripts/v65_capture.py:358-446 | from any state over any run of the six calls: the latched data taps are the last ones requested if and only if a call from that request on made bit 24 rise, or the taps held those values already |
| IdelayLatch.ClkFollowsIff | scripts/v65_capture.py:375-385 | the same for the clock tap and the calls that request it |
| IdelayLatch.LostRequestLoadsLater | scripts/v65_capture.py:387-412 | a request lost under a high select is loaded by a later level write, once a word without a select field has cleared bit 24 |
| IdelayLatch.TapsFollowRequests | scripts/v65_capture.py:358-446 | after a first request that loads, over any run of all six calls in which each request can make bit 24 rise, the latched data taps are the last ones requested |
| IdelayLatch.PointOpsAreCareful | scripts/v65_capture.py:414-428 | runs that only select operations below 8 meet that condition |
| IdelayLatch.PointRunsKeepRequests | scripts/v65_capture.py:358-428 | so while only operations below 8 are selected, the latched data taps are the last ones requested, over any run |
| IdelayLatch.LevelFieldsFollow | scripts/v65_capture.py:358-446 | after any run the blank and select fields equal their last writes, unless the last call leaves them out of its word; then they read zero |
| FilterRegisters.ShownDependsOnReads | rtl/prototype/mipi_to_hdmi_probe_top.sv:1800-1979 | the picture is a function of the registers the select reads and of the magnitude bits it uses, for every stream |
| FilterRegisters.SameSelected | rtl/prototype/mipi_to_hdmi_probe_top.sv:1924-1939 | the final mux depends on the banks of its select only |
| FilterChain.Cam.LoadBank | scripts/v65_capture.py:213-233 | a bank written register by register, everything else kept |
| FilterChain.Cam.SetConvKernel | scripts/v65_capture.py:193-202 | nine coefficients cut or padded, then the shift |
| FilterChain.Cam.SetConv5Kernel | scripts/v65_capture.py:227-233 | 25 coefficients cut or padded, then the shift |
| FilterChain.Cam.SetDogParams | scripts/v65_capture.py:235-243 | the five combiner registers |
| FilterChain.Cam.SetDog | scripts/v65_capture.py:245-253 | both kernels, the combiner, select 12 |
| FilterChain.Cam.SetSepKernel | scripts/v65_capture.py:261-270 | one separable stage |
| FilterChain.Cam.SetBlur | scripts/v65_capture.py:272-281 | the cascade for a blur size and its select |
| FilterChain.Cam.SetEdges | scripts/v65_capture.py:283-300 | both Sobel kernels, the summing combiner, the magnitude register, select 12 |
| FilterChain.Cam.SetDither | scripts/v65_capture.py:325-332 | the packed dither byte |
| FilterChain.Cam.ApplyMid | scripts/camera_repl.py:788-813 | the middle filter by kind; unknown ones change nothing |
| FilterChain.Cam.Chain | scripts/camera_repl.py:815-850 | success and the whole board of a chain call, including what a raising call leaves half configured |
| FilterChain.Cam.Cascade | scripts/camera_repl.py:876-889 | the given stages are loaded, the tap selected |
| FilterChainLaws.ChainDecides | scripts/camera_repl.py:815-850 | from any two boards the same call succeeds alike and leaves the same select, the same registers that select reads and the same 0xFE46..0xFE4A; 0xFE45 is 3 after an edge filter and what it was otherwise |
| FilterPictures.KernelIsConv | scripts/v65_capture.py:193-202 | any loaded 3x3 kernel, cut or padded to nine and read back as signed bytes, shows the golden 3x3 convolution with it, rectified exactly when the magnitude bit was left set |
| FilterPictures.DogShows | scripts/v65_capture.py:245-253 | what set_dog shows on every board: the combiner over its two convolutions, each rectified as the board was left |
| FilterPictures.DogIsChain | scripts/v65_capture.py:245-253 | that is the golden DoG chain with its kernels and parameters on every board whose magnitude bits are clear or do not meet a negative tap |
| FilterPictures.CascadeShows | scripts/camera_repl.py:876-889 | a fully given cascade on every board: its stages in series, tapped after one, two or three of them, the first one rectified as the board was left |
| FilterPictures.CascadeIsSeries | scripts/camera_repl.py:876-889 | those are the given stages when the 5x5 magnitude bit is clear or the first stage has no negative tap |
| FilterPictures.DitherFields | scripts/v65_capture.py:330-332 | the dither byte is read back by the fabric field by field |
| FilterPictures.BlurIsCascade | scripts/v65_capture.py:272-281 | what set_blur shows is the shipped cascade with one, two or three stages, on every board and stream |
| FilterPictures.BlurReach | scripts/v65_capture.py:272-281 | so a blurred beat depends on the 4, 8 or 12 rows and columns behind it only |
| FilterPictures.BlurRange | scripts/v65_capture.py:272-281 | and stays between the extremes of that square |
| FilterPictures.EdgesShow | scripts/v65_capture.py:283-300 | what the edge filter shows in numbers: in every lane the magnitude of the horizontal Sobel difference at a beat plus that of the vertical one a row and a column before, each over 2^shift and held to a byte, their sum over 2^csh |
| FilterPictures.EdgesPair | scripts/v65_capture.py:283-300 | the same as a combination of the two golden gradients |
| Outputs.SobelSums | scripts/v65_capture.py:283-300 | the two Sobel accumulators as differences of columns and of rows |
| FilterPictures.BankOf | rtl/prototype/mipi_to_hdmi_probe_top.sv:208-214 | every coefficient list is read back as the low bytes, sign-extended |
| Rectifier.RectifierIdle | verification/cocotb/img_file_uvm/golden.py:91-93 | without a negative tap the magnitude flag does nothing, for every window size, shift and stream |
| Rectifier.SumIsFootprint | verification/cocotb/img_file_uvm/golden.py:83-90 | the accumulator is a weighting of the newest beats by distance, taps that meet in one beat on narrow rows added up |
| Rectifier.MagnitudeMatters | verification/cocotb/img_file_uvm/golden.py:91-93 | for every window size, kernel, shift and row width: the magnitude flag makes no difference to any stream if and only if no beat has a negative total weight |
| Rectifier.WideWeights | verification/cocotb/img_file_uvm/golden.py:83-93 | on rows at least as wide as the window that is: no tap is negative |
| ChainHistory.ChainForgetsTheBoard | scripts/camera_repl.py:815-850 | the same picture of every stream from any two boards, for every chain without a middle filter, every edge filter, blur and DoG preset, and every kernel that weighs no beat negatively |
| ChainHistory.ChainForgetsIff | scripts/camera_repl.py:815-850 | and only for those: the selected stream of a chain is the same from all boards for all streams if and only if its 3x3 kernel, if it loads one, weighs no beat negatively |
| ChainHistory.KernelChainShows | scripts/camera_repl.py:793-809 | a kernel chain shows its convolution, rectified exactly as the board was left |
| ChainHistory.CascadeForgetsIff | scripts/camera_repl.py:876-889 | a fully given cascade tapped after its first stage shows the same from all boards for all streams if and only if that stage weighs no beat negatively |
| ChainHistory.CascadeForgets | scripts/camera_repl.py:876-889 | then it shows the same at every tap |
| ChainHistory.MagnitudeCarriesOver | scripts/v65_capture.py:299-300 | a plain kernel chain shows the same pictures before and after any edge filter if and only if its kernel weighs no beat negatively |
| ChainHistory.CascadeKeepsUngivenStages | scripts/camera_repl.py:876-889 | a stage given as None keeps every register it had, kernel and shifts |
| ChainHistory.FirstStageLeftOut | scripts/camera_repl.py:882-884 | leaving out the first stage is loading the identity if and only if the identity was loaded already |
| ChainHistory.SecondStageLeftOut | scripts/camera_repl.py:882-884 | the same for the second stage |
| ChainHistory.ThirdStageLeftOut | scripts/camera_repl.py:882-884 | the same for the third stage |
| ChainHistory.BlurStaysInCascade | scripts/camera_repl.py:876-889 | after a 13x13 blur a cascade that gives only its first stage still shows the Gaussians behind it, for every board, first stage and tap |
| ChainHistory.LeftOutShows | scripts/camera_repl.py:876-889 | a stream on which that picture differs from the one with identities behind it |
| ChainHistory.ThroughIsDelay | scripts/v65_capture.py:264-270 | the separable identity is a delay of two rows and two columns |
| ChainPictures.ChainPicture | scripts/camera_repl.py:815-850 | the whole picture of every chain that succeeds, on every board: the stream pre-filtered by the pre request with the pre threshold, the golden middle filter, the post request with the post threshold, the dither asked for |
| ChainPictures.ChainRegisters | scripts/camera_repl.py:828-850 | each threshold, code and the dither byte in its register |
| ChainPictures.ChainAccepts | scripts/camera_repl.py:815-850 | a chain succeeds exactly if both operations and the middle filter are known |
| ChainPictures.RefusedRegisters | scripts/camera_repl.py:828-838 | what a refused chain leaves: everything, or everything but the four registers before the middle filter |
| ChainPictures.NoMiddleDelays | scripts/camera_repl.py:831-835 | without a middle filter the pre-filtered pixels come through a row and a column later, by either way |
| ChainPictures.PointNames | scripts/camera_repl.py:72-75 | every name of a point operation with its code, and no others |
| ChainPictures.PreNames | scripts/camera_repl.py:115-124 | the pre-filter understands the same and four names of its denoisers |
| ChainPictures.CodesAsNumbers | scripts/camera_repl.py:105-124 | operation numbers are cut to three and to four bits |
| ChainPictures.LowerReads | scripts/camera_repl.py:112-124 | names are read without regard to case |
| ChainPictures.KernelTable | scripts/v65_capture.py:81-91 | the named kernels and no others |
| ChainPictures.DitherAsked | scripts/camera_repl.py:840-848 | what a chain asks of the ditherer is what its fields say |
| ChainPictures.RandomModes | scripts/v65_capture.py:330-330 | which mode names are random |
| InitSteps.PatchInitSteps | scripts/frame_height_stability.py:93-104 | the pass with a shrinking dictionary and the insertion loop |
| InitSteps.Replay | scripts/v65_capture.py:644-659 | the replay loop leaves the fold of all writes, the stream-on write appended when there is no marker |
| InitSteps.ReplayStreams | scripts/v65_capture.py:644-659 | every replay leaves 2 in register 0x3008, unless an entry writes it itself |
| InitSteps.PatchedAt | scripts/frame_height_stability.py:93-104 | what a replay of the patched list leaves at every address, for every list and overrides |
| InitSteps.PatchThenReplay | scripts/frame_height_stability.py:93-104 | patch then replay is the original result overwritten by the overrides, exactly when nothing after an override's landing place leaves another value there |
| InitSteps.PatchingSingleWrites | scripts/frame_height_stability.py:93-104 | it is, when every overridden address is written at most once and is not the stream-on register |
| InitSteps.StreamOnWins | scripts/frame_height_stability.py:102-103 | with the marker last, an override of the stream-on register sticks exactly if it is the stream-on value |
| InitSteps.PatchKeepsOrder | scripts/frame_height_stability.py:93-104 | untouched entries keep their order and number, a final marker stays final |

## Left out

- Convolution.ConvGolden: one-tap windows, for which the source raises an index error on the first beat.
- PpmFile.DecimalRoundTrip: Python's limit of 4300 digits when converting numbers.
- HeaderReceiver.Correct: the two pipeline registers, valid signals and saturating counters around the decoder.
- IdelayLatch.IdelayControl.WriteGpio: the synchroniser flops; every GPIO write is held long enough to be seen as one word. The load counter is not modelled.
- FilterRegisters.ShownDependsOnReads: valid and frame markers, FIFO depth and pipeline latency; the fabric's stages are the golden stream models with a general row width.
- FilterChain.Cam.Chain: names outside ASCII, tuples with missing entries or of other Python types, and printing. The select is the last one set; how it reaches the fabric through the shared control word is `IdelayLatch.LevelFieldsFollow`.
- InitSteps.Replay: write acknowledgements, delays, and the reset writes before the list.
- The rest of the receive path in SystemVerilog (byte clock crossing, frame state, packet parser, AXI bridges): hardware whose sources need a cycle model of their own.
- Board input and output, DMA set-up, SCCB polling, signal handlers and sleeps.
- Banding, sharpness and seam statistics: floating-point heuristics with tuned thresholds.
- PNG output, zlib, image down-scaling and decimation.
- The bit-slip and frame-lines control words: packed shadow words without the overlapping field.
- Python integers stand for themselves; 24-bit pixels and 8-bit registers are reduced where the source masks.
