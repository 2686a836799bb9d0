# Audio-responsive lighting engine, modelled in Dafny

This project models the control core of an audio-responsive lighting
engine. The engine turns audio frames into features: RMS, low/mid/high
band ratios, spectral flux and onset density. From those it:

- classifies the show mode (IDLE, SPEECH, MUSIC) with a hold-time
  hysteresis;
- detects highlights and drops with a cooldown and hysteresis;
- maps the result to a pixel output and brightness;
- frames pixel data into MTU-sized UDP packets and DMX data into Art-Net
  ArtDmx packets.

The project also models:

- a failsafe manager that dims the output in stages while sending fails;
- the real-time loop (`run_realtime`) and the always-on daemon loop;
- the installation-config validator: DMX address ranges, overlaps and the
  512-channel total, plus pixel counts.

One module per source file:

| module | file | form |
|---|---|---|
| `Modes` | mode_manager.dfy | score and step functions; class `ModeManager` |
| `HighlightDetection` | highlight.dfy | score and step functions; class `HighlightDetector` |
| `Failsafe` | failsafe.dfy | `Degrade` function; class `FailsafeManager` |
| `PixelSender` | udp_pixel_sender.dfy | header codec, chunking, `SendFrame` and the dummy-pattern loop |
| `ArtNet` | artnet_sender.dfy | packet function and parser, `BuildPacket`, `SendDmx`, `GenerateDummyDmx` |
| `Features` | features.dfy | framing, band ratios, flux, onset density; `ComputeRms`, `ExtractFeatures` |
| `Realtime` | realtime.dfy | brightness scaling in place, the output table, `run_realtime` |
| `Daemon` | daemon.dfy | class `DaemonLoop` |
| `InstallConfig` | config_manager.dfy | the validators as loops, each proved equal to an error-list function |
| `Wrappers`, `Numeric`, `Bytes` | wrappers.dfy, numeric.dfy, bytes.dfy | `Option`/`Result`, truncation and clamping, byte packing |

Where the source changes state in place, the model does too. The mode
manager, highlight detector, failsafe manager and daemon loop are classes
whose methods update their fields. The brightness scaling rewrites an
`array`. The loops keep the loop variables of the source. Each method is
proved against a specification function, and the properties are lemmas
about those functions.

src/engine/daemon.py keeps its own copies of three helpers of
src/engine/main.py: `_adjust_payload_intensity` (daemon.py:35-57),
`_frame_features_from_buffer` (daemon.py:60-103) and the mapping and
send of `_send_pixel_frame` (daemon.py:176-204). They behave the same
as the main.py versions, so the daemon loop calls the single model of
each: `Realtime.AdjustPayloadIntensity`, `Realtime.FrameFeaturesFromBuffer`
and `Realtime.SendPixelFrame`.

Time is always an explicit parameter. A `None` timer is `Option<real>`.
The FFT magnitude of a bin and the square root are function parameters:
magnitudes are non-negative reals, and nothing is assumed about either
function beyond its type.

Where the code and its own comments disagree, the model follows the code:

- The pixel packet header `!HHIHH` is 12 bytes (2 + 2 + 4 + 2 + 2), not
  10, so a chunk holds at most `max(1, mtu - 12)` bytes.
- The quiet feature set of tests/test_highlight.py scores 0.073 in exact
  arithmetic, not the 0.067 its comment gives. It is still below the drop
  threshold, so the test's outcome is unchanged.
- `spectral_flux` of a spectrogram with no frames is `[0.0]`, one value.
- `frames_from_signal` can return a hop of 0, when the frame is one
  sample. `compute_rms` then divides by zero on any signal holding a
  frame. The model returns an error there.

## Model

| member | source | states |
|---|---|---|
| Modes.ScoreModes | src/engine/mode_manager.py:27-53 | every score is non-negative; IDLE scores (exactly 1.0) iff rms is below the silence threshold; SPEECH scores iff mid exceeds its share and onset is below the music density, with 1 + the mid excess; MUSIC scores iff the onset and high rules fire or high > 0.5, with 1 + onset excess, plus 0.5 for high > 0.5 |
| Modes.Candidate | src/engine/mode_manager.py:19-60 | the candidate has the highest score and strictly beats every mode declared before it, so ties go to the first of IDLE, SPEECH, MUSIC |
| Modes.CandidateIsTheFirstMaximum | src/engine/mode_manager.py:60 | the two properties of the candidate determine it uniquely |
| Modes.NoRuleGivesIdle | src/engine/mode_manager.py:35-60 | when no rule fires all scores are 0.0 and the candidate is IDLE |
| Modes.Step | src/engine/mode_manager.py:55-77 | one update records the candidate; the timer is kept iff the candidate is unchanged, otherwise it is set to now; the active mode changes only to the candidate and only once it has persisted for the hold time, and always does then |
| Modes.NewCandidateRestartsTimer | src/engine/mode_manager.py:62-69 | a new candidate equal to the active mode restarts the timer and keeps the mode |
| Modes.NewCandidateNeverSwitchesAtOnce | src/engine/mode_manager.py:62-75 | with a positive hold, a candidate that has just appeared never switches the mode in that update |
| Modes.CandidateSinceZeroNeverSwitches | src/engine/mode_manager.py:73 | a candidate recorded at time 0.0 is read as unset by `or now`, so with a positive hold it never becomes active and the state does not change |
| Modes.RunSnoc | src/engine/mode_manager.py:55-77 | feeding updates in order: one more update is one more step on the state reached so far |
| Modes.TimerMarksStreakStart | src/engine/mode_manager.py:62-65 | from the initial state, the recorded timer is the time of the first update of the current unbroken run of equal candidates |
| Modes.SwitchRequiresHeldCandidate | src/engine/mode_manager.py:67-75 | whenever the active mode changes, every update since some update j had the new mode as its candidate, and update j lies at least the hold time before now |
| Modes.IdleToMusicAfterHold | tests/test_mode_manager.py:10-32 | MUSIC-scoring features every 0.06 s with hold 0.2 reach MUSIC by the fifth update |
| Modes.InterruptedMusicDoesNotSwitch | tests/test_mode_manager.py:35-58 | MUSIC, silence, MUSIC with hold 0.5 never reach MUSIC |
| Modes.ModeManager.constructor | src/engine/mode_manager.py:21-25 | a new manager is IDLE with no candidate and no timer |
| Modes.ModeManager.Update | src/engine/mode_manager.py:55-77 | the new state is one `Step` from the old state and the returned mode is the active mode |
| HighlightDetection.Divisor | src/engine/highlight.py:58-60 | the divisor is positive: the weight sum when positive, 1.0 otherwise |
| HighlightDetection.ComputeScore | src/engine/highlight.py:32-63 | the score lies in 0..1 and is the weighted blend of the normalised rms (cap 0.1), band_high and normalised flux (cap 0.5), clamped to 0..1 |
| HighlightDetection.BlendIsWeightedAverage | src/engine/highlight.py:45-63 | with non-negative weights of positive sum and features in range, the clamp never acts: the score is the weighted average itself |
| HighlightDetection.WeightedAverageInUnit | src/engine/highlight.py:62 | a weighted average of values in 0..1 with non-negative weights lies in 0..1 |
| HighlightDetection.TransitionTable | src/engine/highlight.py:92-119 | IDLE goes to HIGHLIGHT iff score >= threshold, to DROP iff below both thresholds; HIGHLIGHT leaves iff score < threshold - hysteresis, to DROP iff also below the drop threshold; DROP goes to IDLE iff score >= drop threshold + hysteresis and never to HIGHLIGHT |
| HighlightDetection.HysteresisKeepsState | src/engine/highlight.py:92-119 | with non-negative hysteresis a score that enters HIGHLIGHT (or DROP) from IDLE keeps the detector there |
| HighlightDetection.Step | src/engine/highlight.py:65-121 | outside MUSIC the state becomes IDLE and the timer is untouched; in MUSIC within the cooldown the state is kept, after it the state follows the transition table; a change stamps the timer with now, otherwise the timer becomes `last or now` |
| HighlightDetection.TransitionAtZeroFreezesState | src/engine/highlight.py:83-102 | a transition recorded at time 0.0 reads as unset, so with a positive cooldown the state never changes in MUSIC |
| HighlightDetection.RunSnoc | src/engine/highlight.py:65-121 | feeding updates in order: one more update is one more step on the state reached so far |
| HighlightDetection.TestScores | tests/test_highlight.py:12-70 | the loud and quiet feature sets of the tests score 0.77 and 0.073 |
| HighlightDetection.TestRuns | tests/test_highlight.py:12-70 | three MUSIC updates at the loud features reach HIGHLIGHT and at the quiet features reach DROP |
| HighlightDetection.HighlightDetector.constructor | src/engine/highlight.py:27-30 | a new detector is IDLE with no transition time |
| HighlightDetection.HighlightDetector.Update | src/engine/highlight.py:65-121 | the new state is one `Step` from the old state and the returned state is the detector's state |
| Failsafe.StateValueInjective | src/engine/failsafe.py:26-31 | the four state names are distinct, so `get_state_str` identifies the state |
| Failsafe.Degrade | src/engine/failsafe.py:103-120 | a recorded failure never reads as NORMAL |
| Failsafe.DegradeWindows | src/engine/failsafe.py:103-120 | LAST_HOLD at full intensity iff elapsed < hold; DIM_AMBIENT at the ambient level iff hold <= elapsed < hold + ambient; DIM_BLACK iff elapsed is past both |
| Failsafe.BlackRampBounds | src/engine/failsafe.py:112-116 | inside the black window progress lies in [0, 1), so the intensity lies between 0 and the ambient level, and above 0 when that level is positive |
| Failsafe.BlackRampFalls | src/engine/failsafe.py:112-116 | inside the black window the intensity never rises with time, and falls strictly when the ambient level is positive |
| Failsafe.NoRampWithoutBlackWindow | src/engine/failsafe.py:112-120 | with black_seconds <= 0 the manager goes straight from ambient to DIM_BLACK at 0.0 |
| Failsafe.IntensityNeverRises | src/engine/failsafe.py:99-120 | with an ambient level in 0..1, the intensity during one failure never rises as time passes |
| Failsafe.TestReadings | tests/test_failsafe.py:16-42 | with the default timings the readings at 0.5 s and 1.49 s are LAST_HOLD at 1.0 and at 1.6 s DIM_AMBIENT at 0.2 |
| Failsafe.FailsafeManager.constructor | src/engine/failsafe.py:43-67 | a new manager is NORMAL with no failure and no recovery time |
| Failsafe.FailsafeManager.OnFrameSent | src/engine/failsafe.py:69-80 | a success during a failure clears it, stamps the recovery time and returns to NORMAL; otherwise nothing changes |
| Failsafe.FailsafeManager.OnFrameFail | src/engine/failsafe.py:82-87 | the first failure is stamped and enters LAST_HOLD; later failures change nothing |
| Failsafe.FailsafeManager.GetIntensity | src/engine/failsafe.py:89-120 | full intensity and NORMAL without a failure; otherwise the reading (state and intensity) is `Degrade` of the time since the failure |
| Failsafe.FailsafeManager.GetStateStr | src/engine/failsafe.py:122-124 | the returned string is the state's value |
| Failsafe.RecoveryScenario | tests/test_failsafe.py:33-56 | a failure followed by a success reads NORMAL at 1.0; a lone failure reads DIM_AMBIENT at 0.2 after 1.6 s |
| PixelSender.EncodeHeader | src/engine/outputs/udp_pixel_sender.py:23-26 | the `!HHIHH` header is 12 bytes |
| PixelSender.HeaderRoundTrip | src/engine/outputs/udp_pixel_sender.py:92 | decoding an encoded header gives back every field reduced to its width (the `& 0xFFFF` / `& 0xFFFFFFFF` masks) |
| PixelSender.ChunkPayload | src/engine/outputs/udp_pixel_sender.py:49-52 | the per-packet size is mtu - 12, at least 1; the chunk count is the ceiling of length over it: enough chunks to cover the payload and no spare one |
| PixelSender.EmptyPayloadHasNoChunks | src/engine/outputs/udp_pixel_sender.py:49-52 | an empty payload yields no chunk, so `send_frame` sends nothing |
| PixelSender.ChunkSizes | src/engine/outputs/udp_pixel_sender.py:89-100 | every chunk is non-empty and at most the per-packet size, every chunk but the last is full, and no packet exceeds header plus that size |
| PixelSender.PacketHeaders | src/engine/outputs/udp_pixel_sender.py:65-92 | every packet's header decodes to the output id, len/3 pixels, the frame index, its own chunk index and the chunk total, each masked to its width |
| PixelSender.ReassemblyRestoresPayload | src/engine/outputs/udp_pixel_sender.py:84-100 | concatenating the packet bodies in order gives back the pixel payload exactly |
| PixelSender.SendFrame | src/engine/outputs/udp_pixel_sender.py:54-100 | with the socket as a sink, the datagrams sent are exactly the frame's packets in chunk order |
| PixelSender.GradientRange | src/engine/outputs/udp_pixel_sender.py:114 | the gradient level lies in 0..255, is 0 at the first pixel and 255 at the last when there are two or more |
| PixelSender.DummyPixelData | src/engine/outputs/udp_pixel_sender.py:112-125 | the dummy frame has three bytes per pixel |
| PixelSender.GenerateDummyPixelData | src/engine/outputs/udp_pixel_sender.py:102-125 | the generated data has three bytes per pixel (none for a negative count) and pixel i is the dummy pixel for its channel |
| PixelSender.PixelsMakeFrame | src/engine/outputs/udp_pixel_sender.py:112-125 | three bytes per pixel, each the dummy pixel, make the dummy frame |
| PixelSender.DummyPixelColours | src/engine/outputs/udp_pixel_sender.py:113-124 | channel 0, 1 and 2 give a red, green and blue gradient; any other channel gives (t, 255 - t, 2t mod 256) |
| ArtNet.ArtDmxPacket | src/engine/outputs/artnet_sender.py:38-66 | the packet is the 18-byte header, starting with "Art-Net\0", followed by the data unchanged |
| ArtNet.ParseArtDmx | src/engine/outputs/artnet_sender.py:38-66 | a packet that parses has its data after the 18-byte header, a 16-bit universe and a data length below 65536 |
| ArtNet.ParseBuilt | src/engine/outputs/artnet_sender.py:52-65 | parsing a built packet gives back the universe (masked to 16 bits) and the data |
| ArtNet.BuiltFromParsed | src/engine/outputs/artnet_sender.py:52-65 | rebuilding a parsed packet gives back the packet byte for byte: opcode 0x5000 little-endian, protocol version 14 big-endian, zero sequence and physical, universe little-endian, length big-endian |
| ArtNet.BuildPacket | src/engine/outputs/artnet_sender.py:38-66 | `_build_packet` appends the fields in order and yields the ArtDmx packet |
| ArtNet.PaddedDmx | src/engine/outputs/artnet_sender.py:78-89 | no data gives 512 zero bytes; more than 512 bytes is a ValueError; otherwise the data is kept and zero-padded to 512 bytes |
| ArtNet.SendDmx | src/engine/outputs/artnet_sender.py:68-108 | the send fails iff more than 512 bytes are given; otherwise the datagram is 530 bytes, declares length 512, and parses to the masked universe and the padded data |
| ArtNet.GenerateDummyDmx | src/engine/outputs/artnet_sender.py:110-116 | 512 channels, channel i at 3i mod 256 |
| Features.FramesFromSignal | src/engine/features.py:19-26 | the frame length is the truncated sample count when positive, else 1024; the hop is its truncated count when positive, else half the frame; the hop is 0 exactly when its count truncates to 0 and the frame is one sample |
| Features.HopCanBeZero | src/engine/features.py:19-26 | at 10 Hz a 100 ms frame is one sample and the 50 ms hop falls back to 1 // 2 = 0 |
| Features.DefaultFraming | src/engine/features.py:19-26 | the default 100 ms / 50 ms framing at 44.1 kHz is 4410 / 2205 samples |
| Features.Total | src/engine/features.py:48 | a frame total of magnitudes is non-negative |
| Features.BandSum | src/engine/features.py:43-51 | a band sum is non-negative |
| Features.BandsWithinTotal | src/engine/features.py:43-51 | the three bands are disjoint, so together they hold at most the frame total |
| Features.BandRatioBounds | src/engine/features.py:48-57 | every band ratio lies in 0..1 and the three ratios add up to at most 1 |
| Features.BandEnergy | src/engine/features.py:35-57 | exactly the keys low, mid and high, each with one ratio per frame, each in 0..1 |
| Features.SumSquares | src/engine/features.py:71 | a sum of squares is non-negative |
| Features.RmsFrameCount | src/engine/features.py:63 | there is always at least one RMS frame |
| Features.ComputeRms | src/engine/features.py:60-72 | a zero hop with a whole frame available is a division by zero; otherwise one value per frame, value i being the non-negative RMS of the frame at i * hop (0.0 for an empty frame) |
| Features.RmsOfFrame | src/engine/features.py:66-71 | one frame's value is its RMS, 0.0 when the slice is empty, and is non-negative |
| Features.RmsFrames | src/engine/features.py:64-71 | the loop writes one value per frame into a zeroed array: value i is the non-negative RMS of the frame starting at i * hop (0.0 when that frame is empty) |
| Features.RmsFramesAreWhole | src/engine/features.py:63-67 | when the signal holds a whole frame, every RMS frame lies inside the signal and one more frame would not fit |
| Features.ShortSignalIsOneFrame | src/engine/features.py:63-71 | a signal shorter than a frame gives one value, the RMS of the whole signal |
| Features.Normalize | src/engine/features.py:78 | normalising keeps the number of bins |
| Features.PositiveRise | src/engine/features.py:79-81 | the summed positive change is non-negative |
| Features.NoRiseWithoutChange | src/engine/features.py:79-81 | an unchanged frame has no rise |
| Features.SpectralFlux | src/engine/features.py:75-84 | the flux has one value per frame (one for no frame), the first is 0.0, and all are non-negative |
| Features.SteadySoundHasNoFlux | src/engine/features.py:75-84 | two identical consecutive frames give zero flux |
| Features.FluxOfPrefix | src/engine/features.py:124-128 | the flux of the first m frames is the first m values of the full flux, so cutting before or after `spectral_flux` agrees |
| Features.CountAbove | src/engine/features.py:91-92 | the onset count is at most the number of frames |
| Features.CountAboveExtremes | src/engine/features.py:91-92 | the count is 0 iff no value exceeds the threshold and equals the length iff every value does |
| Features.OnsetDensity | src/engine/features.py:87-92 | the density lies in 0..1 and is 0.0 for an empty flux |
| Features.OnsetDensityExtremes | src/engine/features.py:87-92 | the density is 0 iff no value exceeds the threshold, and 1 iff the flux is non-empty and every value exceeds it |
| Features.AnalysisParameters | src/engine/features.py:105-109 | with no keys set the framing is 100 ms / 50 ms and the FFT size 2048 |
| Features.FrameTimes | src/engine/features.py:114 | frame time i is i times the hop duration |
| Features.TruncateBands | src/engine/features.py:122-123 | every band series is cut to its first n values and the keys are unchanged |
| Features.ExtractFeatures | src/engine/features.py:95-140 | fails iff the sample rate is 0 or the hop is 0 with a whole frame; otherwise every series has the common length min(RMS frames, spectrogram frames), the times are multiples of hop/sr, the rms, band and flux series are those of the helpers cut to that length, and the onset density is taken on the cut flux |
| Realtime.ScaleByte | src/engine/main.py:46-48 | a scaled byte never exceeds the original, is 0 at intensity 0 and unchanged at intensity 1 |
| Realtime.ScaleBytes | src/engine/main.py:44-52 | scaling keeps the length and scales every byte on its own |
| Realtime.ScalingDarkens | src/engine/main.py:40-52 | scaling never brightens a byte, intensity 0 blacks the payload out and intensity 1 leaves it unchanged |
| Realtime.AdjustPayloadIntensity | src/engine/main.py:30-52 | a clamped intensity of 1.0 returns the input itself; below that, a length that is not a multiple of 3 is an IndexError, otherwise every byte becomes floor(byte * clamped intensity) |
| Realtime.ScaleTriple | src/engine/main.py:46-51 | the three bytes at i are scaled in place and every other byte is unchanged |
| Realtime.OutputFor | src/engine/main.py:242-256 | the intensity of every output lies in (0, 1] |
| Realtime.OutputTable | src/engine/main.py:243-256 | IDLE, SPEECH and MUSIC go to channels 3, 1 and 0 respectively; outside MUSIC the highlight state is ignored; full intensity exactly for MUSIC with HIGHLIGHT; DROP is the dimmest MUSIC output |
| Realtime.OneDatagramPerFrame | src/engine/main.py:258-260 | a 64-pixel frame fits one datagram of header plus 192 bytes |
| Realtime.SendPixelFrame | src/engine/main.py:242-260 | the frame sent is the mapped channel's dummy pattern at the mapped intensity, to port 9000 + channel with output id channel + 1 and the given frame index |
| Realtime.SpectrumOf | src/engine/main.py:144-147 | a frame of n samples has n // 2 + 1 frequency bins |
| Realtime.StreamingFlux | src/engine/main.py:158-164 | the flux is non-negative, and exactly 0 with no previous spectrum or one of another shape |
| Realtime.UnchangedSpectrumHasNoFlux | src/engine/main.py:161-164 | a spectrum identical to the previous one has no flux |
| Realtime.FrameFeaturesFromBuffer | src/engine/main.py:129-167 | an empty frame gives all-zero features and no spectrum; a non-empty frame at sample rate 0 is a division by zero; otherwise the spectrum is carried out, the flux is the streaming flux against the previous one, and every feature is in range (band ratios in 0..1, rms and flux non-negative) |
| Realtime.LiveMusicNeedsHighBand | src/engine/main.py:233-238 | live frames carry no onset density, so with a non-negative density setting MUSIC can be the candidate only through band_high > 0.5 |
| Realtime.SamplesPerFrame | src/engine/main.py:189 | the frame size is at least 1: the configured size when set, else max(1, sr // fps) |
| Realtime.TickCount | src/engine/main.py:226-266 | at least one tick |
| Realtime.TickCountCovers | src/engine/main.py:226-266 | the ticks cover the signal and all but the last start inside it |
| Realtime.PaddedFrame | src/engine/main.py:226-231 | each tick's frame has exactly spf samples: the signal where it exists, zeros past its end |
| Realtime.ModeTrace | src/engine/main.py:237-238 | the mode manager gets one call per tick |
| Realtime.HighlightTrace | src/engine/main.py:237-239 | the highlight detector gets one call per tick |
| Realtime.RunFollowsExtend | src/engine/main.py:218-266 | appending a tick keeps the account of the earlier ticks |
| Realtime.TickIndexBounds | src/engine/main.py:262-266 | a tick whose frame starts inside the signal is within the tick count, and one starting at or past the end is not |
| Realtime.PaddedFrameOfSlice | src/engine/main.py:226-231 | slicing up to min(pos + spf, n) and padding with zeros is `PaddedFrame` |
| Realtime.ReadFrame | src/engine/main.py:226-231 | the frame read at a position is `PaddedFrame` |
| Realtime.NextTick | src/engine/main.py:262-266 | the read position after tick k is min((k + 1) * spf, n), and the loop stops exactly after the last tick |
| Realtime.RecordTick | src/engine/main.py:218-266 | a tick computed from the run so far extends the run: the traces and the spectrum carried forward gain that tick |
| Realtime.RunRealtime | src/engine/main.py:170-275 | no audio is a ValueError and a zero frame rate a division by zero; a zero sample rate fails iff a tick starts; otherwise the count returned is the number of ticks, at most max(1, ceil(n / spf)) and fewer only when the time limit passed, and every tick read its frame, computed its features from the previous spectrum, fed both classifiers in order and sent frame number k for the resulting mode and highlight state |
| Realtime.RunLoop | src/engine/main.py:209-275 | the loop fails iff a tick starts with sample rate 0; otherwise it runs every tick up to the end of the signal unless the time limit stops it earlier, and each tick follows from the ones before |
| Realtime.RunRealtimeAsWritten | src/engine/main.py:185-239 | as written: no audio is a ValueError and a zero frame rate a division by zero; a run cut off by the time limit before its first tick returns 0; otherwise the first tick raises, with sample rate 0 in the feature computation and else on the missing `update_highlight`, after the mode manager has taken its step on the first frame's features |
| Realtime.CompareRuns | src/engine/main.py:218-239 | on the same inputs, the loop as written raises on `update_highlight` exactly when the corrected loop completes at least one tick, and returns 0 exactly when the corrected loop completes none |
| Realtime.LoopTestFraming | tests/test_realtime_loop.py:8-13 | at 44.1 kHz and 30 fps with no configured frame size a frame is 1470 samples, and one second of audio is 30 ticks |
| Realtime.AsWrittenFailsTheLoopTest | tests/test_realtime_loop.py:6-17 | on the test's input (one second at 44.1 kHz, 30 fps, one-second limit, first tick inside the limit) the loop as written raises, while the corrected loop returns between 1 and 30 frames |
| Daemon.ReloadStep | src/engine/daemon.py:165-174 | the remembered mtime changes only to an existing mtime that differs from it and only when the load succeeds |
| Daemon.ReloadBookkeeping | src/engine/daemon.py:165-174 | a successful load is not repeated for the same mtime, a failed one is retried at the next check, a missing mtime changes nothing, and a due successful load records the new mtime |
| Daemon.ReloadAfterLoaded | src/engine/daemon.py:165-174 | after a run of checks the remembered mtime is the initial one or the mtime of some successful load, and it is the last check's mtime when that check found an mtime and loaded it |
| Daemon.AdvanceIsLinear | src/engine/daemon.py:242 | adding spf/sr once per tick for k ticks moves `demo_time` by k * spf/sr |
| Daemon.FirstSignal | src/engine/daemon.py:154-157 | the first tick during which a signal arrives |
| Daemon.DaemonLoop.constructor | src/engine/daemon.py:109-150 | a new loop runs, with fps and samples per frame resolved from the arguments and settings, zero counters, no spectrum and no remembered mtime |
| Daemon.DaemonLoop.SignalHandler | src/engine/daemon.py:154-157 | the handler clears `running` and changes nothing else |
| Daemon.DaemonLoop.CheckConfigReload | src/engine/daemon.py:165-174 | a load is attempted exactly when due, the remembered mtime follows `ReloadStep`, and nothing else changes |
| Daemon.DaemonLoop.Tick | src/engine/daemon.py:220-242 | fails iff the sample rate is 0, then changing no counter, tick or mtime; otherwise frames grows by 1, `demo_time` by spf/sr, the mtime follows `ReloadStep`, and the tick recorded is the one derived from the input and the earlier ticks: features from its samples and the previous spectrum, one step of each classifier, and the mapped frame, which is the frame sent, with the old frame count as index |
| Daemon.DaemonLoop.Respond | src/engine/daemon.py:232-242 | after the features: the mode manager then the highlight detector take one step on them, the mapped frame is sent with the old frame count as index, the tick is recorded with the mode and highlight state it produced, `frames` grows by 1 and `demo_time` by spf/sr, and the loop invariant still holds |
| Daemon.DaemonLoop.Pass | src/engine/daemon.py:219-248 | one pass succeeds iff the sample rate is non-zero; then it advances the counters once, records the tick derived from its input, moves the mtime by `ReloadStep`, and stops the loop exactly when a signal arrives during it; a failed pass changes nothing |
| Daemon.DaemonLoop.Run | src/engine/daemon.py:206-257 | returns 1 iff it started running with sample rate 0, changing no counter, tick or mtime; otherwise 0, after exactly one tick per input up to and including the one during which the signal arrives: tick k took the samples and time of input k and is the tick derived from it and the earlier ticks (features, mode, highlight state, frame sent), `demo_time` advanced by spf/sr per tick, and the mtime is `ReloadStep` folded over those inputs |
| Daemon.DaemonLoop.PassAt | src/engine/daemon.py:219-248 | a pass over input i, after ticks derived from inputs 0..i-1, leaves ticks derived from inputs 0..i, the mtime folded over them and `demo_time` one step further; a failed pass changes nothing |
| Daemon.DaemonLoop.DerivedConsumed | src/engine/daemon.py:219-242 | ticks derived from a sequence of inputs took, one each and in order, the samples and time of those inputs |
| Daemon.DaemonLoop.RunAsWritten | src/engine/daemon.py:218-252 | as written, a running loop always returns 1 with `frames` and `demo_time` unchanged, after the mode manager and the config bookkeeping have already taken their first step |
| Daemon.NewDaemonLoop | src/engine/daemon.py:115-147 | building a loop fails iff the frame rate resolves to 0 (`1.0 / self.fps`); otherwise the new loop runs with no frames and the resolved samples per frame |
| InstallConfig.Range | src/web/config_manager.py:51 | `range(lo, hi)`: hi - lo consecutive values from lo, none when hi <= lo |
| InstallConfig.Addresses | src/web/config_manager.py:40-51 | a fixture claims exactly the addresses from its start up to min(513, start + channels) |
| InstallConfig.ClaimProperties | src/web/config_manager.py:52-56 | claiming keeps the used list duplicate-free and holds exactly the old and new addresses; each address is either claimed or reported once, every error names one of the addresses, and there is no error iff all addresses are distinct |
| InstallConfig.ClaimFresh | src/web/config_manager.py:52-56 | addresses distinct from each other and from the used list are all claimed in order without an error |
| InstallConfig.StartErrors | src/web/config_manager.py:47-48 | a range error exactly when the start lies outside 1..512 |
| InstallConfig.ScanProperties | src/web/config_manager.py:38-58 | after the fixture loop the used list holds each claimed address once, and no error was reported iff every start is in range and no address is claimed twice |
| InstallConfig.FixturesValidIff | src/web/config_manager.py:34-63 | the fixtures pass exactly when every start is in 1..512, no address is claimed twice and the channel total is at most 512 |
| InstallConfig.ValidateFixtures | src/web/config_manager.py:34-63 | the loop's error list is `FixtureErrors`: range and duplicate errors fixture by fixture, then the overflow error |
| InstallConfig.ClaimAddresses | src/web/config_manager.py:52-56 | the inner loop appends the duplicate errors and extends the used list as `Claim` does |
| InstallConfig.PixelErrorsAppend | src/web/config_manager.py:66-72 | each pixel entry contributes on its own, so errors of a concatenation concatenate |
| InstallConfig.PixelErrorsSingle | src/web/config_manager.py:69-71 | one entry gives one error exactly when its count is outside 0..1024 |
| InstallConfig.PixelsValidIff | src/web/config_manager.py:66-72 | no pixel error iff every count is in 0..1024, and never more errors than entries |
| InstallConfig.ValidatePixels | src/web/config_manager.py:66-72 | the loop's error list is `PixelErrors` |
| InstallConfig.ValidateConfig | src/web/config_manager.py:75-96 | the errors are the stage error, then the fixture errors or the fixture shape error, then the pixel errors or the pixel shape error; ok iff there is none |
| InstallConfig.ConfigValidIff | src/web/config_manager.py:75-96 | a config is accepted exactly when the stage is a dict or absent, both lists are lists (or falsy), the fixtures pass and every pixel count is in range; a bad stage is the first error |
| InstallConfig.OverlapIsReported | tests/test_install_config.py:4-13 | fixtures at 1 (3 channels) and 2 (1 channel) give exactly one duplicate error, for address 2 |
| InstallConfig.OverflowIsReported | tests/test_install_config.py:16-26 | two 300-channel fixtures at 1 and 301 give exactly the overflow error for 600 channels |
| InstallConfig.PixelCountIsReported | tests/test_install_config.py:29-33 | a pixel count of 2000 gives exactly one range error |
| Numeric.Trunc | src/engine/features.py:20-21 | Python `int()` of a float truncates toward zero |
| Numeric.TruncDiv | src/engine/main.py:189 | integer quotient truncated toward zero; the floor quotient for a non-negative numerator over a positive divisor |
| Numeric.TruncDivIsTrunc | src/engine/main.py:189 | `int(sr / fps)` taken exactly is the truncated integer quotient |
| Numeric.Clamp01 | src/engine/main.py:40 | `max(0.0, min(1.0, x))` lies in 0..1, keeps values inside, and maps values below and above to the ends |
| Numeric.OrNow | src/engine/mode_manager.py:73 | `t or now` keeps a recorded time unless it is missing or exactly 0.0 |
| Bytes.BE16RoundTrip | src/engine/outputs/udp_pixel_sender.py:92 | a big-endian 16-bit field reads back as the value packed |
| Bytes.BE32RoundTrip | src/engine/outputs/udp_pixel_sender.py:92 | a big-endian 32-bit field reads back as the value packed |
| Bytes.LE16RoundTrip | src/engine/outputs/artnet_sender.py:54-60 | a little-endian 16-bit field reads back as the value packed |
| Bytes.ReadBE16Inverse | src/engine/outputs/artnet_sender.py:56-63 | any two bytes are the big-endian packing of the value they read as |
| Bytes.ReadLE16Inverse | src/engine/outputs/artnet_sender.py:54-60 | any two bytes are the little-endian packing of the value they read as |
| Bytes.Zeros | src/engine/outputs/artnet_sender.py:79-89 | `bytes([0] * n)`: n zero bytes |
| Bytes.Slice | src/engine/outputs/udp_pixel_sender.py:91 | a Python slice: the sub-sequence when in bounds, cut at the end of the sequence otherwise |

## Left out

- FFT, STFT, Hann window and square root: the bin magnitudes, the bin frequencies and `sqrt` are parameters, because they are floating-point numerics. `Features.ExtractFeatures` takes the spectrogram as given.
- Float rounding: every product, quotient and `int()` is exact real arithmetic with truncation toward zero. `int(sr / fps)` is the exact truncated quotient (`Numeric.TruncDivIsTrunc`).
- Audio loading (audio_in.py), the ffmpeg subprocess and resampling: these are I/O. `run_realtime`'s `audio_path` branch is therefore not modelled, and the samples are passed in.
- Sockets, `close` and logging: the socket is a sink. The methods return the datagrams they would send, and dry-run mode logs instead of sending, which changes no state.
- The `SIM_MODE` simulator branches of both senders, and the simulators themselves: these are console output.
- Web app, `load_config`, `save_config` and `get_config_mtime`: these are file I/O. In the daemon, the mtime and the outcome of the load are per-tick inputs (`Daemon.TickInput`).
- Wall clock and `time.sleep`: times are inputs. In `run_realtime` they come as a `Realtime.Clock`, in the daemon from `TickInput.now`. The sleep only affects timing, which is an input.
- Signal registration: the handler itself is modelled, and a signal's arrival is the `signal` flag of a tick's input.
- The sine demo frame of the daemon: it is trigonometry, so the frame samples are the tick's input.
- Settings: config/settings.py lacks `TARGET_FPS`, `SAMPLES_PER_FRAME`, `REALTIME_LOOP_MAX_SECONDS` and the `HIGHLIGHT_*` keys that both loops read, so these are the parameters of `Realtime.LoopSettings`. A missing settings attribute would raise before the loop starts.
- `run_analysis` (main.py:55-126), the offline analysis pass over a file: it is built from the same pieces as the live loop, and it is not part of this model.
- The failsafe manager is modelled on its own, since neither loop calls it. `recovery_hold_seconds` and the recovery time are stored and never read, so no property depends on them.
- Config entries the validator cannot read: a fixture or pixel entry that is not a dict, or a `start_address`/`pixel_count` that `int()` rejects, raises in the source. The model's entries are already parsed integers. A `channel_mode` that does not parse is `None` and counts as 1 channel, as in the source.
- Daemon.DaemonLoop.constructor: requires a non-zero frame rate. The raise of `1.0 / self.fps` at zero is modelled by `Daemon.NewDaemonLoop`.
- Daemon.DaemonLoop.Run: takes a finite sequence of tick inputs in which a signal arrives, so the daemon's unbounded run is modelled up to its first signal.
- Realtime.RunRealtime and Daemon.DaemonLoop.Run call the highlight detector directly (`detector.update(feat, mode, now)`) instead of the undefined `mm.update_highlight`; see Findings.

## Findings

| source | as written | input that shows it | evidently intended | confidence | as-written member | corrected member |
|---|---|---|---|---|---|---|
| src/engine/main.py:239 | each tick calls `mm.update_highlight(feat, detector, now=now)`, which `ModeManager` does not define, so the first tick raises AttributeError and `run_realtime` never returns a frame count once a tick starts | tests/test_realtime_loop.py: one second of audio at 44.1 kHz, `target_fps=30`, `max_seconds=1.0` | `detector.update(feat, mode, now=now)`, so the loop runs ticks of 1470 samples, at most 30 within the one-second limit, and returns their count (at least 1, as the test asserts) | not executed | Realtime.RunRealtimeAsWritten, Realtime.AsWrittenFailsTheLoopTest | Realtime.RunRealtime |
| src/engine/daemon.py:235 | the same undefined call ends every daemon run in the exception handler: exit code 1, no frame counted | any running daemon with a non-zero sample rate | `self.detector.update(feat, mode, now=now)`, so the loop ticks until a signal and exits with 0 | not executed | Daemon.DaemonLoop.RunAsWritten | Daemon.DaemonLoop.Run |
