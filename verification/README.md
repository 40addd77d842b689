# HoloLingo speaker localization in Dafny

HoloLingo overlays translated speech next to the person who is talking in a
video. The part of it modelled here decides *who* is talking:

- **Direction estimation** (`SoundDirection`, from `_localize_sound`): the
  index of the peak of the cross-correlation of the left and right channels
  becomes a signed delay index `peak - (len(right) - 1)`, which divided by
  `len(right)` gives a fractional delay. The delay is bucketed into one of
  five directions (`Front`, `FrontRight`, `FrontLeft`, `Right`, `Left`)
  according to the number of people in the frame and two fixed thresholds,
  7.5e-6 (three people) and 1.5e-5 (four people).
- **Speaker matching** (`SpeakerMatcher`, from `_isTalking` and
  `localize_speaker`): the number of detected boxes, capped at four, splits
  the frame width into equal sections (floor division). Every box's centre
  is tested against the strict interval for the direction, and the last
  matching box in detection order wins. `(-1, -1)` means "no speaker": fewer
  than two people, no match, or any failure along the way.
- **Audio chunking** (`AudioChunks`, from `getAudioChunks`): a recording is
  cut into `len div c` consecutive chunks of `c = sample_rate *
  chunk_duration` samples; the remainder is dropped and the sample rate is
  passed through.

Inputs that the program obtains by I/O are parameters: the frame width and
the detector's boxes (`Detection`, `None` when decoding or detection
failed), the stereo samples (`None` when the recording cannot be read as
stereo), and the cross-correlation of the normalised channels, which the
program computes with an FFT.

How the model resolves points where the code and its intended design part
ways (the model follows the code):

- A silent (all-zero) channel is meant to be an error that ends in the
  sentinel. In the code, numpy divides by the zero maximum and produces NaN
  instead of raising, the whole correlation becomes NaN, and the arg-max of
  an all-NaN array is index 0. The model therefore yields the most negative
  delay index, `-(len(right) - 1)`: `Left` whenever the right channel has at
  least two samples (`SoundDirection.SilentChannelDirection`).
- Only the first four people are meant to take part in matching. The code
  caps the count used for the sections at four but tests every box, so a
  fifth or later box can be reported (`SpeakerMatcher.MatchExamples`).
- The classifier orders the near sectors as near-left left of near-right
  (`SoundDirection.ClassifyMonotone`), but the matcher's near-left interval
  `(2w, 3w)` lies to the right of its near-right interval `(w, 2w)`
  (`SpeakerMatcher.FrontSectorsSwapped`). This is kept as written.
- An empty channel makes numpy's maximum raise, which the entry point
  catches: `Failure(EmptyChannel)`, then the sentinel.

## Model

| member | source | states |
|---|---|---|
| SoundDirection.Classify | hololingo/api/speaker_localization.py:44-58 | the direction is one the person count allows: only left/right for two people, never a near sector for three, never front for any other count |
| SoundDirection.ClassifyTwoPeople | hololingo/api/speaker_localization.py:45-46 | with two people the result is left exactly when the delay is negative and right exactly when it is non-negative, so zero delay is right |
| SoundDirection.ClassifyThreePeople | hololingo/api/speaker_localization.py:47-53 | with three people: right iff delay > 7.5e-6, left iff delay < -7.5e-6, front iff the delay is in the closed band between, including both thresholds |
| SoundDirection.ClassifyOtherCounts | hololingo/api/speaker_localization.py:54-58 | for any count other than 2 or 3 the result is never front; near-right iff 0 <= delay < 1.5e-5, right iff delay >= 1.5e-5, near-left iff -1.5e-5 < delay < 0, left iff delay <= -1.5e-5 |
| SoundDirection.ClassifyMonotone | hololingo/api/speaker_localization.py:44-58 | a larger delay never yields a direction further left, for every person count |
| SoundDirection.ClassifyByIndex | hololingo/api/speaker_localization.py:40-58 | the classification restated on the integer delay index d and channel length N: front for three people iff -3N <= 400000 d <= 3N; near-right for four iff 0 <= d and 200000 d < 3N; near-left iff d < 0 and -3N < 200000 d |
| SoundDirection.Delay | hololingo/api/speaker_localization.py:41 | the fractional delay has the sign of the delay index, is zero exactly when it is, and times the channel length gives back the index |
| SoundDirection.ArgMax | hololingo/api/speaker_localization.py:40 | the chosen index holds the maximum of the correlation and no earlier index does |
| SoundDirection.FirstPeakUnique | hololingo/api/speaker_localization.py:40 | the first maximum is unique, so the peak index is fully determined by the correlation |
| SoundDirection.MaxAbs | hololingo/api/speaker_localization.py:31-32 | the normalising maximum bounds every sample's magnitude and is attained by some sample |
| SoundDirection.MaxAbsZero | hololingo/api/speaker_localization.py:31-32 | the normalising maximum is zero exactly when the channel is silent |
| SoundDirection.PeakDelayIndex | hololingo/api/speaker_localization.py:31-40 | an empty channel fails; a silent channel gives delay index -(len(right)-1); otherwise the index is the first correlation peak shifted by len(right)-1, failing only for an empty correlation; for a full-length correlation the index lies in [-(len(right)-1), len(left)-1] |
| SoundDirection.LocalizeSound | hololingo/api/speaker_localization.py:29-58 | fails only for an empty channel or correlation, never for well-formed inputs; for two audible channels the direction is the classification of the delay read off the correlation's first peak k, (k - (len(right)-1)) / len(right); with a silent channel it is the classification of -(len(right)-1) / len(right) |
| SoundDirection.PeakIsFirstPeak | hololingo/api/speaker_localization.py:40 | for two audible channels, any first peak k of the correlation gives the delay index k - (len(right)-1) |
| SoundDirection.ZeroDelayIndex | hololingo/api/speaker_localization.py:40-58 | a peak at lag zero gives right, front and near-right for two, three and any other number of people |
| SoundDirection.SilentChannelDirection | hololingo/api/speaker_localization.py:31-58 | with a silent channel the direction is left when the right channel has two or more samples, and that of a zero delay when it has one |
| SpeakerMatcher.Truncate | hololingo/api/speaker_localization.py:101-102 | conversion to integer truncates toward zero: the integer is within one of the value, on the zero side |
| SpeakerMatcher.Midpoint | hololingo/api/speaker_localization.py:101-102 | the centre coordinate is (a+b) div 2 for a non-negative sum, rounded toward zero otherwise, and lies between a and b |
| SpeakerMatcher.Centre | hololingo/api/speaker_localization.py:101-102 | the centre of a well-ordered box lies inside the box on both axes |
| SpeakerMatcher.PeopleCount | hololingo/api/speaker_localization.py:81 | the person count is the box count capped at four |
| SpeakerMatcher.SectionWidth | hololingo/api/speaker_localization.py:88 | the section width is the floor of frame width over person count: n sections fit and n+1 overshoot |
| SpeakerMatcher.BoundariesMatchNothing | hololingo/api/speaker_localization.py:62-69 | a centre exactly on a section boundary (w, 2w, 3w, (n-1)w) matches none of the intervals it delimits |
| SpeakerMatcher.SectorsDisjoint | hololingo/api/speaker_localization.py:62-69 | among the directions the classifier can produce for 2 to 4 people, a position matches at most one |
| SpeakerMatcher.FrontSectorsSwapped | hololingo/api/speaker_localization.py:67-68 | every near-left match lies strictly right of every near-right match, although near-left ranks left of near-right |
| SpeakerMatcher.OuterSectorsOrdered | hololingo/api/speaker_localization.py:64-65 | every left match lies strictly left of every right match |
| SpeakerMatcher.LastTalking | hololingo/api/speaker_localization.py:99-106 | the result is a matching box with no matching box after it, and there is no result exactly when no box matches |
| SpeakerMatcher.MatchSpeaker | hololingo/api/speaker_localization.py:99-106 | walking all boxes and overwriting on each match yields the centre of the last matching box, or the sentinel when none matches |
| SpeakerMatcher.SentinelIffNoMatch | hololingo/api/speaker_localization.py:99-110 | for boxes with non-negative coordinates the sentinel is reported exactly when no box matches |
| SpeakerMatcher.MatchExamples | hololingo/api/speaker_localization.py:99-106 | worked cases: left/right in a two-person frame, the last of two matches wins, a fifth box is reported, and near-left picks the third of four people while near-right picks the second |
| SpeakerMatcher.LeftChannel | hololingo/api/speaker_localization.py:92 | the left channel has one sample per stereo frame, the frame's first column |
| SpeakerMatcher.RightChannel | hololingo/api/speaker_localization.py:93 | the right channel has one sample per stereo frame, the frame's second column |
| SpeakerMatcher.LocalizeSpeaker | hololingo/api/speaker_localization.py:72-110 | a failed detection, fewer than two people, unreadable or empty audio, or a failed direction give the sentinel; otherwise the result is the last box matching the estimated direction for the capped count and floor section width |
| AudioChunks.FloorDiv | hololingo/demo/utils.py:18 | the chunk count is the floor quotient for a positive chunk length and never positive for a negative one |
| AudioChunks.FlattenSlices | hololingo/demo/utils.py:18-24 | consecutive slices of length c concatenate to the prefix of the audio they cover, which fits in the audio |
| AudioChunks.SlicesOfFlatten | hololingo/demo/utils.py:21-24 | equal-length pieces are exactly the consecutive slices of their concatenation, so chunking inverts concatenation |
| AudioChunks.SliceChunks | hololingo/demo/utils.py:20-24 | the loop yields n chunks of c samples each whose concatenation is the first n*c samples |
| AudioChunks.ChunkSamples | hololingo/demo/utils.py:17-24 | for a positive chunk length there are len div c chunks, chunk i is audio[i*c .. (i+1)*c), they concatenate to the covered prefix and the dropped remainder is shorter than c; a negative length gives no chunks |
| AudioChunks.GetAudioChunks | hololingo/demo/utils.py:14-26 | with chunk duration 3 seconds unless given, a zero chunk length is a division by zero; otherwise the sample rate is returned unchanged and the chunks are as above for c = sample_rate * chunk_duration |

## Left out

- Normalisation and the FFT cross-correlation (hololingo/api/speaker_localization.py:31-38 beyond the maximum): floating-point numerics over numpy; the correlation is an input. Consequently invariance of the direction under scaling a channel's amplitude is not stated.
- SoundDirection.Delay: computed as an exact rational, whereas the source divides in double precision; comparisons against the thresholds can differ only where rounding moves a delay across a threshold.
- SoundDirection.ArgMax: numpy's first-occurrence rule is modelled; NaN handling is modelled only for the all-NaN correlation of a silent channel.
- SpeakerMatcher.Centre: boxes have integer coordinates; the detector's floating-point coordinates and their truncation are not modelled beyond integers.
- Reading the frame (`cv2.imread`), running the detector (`model.predict`) and reading the audio (`sf.read`): I/O and a machine-learning model. The recording arrives as a sequence of stereo frames; a failed read, and a mono file that has no second column to select, are both represented by a `None` input.
- Logging of the person count, delay and direction: diagnostics only.
- The direction enum's integer values (0 to 4): never used by the logic.
- The caller's replacement of the sentinel by a default position, the HTTP endpoints, model loading, the demo video loop, `getVideoCaptures`, `save_audio_video`, the audio extraction script and the command-line launcher: plumbing around the core.
- AudioChunks.GetAudioChunks: `int(sample_rate * chunk_duration)` is modelled for integer arguments only; a fractional duration is not.
