/** Direction estimation from a stereo recording: the arg-max of the
    cross-correlation of the two channels becomes a signed delay, and the
    delay is bucketed into one of five directions depending on how many
    people are in the frame (hololingo/api/speaker_localization.py). */
module SoundDirection {
  import opened Wrappers

  /** The five directions a sound can come from. */
  datatype Direction = Front | FrontRight | FrontLeft | Right | Left

  /** Threshold on the fractional delay used for three people (7.5e-6). */
  const DelayThreshold3People: real := 0.0000075

  /** Threshold on the fractional delay used for four or more people (1.5e-5). */
  const DelayThreshold4People: real := 0.000015

  /** Position of a direction from the far left (0) to the far right (4). */
  function Rank(d: Direction): nat
  {
    match d
    case Left => 0
    case FrontLeft => 1
    case Front => 2
    case FrontRight => 3
    case Right => 4
  }

  /** Directions that the classifier can produce for a given person count. */
  predicate Producible(d: Direction, nPeople: int)
  {
    if nPeople == 2 then d == Left || d == Right
    else if nPeople == 3 then d == Left || d == Front || d == Right
    else d != Front
  }

  // ---------------------------------------------------------------------
  // Delay
  // ---------------------------------------------------------------------

  /** The correlation index is shifted so that the middle of the full
      correlation (lag zero) becomes delay index 0. */
  function DelayIndex(peak: int, rightLen: nat): int
  {
    peak - (rightLen - 1)
  }

  /** The delay index as a fraction of the right channel's length (exact
      rational; the program divides in double precision). */
  function Delay(delayIndex: int, rightLen: nat): (delay: real)
    requires rightLen > 0
    ensures delay < 0.0 <==> delayIndex < 0
    ensures delay == 0.0 <==> delayIndex == 0
    ensures delay * rightLen as real == delayIndex as real
  {
    delayIndex as real / rightLen as real
  }

  // ---------------------------------------------------------------------
  // Classification
  // ---------------------------------------------------------------------

  /** Buckets a delay into a direction: two people split at zero, three
      people have a symmetric dead zone that means "front", and any other
      count splits each side into a near and a far sector. */
  function Classify(delay: real, nPeople: int): (d: Direction)
    ensures Producible(d, nPeople)
  {
    if nPeople == 2 then
      if delay < 0.0 then Left else Right
    else if nPeople == 3 then
      if delay > DelayThreshold3People then Right
      else if delay < -DelayThreshold3People then Left
      else Front
    else
      if delay >= 0.0 then
        if delay < DelayThreshold4People then FrontRight else Right
      else
        if delay > -DelayThreshold4People then FrontLeft else Left
  }

  /** Two people: the sign of the delay alone decides, and zero is "right". */
  lemma ClassifyTwoPeople(delay: real)
    ensures Classify(delay, 2) == Left <==> delay < 0.0
    ensures Classify(delay, 2) == Right <==> delay >= 0.0
  {
  }

  /** Three people: "front" is the closed band [-7.5e-6, 7.5e-6]. */
  lemma ClassifyThreePeople(delay: real)
    ensures Classify(delay, 3) == Right <==> delay > DelayThreshold3People
    ensures Classify(delay, 3) == Left <==> delay < -DelayThreshold3People
    ensures Classify(delay, 3) == Front <==> -DelayThreshold3People <= delay <= DelayThreshold3People
  {
  }

  /** Any other count: never "front"; the near sectors are the half-open
      bands [0, 1.5e-5) and (-1.5e-5, 0). */
  lemma ClassifyOtherCounts(delay: real, nPeople: int)
    requires nPeople != 2 && nPeople != 3
    ensures Classify(delay, nPeople) != Front
    ensures Classify(delay, nPeople) == FrontRight <==> 0.0 <= delay < DelayThreshold4People
    ensures Classify(delay, nPeople) == Right <==> delay >= DelayThreshold4People
    ensures Classify(delay, nPeople) == FrontLeft <==> -DelayThreshold4People < delay < 0.0
    ensures Classify(delay, nPeople) == Left <==> delay <= -DelayThreshold4People
  {
  }

  /** A later-arriving sound on the right never moves the estimate to the
      left: classification is monotone in the delay for every count. */
  lemma ClassifyMonotone(delay1: real, delay2: real, nPeople: int)
    requires delay1 <= delay2
    ensures Rank(Classify(delay1, nPeople)) <= Rank(Classify(delay2, nPeople))
  {
  }

  /** Classification stated on the integer delay index and the channel
      length alone, without the division: 7.5e-6 = 3/400000 and
      1.5e-5 = 3/200000. */
  lemma ClassifyByIndex(delayIndex: int, rightLen: nat, nPeople: int)
    requires rightLen > 0
    ensures nPeople == 2 ==> (Classify(Delay(delayIndex, rightLen), nPeople) == Left <==> delayIndex < 0)
    ensures nPeople == 3 ==>
      (Classify(Delay(delayIndex, rightLen), nPeople) == Front <==>
        -3 * rightLen <= 400000 * delayIndex <= 3 * rightLen)
    ensures nPeople != 2 && nPeople != 3 ==>
      (Classify(Delay(delayIndex, rightLen), nPeople) == FrontRight <==>
        0 <= delayIndex && 200000 * delayIndex < 3 * rightLen)
    ensures nPeople != 2 && nPeople != 3 ==>
      (Classify(Delay(delayIndex, rightLen), nPeople) == FrontLeft <==>
        delayIndex < 0 && -3 * rightLen < 200000 * delayIndex)
  {
    var n := rightLen as real;
    var d := delayIndex as real;
    DivComparison(d, n, DelayThreshold3People);
    DivComparison(d, n, -DelayThreshold3People);
    DivComparison(d, n, DelayThreshold4People);
    DivComparison(d, n, -DelayThreshold4People);
    assert (400000 * delayIndex) as real == 400000.0 * d;
    assert (200000 * delayIndex) as real == 200000.0 * d;
    assert (3 * rightLen) as real == 3.0 * n;
  }

  /** Comparing a quotient with a bound is comparing the dividend with the
      bound scaled by the (positive) divisor. */
  lemma DivComparison(d: real, n: real, t: real)
    requires n > 0.0
    ensures d / n < t <==> d < t * n
    ensures d / n <= t <==> d <= t * n
    ensures d / n > t <==> d > t * n
    ensures d / n >= t <==> d >= t * n
  {
    assert (d / n) * n == d;
  }

  // ---------------------------------------------------------------------
  // Peak of the correlation
  // ---------------------------------------------------------------------

  /** `k` is the first index holding the maximum of `c`. */
  ghost predicate IsFirstPeak(c: seq<real>, k: int)
  {
    && 0 <= k < |c|
    && (forall j :: 0 <= j < |c| ==> c[j] <= c[k])
    && (forall j :: 0 <= j < k ==> c[j] < c[k])
  }

  /** The first index of a maximum (numpy's arg-max rule). */
  function ArgMax(c: seq<real>): (k: nat)
    requires |c| > 0
    ensures IsFirstPeak(c, k)
  {
    if |c| == 1 then 0
    else
      var k := ArgMax(c[..|c| - 1]);
      if c[|c| - 1] > c[k] then |c| - 1 else k
  }

  /** The first peak is unique, so the arg-max is fully determined. */
  lemma FirstPeakUnique(c: seq<real>, k1: int, k2: int)
    requires IsFirstPeak(c, k1) && IsFirstPeak(c, k2)
    ensures k1 == k2
  {
    PeakNotBefore(c, k1, k2);
    PeakNotBefore(c, k2, k1);
  }

  /** A first peak cannot lie before another first peak. */
  lemma PeakNotBefore(c: seq<real>, k1: int, k2: int)
    requires IsFirstPeak(c, k1) && IsFirstPeak(c, k2)
    ensures k2 <= k1
  {
    assert c[k2] <= c[k1];
  }

  /** Largest absolute sample value of a channel. */
  function MaxAbs(s: seq<real>): (m: real)
    requires |s| > 0
    ensures forall i :: 0 <= i < |s| ==> -m <= s[i] <= m
    ensures exists i :: 0 <= i < |s| && (s[i] == m || s[i] == -m)
  {
    var a := if s[|s| - 1] < 0.0 then -s[|s| - 1] else s[|s| - 1];
    if |s| == 1 then a
    else
      var m := MaxAbs(s[..|s| - 1]);
      if a > m then a else m
  }

  /** A channel whose every sample is zero. */
  ghost predicate Silent(s: seq<real>)
  {
    forall i :: 0 <= i < |s| ==> s[i] == 0.0
  }

  /** The normalising maximum is zero exactly for a silent channel. */
  lemma MaxAbsZero(s: seq<real>)
    requires |s| > 0
    ensures MaxAbs(s) == 0.0 <==> Silent(s)
  {
  }

  /** Why no direction could be computed: a channel or the correlation had
      no samples, so taking its maximum fails. */
  datatype SoundError = EmptyChannel | EmptyCorrelation

  /** The signed delay index read off the correlation. A silent channel
      is divided by a zero maximum, which makes every correlation value
      NaN; the arg-max of an all-NaN array is its first index, so the
      delay index is then the most negative one. */
  function PeakDelayIndex(left: seq<real>, right: seq<real>, correlation: seq<real>): (r: Result<int, SoundError>)
    ensures |left| == 0 || |right| == 0 ==> r == Failure(EmptyChannel)
    ensures |left| > 0 && |right| > 0 && (Silent(left) || Silent(right)) ==>
      r == Success(-(|right| - 1))
    ensures |left| > 0 && |right| > 0 && !Silent(left) && !Silent(right) ==>
      (r == Failure(EmptyCorrelation) <==> |correlation| == 0)
    ensures |left| > 0 && |right| > 0 && !Silent(left) && !Silent(right) && r.Success? ==>
      IsFirstPeak(correlation, r.value + (|right| - 1))
    ensures r.Success? && |correlation| == |left| + |right| - 1 ==>
      -(|right| - 1) <= r.value <= |left| - 1
  {
    if |left| == 0 || |right| == 0 then Failure(EmptyChannel)
    else
      MaxAbsZero(left);
      MaxAbsZero(right);
      if MaxAbs(left) == 0.0 || MaxAbs(right) == 0.0 then Success(DelayIndex(0, |right|))
      else if |correlation| == 0 then Failure(EmptyCorrelation)
      else Success(DelayIndex(ArgMax(correlation), |right|))
  }

  /** The direction of the sound for a given person count. */
  function LocalizeSound(left: seq<real>, right: seq<real>, correlation: seq<real>, nPeople: int): (r: Result<Direction, SoundError>)
    ensures r.Failure? <==> PeakDelayIndex(left, right, correlation).Failure?
    ensures r.Failure? ==> |left| == 0 || |right| == 0 || |correlation| == 0
    ensures |left| > 0 && |right| > 0 && |correlation| == |left| + |right| - 1 ==> r.Success?
    ensures r.Success? ==> Producible(r.value, nPeople)
    ensures |left| > 0 && |right| > 0 && (Silent(left) || Silent(right)) ==>
      r == Success(Classify(Delay(-(|right| - 1), |right|), nPeople))
    ensures |left| > 0 && |right| > 0 && !Silent(left) && !Silent(right) ==>
      forall k :: IsFirstPeak(correlation, k) ==>
        r == Success(Classify(Delay(k - (|right| - 1), |right|), nPeople))
  {
    PeakIsFirstPeak(left, right, correlation);
    Classified(PeakDelayIndex(left, right, correlation), |right|, nPeople)
  }

  /** The direction for a delay index, or the failure that prevented one. */
  function Classified(peak: Result<int, SoundError>, rightLen: nat, nPeople: int): Result<Direction, SoundError>
    requires rightLen > 0 || peak.Failure?
  {
    match peak
    case Failure(e) => Failure(e)
    case Success(d) => Success(Classify(Delay(d, rightLen), nPeople))
  }

  /** For two audible channels, whichever index is the correlation's first
      peak determines the delay index. */
  lemma PeakIsFirstPeak(left: seq<real>, right: seq<real>, correlation: seq<real>)
    ensures |left| > 0 && |right| > 0 && !Silent(left) && !Silent(right) ==>
      forall k :: IsFirstPeak(correlation, k) ==>
        PeakDelayIndex(left, right, correlation) == Success(k - (|right| - 1))
  {
    forall k | |left| > 0 && |right| > 0 && !Silent(left) && !Silent(right) && IsFirstPeak(correlation, k)
      ensures PeakDelayIndex(left, right, correlation) == Success(k - (|right| - 1))
    {
      FirstPeakUnique(correlation, k, PeakDelayIndex(left, right, correlation).value + (|right| - 1));
    }
  }


  /** A peak exactly at lag zero gives "right", "front" or "near right"
      for two, three and more people. */
  lemma ZeroDelayIndex(rightLen: nat)
    requires rightLen > 0
    ensures Classify(Delay(0, rightLen), 2) == Right
    ensures Classify(Delay(0, rightLen), 3) == Front
    ensures forall n :: n != 2 && n != 3 ==> Classify(Delay(0, rightLen), n) == FrontRight
  {
  }

  /** A silent channel of length at least two always reads as "left"; a
      single-sample channel reads as lag zero. */
  lemma SilentChannelDirection(left: seq<real>, right: seq<real>, correlation: seq<real>, nPeople: int)
    requires |left| > 0 && |right| > 0
    requires Silent(left) || Silent(right)
    ensures |right| >= 2 ==> LocalizeSound(left, right, correlation, nPeople) == Success(Left)
    ensures |right| == 1 ==> LocalizeSound(left, right, correlation, nPeople) == Success(Classify(0.0, nPeople))
  {
    var n := |right|;
    if n >= 2 {
      assert -(n - 1) as real <= -0.5 * n as real;
      DivComparison(-(n - 1) as real, n as real, -0.5);
    }
  }
}
