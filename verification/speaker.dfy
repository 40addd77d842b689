/** Matching an estimated sound direction to one of the people detected in
    a video frame: the frame is split into equal vertical sections, one per
    person (at most four), and the person whose box centre lies in the
    section the direction points at is the speaker
    (hololingo/api/speaker_localization.py). */
module SpeakerMatcher {
  import opened Wrappers
  import opened SoundDirection

  /** A detected person's bounding box in pixels. */
  datatype Box = Box(x0: int, y0: int, x1: int, y1: int)

  /** A pixel position. */
  datatype Coord = Coord(x: int, y: int)

  /** "No speaker identified". */
  const NoSpeaker: Coord := Coord(-1, -1)

  /** At most this many people take part in splitting the frame. */
  const MaxPeople: nat := 4

  // ---------------------------------------------------------------------
  // Geometry
  // ---------------------------------------------------------------------

  /** Conversion of a real to an integer by truncation toward zero. */
  function Truncate(v: real): (i: int)
    ensures v >= 0.0 ==> i as real <= v < i as real + 1.0
    ensures v < 0.0 ==> i as real - 1.0 < v <= i as real
  {
    if v >= 0.0 then v.Floor else -((-v).Floor)
  }

  /** The centre coordinate of the interval [a, b], computed as a + (b - a) / 2
      in real arithmetic and truncated toward zero. */
  function Midpoint(a: int, b: int): (m: int)
    ensures a + b >= 0 ==> m == (a + b) / 2
    ensures a + b < 0 ==> m == -((-(a + b)) / 2)
    ensures a <= b ==> a <= m <= b
  {
    var v := a as real + (b - a) as real / 2.0;
    assert v * 2.0 == (a + b) as real;
    Truncate(v)
  }

  /** Centre of a box. */
  function Centre(b: Box): (c: Coord)
    ensures b.x0 <= b.x1 ==> b.x0 <= c.x <= b.x1
    ensures b.y0 <= b.y1 ==> b.y0 <= c.y <= b.y1
  {
    Coord(Midpoint(b.x0, b.x1), Midpoint(b.y0, b.y1))
  }

  /** Number of people that split the frame: the box count capped at four. */
  function PeopleCount(boxes: seq<Box>): (n: nat)
    ensures n <= MaxPeople && n <= |boxes|
    ensures n == MaxPeople || n == |boxes|
  {
    if |boxes| < MaxPeople then |boxes| else MaxPeople
  }

  /** Width of one section of the frame (floor division). */
  function SectionWidth(frameWidth: nat, nPeople: nat): (w: nat)
    requires nPeople > 0
    ensures nPeople * w <= frameWidth < nPeople * (w + 1)
  {
    frameWidth / nPeople
  }

  /** Whether a person centred at horizontal position `x` is in the section
      the sound direction points at, for sections of width `w` and
      `nPeople` people. All bounds are strict. */
  predicate IsTalking(dir: Direction, x: int, w: int, nPeople: int)
  {
    || (dir == Left && x < w)
    || (dir == Right && x > (nPeople - 1) * w)
    || (dir == Front && x > w && x < (nPeople - 1) * w)
    || (dir == FrontRight && x > w && x < 2 * w)
    || (dir == FrontLeft && x > 2 * w && x < 3 * w)
  }

  /** A position exactly on a section boundary matches none of the sectors
      that boundary delimits. */
  lemma BoundariesMatchNothing(w: int, nPeople: int)
    ensures !IsTalking(Left, w, w, nPeople)
    ensures !IsTalking(Right, (nPeople - 1) * w, w, nPeople)
    ensures !IsTalking(Front, w, w, nPeople) && !IsTalking(Front, (nPeople - 1) * w, w, nPeople)
    ensures !IsTalking(FrontRight, w, w, nPeople) && !IsTalking(FrontRight, 2 * w, w, nPeople)
    ensures !IsTalking(FrontLeft, 2 * w, w, nPeople) && !IsTalking(FrontLeft, 3 * w, w, nPeople)
  {
  }

  /** For the directions the classifier can produce with a given count, the
      sectors do not overlap: a position matches at most one of them. */
  lemma SectorsDisjoint(x: int, w: nat, nPeople: int, d1: Direction, d2: Direction)
    requires 2 <= nPeople <= MaxPeople
    requires Producible(d1, nPeople) && Producible(d2, nPeople)
    requires IsTalking(d1, x, w, nPeople) && IsTalking(d2, x, w, nPeople)
    ensures d1 == d2
  {
  }

  /** The near-left sector lies to the right of the near-right sector,
      although the classifier ranks near-left to the left of near-right. */
  lemma FrontSectorsSwapped(xLeft: int, xRight: int, w: int, nPeople: int)
    requires IsTalking(FrontLeft, xLeft, w, nPeople)
    requires IsTalking(FrontRight, xRight, w, nPeople)
    ensures xRight < xLeft
    ensures Rank(FrontLeft) < Rank(FrontRight)
  {
  }

  /** The outer sectors keep the classifier's order: a "left" match lies to
      the left of a "right" match. */
  lemma OuterSectorsOrdered(xLeft: int, xRight: int, w: nat, nPeople: int)
    requires nPeople >= 2
    requires IsTalking(Left, xLeft, w, nPeople)
    requires IsTalking(Right, xRight, w, nPeople)
    ensures xLeft < xRight
  {
    assert w <= (nPeople - 1) * w;
  }

  // ---------------------------------------------------------------------
  // Matching
  // ---------------------------------------------------------------------

  /** Whether the i-th box's centre matches the direction. */
  predicate BoxTalks(dir: Direction, boxes: seq<Box>, i: int, w: int, nPeople: int)
    requires 0 <= i < |boxes|
  {
    IsTalking(dir, Centre(boxes[i]).x, w, nPeople)
  }

  /** Index of the last box whose centre matches the direction, if any. */
  function LastTalking(dir: Direction, boxes: seq<Box>, w: int, nPeople: int): (r: Option<nat>)
    ensures r.Some? ==> r.value < |boxes| && BoxTalks(dir, boxes, r.value, w, nPeople)
    ensures r.Some? ==> forall j :: r.value < j < |boxes| ==> !BoxTalks(dir, boxes, j, w, nPeople)
    ensures r.None? <==> forall j :: 0 <= j < |boxes| ==> !BoxTalks(dir, boxes, j, w, nPeople)
  {
    if |boxes| == 0 then None
    else if BoxTalks(dir, boxes, |boxes| - 1, w, nPeople) then Some(|boxes| - 1)
    else
      var prefix := boxes[..|boxes| - 1];
      assert forall j :: 0 <= j < |prefix| ==>
        BoxTalks(dir, prefix, j, w, nPeople) == BoxTalks(dir, boxes, j, w, nPeople);
      LastTalking(dir, prefix, w, nPeople)
  }

  /** The coordinate reported for a match result. */
  function SpeakerAt(boxes: seq<Box>, m: Option<nat>): Coord
  {
    match m
    case Some(i) => if i < |boxes| then Centre(boxes[i]) else NoSpeaker
    case None => NoSpeaker
  }

  /** Walks all boxes in detection order, overwriting the result with every
      box that matches: the last match wins, and every box takes part even
      when there are more than four. */
  method MatchSpeaker(dir: Direction, boxes: seq<Box>, w: int, nPeople: int) returns (c: Coord)
    ensures c == SpeakerAt(boxes, LastTalking(dir, boxes, w, nPeople))
  {
    c := NoSpeaker;
    var i := 0;
    while i < |boxes|
      invariant 0 <= i <= |boxes|
      invariant c == SpeakerAt(boxes[..i], LastTalking(dir, boxes[..i], w, nPeople))
    {
      var centre := Centre(boxes[i]);
      if IsTalking(dir, centre.x, w, nPeople) {
        c := centre;
      }
      assert boxes[..i + 1][..i] == boxes[..i];
      i := i + 1;
    }
    assert boxes[..i] == boxes;
  }

  /** With boxes in the non-negative quadrant, the sentinel is reported
      exactly when no box matches. */
  lemma SentinelIffNoMatch(dir: Direction, boxes: seq<Box>, w: int, nPeople: int)
    requires forall i :: 0 <= i < |boxes| ==> 0 <= boxes[i].x0 <= boxes[i].x1 && 0 <= boxes[i].y0 <= boxes[i].y1
    ensures SpeakerAt(boxes, LastTalking(dir, boxes, w, nPeople)) == NoSpeaker
      <==> forall j :: 0 <= j < |boxes| ==> !BoxTalks(dir, boxes, j, w, nPeople)
  {
    var m := LastTalking(dir, boxes, w, nPeople);
    if m.Some? {
      assert 0 <= Centre(boxes[m.value]).x;
    }
  }

  /** Worked cases: two people in a 200-pixel frame; the last of several
      matches wins; a fifth box still takes part although only four people
      split the frame; with four people a slightly negative delay ("near
      left") selects the person right of centre. */
  lemma MatchExamples()
    ensures LastTalking(Left, [Box(0, 0, 100, 100), Box(100, 0, 200, 100)], 100, 2) == Some(0)
    ensures LastTalking(Right, [Box(0, 0, 100, 100), Box(100, 0, 200, 100)], 100, 2) == Some(1)
    ensures LastTalking(Left, [Box(0, 0, 20, 10), Box(40, 0, 60, 10)], 100, 2) == Some(1)
    ensures LastTalking(Right, [Box(0, 0, 100, 10), Box(100, 0, 200, 10), Box(200, 0, 300, 10),
                                Box(300, 0, 340, 10), Box(360, 0, 400, 10)], 100, 4) == Some(4)
    ensures LastTalking(FrontLeft, [Box(0, 0, 100, 10), Box(100, 0, 200, 10), Box(200, 0, 300, 10),
                                    Box(300, 0, 400, 10)], 100, 4) == Some(2)
    ensures LastTalking(FrontRight, [Box(0, 0, 100, 10), Box(100, 0, 200, 10), Box(200, 0, 300, 10),
                                     Box(300, 0, 400, 10)], 100, 4) == Some(1)
  {
  }

  // ---------------------------------------------------------------------
  // Entry point
  // ---------------------------------------------------------------------

  /** What the person detector yields for one frame: its width and the
      boxes in detection order. */
  datatype Detection = Detection(frameWidth: nat, boxes: seq<Box>)

  /** One sample of a stereo recording. */
  datatype StereoSample = StereoSample(left: real, right: real)

  function LeftChannel(audio: seq<StereoSample>): (s: seq<real>)
    ensures |s| == |audio| && forall i :: 0 <= i < |audio| ==> s[i] == audio[i].left
  {
    seq(|audio|, i requires 0 <= i < |audio| => audio[i].left)
  }

  function RightChannel(audio: seq<StereoSample>): (s: seq<real>)
    ensures |s| == |audio| && forall i :: 0 <= i < |audio| ==> s[i] == audio[i].right
  {
    seq(|audio|, i requires 0 <= i < |audio| => audio[i].right)
  }

  /** Locates the speaker in a frame. `detection` and `audio` are None when
      decoding the frame, running the detector, or reading a stereo
      recording failed; `correlation` is the cross-correlation of the two
      normalised channels. Every failure yields the sentinel. */
  method LocalizeSpeaker(detection: Option<Detection>, audio: Option<seq<StereoSample>>, correlation: seq<real>)
    returns (c: Coord)
    ensures detection.None? ==> c == NoSpeaker
    ensures detection.Some? && PeopleCount(detection.value.boxes) <= 1 ==> c == NoSpeaker
    ensures audio.None? ==> c == NoSpeaker
    ensures audio.Some? && |audio.value| == 0 ==> c == NoSpeaker
    ensures detection.Some? && audio.Some? && PeopleCount(detection.value.boxes) >= 2 ==>
      var n := PeopleCount(detection.value.boxes);
      var boxes := detection.value.boxes;
      match LocalizeSound(LeftChannel(audio.value), RightChannel(audio.value), correlation, n)
      case Failure(_) => c == NoSpeaker
      case Success(dir) =>
        c == SpeakerAt(boxes, LastTalking(dir, boxes, SectionWidth(detection.value.frameWidth, n), n))
  {
    c := NoSpeaker;
    if detection.None? {
      return;
    }
    var boxes := detection.value.boxes;
    var n := PeopleCount(boxes);
    if n <= 1 {
      return;
    }
    var w := SectionWidth(detection.value.frameWidth, n);
    if audio.None? {
      return;
    }
    var sound := LocalizeSound(LeftChannel(audio.value), RightChannel(audio.value), correlation, n);
    if sound.Failure? {
      return;
    }
    c := MatchSpeaker(sound.value, boxes, w, n);
  }
}
