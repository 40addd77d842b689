/** Splitting a recording into fixed-length chunks
    (hololingo/demo/utils.py, getAudioChunks). */
module AudioChunks {

  /** Result of chunking: the chunks and the sample rate passed through, or
      a division by zero when a chunk would hold no samples. */
  datatype Chunked<S> = Chunked(chunks: seq<seq<S>>, sampleRate: int) | ZeroChunkLength

  /** Floor division as Python's `//` computes it, for a non-negative
      dividend. */
  function FloorDiv(a: nat, b: int): (q: int)
    requires b != 0
    ensures b > 0 ==> q * b <= a < (q + 1) * b
    ensures b < 0 ==> q <= 0
  {
    if b > 0 then a / b else -((a + (-b) - 1) / (-b))
  }

  /** The quotient times the divisor leaves a remainder smaller than the
      divisor. */
  lemma DivBounds(a: nat, c: nat)
    requires c > 0
    ensures (a / c) * c <= a < (a / c) * c + c
  {
  }

  /** The chunks, concatenated in order. */
  function Flatten<S>(chunks: seq<seq<S>>): seq<S>
  {
    if |chunks| == 0 then [] else Flatten(chunks[..|chunks| - 1]) + chunks[|chunks| - 1]
  }

  /** Every chunk holds exactly `c` samples. */
  ghost predicate Uniform<S>(chunks: seq<seq<S>>, c: nat)
  {
    forall i :: 0 <= i < |chunks| ==> |chunks[i]| == c
  }

  /** Chunk i lies within `audio` and is audio[i * c .. (i + 1) * c). */
  ghost predicate IsSlice<S>(audio: seq<S>, c: nat, chunks: seq<seq<S>>, i: nat)
    requires i < |chunks|
  {
    0 <= i * c && i * c + c <= |audio| && chunks[i] == audio[i * c..i * c + c]
  }

  /** `chunks` are the first |chunks| consecutive slices of length `c` of
      `audio`, in order. */
  ghost predicate ConsecutiveSlices<S>(audio: seq<S>, c: nat, chunks: seq<seq<S>>)
  {
    forall i :: 0 <= i < |chunks| ==> IsSlice(audio, c, chunks, i)
  }

  lemma MulMono(a: nat, b: nat, c: nat)
    requires a <= b
    ensures a * c <= b * c
  {
  }

  /** Equal-length chunks flatten to |chunks| * c samples. */
  lemma {:induction false} FlattenLength<S>(chunks: seq<seq<S>>, c: nat)
    requires Uniform(chunks, c)
    ensures |Flatten(chunks)| == |chunks| * c
  {
    if |chunks| > 0 {
      var k := |chunks| - 1;
      FlattenLength(chunks[..k], c);
      assert (k + 1) * c == k * c + c;
    }
  }

  /** In a flattening of equal-length chunks, chunk i occupies positions
      i * c up to (i + 1) * c. */
  lemma {:induction false} FlattenChunkAt<S>(chunks: seq<seq<S>>, c: nat, i: nat)
    requires Uniform(chunks, c)
    requires i < |chunks|
    ensures |Flatten(chunks)| == |chunks| * c
    ensures IsSlice(Flatten(chunks), c, chunks, i)
  {
    var k := |chunks| - 1;
    var prefix := chunks[..k];
    FlattenLength(chunks, c);
    FlattenLength(prefix, c);
    MulMono(0, i, c);
    var f := Flatten(chunks);
    assert f == Flatten(prefix) + chunks[k];
    if i < k {
      FlattenChunkAt(prefix, c, i);
      MulMono(i + 1, k, c);
      assert prefix[i] == chunks[i];
      assert f[i * c..i * c + c] == Flatten(prefix)[i * c..i * c + c];
    } else {
      assert f[k * c..k * c + c] == chunks[k];
    }
  }

  /** Consecutive slices concatenate back to the prefix they cover. */
  lemma {:induction false} FlattenSlices<S>(audio: seq<S>, c: nat, chunks: seq<seq<S>>)
    requires ConsecutiveSlices(audio, c, chunks)
    ensures |chunks| * c <= |audio|
    ensures Flatten(chunks) == audio[..|chunks| * c]
  {
    if |chunks| > 0 {
      var k := |chunks| - 1;
      var prefix := chunks[..k];
      assert ConsecutiveSlices(audio, c, prefix) by {
        forall i | 0 <= i < |prefix|
          ensures IsSlice(audio, c, prefix, i)
        {
          assert IsSlice(audio, c, chunks, i);
          assert prefix[i] == chunks[i];
        }
      }
      FlattenSlices(audio, c, prefix);
      assert IsSlice(audio, c, chunks, k);
      assert (k + 1) * c == k * c + c;
      assert audio[..k * c] + audio[k * c..k * c + c] == audio[..k * c + c];
    }
  }

  /** Chunking a concatenation of equal-length pieces gives the pieces back:
      the pieces are exactly the consecutive slices of their flattening. */
  lemma SlicesOfFlatten<S>(pieces: seq<seq<S>>, c: nat)
    requires Uniform(pieces, c)
    ensures |Flatten(pieces)| == |pieces| * c
    ensures ConsecutiveSlices(Flatten(pieces), c, pieces)
  {
    FlattenLength(pieces, c);
    forall i | 0 <= i < |pieces|
      ensures IsSlice(Flatten(pieces), c, pieces, i)
    {
      FlattenChunkAt(pieces, c, i);
    }
  }

  /** Equal-length chunks that flatten to a prefix of `audio` are its
      consecutive slices. */
  lemma SlicesOfPrefix<S>(audio: seq<S>, c: nat, chunks: seq<seq<S>>)
    requires Uniform(chunks, c)
    requires |chunks| * c <= |audio|
    requires Flatten(chunks) == audio[..|chunks| * c]
    ensures ConsecutiveSlices(audio, c, chunks)
  {
    SlicesOfFlatten(chunks, c);
    forall i | 0 <= i < |chunks|
      ensures IsSlice(audio, c, chunks, i)
    {
      assert IsSlice(Flatten(chunks), c, chunks, i);
    }
  }

  /** The first `n` consecutive slices of length `c` of `audio`, built one
      after the other. */
  method SliceChunks<S>(audio: seq<S>, c: nat, n: nat) returns (chunks: seq<seq<S>>)
    requires n * c <= |audio|
    ensures |chunks| == n
    ensures Uniform(chunks, c)
    ensures Flatten(chunks) == audio[..n * c]
  {
    chunks := [];
    var i := 0;
    while i < n
      invariant 0 <= i <= n
      invariant |chunks| == i
      invariant Uniform(chunks, c)
      invariant i * c <= |audio|
      invariant Flatten(chunks) == audio[..i * c]
    {
      MulMono(i + 1, n, c);
      assert (i + 1) * c == i * c + c;
      var start := i * c;
      var end := (i + 1) * c;
      var next := chunks + [audio[start..end]];
      assert next[..i] == chunks;
      assert audio[..start] + audio[start..end] == audio[..end];
      chunks := next;
      i := i + 1;
    }
  }

  /** HoloLingo's chunking loop for a non-zero chunk length `c`: |audio| div c
      chunks (floor division), each the next slice of `c` samples. */
  method ChunkSamples<S>(audio: seq<S>, c: int) returns (chunks: seq<seq<S>>)
    requires c != 0
    ensures c < 0 ==> chunks == []
    ensures c > 0 ==> |chunks| == |audio| / c
    ensures c > 0 ==> Uniform(chunks, c)
    ensures c > 0 ==> ConsecutiveSlices(audio, c, chunks)
    ensures c > 0 ==> |chunks| * c <= |audio| < |chunks| * c + c
    ensures c > 0 ==> Flatten(chunks) == audio[..|chunks| * c]
  {
    var numChunks := FloorDiv(|audio|, c);
    if c < 0 {
      // the count is not positive, so the loop runs no iteration
      return [];
    }
    DivBounds(|audio|, c);
    chunks := SliceChunks(audio, c, numChunks);
    SlicesOfPrefix(audio, c, chunks);
  }

  /** Splits `audio` into |audio| div c consecutive chunks of exactly
      c = sampleRate * chunkDuration samples, dropping the remainder, and
      returns the sample rate unchanged. A zero chunk length divides by
      zero; a negative one yields no chunks. */
  method GetAudioChunks<S>(audio: seq<S>, sampleRate: int, chunkDuration: int := 3) returns (r: Chunked<S>)
    ensures r == ZeroChunkLength <==> sampleRate * chunkDuration == 0
    ensures r.Chunked? ==> r.sampleRate == sampleRate
    ensures r.Chunked? && sampleRate * chunkDuration < 0 ==> r.chunks == []
    ensures r.Chunked? && sampleRate * chunkDuration > 0 ==>
      var c := sampleRate * chunkDuration;
      && |r.chunks| == |audio| / c
      && Uniform(r.chunks, c)
      && ConsecutiveSlices(audio, c, r.chunks)
      && |audio| - |r.chunks| * c < c
      && Flatten(r.chunks) == audio[..|r.chunks| * c]
  {
    var c := sampleRate * chunkDuration;
    if c == 0 {
      return ZeroChunkLength;
    }
    var chunks := ChunkSamples(audio, c);
    return Chunked(chunks, sampleRate);
  }
}
