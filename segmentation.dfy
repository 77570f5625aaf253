/** Fixed-length segmentation of a decoded voice message
    (telegram_bot/tlbot.py, lines 71-78).  Audio is measured in milliseconds;
    a chunk is a start offset plus a length, and slicing follows pydub's
    clamping: `audio[i:i + C]` is cut short at the end of the audio. */
module Segmentation {

  /** `chunk_length_ms`: 30 seconds per chunk. */
  const ChunkLengthMs: nat := 30000

  datatype Chunk = Chunk(start: nat, length: nat)

  function Min(a: int, b: int): int { if a <= b then a else b }

  /** Ceiling division, the expected chunk count of `n` ms of audio. */
  function CeilDiv(n: nat, d: nat): nat
    requires d > 0
  {
    (n + d - 1) / d
  }

  /** The chunks produced by `for i in range(i0, n, C)`, in order. */
  function ChunksFrom(n: nat, i: nat): seq<Chunk>
    decreases n - i
  {
    if i >= n then []
    else [Chunk(i, Min(ChunkLengthMs, n - i))] + ChunksFrom(n, i + ChunkLengthMs)
  }

  /** `produced` are the chunks of an `n` ms audio that start before offset `i`. */
  predicate ProducedBefore(produced: seq<Chunk>, n: nat, i: nat)
  {
    produced + ChunksFrom(n, i) == Chunks(n)
  }

  /** One iteration of the `range` loop moves one chunk from the chunks still
      to come to the chunks already produced. */
  lemma ChunksFromStep(produced: seq<Chunk>, n: nat, i: nat)
    requires i < n
    requires ProducedBefore(produced, n, i)
    ensures ProducedBefore(produced + [Chunk(i, Min(ChunkLengthMs, n - i))], n, i + ChunkLengthMs)
  {
    var c := Chunk(i, Min(ChunkLengthMs, n - i));
    assert ChunksFrom(n, i) == [c] + ChunksFrom(n, i + ChunkLengthMs);
    assert (produced + [c]) + ChunksFrom(n, i + ChunkLengthMs) == produced + ([c] + ChunksFrom(n, i + ChunkLengthMs));
  }

  /** `i // chunk_length_ms` recovers the position of the chunk starting at `i`. */
  lemma OffsetIndex(k: nat)
    ensures (k * ChunkLengthMs) / ChunkLengthMs == k
  {
  }

  /** The chunk list of an audio of `n` ms. */
  function Chunks(n: nat): seq<Chunk>
  {
    ChunksFrom(n, 0)
  }

  /** The end offset (exclusive) of a chunk. */
  function End(c: Chunk): nat { c.start + c.length }

  lemma {:induction false} ChunksFromCount(n: nat, i: nat)
    ensures |ChunksFrom(n, i)| == if i >= n then 0 else CeilDiv(n - i, ChunkLengthMs)
    decreases n - i
  {
    if i < n {
      ChunksFromCount(n, i + ChunkLengthMs);
    }
  }

  lemma {:induction false} ChunksFromAt(n: nat, i: nat, k: nat)
    requires k < |ChunksFrom(n, i)|
    ensures i + k * ChunkLengthMs < n
    ensures ChunksFrom(n, i)[k] == Chunk(i + k * ChunkLengthMs, Min(ChunkLengthMs, n - i - k * ChunkLengthMs))
    decreases n - i
  {
    if k > 0 {
      ChunksFromAt(n, i + ChunkLengthMs, k - 1);
    }
  }

  /** The chunk count is the ceiling of the duration over 30000 ms. */
  lemma ChunkCount(n: nat)
    ensures |Chunks(n)| == CeilDiv(n, ChunkLengthMs)
  {
    ChunksFromCount(n, 0);
  }

  /** Chunk `k` covers `[k*C, min((k+1)*C, n))`. */
  lemma ChunkAt(n: nat, k: nat)
    requires k < |Chunks(n)|
    ensures Chunks(n)[k].start == k * ChunkLengthMs < n
    ensures End(Chunks(n)[k]) == Min((k + 1) * ChunkLengthMs, n)
  {
    ChunksFromAt(n, 0, k);
  }

  /** Zero-length audio gives no chunk at all; anything longer gives at least one. */
  lemma EmptyAudio(n: nat)
    ensures Chunks(n) == [] <==> n == 0
  {
  }

  /** Every chunk except the last one is exactly 30000 ms long, and the next
      chunk starts where it ends. */
  lemma InnerChunk(n: nat, k: nat)
    requires k + 1 < |Chunks(n)|
    ensures Chunks(n)[k].length == ChunkLengthMs
    ensures Chunks(n)[k + 1].start == End(Chunks(n)[k])
  {
    ChunkAt(n, k);
    ChunkAt(n, k + 1);
  }

  /** The last chunk ends at the end of the audio; it is `n % C` long, or a
      full chunk when `C` divides `n`. */
  lemma LastChunk(n: nat)
    requires n > 0
    ensures |Chunks(n)| > 0
    ensures End(Chunks(n)[|Chunks(n)| - 1]) == n
    ensures Chunks(n)[|Chunks(n)| - 1].length
              == if n % ChunkLengthMs == 0 then ChunkLengthMs else n % ChunkLengthMs
  {
    ChunkCount(n);
    var k := |Chunks(n)| - 1;
    ChunkAt(n, k);
    assert k == (n - 1) / ChunkLengthMs;
  }

  /** `audio[c.start : c.start + c.length]` with pydub's clamping at the end. */
  function Slice<T>(audio: seq<T>, c: Chunk): seq<T>
  {
    var lo := Min(c.start, |audio|);
    var hi := Min(c.start + c.length, |audio|);
    if lo <= hi then audio[lo..hi] else []
  }

  /** The chunks' slices, concatenated in list order. */
  function Flatten<T>(audio: seq<T>, cs: seq<Chunk>): seq<T>
  {
    if cs == [] then [] else Slice(audio, cs[0]) + Flatten(audio, cs[1..])
  }

  lemma {:induction false} CoverFrom<T>(audio: seq<T>, i: nat)
    requires i <= |audio|
    ensures Flatten(audio, ChunksFrom(|audio|, i)) == audio[i..]
    decreases |audio| - i
  {
    var n := |audio|;
    if i < n {
      var cs := ChunksFrom(n, i);
      var next := i + ChunkLengthMs;
      assert cs[1..] == ChunksFrom(n, next);
      if next <= n {
        CoverFrom(audio, next);
        assert Slice(audio, cs[0]) == audio[i..next];
        assert audio[i..] == audio[i..next] + audio[next..];
      } else {
        assert ChunksFrom(n, next) == [];
        assert Slice(audio, cs[0]) == audio[i..];
      }
    }
  }

  /** Concatenating the chunks in list order reproduces the whole audio,
      with no gap and no overlap. */
  lemma Coverage<T>(audio: seq<T>)
    ensures Flatten(audio, Chunks(|audio|)) == audio
  {
    CoverFrom(audio, 0);
  }

  /** A 65-second voice message gives chunks of 30 s, 30 s and 5 s. */
  lemma SixtyFiveSeconds()
    ensures Chunks(65000) == [Chunk(0, 30000), Chunk(30000, 30000), Chunk(60000, 5000)]
  {
    assert ChunksFrom(65000, 90000) == [];
    assert ChunksFrom(65000, 60000) == [Chunk(60000, 5000)];
    assert ChunksFrom(65000, 30000) == [Chunk(30000, 30000), Chunk(60000, 5000)];
  }
}
