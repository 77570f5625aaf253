/** Names of the temporary files of one voice message
    (telegram_bot/tlbot.py, lines 55-56 and 76): `<id>.ogg`, `<id>.wav`
    and `<id>_chunk_<k>.wav`, where `<k>` is Python's `str` of a
    non-negative integer. */
module ChunkPaths {

  /** The decimal digits of `n`, most significant first, no leading zero. */
  function DecimalString(n: nat): (s: string)
    ensures |s| >= 1
    ensures (|s| == 1) == (n < 10)
    ensures forall i :: 0 <= i < |s| ==> '0' <= s[i] <= '9'
    ensures (s[0] == '0') == (n == 0)
  {
    if n < 10 then [Digit(n)] else DecimalString(n / 10) + [Digit(n % 10)]
  }

  function Digit(d: nat): char
    requires d < 10
  {
    "0123456789"[d]
  }

  function OggPath(id: string): string { id + ".ogg" }

  function WavPath(id: string): string { id + ".wav" }

  /** `f"{file_id}_chunk_{k}.wav"` */
  function ChunkPath(id: string, k: nat): string
  {
    id + "_chunk_" + DecimalString(k) + ".wav"
  }

  /** The paths of chunks `0 .. count - 1`, in chunk order.  The two
      `ensures` only spell out what the `seq` display means; they are there
      to keep the proof of `Voice.Segment` small, not as a property. */
  function ChunkPathList(id: string, count: nat): (ps: seq<string>)
    ensures |ps| == count
    ensures forall k :: 0 <= k < count ==> ps[k] == ChunkPath(id, k)
  {
    seq(count, k requires 0 <= k => ChunkPath(id, k))
  }

  lemma ChunkPathListStep(id: string, k: nat)
    ensures ChunkPathList(id, k) + [ChunkPath(id, k)] == ChunkPathList(id, k + 1)
  {
  }

  /** Every element of the sequence occurs once. */
  predicate Distinct<T(==)>(s: seq<T>)
  {
    forall i, j :: 0 <= i < j < |s| ==> s[i] != s[j]
  }

  /** The set of paths listed in `ps`. */
  function Elements(ps: seq<string>): set<string>
  {
    set p | p in ps
  }

  lemma ElementsAppend(ps: seq<string>, p: string)
    ensures Elements(ps + [p]) == Elements(ps) + {p}
  {
  }

  /** The paths in the first `k` entries of `ps`. */
  function Prefix(ps: seq<string>, k: nat): set<string>
    requires k <= |ps|
  {
    Elements(ps[..k])
  }

  lemma PrefixStep(ps: seq<string>, k: nat)
    requires k < |ps|
    ensures Prefix(ps, k + 1) == Prefix(ps, k) + {ps[k]}
  {
    assert ps[..k + 1] == ps[..k] + [ps[k]];
    ElementsAppend(ps[..k], ps[k]);
  }

  lemma DistinctNotInPrefix(ps: seq<string>, k: nat)
    requires Distinct(ps) && k < |ps|
    ensures ps[k] !in Prefix(ps, k)
  {
  }

  /** The number a string of decimal digits spells, read like Python's `int`. */
  function DecimalValue(s: string): nat
  {
    if s == [] then 0 else DecimalValue(s[..|s| - 1]) * 10 + DigitValue(s[|s| - 1])
  }

  function DigitValue(c: char): nat
  {
    if '0' <= c <= '9' then (c as int - '0' as int) else 0
  }

  /** `DecimalString` spells the number it is given: reading it back gives `n`. */
  lemma {:induction false} DecimalRoundTrip(n: nat)
    ensures DecimalValue(DecimalString(n)) == n
  {
    var s := DecimalString(n);
    if n < 10 {
      assert s[..0] == [];
      assert DigitValue(Digit(n)) == n;
    } else {
      DecimalRoundTrip(n / 10);
      assert s[..|s| - 1] == DecimalString(n / 10);
      assert DigitValue(Digit(n % 10)) == n % 10;
    }
  }

  /** Different numbers have different decimal representations. */
  lemma DecimalStringInjective(a: nat, b: nat)
    requires DecimalString(a) == DecimalString(b)
    ensures a == b
  {
    DecimalRoundTrip(a);
    DecimalRoundTrip(b);
  }

  /** The index in a chunk's path identifies the chunk. */
  lemma ChunkPathInjective(id: string, j: nat, k: nat)
    requires ChunkPath(id, j) == ChunkPath(id, k)
    ensures j == k
  {
    var pre := id + "_chunk_";
    var dj, dk := DecimalString(j), DecimalString(k);
    assert ChunkPath(id, j) == pre + dj + ".wav";
    assert ChunkPath(id, k) == pre + dk + ".wav";
    assert |dj| == |dk|;
    assert dj == ChunkPath(id, j)[|pre|..|pre| + |dj|];
    assert dk == ChunkPath(id, k)[|pre|..|pre| + |dk|];
    DecimalStringInjective(j, k);
  }

  /** The chunk paths of one message are pairwise distinct. */
  lemma ChunkPathsDistinct(id: string, count: nat)
    ensures Distinct(ChunkPathList(id, count))
  {
    var ps := ChunkPathList(id, count);
    forall i, j | 0 <= i < j < count
      ensures ps[i] != ps[j]
    {
      if ps[i] == ps[j] {
        ChunkPathInjective(id, i, j);
      }
    }
  }

  /** No chunk path is the downloaded `.ogg` file or the `.wav` path that the
      `finally` block removes. */
  lemma ChunkPathIsNotAudioPath(id: string, k: nat)
    ensures ChunkPath(id, k) != OggPath(id)
    ensures ChunkPath(id, k) != WavPath(id)
  {
    assert |ChunkPath(id, k)| > |OggPath(id)| == |WavPath(id)|;
  }
}
