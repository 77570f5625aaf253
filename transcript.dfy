/** Transcript accumulation (telegram_bot/tlbot.py, lines 81 and 87-96):
    one fragment per chunk, appended to `text` in chunk order with no
    separator. */
module Transcription {

  /** What `recognize_google` does with one chunk, supplied by the
      environment: the recognized text, `UnknownValueError`, `RequestError`,
      or any other exception out of the `with sr.AudioFile(...)` block. */
  datatype Recognition = Recognized(text: string) | NoSpeech | Unavailable | Raised

  /** The fragment appended for `sr.UnknownValueError`. */
  const NoSpeechMarker: string := "[متنی یافت نشد]"

  /** The fragment appended for `sr.RequestError`. */
  const UnavailableMarker: string := "[خطا در پردازش]"

  /** A soft outcome: one the loop absorbs into the text. */
  predicate Soft(r: Recognition) { !r.Raised? }

  predicate AllSoft(rs: seq<Recognition>)
  {
    forall k :: 0 <= k < |rs| ==> Soft(rs[k])
  }

  /** The text appended for one soft outcome. */
  function Fragment(r: Recognition): string
    requires Soft(r)
  {
    match r
    case Recognized(s) => s
    case NoSpeech => NoSpeechMarker
    case Unavailable => UnavailableMarker
  }

  /** The first `k` outcomes are soft. */
  predicate SoftBefore(rs: seq<Recognition>, k: nat)
  {
    forall j :: 0 <= j < k && j < |rs| ==> Soft(rs[j])
  }

  /** The fragments of outcomes `j .. k - 1`, concatenated in order. */
  function TextBetween(rs: seq<Recognition>, j: nat, k: nat): string
    requires j <= k <= |rs| && SoftBefore(rs, k)
    decreases k - j
  {
    if k == j then "" else TextBetween(rs, j, k - 1) + Fragment(rs[k - 1])
  }

  /** The value of `text` after the first `k` iterations of
      `text += fragment`, starting from `""`. */
  function TextAfter(rs: seq<Recognition>, k: nat): string
    requires k <= |rs| && SoftBefore(rs, k)
  {
    TextBetween(rs, 0, k)
  }

  /** The final `text` of a loop over `rs` that ran to its end. */
  function Transcript(rs: seq<Recognition>): string
    requires AllSoft(rs)
  {
    TextAfter(rs, |rs|)
  }

  /** Independent reading of the same text: the fragments joined front to back. */
  function Join(fs: seq<string>): string
  {
    if fs == [] then "" else fs[0] + Join(fs[1..])
  }

  function Fragments(rs: seq<Recognition>): seq<string>
    requires AllSoft(rs)
  {
    seq(|rs|, k requires 0 <= k < |rs| => Fragment(rs[k]))
  }

  /** The index of the first outcome that raises, or `|rs|` when none does:
      the number of chunks the loop completes. */
  function FirstRaised(rs: seq<Recognition>): (r: nat)
    ensures r <= |rs|
    ensures SoftBefore(rs, r)
    ensures r < |rs| ==> rs[r].Raised?
  {
    if rs == [] then 0 else if rs[0].Raised? then 0 else 1 + FirstRaised(rs[1..])
  }

  /** The contract of `FirstRaised` pins it down: the loop stops at the
      first chunk that raises and at no other. */
  lemma FirstRaisedUnique(rs: seq<Recognition>, k: nat)
    requires k <= |rs|
    requires SoftBefore(rs, k)
    requires k < |rs| ==> rs[k].Raised?
    ensures FirstRaised(rs) == k
  {
  }

  lemma {:induction false} JoinAppend(a: seq<string>, b: seq<string>)
    ensures Join(a + b) == Join(a) + Join(b)
  {
    if a != [] {
      assert (a + b)[0] == a[0];
      assert (a + b)[1..] == a[1..] + b;
      JoinAppend(a[1..], b);
      calc {
        Join(a + b);
        a[0] + Join(a[1..] + b);
        a[0] + (Join(a[1..]) + Join(b));
        (a[0] + Join(a[1..])) + Join(b);
      }
    } else {
      assert a + b == b;
    }
  }

  lemma {:induction false} TextAfterIsJoin(rs: seq<Recognition>, k: nat)
    requires AllSoft(rs) && k <= |rs|
    ensures TextAfter(rs, k) == Join(Fragments(rs)[..k])
  {
    if k > 0 {
      var fs := Fragments(rs);
      TextAfterIsJoin(rs, k - 1);
      assert fs[..k] == fs[..k - 1] + [fs[k - 1]];
      JoinAppend(fs[..k - 1], [fs[k - 1]]);
      assert Join([fs[k - 1]]) == fs[k - 1] + Join([]);
    } else {
      assert Fragments(rs)[..0] == [];
    }
  }

  /** The transcript is the in-order concatenation, with no separator, of one
      fragment per chunk. */
  lemma TranscriptIsJoin(rs: seq<Recognition>)
    requires AllSoft(rs)
    ensures Transcript(rs) == Join(Fragments(rs))
  {
    TextAfterIsJoin(rs, |rs|);
    assert Fragments(rs)[..|rs|] == Fragments(rs);
  }

  /** The fragments of `i .. k - 1` are those of `i .. j - 1` followed by
      those of `j .. k - 1`. */
  lemma {:induction false} TextBetweenSplit(rs: seq<Recognition>, i: nat, j: nat, k: nat)
    requires i <= j <= k <= |rs| && SoftBefore(rs, k)
    ensures TextBetween(rs, i, k) == TextBetween(rs, i, j) + TextBetween(rs, j, k)
    decreases k - j
  {
    if k == j {
      assert TextBetween(rs, i, j) + "" == TextBetween(rs, i, j);
    } else {
      TextBetweenSplit(rs, i, j, k - 1);
      var a, b, f := TextBetween(rs, i, j), TextBetween(rs, j, k - 1), Fragment(rs[k - 1]);
      assert TextBetween(rs, i, k) == (a + b) + f;
      assert TextBetween(rs, j, k) == b + f;
      ConcatAssociative(a, b, f);
    }
  }

  lemma ConcatAssociative(a: string, b: string, c: string)
    ensures (a + b) + c == a + (b + c)
  {
  }

  /** Chunk `k`'s fragment stands in the transcript between the fragments of
      the chunks before it and those of the chunks after it. */
  lemma FragmentInPlace(rs: seq<Recognition>, k: nat)
    requires AllSoft(rs)
    requires k < |rs|
    ensures Transcript(rs) == TextAfter(rs, k) + Fragment(rs[k]) + TextBetween(rs, k + 1, |rs|)
  {
    TextBetweenSplit(rs, 0, k + 1, |rs|);
  }

  /** What one chunk contributes: the recognized text as it is, or the
      no-speech marker, or the service-error marker. */
  lemma OneChunkTranscript(r: Recognition)
    requires Soft(r)
    ensures r.Recognized? ==> Transcript([r]) == r.text
    ensures r.NoSpeech? ==> Transcript([r]) == NoSpeechMarker
    ensures r.Unavailable? ==> Transcript([r]) == UnavailableMarker
  {
    assert TextBetween([r], 0, 1) == "" + Fragment(r);
  }

  /** A no-speech or unavailable chunk never stops the loop: only an outcome
      that raises does. */
  lemma {:induction false} SoftNeverStops(rs: seq<Recognition>)
    ensures FirstRaised(rs) == |rs| <==> AllSoft(rs)
  {
    if rs != [] && !rs[0].Raised? {
      SoftNeverStops(rs[1..]);
      if AllSoft(rs[1..]) {
        forall k | 0 <= k < |rs| ensures Soft(rs[k]) {
          if k > 0 { assert rs[k] == rs[1..][k - 1]; }
        }
      }
    }
  }

  /** Three chunks whose middle one meets a `RequestError`: the marker stands
      in its place and the other two fragments keep theirs. */
  lemma MiddleChunkUnavailable(f1: string, f3: string)
    ensures AllSoft([Recognized(f1), Unavailable, Recognized(f3)])
    ensures Transcript([Recognized(f1), Unavailable, Recognized(f3)]) == f1 + UnavailableMarker + f3
  {
    var rs := [Recognized(f1), Unavailable, Recognized(f3)];
    assert TextAfter(rs, 1) == f1;
    assert TextAfter(rs, 2) == f1 + UnavailableMarker;
  }
}
