/** `handle_voice` (telegram_bot/tlbot.py, lines 46-126): cut the decoded
    audio into 30-second chunk files, transcribe them one after the other,
    remove each chunk file, reply, and only then store the text in
    `user_data['last_text']`.  The outcomes of the calls outside the bot
    (`get_file`, the replies, `download_to_drive`, pydub's decoding, the
    recognizer) are an input `VoiceEnv`; each of those that can raise inside
    the `try` is a point where the run can leave for the `except` branch.
    `chunk.export`, the scheduler calls and `os.remove` are taken not to
    raise (see README). */
module Voice {
  import opened Options
  import opened Segmentation
  import opened ChunkPaths
  import opened Transcription
  import opened Session
  import opened TempStorage
  import Buttons

  /** How the outside world behaves during one run. */
  datatype VoiceEnv = VoiceEnv(
    fileFetched: bool,                // `get_file` (line 54), outside the `try`
    progressSent: bool,               // the "processing" reply (line 59)
    downloaded: bool,                 // `download_to_drive` (line 65)
    decoded: Option<nat>,             // `AudioSegment.from_file` (line 68): length in ms
    recognize: Chunk -> Recognition,  // `recognize_google` on a chunk (lines 88-96)
    transcriptSent: bool,             // the transcript reply (line 104)
    offerSent: bool)                  // the translate offer (lines 114-117)

  /** The recognizer's outcome for each chunk, in chunk order. */
  function Outcomes(chunks: seq<Chunk>, recognize: Chunk -> Recognition): seq<Recognition>
  {
    seq(|chunks|, k requires 0 <= k < |chunks| => recognize(chunks[k]))
  }

  /** The run got as far as building the chunk list. */
  predicate Segmented(env: VoiceEnv)
  {
    env.progressSent && env.downloaded && env.decoded.Some?
  }

  /** The chunks the run exported (none when it stopped earlier). */
  function ChunkList(env: VoiceEnv): seq<Chunk>
  {
    if Segmented(env) then Chunks(env.decoded.value) else []
  }

  /** The number of chunks whose iteration of the loop completed. */
  function Processed(env: VoiceEnv): (k: nat)
    ensures k <= |ChunkList(env)|
  {
    FirstRaised(Outcomes(ChunkList(env), env.recognize))
  }

  /** The transcription loop ran to its end. */
  predicate LoopFinished(env: VoiceEnv)
  {
    Segmented(env) && Processed(env) == |ChunkList(env)|
  }

  /** The value of `text` when the loop stops. */
  function TranscriptOf(env: VoiceEnv): string
  {
    TextAfter(Outcomes(ChunkList(env), env.recognize), Processed(env))
  }

  /** The run reached the `user_data['last_text'] = text` line. */
  predicate Stored(voice: Option<string>, env: VoiceEnv)
  {
    voice.Some? && env.fileFetched && LoopFinished(env) && env.transcriptSent
  }

  /** `user_data` after the run. */
  function UserDataAfter(u: map<string, string>, voice: Option<string>, env: VoiceEnv): map<string, string>
  {
    if Stored(voice, env) then u[LastTextKey := TranscriptOf(env)] else u
  }

  /** The paths of the chunk files the run exported, in chunk order. */
  function ExportedPaths(id: string, env: VoiceEnv): seq<string>
  {
    ChunkPathList(id, |ChunkList(env)|)
  }

  /** The scratch directory after the run: chunk files were exported and
      those whose iteration completed were removed; the `finally` block
      removes the `.ogg` and `.wav` paths. */
  function FilesAfter(f: set<string>, voice: Option<string>, env: VoiceEnv): set<string>
  {
    if voice.None? || !env.fileFetched then f
    else
      var ps := ExportedPaths(voice.value, env);
      ((f + Elements(ps)) - Prefix(ps, Processed(env)))
        - {OggPath(voice.value), WavPath(voice.value)}
  }

  /** The replies whose `reply_text` call returns normally, in order (a
      reply whose call raises counts as not delivered), followed by the
      error reply when the run ends in the `except` branch. */
  function RepliesOf(voice: Option<string>, env: VoiceEnv): seq<Reply>
  {
    if voice.None? then [NoVoiceFile]
    else if !env.fileFetched then []
    else if !env.progressSent then [VoiceError]
    else if !LoopFinished(env) || !env.transcriptSent then [Processing, VoiceError]
    else if !env.offerSent then [Processing, TranscriptReply(TranscriptOf(env)), VoiceError]
    else [Processing, TranscriptReply(TranscriptOf(env)), TranslateOffer]
  }

  /** The quote job was started (line 85) and never removed (line 102). */
  predicate QuotesLeftRunning(voice: Option<string>, env: VoiceEnv)
  {
    voice.Some? && env.fileFetched && Segmented(env) && !LoopFinished(env)
  }

  /** Lines 71-78: one chunk and one exported chunk file per 30 000 ms. */
  method Segment(files: TempFiles, id: string, n: nat) returns (chunks: seq<Chunk>, paths: seq<string>)
    modifies files
    ensures chunks == Chunks(n)
    ensures paths == ChunkPathList(id, |chunks|)
    ensures files.paths == old(files.paths) + Elements(paths)
  {
    chunks, paths := [], [];
    var i: nat := 0;
    while i < n
      invariant i == |chunks| * ChunkLengthMs
      invariant ProducedBefore(chunks, n, i)
      invariant paths == ChunkPathList(id, |chunks|)
      invariant files.paths == old(files.paths) + Elements(paths)
      decreases n - i
    {
      var chunk := Chunk(i, Min(ChunkLengthMs, n - i));
      OffsetIndex(|chunks|);
      var chunkPath := ChunkPath(id, i / ChunkLengthMs);
      ChunksFromStep(chunks, n, i);
      ChunkPathListStep(id, |chunks|);
      ElementsAppend(paths, chunkPath);
      chunks := chunks + [chunk];
      paths := paths + [chunkPath];
      ghost var before := files.paths;
      files.Export(chunkPath);
      assert files.paths == before + {chunkPath};
      i := i + ChunkLengthMs;
    }
    assert ChunksFrom(n, i) == [];
  }

  /** Lines 81 and 87-99: append one fragment per chunk and remove the
      chunk's file, until a chunk raises.  `done` is the number of
      iterations that completed; the loop finished when `done == |chunks|`. */
  method Transcribe(files: TempFiles, chunks: seq<Chunk>, paths: seq<string>, recognize: Chunk -> Recognition)
    returns (text: string, done: nat)
    requires |paths| == |chunks|
    requires Distinct(paths)
    requires forall p :: p in paths ==> p in files.paths
    modifies files
    ensures done == FirstRaised(Outcomes(chunks, recognize))
    ensures text == TextAfter(Outcomes(chunks, recognize), done)
    ensures files.paths == old(files.paths) - Prefix(paths, done)
  {
    ghost var rs := Outcomes(chunks, recognize);
    text := "";
    var k := 0;
    while k < |chunks|
      invariant k <= |chunks|
      invariant SoftBefore(rs, k)
      invariant text == TextAfter(rs, k)
      invariant files.paths == old(files.paths) - Prefix(paths, k)
    {
      var r := recognize(chunks[k]);
      if r.Raised? {
        FirstRaisedUnique(rs, k);
        done := k;
        return;
      }
      DistinctNotInPrefix(paths, k);
      files.Remove(paths[k]);
      text := text + Fragment(r);
      PrefixStep(paths, k);
      k := k + 1;
    }
    FirstRaisedUnique(rs, k);
    done := k;
  }

  /** The whole handler for one incoming message; `voice` is the file id
      that `get_file` returns for the attached voice, if any. */
  method HandleVoice(session: UserSession, files: TempFiles, voice: Option<string>, env: VoiceEnv)
    returns (replies: seq<Reply>, quotesRunning: bool)
    modifies session, files
    ensures replies == RepliesOf(voice, env)
    ensures quotesRunning == QuotesLeftRunning(voice, env)
    ensures session.userData == UserDataAfter(old(session.userData), voice, env)
    ensures files.paths == FilesAfter(old(files.paths), voice, env)
  {
    quotesRunning := false;
    if voice.None? {
      replies := [NoVoiceFile];
      return;
    }
    if !env.fileFetched {
      // `get_file` raised before the `try`: the exception leaves the handler.
      replies := [];
      return;
    }
    var id := voice.value;
    var oggPath, wavPath := OggPath(id), WavPath(id);
    replies := [];
    var failed := false;
    // try:
    if !env.progressSent {
      failed := true;
    } else {
      replies := [Processing];
      if !env.downloaded {
        failed := true;
      } else {
        files.Export(oggPath);
        if env.decoded.None? {
          failed := true;
        } else {
          var chunks, paths := Segment(files, id, env.decoded.value);
          quotesRunning := true;  // scheduler.start()
          ChunkPathsDistinct(id, |chunks|);
          var text, done := Transcribe(files, chunks, paths, env.recognize);
          if done < |chunks| {
            failed := true;
          } else {
            quotesRunning := false;  // job.remove()
            if !env.transcriptSent {
              failed := true;
            } else {
              replies := replies + [TranscriptReply(text)];
              session.userData := session.userData[LastTextKey := text];
              if !env.offerSent {
                failed := true;
              } else {
                replies := replies + [TranslateOffer];
              }
            }
          }
        }
      }
    }
    // except Exception:
    if failed {
      replies := replies + [VoiceError];
    }
    // finally:
    files.RemoveIfExists(oggPath);
    files.RemoveIfExists(wavPath);
  }

  /** After the run, the translate button translates the stored transcript
      exactly when the run reached line 107; otherwise it answers as before. */
  lemma TranslateAfterVoice(u: map<string, string>, voice: Option<string>, env: VoiceEnv, translate: string -> string)
    ensures Stored(voice, env) ==>
      Buttons.HandleButton(Buttons.TranslateLabel, UserDataAfter(u, voice, env), translate)
        == Some(Translation(translate(TranscriptOf(env))))
    ensures !Stored(voice, env) ==>
      Buttons.HandleButton(Buttons.TranslateLabel, UserDataAfter(u, voice, env), translate)
        == Buttons.HandleButton(Buttons.TranslateLabel, u, translate)
  {
  }

  /** The transcript reply (line 104) returns normally exactly when
      `last_text` is written, and with that text.  (An exception at the translate offer, line 114,
      comes after the write, so that run stores the text and still ends with
      the error reply.) */
  lemma TranscriptShownIffStored(voice: Option<string>, env: VoiceEnv, t: string)
    ensures TranscriptReply(t) in RepliesOf(voice, env) <==> Stored(voice, env) && t == TranscriptOf(env)
  {
  }

  /** A stored transcript holds one fragment for every chunk of the audio,
      in chunk order, and the number of chunks is the ceiling of the duration
      over 30 s. */
  lemma StoredTextHasEveryFragment(voice: Option<string>, env: VoiceEnv)
    requires Stored(voice, env)
    ensures AllSoft(Outcomes(ChunkList(env), env.recognize))
    ensures TranscriptOf(env) == Join(Fragments(Outcomes(ChunkList(env), env.recognize)))
    ensures |ChunkList(env)| == CeilDiv(env.decoded.value, ChunkLengthMs)
  {
    var rs := Outcomes(ChunkList(env), env.recognize);
    SoftNeverStops(rs);
    TranscriptIsJoin(rs);
    ChunkCount(env.decoded.value);
  }

  /** The quote job is left scheduled exactly when some chunk raised inside
      the transcription loop: `job.remove()` is not in the `finally` block. */
  lemma QuotesLeftRunningIffChunkRaised(voice: Option<string>, env: VoiceEnv)
    ensures QuotesLeftRunning(voice, env) <==>
      (voice.Some? && env.fileFetched && Segmented(env) &&
       exists k :: 0 <= k < |ChunkList(env)| && env.recognize(ChunkList(env)[k]).Raised?)
  {
    var rs := Outcomes(ChunkList(env), env.recognize);
    SoftNeverStops(rs);
    if !AllSoft(rs) {
      var k :| 0 <= k < |rs| && !Soft(rs[k]);
      assert env.recognize(ChunkList(env)[k]).Raised?;
    } else {
      forall k | 0 <= k < |ChunkList(env)|
        ensures !env.recognize(ChunkList(env)[k]).Raised?
      {
        assert Soft(rs[k]);
      }
    }
  }

  /** When the loop finishes, none of the run's chunk files is left. */
  lemma NoChunkFilesAfterFinishedLoop(f: set<string>, id: string, env: VoiceEnv, k: nat)
    requires env.fileFetched && LoopFinished(env)
    requires k < |ChunkList(env)|
    ensures ChunkPath(id, k) !in FilesAfter(f, Some(id), env)
  {
    var ps := ExportedPaths(id, env);
    assert ps[..|ps|] == ps;
    assert ps[k] == ChunkPath(id, k);
  }

  /** When chunk `Processed(env)` raised, the chunk files from that one on
      stay in the scratch directory and those before it are gone. */
  lemma ChunkFilesLeftAfterRaise(f: set<string>, id: string, env: VoiceEnv, k: nat)
    requires env.fileFetched && Segmented(env)
    requires k < |ChunkList(env)|
    ensures ChunkPath(id, k) in FilesAfter(f, Some(id), env) <==> k >= Processed(env)
  {
    var ps := ExportedPaths(id, env);
    var m := Processed(env);
    assert ps[k] == ChunkPath(id, k);
    ChunkPathIsNotAudioPath(id, k);
    ChunkPathsDistinct(id, |ps|);
    if k < m {
      assert ps[..m][k] == ps[k];
    }
  }

  /** The `finally` block removes the downloaded `.ogg` file and the `.wav`
      path on every path through the `try`. */
  lemma AudioFilesRemoved(f: set<string>, id: string, env: VoiceEnv)
    requires env.fileFetched
    ensures OggPath(id) !in FilesAfter(f, Some(id), env)
    ensures WavPath(id) !in FilesAfter(f, Some(id), env)
    ensures forall p :: p in f && p != OggPath(id) && p != WavPath(id) && LoopFinished(env) ==>
      (p in FilesAfter(f, Some(id), env) <==> p !in Elements(ExportedPaths(id, env)))
  {
    var ps := ExportedPaths(id, env);
    if LoopFinished(env) {
      assert ps[..Processed(env)] == ps;
    }
  }

  /** Zero-length audio gives no chunk, so the loop does nothing and the
      stored text is the empty string. */
  lemma EmptyAudioStoresEmptyText(u: map<string, string>, id: string, env: VoiceEnv)
    requires env.fileFetched && env.progressSent && env.downloaded && env.transcriptSent
    requires env.decoded == Some(0)
    ensures ChunkList(env) == [] && TranscriptOf(env) == ""
    ensures UserDataAfter(u, Some(id), env) == u[LastTextKey := ""]
    ensures !QuotesLeftRunning(Some(id), env)
  {
    EmptyAudio(0);
  }

  /** A 65-second message whose middle chunk meets a `RequestError`: three
      chunks, the loop finishes, the marker stands in for the middle chunk
      and the quote job is removed. */
  lemma SixtyFiveSecondsMiddleUnavailable(id: string, env: VoiceEnv, a: string, b: string)
    requires env.progressSent && env.downloaded && env.decoded == Some(65000)
    requires env.recognize(Chunk(0, 30000)) == Recognized(a)
    requires env.recognize(Chunk(30000, 30000)) == Unavailable
    requires env.recognize(Chunk(60000, 5000)) == Recognized(b)
    ensures |ChunkList(env)| == 3 && LoopFinished(env)
    ensures TranscriptOf(env) == a + UnavailableMarker + b
    ensures env.fileFetched ==> !QuotesLeftRunning(Some(id), env)
  {
    SixtyFiveSeconds();
    var rs := Outcomes(ChunkList(env), env.recognize);
    assert rs == [Recognized(a), Unavailable, Recognized(b)];
    assert AllSoft(rs);
    SoftNeverStops(rs);
    MiddleChunkUnavailable(a, b);
  }

  /** A failing `get_file` raises before the `try`: nothing is sent, the
      `finally` block does not run, and neither the session nor the scratch
      directory changes. */
  lemma GetFileFailure(u: map<string, string>, f: set<string>, id: string, env: VoiceEnv)
    requires !env.fileFetched
    ensures RepliesOf(Some(id), env) == []
    ensures UserDataAfter(u, Some(id), env) == u
    ensures FilesAfter(f, Some(id), env) == f
    ensures !QuotesLeftRunning(Some(id), env)
  {
  }

  /** A failed download leaves the session alone, never starts the quote job
      and ends with the error reply. */
  lemma DownloadFailure(u: map<string, string>, id: string, env: VoiceEnv)
    requires env.fileFetched && env.progressSent && !env.downloaded
    ensures UserDataAfter(u, Some(id), env) == u
    ensures !QuotesLeftRunning(Some(id), env)
    ensures RepliesOf(Some(id), env) == [Processing, VoiceError]
  {
  }

  /** A new user (an empty `user_data`, line 107 being its only writer) sends
      a voice message into an empty scratch directory, then presses the
      translate button.  The button translates the transcript exactly when
      the run stored it, and otherwise finds nothing to translate; a run that
      finished its loop leaves no file behind. */
  method NewUserVoiceThenTranslate(id: string, env: VoiceEnv, translate: string -> string)
    returns (replies: seq<Reply>, answer: Option<Reply>, left: set<string>)
    ensures replies == RepliesOf(Some(id), env)
    ensures Stored(Some(id), env) ==> answer == Some(Translation(translate(TranscriptOf(env))))
    ensures !Stored(Some(id), env) ==> answer == Some(NothingToTranslate)
    ensures (!env.fileFetched || LoopFinished(env)) ==> left == {}
  {
    var session := new UserSession();
    var files := new TempFiles({});
    var quotesRunning;
    replies, quotesRunning := HandleVoice(session, files, Some(id), env);
    answer := Buttons.HandleButton(Buttons.TranslateLabel, session.userData, translate);
    left := files.paths;
    TranslateAfterVoice(map[], Some(id), env, translate);
    if env.fileFetched && LoopFinished(env) {
      var ps := ExportedPaths(id, env);
      assert ps[..Processed(env)] == ps;
    }
  }
}
