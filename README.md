# Voice-to-text Telegram bot: a verified model of its core

The bot (`telegram_bot/tlbot.py`) receives a voice message, downloads it as
`<id>.ogg`, decodes it, cuts it into 30-second chunk files
`<id>_chunk_<k>.wav`, sends each chunk to a speech recognizer in order and
concatenates the results into one text. A chunk that holds no recognizable
speech contributes the marker `[متنی یافت نشد]`. A chunk the service cannot
handle contributes `[خطا در پردازش]`. Each chunk file is removed after its
turn. After the loop the bot sends the text and stores it in the user's
session under `last_text`, then offers a translation. The reply buttons are
a fixed dispatch on the button text, and only the translate button reads
the session.

The model has one module per part of the handler:

- `Segmentation` (`segmentation.dfy`): the `range(0, len(audio), 30000)` loop.
  Audio is its length in milliseconds and a chunk is a start plus a length.
  `Slice`/`Flatten` apply the chunks to any sample sequence, cut short at
  the end of the audio as pydub's slicing is.
- `ChunkPaths` (`chunk_paths.dfy`): the file names, including Python's decimal
  `str` of the chunk index.
- `Transcription` (`transcript.dfy`): the recognizer's per-chunk outcome
  `Recognized(s) | NoSpeech | Unavailable | Raised`, the fragment each soft
  outcome contributes, and the text after `k` iterations of `text += …`.
- `TempStorage` (`temp_files.dfy`): the scratch directory, as a class holding
  the set of existing paths.
- `Session` (`session.dfy`): the reply kinds and `user_data`, as a class
  holding a `map<string, string>`.
- `Buttons` (`buttons.dfy`): `handle_button`, a pure function of the button
  text, the session map and the translation service.
- `Voice` (`voice.dfy`): `handle_voice`. It has imperative methods for the
  two loops and the whole handler. Each is proved against specification
  functions of a `VoiceEnv`, which holds the outcomes of the Telegram calls
  (`get_file`, the replies, `download_to_drive`), of pydub's decoding and of
  the recognizer. The module also holds lemmas about those functions.

Behaviour of the code worth knowing; the model follows the code in each case.

- Zero-length audio gives no chunk at all. The loop then does nothing, and
  the empty string is stored as `last_text`.
- The quote job is removed only on the normal path (line 102). It is not
  removed in a `finally` block, so a chunk that raises leaves it scheduled
  (`QuotesLeftRunningIffChunkRaised`).
- Chunk files are removed only by the loop. After an exception, the files of
  the chunk that raised and of every later chunk stay behind
  (`ChunkFilesLeftAfterRaise`).
- `last_text` is written after the transcript reply (line 104) and before the
  translate offer (line 114). An exception while sending the offer still
  leaves the text stored, and the run still ends with the error reply.
- `<id>.wav` is never written by the code. Only its removal is attempted, in
  the `finally` block.

## Model

| member | source | states |
|---|---|---|
| `Segmentation.ChunkCount` | telegram_bot/tlbot.py:71-74 | the number of chunks of `n` ms of audio is `ceil(n / 30000)` |
| `Segmentation.ChunkAt` | telegram_bot/tlbot.py:74-75 | chunk `k` starts at `k * 30000`, below the audio length, and ends at `min((k + 1) * 30000, n)` |
| `Segmentation.EmptyAudio` | telegram_bot/tlbot.py:74 | the chunk list is empty exactly when the audio has length 0 |
| `Segmentation.InnerChunk` | telegram_bot/tlbot.py:74-75 | every chunk except the last is exactly 30000 ms long, and the next chunk starts where it ends |
| `Segmentation.LastChunk` | telegram_bot/tlbot.py:74-75 | the last chunk ends at the end of the audio; its length is `n % 30000`, or 30000 when that is 0 |
| `Segmentation.Coverage` | telegram_bot/tlbot.py:74-75 | the chunks' slices of any sample sequence, concatenated in list order, give back the whole sequence: no gap, no overlap |
| `Segmentation.SixtyFiveSeconds` | telegram_bot/tlbot.py:71-75 | 65 000 ms of audio gives chunks of 30 s, 30 s and 5 s at offsets 0, 30 000 and 60 000 |
| `Segmentation.OffsetIndex` | telegram_bot/tlbot.py:76 | `i // chunk_length_ms` at the offset `k * 30000` is `k`; this is the arithmetic step of `Voice.Segment`, whose invariant (`i` is the number of chunks so far times `ChunkLengthMs`) and whose ensures (`paths` is `ChunkPathList` of the chunk count) give chunk `k` the file `<id>_chunk_<k>.wav` |
| `ChunkPaths.DecimalString` | telegram_bot/tlbot.py:76 | Python's `str` of a non-negative index: at least one character, every character a decimal digit, exactly one digit when the index is below 10, and a leading `0` only for the index 0 |
| `ChunkPaths.DecimalRoundTrip` | telegram_bot/tlbot.py:76 | reading the decimal `str` of `n` back as a number, like Python's `int`, gives `n` |
| `ChunkPaths.DecimalStringInjective` | telegram_bot/tlbot.py:76 | two numbers with the same decimal `str` are equal (a consequence of the round trip) |
| `ChunkPaths.ChunkPathInjective` | telegram_bot/tlbot.py:76 | two chunk paths of one message are equal only for the same chunk index |
| `ChunkPaths.ChunkPathsDistinct` | telegram_bot/tlbot.py:76-78 | the chunk paths of one message are pairwise distinct |
| `ChunkPaths.ChunkPathIsNotAudioPath` | telegram_bot/tlbot.py:55-56 | no chunk path is the `.ogg` or `.wav` path that the `finally` block removes |
| `Transcription.FirstRaised` | telegram_bot/tlbot.py:87-96 | the number of completed iterations: every earlier outcome is soft, and the outcome at that index, if any, raises |
| `Transcription.FirstRaisedUnique` | telegram_bot/tlbot.py:87-96 | the loop stops at the first chunk whose outcome raises and at no other |
| `Transcription.SoftNeverStops` | telegram_bot/tlbot.py:91-96 | the loop completes every chunk exactly when no outcome raises; no-speech and service errors never stop it |
| `Transcription.TranscriptIsJoin` | telegram_bot/tlbot.py:81-96 | the final text is the in-order concatenation, without separator, of one fragment per chunk |
| `Transcription.TextBetweenSplit` | telegram_bot/tlbot.py:87-96 | the fragments of a run of chunks are those of its first part followed by those of its second part |
| `Transcription.FragmentInPlace` | telegram_bot/tlbot.py:87-96 | chunk `k`'s fragment stands between the fragments of the earlier chunks and those of the later chunks |
| `Transcription.OneChunkTranscript` | telegram_bot/tlbot.py:92-96 | a one-chunk message's text is the recognized text as it is, the no-speech marker after `UnknownValueError`, or the service-error marker after `RequestError` |
| `Transcription.MiddleChunkUnavailable` | telegram_bot/tlbot.py:92-96 | three chunks whose middle one meets a service error give `f1 + "[خطا در پردازش]" + f3` |
| `TempStorage.TempFiles.Export` | telegram_bot/tlbot.py:77 | writing a file adds its path to the scratch directory and changes nothing else |
| `TempStorage.TempFiles.Remove` | telegram_bot/tlbot.py:99 | removing an existing file takes exactly its path out of the directory |
| `TempStorage.TempFiles.RemoveIfExists` | telegram_bot/tlbot.py:123-126 | the guarded removal leaves the path absent whether or not it existed |
| `Buttons.HandleButton` | telegram_bot/tlbot.py:143-176 | there is no reply exactly when the text is none of the six labels; translation happens exactly for the translate label with `last_text` present, and it translates the stored text; the translate label without `last_text` gives the "nothing to translate" reply |
| `Buttons.ReadsOnlyLastText` | telegram_bot/tlbot.py:153-158 | the reply depends on the session only through its `last_text` entry |
| `Buttons.OtherButtonsIgnoreSession` | telegram_bot/tlbot.py:147-176 | every text other than the translate label gets the same reply whatever the session holds |
| `Voice.Segment` | telegram_bot/tlbot.py:71-78 | the loop produces exactly `Chunks(n)`, and the path list of chunk `k` is `<id>_chunk_<k>.wav`; the scratch directory gains exactly those paths |
| `Voice.Transcribe` | telegram_bot/tlbot.py:81-99 | given existing, distinct chunk files: the loop completes `FirstRaised` iterations; the text is the fragments of those chunks in order; exactly their files are removed |
| `Voice.HandleVoice` | telegram_bot/tlbot.py:46-126 | the replies, the quote-job flag, `user_data` and the scratch directory after the handler are those of the specification functions, on every path through `try`/`except`/`finally` |
| `Voice.TranslateAfterVoice` | telegram_bot/tlbot.py:153-156 | after a voice run, the translate button translates that run's transcript exactly when the run reached the `last_text` write (line 107), and otherwise answers as before the run |
| `Voice.TranscriptShownIffStored` | telegram_bot/tlbot.py:104-120 | the transcript reply (line 104) returns normally exactly when `last_text` is written, and with that text |
| `Voice.StoredTextHasEveryFragment` | telegram_bot/tlbot.py:74-107 | a stored transcript joins one fragment for every one of the `ceil(n / 30000)` chunks, in chunk order |
| `Voice.QuotesLeftRunningIffChunkRaised` | telegram_bot/tlbot.py:82-102 | the quote job stays scheduled after the handler exactly when some chunk raised inside the loop |
| `Voice.NoChunkFilesAfterFinishedLoop` | telegram_bot/tlbot.py:87-99 | when the loop finishes, none of the message's chunk files remains |
| `Voice.ChunkFilesLeftAfterRaise` | telegram_bot/tlbot.py:87-126 | chunk `k`'s file remains after the handler exactly when the loop did not complete chunk `k` |
| `Voice.AudioFilesRemoved` | telegram_bot/tlbot.py:121-126 | the `.ogg` and `.wav` paths are absent after every run inside the `try`; after a finished loop, an unrelated file remains exactly when it is no chunk path of the message |
| `Voice.EmptyAudioStoresEmptyText` | telegram_bot/tlbot.py:74-107 | zero-length audio gives no chunk, the transcript is `""`, it is stored as `last_text`, and the quote job is removed |
| `Voice.SixtyFiveSecondsMiddleUnavailable` | telegram_bot/tlbot.py:71-102 | a 65-second message whose middle chunk meets a service error has three chunks; the loop finishes with `a + "[خطا در پردازش]" + b` and removes the quote job |
| `Voice.GetFileFailure` | telegram_bot/tlbot.py:54-58 | a failing `get_file` raises before the `try`: no reply is sent, the `finally` block does not run, `user_data` and the scratch directory are unchanged, and no quote job is started |
| `Voice.NewUserVoiceThenTranslate` | telegram_bot/tlbot.py:104-158 | for a new user (empty `user_data`) and an empty scratch directory: the replies are those of the handler; the translate button then translates the run's transcript exactly when the run stored it, and otherwise answers "nothing to translate"; a run that finished its loop, or never got its file, leaves no file behind |
| `Voice.DownloadFailure` | telegram_bot/tlbot.py:65-120 | a failed download leaves `user_data` alone, never starts the quote job, and ends with the error reply |

## Left out

- Telegram itself is not modelled: `reply_text`, `get_file`, `download_to_drive`, the keyboards (`ReplyKeyboardMarkup`), `main` and the event-loop start-up (lines 178-203). Of these, `get_file` (line 54), the replies at lines 59, 104 and 114-117 and `download_to_drive` (line 65) can fail in the model, each through a boolean of `VoiceEnv`. A reply is a `Reply` tag without its wording or keyboard.
- The no-voice reply at line 51 and every reply `handle_button` sends (lines 148, 158, 161, 164 and 173-176, and those of its helpers at lines 36 and 43) are assumed to be delivered: the model gives them no failure outcome.
- A reply whose `reply_text` call raises is taken as not delivered. A failure after delivery, such as a time-out after Telegram accepted the message, is not modelled: the user would then see that reply (for instance the transcript at line 104) although the run goes to the `except` branch and, for line 104, never writes `last_text`.
- The error reply at line 120 is assumed to be delivered. If it raised, the exception would leave the handler after the `finally` block.
- The `start` command (lines 129-140) only sends a greeting with a keyboard, so it is not modelled.
- pydub decoding is the input `decoded`: the audio length in ms, or `None` for a decode error.
- `TempStorage.TempFiles.Export`: `chunk.export` is modelled as always succeeding, because pydub's encoder is not part of this model. A failing export would raise inside the segmentation loop.
- `speech_recognition` is the input `recognize`: a function from a chunk to its outcome. `Raised` stands for any exception other than `UnknownValueError` or `RequestError` in the `with` block.
- `TempStorage.TempFiles.Remove` requires that the file exists, so `FileNotFoundError` from `os.remove` is not modelled. Its only caller, `Transcribe`, removes chunk files that `Segment` has just written. `ChunkPathsDistinct` shows that none is removed twice.
- `Voice.Transcribe` requires distinct chunk paths that all exist. `HandleVoice` establishes this from `Segment`'s contract and `ChunkPathsDistinct`; the source relies on the same fact without checking it.
- `GoogleTranslator` is the uninterpreted parameter `translate`. Its exceptions in `handle_button` are not modelled.
- The scheduler calls `add_job` and `start` (lines 82-85) and `job.remove()` (line 102) are assumed not to raise; so are `sr.Recognizer()` (line 88), `os.remove` of a chunk file (line 99) and the `ReplyKeyboardMarkup` construction (line 113). `VoiceEnv` has no outcome for them.
- The `AsyncIOScheduler` quote job is only a flag, set at line 85 and cleared at line 102. The 30-second timer, the background firing of `send_quote` and the interleaving of its replies with the handler's are concurrency and timing.
- `random.choice` in `send_quote` is not modelled: the quote button's reply is the tag `Quote`.
- Token and environment loading (lines 16-21) and `time.time()` (line 62) carry no behaviour the handler depends on.
- Several voice messages of one user handled at the same time are not modelled. The model is one run at a time, each with its own session and scratch directory objects.
