# AEGIS compliance pipeline — a Dafny model

AEGIS listens to a live sales or advisory conversation and flags utterances
that may break financial-services compliance rules. This project models the
sequential, data-shaping core of that pipeline and proves properties of the
model. The core has five parts:

- **Audio assembly** (`audio_handler.dfy`, module `Audio`). A recording flag
  gates the capture callback. Captured blocks are buffered until two seconds
  of samples are collected, then handed on as one concatenated chunk.
- **Document chunking** (`document_processor.dfy`, module `DocumentProcessor`).
  Sections longer than 1000 characters are greedily repacked from their
  sentences into pieces of at most 800 characters, unless a single sentence
  is longer on its own and then makes a piece by itself. Every section with more than
  50 stripped characters becomes a chunk, with the id `source_chunk_i`.
- **Retrieval post-processing** (`vector_store.dfy`, module `VectorStore`).
  The flat L2 index answers with `(distance, position)` pairs. Those become
  ranked, scored copies of the stored chunks (score `1/(1+d)`), and then the
  numbered context text for the prompt.
- **Analysis and review** (`worker_agent.dfy`, module `Worker`, and
  `guardian_agent.dfy`, module `Guardian`).
  - The analyzer builds the prompt's history from the last three
    utterances.
  - It always returns a verdict holding `risk_detected`, `explanation` and
    `suggestion`, whatever the model replied.
  - It keeps a ten-utterance window of history.
  - The guardian re-reviews verdicts that report a risk, and adopts or flags
    the refinement at a quality threshold of 7 (default score 5).
  - The guardian filters rules against a static denylist.
- **Session ledger** (`session.dfy`, module `Session`). Streamlit's session
  keys are `transcript`, `alerts`, `is_recording` and
  `conversation_history`. The model covers how the app initialises them,
  how one transcribed audio chunk updates them, and how a session is
  cleared.

Shared support modules:
- `wrappers.dfy`: `Option` and `Result`.
- `config.dfy`: the configuration constants 16000, 2, 32000 and 3.
- `text.dfy`: the parts of Python `str` the code uses: `join`, `strip`,
  `lower`, `in`, and `str(n)`. It also defines a split at a separator,
  which the code never calls; it is there only to state that the history
  text in the prompt gives back its entries (`Worker.ContextTextRoundTrip`).
- `values.dfy`: decoded JSON values, Python dictionaries over them,
  truthiness, and `>=` across types.

A Python dictionary is a `map<string, Value>`, so a missing key and a key
bound to `False` stay different.

Code that updates state step by step is modelled imperatively:
- the packing and chunking loops;
- the search and formatting loops;
- the audio assembly loop;
- the rule filter;
- the history, store and session updates.

Each such method is proved equal to a specification function, and the
properties are proved about that function.

The following calls are foreign and become inputs of the model:
- The language model's reply is a `ModelReply`: a decoded object, a decode
  error, or any other exception with its message.
- The index's nearest-neighbour answer is a sequence of `Neighbour`
  values.
- The two regular-expression splits are functions passed in.
- Each pass of the audio loop is a `Tick`, which says whether recording was
  still on, which block the queue gave, and whether handing it on
  succeeded.
- Transcription is a `Result`.
- The clock reading is a string parameter.

## Model

| member | source | states |
|---|---|---|
| Worker.Tail | src/agents/worker_agent.py:82 | `s[-n:]` keeps exactly min(n, len) elements, and they are the last ones of `s` |
| Worker.ContextText | src/agents/worker_agent.py:80-82 | no context or an empty context gives ""; a single entry gives that entry |
| Worker.ContextTextRoundTrip | src/agents/worker_agent.py:80-82 | splitting the history text at line breaks gives back exactly the last min(3, n) entries in order, when no entry holds a line break |
| Worker.ContextTextIgnoresOlderEntries | src/agents/worker_agent.py:82 | entries older than the last three never reach the prompt |
| Worker.FailureVerdict | src/agents/worker_agent.py:136-142 | any exception gives exactly the three fields: risk false, suggestion "", explanation "Analysis error: " followed by the message |
| Worker.WithDefault | src/agents/worker_agent.py:119-124 | a missing key gets its default, and every existing key keeps its value |
| Worker.Verdict | src/agents/worker_agent.py:114-134 | every reply gives all three fields; a decoded object keeps every key it had, extras included, and only missing fields become false/""/""; a decode error gives exactly {false, "Analysis error", ""} |
| Worker.FailuresAreNotRisks | src/agents/worker_agent.py:128-142 | a reply that fails to decode, or an error, never reads as a risk |
| Worker.AnalyzeUtterance | src/agents/worker_agent.py:67-142 | the verdict is always well formed; a retrieval that raises gives the failure verdict with its message; otherwise the model sees the rules, the last-three history and the utterance |
| Worker.WorkerAgent.constructor | src/agents/worker_agent.py:30-34 | a new agent starts with an empty conversation history |
| Worker.WorkerAgent.UpdateConversationHistory | src/agents/worker_agent.py:151-156 | the history becomes the last 10 of old history plus [u], so it has at most 10 entries and u is last |
| Worker.AfterUpdatesIsWindow | src/agents/worker_agent.py:151-156 | after any number of updates the history is the last ten utterances of everything seen, oldest first |
| Guardian.Unreviewed | src/agents/worker_agent.py:244-253 | the failure result is the alert with only `guardian_reviewed = false` added |
| Guardian.ReviewAlert | src/agents/worker_agent.py:175-253 | no truthy risk means the alert comes back untouched; otherwise `guardian_reviewed` is set; no key is dropped; risk and foreign keys are unchanged; a false mark means only the mark was added |
| Guardian.BypassIgnoresReviewer | src/agents/worker_agent.py:187-189 | without a risk the reviewer's answer cannot matter |
| Guardian.FailedReviewDegrades | src/agents/worker_agent.py:244-253 | a reply that fails to decode, or any error, gives the alert marked as not reviewed |
| Guardian.IncomparableScoreDegrades | src/agents/worker_agent.py:230-253 | a quality score that cannot be compared with 7 raises, and ends as a failed review |
| Guardian.GoodReviewAdopted | src/agents/worker_agent.py:227-235 | from score 7 up, the copy takes the refined explanation and suggestion (falling back to the originals), is marked reviewed and records the score; every other key is copied unchanged |
| Guardian.WeakReviewFlagged | src/agents/worker_agent.py:236-240 | below 7, the original explanation and suggestion stay, and the copy is marked reviewed, records the score and sets `needs_improvement` |
| Guardian.ThresholdBoundary | src/agents/worker_agent.py:230-231 | for any reply, the score passes exactly when it is a number of at least 7; a number below 7 or a boolean fails; a missing score counts as 5 and fails; any other value cannot be compared |
| Guardian.IsRuleSafe | src/agents/worker_agent.py:286-301 | true exactly when none of the three patterns occurs anywhere in the lower-cased rule |
| Guardian.ValidateComplianceRules | src/agents/worker_agent.py:266-284 | returns the safe rules, in order |
| Guardian.SafeRulesCharacterized | src/agents/worker_agent.py:278-284 | a rule is in the output if and only if it is in the input and safe; the output is a subsequence of the input |
| VectorStore.EffectiveK | src/rag/vector_store.py:89-90 | a missing `top_k` means the configured 3 |
| VectorStore.Score | src/rag/vector_store.py:104 | the score lies in (0, 1] and is 1 exactly at distance 0 |
| VectorStore.ScoreStrictlyDecreasing | src/rag/vector_store.py:104 | a larger distance always gives a strictly smaller score |
| VectorStore.ScoreInverse | src/rag/vector_store.py:104 | the distance can be recovered from the score |
| VectorStore.Wrap | src/rag/vector_store.py:102-103 | a negative position counts from the end of the chunk list |
| VectorStore.ShapeFailsIff | src/rag/vector_store.py:101-103 | the search raises exactly when some position is below -len(chunks); positions from -len to -1 are not rejected |
| VectorStore.ShapeSound | src/rag/vector_store.py:101-107 | at most one result per neighbour; each result is the stored chunk at its neighbour's position, with score 1/(1+d) and rank = 1 + the neighbour's place; ranks are at least 1 and strictly increase |
| VectorStore.ShapeComplete | src/rag/vector_store.py:101-106 | every neighbour with position below len(chunks) has its result |
| VectorStore.ScoresNonIncreasing | src/rag/vector_store.py:97-106 | when distances ascend, scores never increase down the results |
| VectorStore.MissingNeighbourReadsLastChunk | src/rag/vector_store.py:102-103 | a neighbour at position -1 passes the filter and returns the last stored chunk |
| VectorStore.FormatContextNoRulesIff | src/rag/vector_store.py:120-130 | the text is "No relevant compliance rules found." if and only if there are no results |
| VectorStore.FormatContextSnoc | src/rag/vector_store.py:126-130 | each result adds one entry "[Rule k from source]:\ntext" after a blank line, numbered 1..n by position |
| VectorStore.FormatContextIgnoresScoreAndRank | src/rag/vector_store.py:127-128 | the text depends only on each result's source and text, not on its score or rank |
| VectorStore.VectorStore.constructor | src/rag/vector_store.py:15-20 | a new store has no index, no chunks and no embeddings |
| VectorStore.VectorStore.BuildIndex | src/rag/vector_store.py:22-40 | succeeds exactly on a non-empty rectangular matrix; then the index, chunks and embeddings are all set; on failure nothing changes |
| VectorStore.VectorStore.Search | src/rag/vector_store.py:74-108 | with no index the result is []; otherwise it is the shaped answer, with at most top_k results |
| VectorStore.VectorStore.GetContextForQuery | src/rag/vector_store.py:110-130 | the formatted context of the default-k search, or the search's error |
| DocumentProcessor.PackLongSection | src/rag/document_processor.py:81-93 | the loop's pieces are exactly the stripped accumulators of the greedy groups |
| DocumentProcessor.PackingInvariant | src/rag/document_processor.py:84-93 | every sentence lands in exactly one group, in order; no group is empty; a group of two or more sentences is at most 800 characters; a group is closed only when the next sentence did not fit |
| DocumentProcessor.PackNonEmpty | src/rag/document_processor.py:87-90 | a piece is flushed only when the accumulator is non-empty |
| DocumentProcessor.PackPartitions | src/rag/document_processor.py:84-93 | after any sentence the accumulator is non-empty, so it is flushed at the end |
| DocumentProcessor.PiecesOfLongSection | src/rag/document_processor.py:81-93 | there is one piece per group and no more pieces than sentences; a piece of two or more sentences is at most 800 characters |
| DocumentProcessor.ShortSectionsPassThrough | src/rag/document_processor.py:78-95 | sections of at most 1000 characters pass through unchanged and in order |
| DocumentProcessor.SplitIntoSections | src/rag/document_processor.py:71-97 | the final sections are each section's contribution in section order: repacked when long, as it is otherwise |
| DocumentProcessor.SectionChunks | src/rag/document_processor.py:56-66 | one document's chunks are the kept sections, numbered by position before filtering |
| DocumentProcessor.ChunkDocuments | src/rag/document_processor.py:40-69 | the chunks are documents in input order, then sections in split order |
| DocumentProcessor.DocChunksCharacterized | src/rag/document_processor.py:56-66 | each chunk is the stripped text of a section with more than 50 stripped characters, with id source + "_chunk_" + i and metadata source and i; indices increase; every kept section has its chunk |
| DocumentProcessor.ChunkIdsDistinct | src/rag/document_processor.py:61 | chunk ids within a document are pairwise distinct |
| Text.Strip | src/rag/document_processor.py:57-59 | the stripped text is no longer than the input and neither begins nor ends with whitespace |
| Text.StripSpec | src/rag/document_processor.py:57-59 | `strip` removes only whitespace, from both ends |
| Text.IsInfixCorrect | src/agents/worker_agent.py:297 | `p in s` holds exactly when p occurs at some position of s |
| Text.NatToStringRoundTrip | src/rag/document_processor.py:61 | the decimal rendering of an index reads back as the index |
| Text.SplitJoin | src/agents/worker_agent.py:82 | splitting undoes joining with a separator no part contains |
| Audio.DurationReachesChunk | src/audio/audio_handler.py:73-76 | the buffered duration reaches CHUNK_DURATION exactly when the sample count reaches CHUNK_DURATION * SAMPLE_RATE, which is CHUNK_SIZE |
| Audio.ProcessAudioChunks | src/audio/audio_handler.py:59-93 | the loop's chunks, buffer and sample count are those of the specification run over its passes |
| Audio.RunConsistent | src/audio/audio_handler.py:61-88 | the sample count always equals the buffer's size, and no chunk shorter than two seconds is ever handed on (a partial buffer at stop is dropped) |
| Audio.RunConserves | src/audio/audio_handler.py:72-88 | the chunks handed on, followed by the buffer, are exactly the received blocks in arrival order |
| Audio.RunFromEmpty | src/audio/audio_handler.py:61-93 | from the empty buffer, everything received is either handed on or still buffered |
| Audio.BufferStaysShort | src/audio/audio_handler.py:76-88 | while every hand-on succeeds, the buffer holds less than two seconds between passes |
| Audio.FullBlocksHandedOnAlone | src/audio/audio_handler.py:73-88 | with block size CHUNK_SIZE, each block is handed on alone, in order, and the buffer stays empty |
| Audio.StopEndsLoop | src/audio/audio_handler.py:64 | nothing after the first pass that finds recording off has any effect |
| Audio.AudioHandler.constructor | src/audio/audio_handler.py:17-21 | a new handler is not recording and its queue is empty |
| Audio.AudioHandler.AudioCallback | src/audio/audio_handler.py:33-36 | a block is queued only while recording |
| Audio.AudioHandler.StopRecording | src/audio/audio_handler.py:51-53 | the flag is cleared and the queue is untouched |
| Audio.AudioHandler.StartRecording | src/audio/audio_handler.py:23-25 | the flag is set and the queue is untouched |
| Session.Init | src/ui/streamlit_app.py:40-47 | every key is set afterwards; a key that was already set keeps its value; an absent transcript, alerts or history becomes the empty list and an absent recording flag becomes false |
| Session.InitIdempotent | src/ui/streamlit_app.py:40-47 | initialising again changes nothing |
| Session.AegisApp.constructor | src/ui/streamlit_app.py:31-47 | the session becomes Init of what it was |
| Session.Clear | src/ui/streamlit_app.py:206-211 | the three lists become empty and `is_recording` does not change |
| Session.AegisApp.ClearSession | src/ui/streamlit_app.py:206-211 | the session becomes Clear of what it was |
| Session.OnChunk | src/ui/streamlit_app.py:77-115 | a transcription that raises, or an empty one, leaves the ledger unchanged; `is_recording` never changes |
| Session.OnChunkAppends | src/ui/streamlit_app.py:83-112 | a non-empty text adds exactly one transcript entry and one history entry; the analyzer gets the old history; an alert (same time, original text, reviewed analysis) is added if and only if the analysis reports a risk |
| Session.ReviewerOnlyOnRisk | src/ui/streamlit_app.py:101-105 | without a risk the reviewer cannot influence the ledger |
| Session.ReplayFromFreshSession | src/ui/streamlit_app.py:40-47 | a new session, once initialised, is not recording, and after any sequence of chunks its history is exactly the non-empty texts in order, with the transcript holding the same texts and alerts never outnumbering them |
| Session.ReplayLedger | src/ui/streamlit_app.py:85-112 | from a cleared session, the history is never trimmed and equals the non-empty texts in order; the transcript holds the same texts; alerts never outnumber transcript entries |
| Session.AegisApp.OnAudioChunk | src/ui/streamlit_app.py:77-115 | the session becomes OnChunk of what it was |

## Left out

- I/O and foreign calls are inputs and not modelled: the language-model calls and prompt wording, the FAISS index and its `search`, SentenceTransformer embeddings, pickle and FAISS save/load, the speech-to-text service, the sounddevice stream, the `wave` encoding, and Streamlit rendering, reruns and sleeps.
- The two regular-expression splits (`\n\n+|…` into sections, `(?<=[.!?])\s+` into sentences) are not modelled; they are parameters.
- Concurrency is not modelled: the asyncio queue, tasks and the 0.1 s timeout. A pass whose queue read timed out is a `Tick` without a block. The loop reads the recording flag through the `Tick` script, not from the object, because `stop_recording` changes it from another task.
- The float32 to int16 conversion and the WAV bytes are not modelled: a handed-on chunk is the concatenated samples. The code does not clamp.
- Audio.Step: the buffered duration is kept as an exact sample count; the float sum of `len/SAMPLE_RATE`, whose rounding could differ, is not modelled.
- Audio.Tick: a hand-on that raises is modelled as delivering nothing; a callback that does part of its work before raising is not modelled.
- Text.Lower lower-cases ASCII letters only, so it differs from `str.lower` on non-ASCII text. This does not change `Guardian.IsRuleSafe`'s answer on any input: the three patterns are ASCII, and a non-ASCII character stays non-ASCII under both lowerings, except the Kelvin sign, which becomes `k`, and U+0130, which becomes `i` followed by U+0307. No pattern contains `k`, and no pattern holds an `i` that ends the pattern or is followed by U+0307, so neither character can take part in a match.
- Worker.ModelReply: a reply that decodes to JSON other than an object (a list, a number) is not modelled.
- Guardian.ReviewAlert: on a failed review the source also writes `guardian_reviewed = false` into the caller's dictionary. The model returns the new value; that aliasing is not represented.
- Values.AtLeast: NaN scores are not modelled, nor comparisons with strings or containers beyond raising.
- VectorStore.Score is computed over exact reals; float32 distances and float rounding are not modelled.
- VectorStore.VectorStore.Search takes `top_k` as a positive integer; `top_k <= 0`, which FAISS rejects, is not modelled.
- VectorStore.VectorStore.BuildIndex: a zero-dimension index and FAISS's own checks on the matrix are not modelled. Only the empty and ragged cases, which fail before any field is assigned, are.
- `load_index`, `save_index`, `load_documents`, `generate_embeddings` and `save_processed_data` are file or library I/O and are not modelled.
- The application's own `start_recording`/`stop_recording` (streamlit_app.py:194-204) and `initialize_components` are not modelled; they only flip `is_recording` around the audio handler's start/stop and build collaborators.
- Where the design description and the code disagree, the model follows the code:
  - result order, including ties at equal distance, is whatever the index returns;
  - ranks can skip numbers where a neighbour is filtered out;
  - the audio queue is unbounded;
  - sample conversion does not clamp;
  - the verdict's three fields are guaranteed present, but not their types (a decoded object keeps whatever values it had).
