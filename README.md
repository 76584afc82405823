# TubeRAG backend, modelled in Dafny

TubeRAG is a Flask backend that answers questions about YouTube videos and rates their comments. For questions, it fetches a video's transcript, cuts it into overlapping chunks, stores them in one ChromaDB collection per video, and sends the nearest chunks with the question to a hosted completion API. For ratings, it fetches a video's top comments and asks the same API for a JSON sentiment report.

This project models the core of that backend:

- the chunker (`_split_text`);
- collection naming and listing;
- the engine's single video session: load, query, delete and list, as a class over an abstract store;
- the transcript strategies: the library API first, then the scraper with its json3 and XML formats;
- comment fetching, the prompt, fence stripping and report building of the sentiment engine;
- the validation and response shaping of the HTTP handlers.

Every module states its behaviour as functions over values and proves properties about them. Where the source works step by step, a method or a class follows those steps and is proved equal to the function:

- the chunking loop;
- the track search;
- the json3 and XML text loops;
- the comment loop;
- the fence stripping;
- the debug sample loop;
- the engine's methods that update `current_video_id` and `current_collection`.

The model treats the outside world as inputs:

- **Transcript fetcher:** what it returned (`Option<string>`).
- **Scraper:** the caption tracks, and a function from a track URL to its response.
- **Comment downloader:** the texts it yields, and whether it raises once they run out.
- **Completion API:** a function from prompt to text. This includes its own `"Error: …"` or `"Sorry, I encountered an error: …"` text.
- **`json.loads`:** a function from text to an optional JSON value.
- **Vector store's nearest-neighbour ranking:** a function from the documents and the question to the documents in ranked order.

The store itself is modelled as:

- the collection names in listing order;
- the records of each collection.

Modules:

- `Wrappers`: `Option`.
- `Strings`: Python's `strip`, `' '.join`, `startswith` and `endswith`, character `replace`, `str(n)` and slicing with `[:n]`.
- `JsonValue`: JSON values with Python truthiness and `dict.get`.
- `Chunker`, `Naming`, `RagEngine`: `backend/rag_engine.py`.
- `Transcript`: `backend/manual_transcript.py`.
- `Sentiment`: `backend/sentiment_engine.py`.
- `Api`: `backend/main.py`.

Behaviour of the code that the proofs make explicit:

- **Lossy naming round trip.** Collection naming is lossless only for ids without `_` (`Naming.RoundTrip`). YouTube ids may hold `_`, which comes back as `-` when listed (`Naming.UnderscoreComesBackAsDash`). Two ids that differ only in `-` against `_` share one collection (`Naming.DashAndUnderscoreCollide`).
- **A request the handlers do not catch.** A truthy body that is not an object makes `data.get` raise, and the handler's `except` branch calls `data.get` again. The framework's generic 500 page answers (`Api.Response.Unhandled`).
- **No defaults on `/analyze` success.** The success branch of `/analyze` reads the seven report fields with `analysis[key]`. A report without `"error"` that lacks one fails with the `KeyError` of the first missing field (`Api.IncompleteReportFails`).
- **`/analyze` errors are 200.** The handler's own failures are answered with status 200, not 4xx or 500 (`Api.AnalyzeStatus`).
- **Loop termination.** The chunking loop is guaranteed to end when `overlap < chunk_size` and `overlap < chunk_size // 2 + 2`, which the defaults 1000/100 satisfy; `Chunker.SplitText` requires that condition. Outside it the loop may or may not end: with `overlap >= chunk_size` and any non-empty text, `start` never moves forward and the loop runs forever (`Chunker.NoProgressWithLargeOverlap`), while some other parameters still end.
- **A repeated tail.** A transcript longer than `chunk_size - overlap` and at most `chunk_size` long gets at least two windows: the whole text, then a window holding only the text from `chunk_size - overlap` on. That second window yields a chunk unless its text is blank, and there are exactly two windows when `2 * overlap <= chunk_size` (`Chunker.OverlapOnlyTail`).
- **Dead check.** A transcript that is not blank always yields at least one chunk, so the `if not chunks` branch of `load_video` is never taken (`RagEngine.ChunksOfNonBlankText`).
- **Mixed session.** `load_video` assigns `current_collection` before it reads the collection's count. Loading a video whose collection exists but is empty, and whose transcript cannot be fetched, names that collection while `current_video_id` still names the previous video. Loading the previous video then takes the shortcut, and `query` searches the wrong collection (`RagEngine.MixedSessionAnswersFromWrongCollection`).
- **Comments lost at the limit.** `_fetch_comments` tests its count only when the next comment arrives. A downloader that raises right after the tenth kept comment loses all ten (`Sentiment.RaiseAfterLastKeptLosesAll`).

## Model

| member | source | states |
|---|---|---|
| Chunker.RFind | backend/rag_engine.py:79-80 | `rfind`: -1 or an index holding the character, with no later occurrence |
| Chunker.PySliceContents | backend/rag_engine.py:76 | `text[start:end]` holds `min(end, len(text)) - start` characters when `start` is before both, none otherwise, and its `i`-th character is the text's `start + i`-th |
| Chunker.WindowEnd | backend/rag_engine.py:75-85 | a window ends after its start and at most `chunk_size` later; a cut window ends beyond its middle |
| Chunker.WindowEndCut | backend/rag_engine.py:78-85 | without a break past the middle the window is full; otherwise it ends just after its last '.' or ' ' and no break follows inside it |
| Chunker.NextWindow | backend/rag_engine.py:75-86 | the loop body computes the window end and its text as `WindowEnd` and the slice |
| Chunker.SplitText | backend/rag_engine.py:69-90 | the loop returns `Chunks(text)`, every chunk stripped and not blank |
| Chunker.ChunksNonBlankStripped | backend/rag_engine.py:87-90 | every chunk `_split_text` returns is stripped and not blank |
| Chunker.WindowsChain | backend/rag_engine.py:74-88 | the windows start at 0, each next one starts `overlap` before the previous end, and the last reaches the end of the text |
| Chunker.WindowsCover | backend/rag_engine.py:74-88 | every character of the text lies in some window: chunking loses no text |
| Chunker.ShortTextOneChunk | backend/rag_engine.py:74-90 | a text of at most `chunk_size - overlap` characters gives one window, and its stripped text as the only chunk unless it is blank |
| Chunker.OverlapOnlyTail | backend/rag_engine.py:74-88 | a text longer than `chunk_size - overlap` and at most `chunk_size` long gets at least two windows: the first's text is the whole text stripped, the second's only the stripped tail from `chunk_size - overlap`; exactly two when `2*overlap <= chunk_size` |
| Chunker.NoProgressWithLargeOverlap | backend/rag_engine.py:74-88 | with `overlap >= chunk_size` the next start `end - overlap` is never after the current start |
| Chunker.SplitExample | backend/rag_engine.py:69-90 | "A. B. C." with size 4 and overlap 1 splits into "A. B", "B. C", "C." |
| Chunker.NonBlankOfStripped | backend/rag_engine.py:90 | the final filter leaves only stripped, non-blank chunks |
| Naming.CollectionName | backend/rag_engine.py:92-94 | the name starts with "video_", is that much longer than the id, and holds no '-' |
| Naming.VideoIdOf | backend/rag_engine.py:211-213 | the listed id has the name's length minus the prefix and holds no '_' |
| Naming.ListedIdOfName | backend/rag_engine.py:92-94 | naming then listing turns every '_' of the id into '-' |
| Naming.RoundTrip | backend/rag_engine.py:92-94 | naming then listing gives back every id without '_' |
| Naming.UnderscoreComesBackAsDash | backend/rag_engine.py:211-213 | "a_b" is listed as "a-b" |
| Naming.DashAndUnderscoreCollide | backend/rag_engine.py:92-94 | "a-b" and "a_b" name the same collection |
| Naming.NamesDistinguishIdsWithoutUnderscore | backend/rag_engine.py:92-94 | distinct ids without '_' get distinct collections |
| Naming.VideoIds | backend/rag_engine.py:205-214 | listing yields at most one id per collection and no id holds '_' |
| Naming.VideoIdsAppend | backend/rag_engine.py:209-213 | listing distributes over concatenated collection lists, so order is kept |
| Naming.ListingRoundTrip | backend/rag_engine.py:205-214 | listing a store named from ids without '_' gives back those ids in order |
| Naming.UnprefixedNamesSkipped | backend/rag_engine.py:210 | a collection whose name lacks "video_" is not listed |
| RagEngine.FetchTranscript | backend/rag_engine.py:53-67 | a transcript is kept iff it was fetched and is not blank, and then unchanged |
| RagEngine.GetOrCreate | backend/rag_engine.py:130-133 | an existing collection is kept as is; a new name gets an empty collection, listed last under the assumed listing order |
| RagEngine.RemoveCollection | backend/rag_engine.py:193 | the collection and its name are gone, and the others remain |
| RagEngine.Retrieve | backend/rag_engine.py:158-164 | at most `k` documents, all from the current collection |
| RagEngine.Delete | backend/rag_engine.py:189-203 | true iff the video's collection existed; it is removed and the session is cleared only when it was that video's; false changes nothing |
| RagEngine.LoadPreservesValid | backend/rag_engine.py:96-150 | loading keeps the store consistent and never names a video without a collection |
| RagEngine.LoadIdempotent | backend/rag_engine.py:99-100 | after a successful load, loading the same video again succeeds and changes nothing |
| RagEngine.FreshLoadStoresChunks | backend/rag_engine.py:116-146 | a fresh load stores the chunks in order with ids `chunk_i`, index `i` and the video id, sets the session, and leaves every other collection as it was |
| RagEngine.ChunksOfNonBlankText | backend/rag_engine.py:116-123 | a transcript that is not blank always yields chunks, so the `if not chunks` branch is dead |
| RagEngine.FailedLoadOfEmptyCollectionLeavesMixedSession | backend/rag_engine.py:105-119 | a failed load of a video with an empty collection sets `current_collection` and keeps the old `current_video_id` |
| RagEngine.MixedSessionAnswersFromWrongCollection | backend/rag_engine.py:99-119 | after that failure, reloading the old video takes the shortcut and `query` searches the other video's collection |
| RagEngine.QueryWithoutVideo | backend/rag_engine.py:154-155 | without a loaded video `query` gives the fixed "No video loaded" answer |
| RagEngine.QueryAsksOnlyWithContext | backend/rag_engine.py:157-182 | a prompt goes to the completion API only with retrieved chunks of the current collection |
| RagEngine.EmptyRetrievalAnswersNoInformation | backend/rag_engine.py:157-167 | with a video loaded and its collection present, `query` gives the fixed "No relevant information" answer exactly when retrieval finds no chunk |
| RagEngine.DeleteOtherVideoKeepsSession | backend/rag_engine.py:195-197 | deleting another video keeps the session |
| RagEngine.FreshLoadIsListedLast | backend/rag_engine.py:130-133 | a freshly loaded video is listed, after all videos stored before under the assumed listing order |
| RagEngine.ChunkIdsDistinct | backend/rag_engine.py:135 | distinct chunk indexes give distinct ids |
| RagEngine.NatToStringInjective | backend/rag_engine.py:135 | distinct numbers print differently |
| RagEngine.VideoRag.constructor | backend/rag_engine.py:16-28 | a new engine opens the persisted store with no video loaded |
| RagEngine.VideoRag.LoadVideo | backend/rag_engine.py:96-150 | updates the two session fields and the store as `Load` says, and keeps them consistent |
| RagEngine.VideoRag.Query | backend/rag_engine.py:152-187 | replies as `QueryResult` says on the current state |
| RagEngine.VideoRag.DeleteVideo | backend/rag_engine.py:189-203 | updates the session and the store as `Delete` says |
| RagEngine.VideoRag.ListVideos | backend/rag_engine.py:205-214 | the loop returns the listed ids of the store's collections in order |
| Transcript.Fallback | backend/manual_transcript.py:148-164 | the first truthy result wins; none iff both are falsy |
| Transcript.NewApiTranscript | backend/manual_transcript.py:18-25 | text iff the library returned entries |
| Transcript.NewApiTextLength | backend/manual_transcript.py:21 | the text is the entries joined by single spaces: their lengths plus one per gap |
| Transcript.FirstEnglish | backend/manual_transcript.py:77-81 | the index of the first track whose language starts with "en", with none before it |
| Transcript.ChosenTrack | backend/manual_transcript.py:77-84 | a track of the list; a non-English one only when no track is English, and then the first |
| Transcript.EnglishTrackPreferred | backend/manual_transcript.py:77-84 | when an English track exists, the first English track is chosen |
| Transcript.SelectTrack | backend/manual_transcript.py:77-84 | the loop with `break` chooses `ChosenTrack` |
| Transcript.Json3Url | backend/manual_transcript.py:93-96 | the URL keeps the base, then '&' or '?' by whether it had a query, then "fmt=json3" |
| Transcript.Json3UrlOneQuery | backend/manual_transcript.py:93-96 | a base with at most one '?' gives a URL with exactly one |
| Transcript.KeptStripped | backend/manual_transcript.py:112-113 | a segment is kept, stripped, iff it is not blank |
| Transcript.Json3PiecesFlat | backend/manual_transcript.py:107-113 | the nested event loop keeps the same texts as one pass over all segments in order |
| Transcript.Json3PiecesStripped | backend/manual_transcript.py:107-113 | every kept json3 text is stripped and not blank |
| Transcript.FlattenJson3 | backend/manual_transcript.py:105-113 | the nested loop builds `Json3Pieces(events)` |
| Transcript.AppendSegments | backend/manual_transcript.py:110-113 | the inner loop appends the segment pieces of one event |
| Transcript.RunLengthMaximal | backend/manual_transcript.py:130 | the entity body `[a-zA-Z0-9#]+` is matched greedily |
| Transcript.EntityLength | backend/manual_transcript.py:130 | an entity match is absent or at least three characters inside the text |
| Transcript.ReplaceEntitiesLeavesNone | backend/manual_transcript.py:130 | after substitution no entity is left |
| Transcript.ReplaceEntitiesKeepsClean | backend/manual_transcript.py:130 | a text without entities is unchanged |
| Transcript.ReplaceEntitiesIdempotent | backend/manual_transcript.py:130 | substituting entities twice is substituting once |
| Transcript.UnmatchedAmpersand | backend/manual_transcript.py:130 | a '&' that starts no entity stays and cannot start one after substitution |
| Transcript.IndexOf | backend/manual_transcript.py:131 | the first '>' of the text, or -1 |
| Transcript.TagLength | backend/manual_transcript.py:131 | a tag match `<[^>]+>` is absent or at least three characters inside the text |
| Transcript.RemoveTags | backend/manual_transcript.py:131 | removing tags never lengthens the text or adds characters |
| Transcript.RemoveTagsLeavesNone | backend/manual_transcript.py:131 | after removal no tag is left |
| Transcript.RemoveTagsKeepsClean | backend/manual_transcript.py:131 | a text without tags is unchanged |
| Transcript.RemoveTagsIdempotent | backend/manual_transcript.py:131 | removing tags twice is removing once |
| Transcript.CleanCue | backend/manual_transcript.py:130-132 | a cleaned cue is stripped |
| Transcript.XmlPieces | backend/manual_transcript.py:128-134 | at most one text per cue, each stripped and not blank |
| Transcript.CleanCues | backend/manual_transcript.py:128-134 | the loop builds `XmlPieces(cues)` |
| Transcript.ManualTranscriptStripped | backend/manual_transcript.py:31-146 | a scraped transcript is not blank and is stripped at both ends |
| Transcript.Json3BeforeXml | backend/manual_transcript.py:76-118 | for any list of tracks, a json3 response with text for the chosen track is used, and its XML is not read |
| Transcript.EnglishJson3Used | backend/manual_transcript.py:76-118 | when some track is English, the transcript is the json3 text of the first English track |
| Transcript.GetTranscriptManual | backend/manual_transcript.py:31-146 | the scraper's steps give `ManualTranscript` |
| Transcript.NewApiFirst | backend/manual_transcript.py:152-155 | a non-empty library transcript is returned whatever the scraper would give |
| Transcript.FallbackText | backend/manual_transcript.py:148-164 | the fallback's text is never empty, and it is stripped whenever the library gave nothing |
| Sentiment.FetchedCommentsShape | backend/sentiment_engine.py:44-67 | at most `max_results` comments, all non-empty, the first ones yielded, in order |
| Sentiment.CleanStreamTakesFirst | backend/sentiment_engine.py:51-63 | a downloader that does not raise gives its first `max_results` non-empty texts |
| Sentiment.RaiseAfterLastKeptLosesAll | backend/sentiment_engine.py:51-67 | a downloader that raises right after the last kept comment gives [] |
| Sentiment.FetchComments | backend/sentiment_engine.py:44-67 | the loop with its counter, `break` and exception gives `FetchedComments` |
| Sentiment.PromptShowsFirstThree | backend/sentiment_engine.py:72 | comments after the third do not change the prompt |
| Sentiment.StripFences | backend/sentiment_engine.py:101-108 | the text handed to `json.loads` is stripped and no longer than the response |
| Sentiment.CleanResponse | backend/sentiment_engine.py:101-108 | the step-by-step reassignments give `StripFences` |
| Sentiment.FencedBodyRecovered | backend/sentiment_engine.py:101-108 | a stripped body in a "```json" block comes out unchanged |
| Sentiment.PlainBodyUnchanged | backend/sentiment_engine.py:101-108 | a stripped body without fences is unchanged |
| Sentiment.NoCommentsNoCompletion | backend/sentiment_engine.py:151-163 | without comments the report is the fixed one with "error", whatever the completion API and parser would do |
| Sentiment.ReportShape | backend/sentiment_engine.py:148-182 | every report has "error", or has the requested video id and a count between 1 and 10 |
| Sentiment.AugmentedKeepsFields | backend/sentiment_engine.py:165-169 | the parsed report gains the count and the video id and keeps every other field |
| Sentiment.UnparsedCompletionGivesMixed | backend/sentiment_engine.py:110-122 | an unparseable completion gives score 50, "mixed", "low" and no "error" |
| Sentiment.NonObjectGivesFailure | backend/sentiment_engine.py:165-182 | a completion that parses to a value other than an object gives the "error" report, with the `TypeError` text |
| Sentiment.FailureReportShape | backend/sentiment_engine.py:171-182 | the exception report has score 50, sentiment "error", the message under "error" and no video id |
| Sentiment.AnalyzeVideoSentiment | backend/sentiment_engine.py:137-182 | fetching, completion, parsing and the in-place updates of `analysis` give `SentimentReport` |
| Api.Len | backend/main.py:176 | `len` is defined exactly on strings, lists and objects |
| Api.ChatSuccessIffOk | backend/main.py:151-220 | a `/chat` response says success exactly when its status is 200 |
| Api.ChatRejectsBeforeEngine | backend/main.py:157-187 | a missing body or a malformed string id gives 400 without touching or consulting the engine |
| Api.ChatNotFound | backend/main.py:189-201 | a video that does not load gives 404 with "No transcript available" |
| Api.ChatAnswers | backend/main.py:203-206 | a loaded video gives 200 with the answer of `query` with its default of four chunks on the new state, and the id echoed |
| Api.ChatNonStringIdNotFound | backend/main.py:176-201 | a list or object id of size 11 passes the check and gives 404, state unchanged |
| Api.ChatUnsizedIdFails | backend/main.py:176-220 | a number or `true` as id gives 500 with the `TypeError` text |
| Api.FirstMissing | backend/main.py:299-305 | the first report field the analysis lacks, none iff all seven are present |
| Api.AnalysisResponse | backend/main.py:278-310 | the response carries the id and a count; success iff the report has no "error" and all seven fields; "error" present iff it failed |
| Api.AnalyzeStatus | backend/main.py:223-328 | `/analyze` answers 400 exactly for a falsy body, or an object body whose id is falsy or has a length other than 11; every other answer is 200 |
| Api.AnalyzeRejectsBeforeEngine | backend/main.py:229-272 | a missing body or a malformed string id gives 400 whatever the sentiment engine would return |
| Api.ErrorReportCopied | backend/main.py:278-295 | a report with "error" fails, copies the error and takes each field from the report or its default |
| Api.CompleteReportSucceeds | backend/main.py:297-310 | a complete report without "error" succeeds with its seven fields unchanged |
| Api.IncompleteReportFails | backend/main.py:297-328 | a report lacking a field fails with the `KeyError` of the first missing one |
| Api.AnalyzeWellFormed | backend/main.py:274-310 | a well-formed string id reaches the sentiment engine and its report is answered with 200 |
| Api.AnalyzeWithoutComments | backend/main.py:275-295 | a video without comments fails with "No comments available" and a count of 0 |
| Api.AnalyzeCompleteReport | backend/main.py:275-310 | a complete report from the model succeeds with the number of comments analysed |
| Api.Preview | backend/main.py:104 | the preview is the document up to 200 characters, else its first 200 characters and "..." |
| Api.ChunkInfos | backend/main.py:84-110 | one sample entry per record, in order |
| Api.SampleChunks | backend/main.py:84-110 | the loop builds `ChunkInfos(sample)` |
| Api.Debug | backend/main.py:57-121 | success iff the video's collection exists; then its name, its number of records and a sample of its first three records |
| Api.DebugAfterFreshLoad | backend/main.py:61-110 | after a fresh load, debugging previews the first chunk under id `chunk_0` |
| Api.DeleteResponse | backend/main.py:133-144 | "deleted" and "success" both equal the engine's result |
| Api.ListResponse | backend/main.py:47-52 | "count" is the number of listed videos, which are the engine's listing |

## Left out

- HTTP: the completion API call, the YouTube page and track fetches. Their results are inputs.
- ChromaDB internals: embeddings, cosine nearest-neighbour search and persistence. Retrieval is a ranking function given by the caller. `get_collection` on an existing name succeeds and `delete_collection` on a missing name raises.
- The `ytInitialPlayerResponse` regex search and its `json.loads`: the caption tracks are given as data. Which of the two patterns matched, and the `None` results for no match or no parse, are that input being absent.
- `re.findall(r'<text[^>]*>(.*?)</text>')` over the XML: the cue bodies are given as data. The entity and tag substitutions applied to each cue are modelled.
- `youtube_comment_downloader` and `youtube_transcript_api`: their output is an input.
- Flask routing, CORS, dotenv, logging and `print`; the `/` health check, which returns a constant.
- `request.get_json()` raising on a wrong content type or malformed JSON: the body is the value it returned.
- The embedding dimensions and sample in the debug endpoint (numpy and float conversion). `Api.ChunkInfo` carries the id, preview, length and metadata only.
- `Api.Debug`: `collection.get(limit=3)` is taken to return the first three records in insertion order.
- Concurrent requests against the one process-wide engine.
- JSON numbers are integers; floats from the completion API are not modelled.
- The "unknown" report of `_analyze_with_llm`'s outer `except` (sentiment_engine.py:124-134): only exceptions other than `JSONDecodeError` reach it, and none of them is modelled. `json.loads` can raise such exceptions: a plain `ValueError` for an integer literal of more than 4300 digits, or a `RecursionError` for deeply nested JSON. The model has `parse` return `None` for every text that fails to parse, so it gives the "mixed" report (`Sentiment.UnparsedCompletionGivesMixed`) where the code gives "unknown".
- The text of exceptions raised by the store or the completion API: `Api.AnswerText` takes the store's message as a parameter, and `RagEngine.QueryResult` reports a vanished collection as `StoreError`.
- `RagEngine.Load`: the store calls `get_or_create_collection` (rag_engine.py:129) and `collection.add` (rag_engine.py:138) are taken never to raise, so a load with a non-blank transcript always succeeds. In the code, a rejected collection name (an id ending in `-` or `_` gives a name ending in `_`) makes `load_video` return false with nothing changed. A failing `add` (for example a failing embedding function) makes it return false after `current_collection` already names a new, empty collection, with `current_video_id` unchanged: a second way into the mixed session described at the top. Neither path is modelled.
- `RagEngine.GetOrCreate`: ChromaDB does not document the order of `list_collections()`; the model assumes a new collection is listed after all existing ones, and `RagEngine.FreshLoadIsListedLast` holds only under that assumption.
- `RagEngine.Retrieve`: that the ranking orders by distance is an assumption on the `rank` input, not proved.
- `Api.AnswerText`: a question that is not a string is taken to make the store raise.
- Negative `chunk_size` or `overlap`, and parameters that make the chunking loop run forever: `Chunker.SplitText` requires parameters for which every window starts after the one before.
- The `except` branches of `/videos`, `/videos/<id>` and `/videos/<id>/debug`: the store is modelled as never raising, so they are never reached.
