/**
 * The HTTP handlers of the backend (`main.py`): request validation, the
 * status code each outcome gets and the JSON body it is answered with.
 *
 * A request body is what `request.get_json()` returned. A response is a
 * status and a JSON object, or `Unhandled` where the handler's own `except`
 * branch raises again and the framework answers with its generic 500 page.
 * The engine state is a `RagEngine.Rag`, the transcript fetcher, the
 * store's ranking and the completion API are inputs, and the sentiment
 * engine is the function `analyze_video_sentiment` applied to the requested id.
 */
module Api {
  import opened Wrappers
  import opened Strings
  import opened JsonValue
  import opened Naming
  import opened RagEngine
  import Sentiment

  datatype Response = Response(status: int, body: map<string, Json>) | Unhandled

  /** Python's `len(x)` on a parsed JSON value; `None` where it raises `TypeError`. */
  function Len(j: Json): (n: Option<nat>)
    ensures n.Some? <==> j.JStr? || j.JArr? || j.JObj?
  {
    match j
    case JStr(s) => Some(|s|)
    case JArr(items) => Some(|items|)
    case JObj(fields) => Some(|fields.Keys|)
    case _ => None
  }

  /** The message of that `TypeError`. */
  function NoLenMessage(j: Json): string {
    "object of type '" + TypeName(j) + "' has no len()"
  }

  /** The length a YouTube video id must have. */
  const VideoIdLength: nat := 11

  /** The id passes the handlers' check: truthy, and `len` of it is 11. */
  predicate WellFormedId(videoId: Json) {
    Truthy(videoId) && Len(videoId) == Some(VideoIdLength)
  }

  /** The id fails the handlers' check without raising: falsy, or sized but not 11 long. */
  predicate RejectedId(videoId: Json) {
    !Truthy(videoId) || (Len(videoId).Some? && Len(videoId) != Some(VideoIdLength))
  }

  // ---------------------------------------------------------------------------
  // POST /chat

  const InvalidFormat: string := "Invalid request format"
  const NoJsonData: string := "No JSON data provided"
  const InvalidVideoId: string := "Invalid YouTube video ID format"
  const NoCaptions: string :=
    "This video doesn't have captions/transcripts available. Please try a different video with subtitles enabled."
  const NoTranscript: string := "No transcript available"
  const ChatFailed: string := "Sorry, I encountered an error while processing your question."

  /** A `/chat` body: the answer, the id as sent, whether it succeeded, and the error when it did not. */
  function ChatBody(answer: string, videoId: Json, error: Option<string>): map<string, Json>
  {
    var body := map["answer" := JStr(answer), "video_id" := videoId, "success" := JBool(error.None?)];
    if error.Some? then body["error" := JStr(error.value)] else body
  }

  /** The answer of `query` when its reply is a prompt or a store failure. */
  function QueryFailed(storeError: string): string {
    "Sorry, I encountered an error: " + storeError
  }

  /**
   * `rag_engine.query(question)` as text: a question that is not a string
   * makes the store raise, like a store that lost the collection.
   */
  function AnswerText(rag: Rag, question: Json, rank: (seq<string>, string) -> seq<string>,
                      complete: string -> string, storeError: string): string
  {
    if question.JStr? then
      match QueryResult(rag, question.s, DefaultK, rank)
      case Answer(text) => text
      case Ask(prompt) => complete(prompt)
      case StoreError => QueryFailed(storeError)
    else if IsLoaded(rag.session) then QueryFailed(storeError)
    else NoVideoLoaded
  }

  /**
   * `chat_with_video()`: the new engine state and the response. `load_video`
   * on an id that is not a string raises inside its own `try` and gives false
   * without touching the session.
   */
  function Chat(rag: Rag, body: Json, fetched: Option<string>,
                rank: (seq<string>, string) -> seq<string>, complete: string -> string,
                storeError: string): (Rag, Response)
    requires ValidStore(rag.store)
  {
    if !Truthy(body) then (rag, Response(400, ChatBody(InvalidFormat, JStr(""), Some(NoJsonData))))
    else if !body.JObj? then (rag, Unhandled)
    else
      var videoId := Get(body.fields, "video_id", JStr(""));
      var question := Get(body.fields, "question", JStr(""));
      if !Truthy(videoId) then (rag, Response(400, ChatBody(InvalidVideoId, videoId, Some(InvalidVideoId))))
      else if Len(videoId).None? then (rag, Response(500, ChatBody(ChatFailed, videoId, Some(NoLenMessage(videoId)))))
      else if Len(videoId) != Some(VideoIdLength) then
        (rag, Response(400, ChatBody(InvalidVideoId, videoId, Some(InvalidVideoId))))
      else if !videoId.JStr? then (rag, Response(404, ChatBody(NoCaptions, videoId, Some(NoTranscript))))
      else
        var (next, ok) := Load(rag, videoId.s, fetched);
        if !ok then (next, Response(404, ChatBody(NoCaptions, videoId, Some(NoTranscript))))
        else (next, Response(200, ChatBody(AnswerText(next, question, rank, complete, storeError), videoId, None)))
  }

  /** A `/chat` response reports success exactly when its status is 200. */
  lemma ChatSuccessIffOk(rag: Rag, body: Json, fetched: Option<string>,
                         rank: (seq<string>, string) -> seq<string>, complete: string -> string, storeError: string)
    requires ValidStore(rag.store)
    ensures var r := Chat(rag, body, fetched, rank, complete, storeError).1;
      r.Response? ==> "success" in r.body && (r.body["success"] == JBool(true) <==> r.status == 200)
  {
  }

  /**
   * A request without a body or without a well-formed id is answered with
   * 400 before the engine is used: the state is unchanged and the response
   * does not depend on the transcript, the store's ranking or the completion API.
   */
  lemma ChatRejectsBeforeEngine(rag: Rag, body: Json, fetched: Option<string>,
                                rank: (seq<string>, string) -> seq<string>, complete: string -> string,
                                storeError: string, fetched': Option<string>,
                                rank': (seq<string>, string) -> seq<string>, complete': string -> string)
    requires ValidStore(rag.store)
    requires !Truthy(body) || (body.JObj? && Get(body.fields, "video_id", JStr("")).JStr?
                               && !WellFormedId(Get(body.fields, "video_id", JStr(""))))
    ensures var (next, r) := Chat(rag, body, fetched, rank, complete, storeError);
      && next == rag
      && r.Response? && r.status == 400 && r.body["success"] == JBool(false)
      && (next, r) == Chat(rag, body, fetched', rank', complete', storeError)
  {
  }

  /** A well-formed string id whose video cannot be loaded gives 404. */
  lemma ChatNotFound(rag: Rag, body: Json, fetched: Option<string>,
                     rank: (seq<string>, string) -> seq<string>, complete: string -> string, storeError: string,
                     videoId: string)
    requires ValidStore(rag.store) && body.JObj? && Get(body.fields, "video_id", JStr("")) == JStr(videoId)
    requires |videoId| == VideoIdLength && !Load(rag, videoId, fetched).1
    ensures var (next, r) := Chat(rag, body, fetched, rank, complete, storeError);
      && next == Load(rag, videoId, fetched).0
      && r.Response? && r.status == 404 && r.body["error"] == JStr(NoTranscript)
  {
  }

  /**
   * A video that loads is queried with the question sent: 200, the answer
   * `query` gives on the new state, and the id echoed back.
   */
  lemma ChatAnswers(rag: Rag, body: Json, fetched: Option<string>,
                    rank: (seq<string>, string) -> seq<string>, complete: string -> string, storeError: string,
                    videoId: string)
    requires ValidStore(rag.store) && body.JObj? && Get(body.fields, "video_id", JStr("")) == JStr(videoId)
    requires |videoId| == VideoIdLength && Load(rag, videoId, fetched).1
    ensures var (next, r) := Chat(rag, body, fetched, rank, complete, storeError);
      && next == Load(rag, videoId, fetched).0
      && r.Response? && r.status == 200
      && r.body["answer"] == JStr(AnswerText(next, Get(body.fields, "question", JStr("")), rank, complete, storeError))
      && r.body["video_id"] == JStr(videoId)
      && "error" !in r.body
  {
  }

  /** An id that is a list or an object of 11 entries passes the check but never loads: 404. */
  lemma ChatNonStringIdNotFound(rag: Rag, body: Json, fetched: Option<string>,
                                rank: (seq<string>, string) -> seq<string>, complete: string -> string,
                                storeError: string)
    requires ValidStore(rag.store) && body.JObj?
    requires var v := Get(body.fields, "video_id", JStr("")); (v.JArr? || v.JObj?) && Len(v) == Some(VideoIdLength)
    ensures var (next, r) := Chat(rag, body, fetched, rank, complete, storeError);
      next == rag && r.Response? && r.status == 404
  {
  }

  /** A number or `true` as the id makes `len` raise: 500 with the `TypeError` message. */
  lemma ChatUnsizedIdFails(rag: Rag, body: Json, fetched: Option<string>,
                           rank: (seq<string>, string) -> seq<string>, complete: string -> string,
                           storeError: string)
    requires ValidStore(rag.store) && body.JObj?
    requires var v := Get(body.fields, "video_id", JStr("")); Truthy(v) && (v.JNum? || v.JBool?)
    ensures var (next, r) := Chat(rag, body, fetched, rank, complete, storeError);
      && next == rag && r.Response? && r.status == 500
      && r.body["error"] == JStr(NoLenMessage(Get(body.fields, "video_id", JStr(""))))
  {
  }

  // ---------------------------------------------------------------------------
  // POST /analyze

  /** The seven report fields, in the order the success response reads them. */
  const ReportFields: seq<string> :=
    ["worth_watching_score", "overall_sentiment", "summary", "pros", "cons", "key_themes", "confidence_level"]

  /** The `/analyze` body for a request it cannot analyse. */
  function AnalyzeFailure(summary: string, videoId: Json, error: string): map<string, Json>
  {
    map[
      "worth_watching_score" := JNum(50),
      "overall_sentiment" := JStr("error"),
      "summary" := JStr(summary),
      "pros" := JArr([]),
      "cons" := JArr([]),
      "key_themes" := JArr([]),
      "confidence_level" := JStr("low"),
      "total_comments_analyzed" := JNum(0),
      "video_id" := videoId,
      "success" := JBool(false),
      "error" := JStr(error)]
  }

  /** The first report field the analysis lacks, which `analysis[key]` raises `KeyError` on. */
  function FirstMissing(analysis: map<string, Json>, keys: seq<string>): (r: Option<string>)
    ensures r.None? <==> forall i :: 0 <= i < |keys| ==> keys[i] in analysis
    ensures r.Some? ==> r.value in keys && r.value !in analysis
  {
    if keys == [] then None
    else if keys[0] !in analysis then Some(keys[0])
    else FirstMissing(analysis, keys[1..])
  }

  lemma ReportFieldsPresent(analysis: map<string, Json>)
    requires FirstMissing(analysis, ReportFields).None?
    ensures "worth_watching_score" in analysis && "overall_sentiment" in analysis && "summary" in analysis
    ensures "pros" in analysis && "cons" in analysis && "key_themes" in analysis && "confidence_level" in analysis
  {
    assert ReportFields[0] in analysis && ReportFields[1] in analysis && ReportFields[2] in analysis;
    assert ReportFields[3] in analysis && ReportFields[4] in analysis && ReportFields[5] in analysis;
    assert ReportFields[6] in analysis;
  }

  /** `str(KeyError(key))`: the key in quotes. */
  function KeyErrorMessage(key: string): string {
    "'" + key + "'"
  }

  /** The response to the report of `analyze_video_sentiment`, for the id as sent. */
  function AnalysisResponse(analysis: map<string, Json>, videoId: Json): (b: map<string, Json>)
    ensures "success" in b && "video_id" in b && "total_comments_analyzed" in b && b["video_id"] == videoId
    ensures b["success"] == JBool("error" !in analysis && FirstMissing(analysis, ReportFields).None?)
    ensures "error" in b <==> b["success"] == JBool(false)
  {
    if "error" in analysis then
      map[
        "worth_watching_score" := Get(analysis, "worth_watching_score", JNum(50)),
        "overall_sentiment" := Get(analysis, "overall_sentiment", JStr("unknown")),
        "summary" := Get(analysis, "summary", JStr("Analysis failed")),
        "pros" := Get(analysis, "pros", JArr([])),
        "cons" := Get(analysis, "cons", JArr([])),
        "key_themes" := Get(analysis, "key_themes", JArr([])),
        "confidence_level" := Get(analysis, "confidence_level", JStr("low")),
        "total_comments_analyzed" := Get(analysis, "total_comments_analyzed", JNum(0)),
        "video_id" := videoId,
        "success" := JBool(false),
        "error" := analysis["error"]]
    else match FirstMissing(analysis, ReportFields)
      case Some(key) =>
        AnalyzeFailure("Analysis failed: " + KeyErrorMessage(key), videoId, KeyErrorMessage(key))
      case None =>
        ReportFieldsPresent(analysis);
        map[
          "worth_watching_score" := analysis["worth_watching_score"],
          "overall_sentiment" := analysis["overall_sentiment"],
          "summary" := analysis["summary"],
          "pros" := analysis["pros"],
          "cons" := analysis["cons"],
          "key_themes" := analysis["key_themes"],
          "confidence_level" := analysis["confidence_level"],
          "total_comments_analyzed" := Get(analysis, "total_comments_analyzed", JNum(0)),
          "video_id" := videoId,
          "success" := JBool(true)]
  }

  /**
   * `analyze_video()`, where `sentiment` is `analyze_video_sentiment` for
   * the requested id. Failures of the handler itself are answered with 200.
   */
  function Analyze(body: Json, sentiment: Json -> map<string, Json>): Response
  {
    if !Truthy(body) then Response(400, AnalyzeFailure(InvalidFormat, JStr(""), NoJsonData))
    else if !body.JObj? then Unhandled
    else
      var videoId := Get(body.fields, "video_id", JStr(""));
      if !Truthy(videoId) then Response(400, AnalyzeFailure(InvalidVideoId, videoId, InvalidVideoId))
      else if Len(videoId).None? then
        Response(200, AnalyzeFailure("Analysis failed: " + NoLenMessage(videoId), videoId, NoLenMessage(videoId)))
      else if Len(videoId) != Some(VideoIdLength) then
        Response(400, AnalyzeFailure(InvalidVideoId, videoId, InvalidVideoId))
      else Response(200, AnalysisResponse(sentiment(videoId), videoId))
  }

  /** Only a missing body or a malformed id gives 400; everything else the handler answers gives 200. */
  lemma AnalyzeStatus(body: Json, sentiment: Json -> map<string, Json>)
    ensures var r := Analyze(body, sentiment);
      r.Response? ==> (&& (r.status == 200 || r.status == 400)
                       && (r.status == 400 <==>
                             !Truthy(body) || (body.JObj? && RejectedId(Get(body.fields, "video_id", JStr(""))))))
  {
  }

  /** A request without a body or with a malformed string id is rejected before the sentiment engine runs. */
  lemma AnalyzeRejectsBeforeEngine(body: Json, sentiment: Json -> map<string, Json>,
                                   sentiment': Json -> map<string, Json>)
    requires !Truthy(body) || (body.JObj? && Get(body.fields, "video_id", JStr("")).JStr?
                               && !WellFormedId(Get(body.fields, "video_id", JStr(""))))
    ensures var r := Analyze(body, sentiment);
      && r.Response? && r.status == 400 && r.body["success"] == JBool(false)
      && r == Analyze(body, sentiment')
  {
    AnalyzeFailureFields(if Truthy(body) then InvalidVideoId else InvalidFormat,
                         if Truthy(body) then Get(body.fields, "video_id", JStr("")) else JStr(""),
                         if Truthy(body) then InvalidVideoId else NoJsonData);
  }

  lemma AnalyzeFailureFields(summary: string, videoId: Json, error: string)
    ensures var b := AnalyzeFailure(summary, videoId, error);
      && b["success"] == JBool(false) && b["error"] == JStr(error) && b["summary"] == JStr(summary)
      && b["video_id"] == videoId && b["total_comments_analyzed"] == JNum(0)
  {
  }

  /**
   * A report with an "error" key fails the request: the error is copied and
   * each report field is taken from the report or filled with its default.
   */
  lemma ErrorReportCopied(analysis: map<string, Json>, videoId: Json)
    requires "error" in analysis
    ensures var b := AnalysisResponse(analysis, videoId);
      && b["success"] == JBool(false)
      && b["error"] == analysis["error"]
      && b["video_id"] == videoId
      && b["worth_watching_score"] == Get(analysis, "worth_watching_score", JNum(50))
      && b["total_comments_analyzed"] == Get(analysis, "total_comments_analyzed", JNum(0))
      && (forall i :: 0 <= i < |ReportFields| && ReportFields[i] in analysis ==> b[ReportFields[i]] == analysis[ReportFields[i]])
  {
  }

  /** A complete report without "error" succeeds and carries its seven fields unchanged. */
  lemma CompleteReportSucceeds(analysis: map<string, Json>, videoId: Json)
    requires "error" !in analysis
    requires forall i :: 0 <= i < |ReportFields| ==> ReportFields[i] in analysis
    ensures var b := AnalysisResponse(analysis, videoId);
      && b["success"] == JBool(true)
      && "error" !in b
      && b["video_id"] == videoId
      && b["total_comments_analyzed"] == Get(analysis, "total_comments_analyzed", JNum(0))
      && (forall i :: 0 <= i < |ReportFields| ==> b[ReportFields[i]] == analysis[ReportFields[i]])
  {
  }

  /** A report without "error" that lacks a field fails with the `KeyError` of the first one missing. */
  lemma IncompleteReportFails(analysis: map<string, Json>, videoId: Json, key: string)
    requires "error" !in analysis && FirstMissing(analysis, ReportFields) == Some(key)
    ensures var b := AnalysisResponse(analysis, videoId);
      && b["success"] == JBool(false)
      && b["error"] == JStr(KeyErrorMessage(key))
      && key in ReportFields && key !in analysis
  {
    AnalyzeFailureFields("Analysis failed: " + KeyErrorMessage(key), videoId, KeyErrorMessage(key));
  }

  /** A video without comments is answered with success false, no comments counted and the engine's error. */
  lemma AnalyzeWithoutComments(body: Json, sentiment: Json -> map<string, Json>, videoId: string,
                               stream: Sentiment.CommentStream, complete: string -> string,
                               parse: string -> Option<Json>)
    requires body.JObj? && Get(body.fields, "video_id", JStr("")) == JStr(videoId) && |videoId| == VideoIdLength
    requires sentiment(JStr(videoId)) == Sentiment.SentimentReport(videoId, stream, complete, parse)
    requires Sentiment.FetchedComments(stream, Sentiment.MaxComments) == []
    ensures var r := Analyze(body, sentiment);
      && r.Response? && r.status == 200
      && r.body["success"] == JBool(false)
      && r.body["error"] == JStr("No comments available")
      && r.body["total_comments_analyzed"] == JNum(0)
  {
    AnalyzeWellFormed(body, sentiment, videoId);
    Sentiment.NoCommentsNoCompletion(videoId, stream, complete, parse, complete, parse);
    var report := sentiment(JStr(videoId));
    ErrorReportCopied(report, JStr(videoId));
  }

  /**
   * A video whose comments the model answers with a complete report
   * succeeds, and the count it reports is the number of comments analysed.
   * `SentimentReport` is `ReportOf` for the fetched comments and the
   * completion of their prompt.
   */
  lemma AnalyzeCompleteReport(body: Json, sentiment: Json -> map<string, Json>, videoId: string,
                              comments: seq<string>, response: string,
                              parse: string -> Option<Json>, fields: map<string, Json>)
    requires body.JObj? && Get(body.fields, "video_id", JStr("")) == JStr(videoId) && |videoId| == VideoIdLength
    requires sentiment(JStr(videoId)) == Sentiment.ReportOf(videoId, comments, response, parse)
    requires comments != [] && parse(Sentiment.StripFences(response)) == Some(JObj(fields))
    requires "error" !in fields && forall i :: 0 <= i < |ReportFields| ==> ReportFields[i] in fields
    ensures var r := Analyze(body, sentiment);
      && r.Response? && r.status == 200
      && r.body["success"] == JBool(true)
      && r.body["total_comments_analyzed"] == JNum(|comments|)
  {
    AnalyzeWellFormed(body, sentiment, videoId);
    Sentiment.AugmentedKeepsFields(videoId, comments, response, parse, fields);
    var report := sentiment(JStr(videoId));
    FieldsKeptAfterAugment(fields, report);
    CompleteReportSucceeds(report, JStr(videoId));
  }

  lemma FieldsKeptAfterAugment(fields: map<string, Json>, report: map<string, Json>)
    requires forall i :: 0 <= i < |ReportFields| ==> ReportFields[i] in fields
    requires report.Keys == fields.Keys + {"total_comments_analyzed", "video_id"} && "error" !in fields
    ensures forall i :: 0 <= i < |ReportFields| ==> ReportFields[i] in report
    ensures "error" !in report
  {
  }

  /** A well-formed string id reaches the sentiment engine, and its report is answered with 200. */
  lemma AnalyzeWellFormed(body: Json, sentiment: Json -> map<string, Json>, videoId: string)
    requires body.JObj? && Get(body.fields, "video_id", JStr("")) == JStr(videoId) && |videoId| == VideoIdLength
    ensures Analyze(body, sentiment) == Response(200, AnalysisResponse(sentiment(JStr(videoId)), JStr(videoId)))
  {
  }

  // ---------------------------------------------------------------------------
  // GET /videos/<video_id>/debug

  const PreviewLength: nat := 200

  /** `text_preview`: the document, or its first 200 characters and "..." when it is longer. */
  function Preview(document: string): (p: string)
    ensures |document| <= PreviewLength ==> p == document
    ensures |document| > PreviewLength ==> |p| == PreviewLength + 3 && StartsWith(document, p[..PreviewLength]) && EndsWith(p, "...")
  {
    if |document| > PreviewLength then document[..PreviewLength] + "..." else document
  }

  /** The part of a sample chunk `debug_video` reports about a record (the embedding is not modelled). */
  function ChunkInfo(r: Record): Json
  {
    JObj(map[
      "id" := JStr(r.id),
      "text_preview" := JStr(Preview(r.document)),
      "text_length" := JNum(|r.document|),
      "metadata" := JObj(map["chunk_index" := JNum(r.chunkIndex), "video_id" := JStr(r.videoId)])])
  }

  /** The sample chunks of the first records of a collection, in order. */
  function ChunkInfos(records: seq<Record>): (infos: seq<Json>)
    ensures |infos| == |records|
    ensures forall i :: 0 <= i < |records| ==> infos[i] == ChunkInfo(records[i])
  {
    if records == [] then [] else ChunkInfos(records[..|records| - 1]) + [ChunkInfo(records[|records| - 1])]
  }

  /** The loop that builds `sample_chunks`. */
  method SampleChunks(sample: seq<Record>) returns (chunks: seq<Json>)
    ensures chunks == ChunkInfos(sample)
  {
    chunks := [];
    var i := 0;
    while i < |sample|
      invariant 0 <= i <= |sample| && chunks == ChunkInfos(sample[..i])
    {
      assert sample[..i + 1][..i] == sample[..i];
      chunks := chunks + [ChunkInfo(sample[i])];
      i := i + 1;
    }
    assert sample[..i] == sample;
  }

  /** `collection.get(limit=3)`: the first three records of the collection. */
  const SampleSize: nat := 3

  /** `debug_video(video_id)`: the collection it inspects is the one `load_video` names. */
  function Debug(rag: Rag, videoId: string): (r: map<string, Json>)
    ensures "success" in r && r["success"] == JBool(CollectionName(videoId) in rag.store.collections)
    ensures CollectionName(videoId) in rag.store.collections ==>
      && "collection_name" in r && "total_chunks" in r && "sample_chunks" in r
      && r["collection_name"] == JStr(CollectionName(videoId))
      && r["total_chunks"] == JNum(|rag.store.collections[CollectionName(videoId)]|)
      && r["sample_chunks"].JArr?
      && r["sample_chunks"].items == ChunkInfos(Take(rag.store.collections[CollectionName(videoId)], SampleSize))
  {
    var name := CollectionName(videoId);
    if name !in rag.store.collections then
      map["video_id" := JStr(videoId), "exists" := JBool(false),
          "error" := JStr("Video not found in database"), "success" := JBool(false)]
    else
      var records := rag.store.collections[name];
      var sample := Take(records, SampleSize);
      map["video_id" := JStr(videoId), "collection_name" := JStr(name), "exists" := JBool(true),
          "total_chunks" := JNum(|records|), "sample_chunks" := JArr(ChunkInfos(sample)),
          "success" := JBool(true)]
  }

  /** Debugging a freshly loaded video previews its first chunks under the ids `load_video` gave them. */
  lemma DebugAfterFreshLoad(rag: Rag, videoId: string, transcript: string)
    requires ValidRag(rag) && rag.session.videoId != Some(videoId)
    requires CollectionName(videoId) !in rag.store.collections && !AllWhitespace(transcript)
    ensures var r := Debug(Load(rag, videoId, Some(transcript)).0, videoId);
      var chunks := Chunker.Chunks(transcript, Chunker.DefaultChunkSize, Chunker.DefaultOverlap);
      && r["success"] == JBool(true)
      && r["total_chunks"] == JNum(|chunks|)
      && |chunks| > 0 && |r["sample_chunks"].items| > 0
      && r["sample_chunks"].items[0] == ChunkInfo(Record("chunk_" + NatToString(0), chunks[0], 0, videoId))
  {
    FreshLoadStoresChunks(rag, videoId, transcript);
  }

  // ---------------------------------------------------------------------------
  // DELETE /videos/<video_id> and GET /videos

  /** `delete_video(video_id)`: both flags are the engine's result. */
  function DeleteResponse(rag: Rag, videoId: string): (r: (Rag, map<string, Json>))
    requires ValidStore(rag.store)
    ensures "deleted" in r.1 && "success" in r.1 && "video_id" in r.1
    ensures r.1["deleted"] == r.1["success"] == JBool(CollectionName(videoId) in rag.store.collections)
    ensures r.0 == Delete(rag, videoId).0 && r.1["video_id"] == JStr(videoId)
  {
    var (next, ok) := Delete(rag, videoId);
    (next, map["video_id" := JStr(videoId), "deleted" := JBool(ok), "success" := JBool(ok)])
  }

  /** `list_videos()`: the ids of the store's collections, and how many there are. */
  function ListResponse(rag: Rag): (r: map<string, Json>)
    ensures "videos" in r && "count" in r
    ensures r["videos"].JArr? && r["count"] == JNum(|r["videos"].items|)
    ensures r["videos"] == Strs(VideoIds(rag.store.names))
  {
    var videos := VideoIds(rag.store.names);
    map["videos" := Strs(videos), "count" := JNum(|videos|), "success" := JBool(true)]
  }
}
