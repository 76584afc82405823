/**
 * Sentiment analysis of a video's comments (`sentiment_engine.py`).
 *
 * The comment downloader, the completion API and `json.loads` are inputs:
 * a `CommentStream` is the texts the downloader yields and whether it
 * raises once they run out, `complete` is the completion API (its own
 * error text included) and `parse` is `json.loads`, `None` where it raises
 * `JSONDecodeError`.
 */
module Sentiment {
  import opened Wrappers
  import opened Strings
  import opened JsonValue

  const MaxComments: nat := 10

  // ---------------------------------------------------------------------------
  // `_fetch_comments`

  /** The `text` of each comment the downloader yields, and whether it raises when asked for one more. */
  datatype CommentStream = CommentStream(texts: seq<string>, raises: bool)

  /** The non-empty texts, in the order they were yielded. */
  function NonEmpty(texts: seq<string>): (r: seq<string>)
    ensures |r| <= |texts|
  {
    if texts == [] then []
    else NonEmpty(texts[..|texts| - 1]) + (if texts[|texts| - 1] != [] then [texts[|texts| - 1]] else [])
  }

  /**
   * The loop stops at a `break`: the stream yields one more comment after
   * `maxResults` non-empty ones have been kept.
   */
  predicate Breaks(texts: seq<string>, maxResults: nat) {
    texts != [] && |NonEmpty(texts[..|texts| - 1])| >= maxResults
  }

  /**
   * What `_fetch_comments` returns: the first `maxResults` non-empty texts,
   * or nothing when the stream raises before the loop could break.
   */
  function FetchedComments(stream: CommentStream, maxResults: nat): seq<string>
  {
    if stream.raises && !Breaks(stream.texts, maxResults) then []
    else Take(NonEmpty(stream.texts), maxResults)
  }

  lemma {:induction false} NonEmptyAppend(a: seq<string>, b: seq<string>)
    ensures NonEmpty(a + b) == NonEmpty(a) + NonEmpty(b)
    decreases |b|
  {
    if b != [] {
      assert (a + b)[..|a + b| - 1] == a + b[..|b| - 1];
      NonEmptyAppend(a, b[..|b| - 1]);
    } else {
      assert a + b == a;
    }
  }

  /** Kept texts of a prefix are a prefix of the kept texts. */
  lemma NonEmptyPrefix(texts: seq<string>, i: nat)
    requires i <= |texts|
    ensures NonEmpty(texts) == NonEmpty(texts[..i]) + NonEmpty(texts[i..])
  {
    assert texts == texts[..i] + texts[i..];
    NonEmptyAppend(texts[..i], texts[i..]);
  }

  lemma NonEmptyStep(texts: seq<string>, i: nat)
    requires i < |texts|
    ensures NonEmpty(texts[..i + 1]) == NonEmpty(texts[..i]) + (if texts[i] != [] then [texts[i]] else [])
  {
    PrefixExtend(texts, i);
  }

  /** Every kept text is non-empty. */
  lemma {:induction false} NonEmptyKeepsNonEmpty(texts: seq<string>)
    ensures forall j :: 0 <= j < |NonEmpty(texts)| ==> NonEmpty(texts)[j] != []
  {
    if texts != [] {
      NonEmptyKeepsNonEmpty(texts[..|texts| - 1]);
    }
  }

  /**
   * At most `maxResults` comments, all non-empty, and the first ones the
   * stream yielded, in order.
   */
  lemma FetchedCommentsShape(stream: CommentStream, maxResults: nat)
    ensures var r := FetchedComments(stream, maxResults);
      && |r| <= maxResults
      && (forall j :: 0 <= j < |r| ==> r[j] != [])
      && r == NonEmpty(stream.texts)[..|r|]
  {
    NonEmptyKeepsNonEmpty(stream.texts);
  }

  /** A stream that ends cleanly gives its first `maxResults` non-empty comments. */
  lemma CleanStreamTakesFirst(texts: seq<string>, maxResults: nat)
    ensures FetchedComments(CommentStream(texts, false), maxResults) == Take(NonEmpty(texts), maxResults)
  {
  }

  /**
   * A stream that raises right after yielding exactly `maxResults`
   * non-empty comments loses all of them: the loop only checks its count
   * when the next comment arrives, and that request raises.
   */
  lemma RaiseAfterLastKeptLosesAll(texts: seq<string>, maxResults: nat)
    requires texts != [] && texts[|texts| - 1] != [] && |NonEmpty(texts)| == maxResults
    ensures FetchedComments(CommentStream(texts, true), maxResults) == []
  {
    NonEmptyStep(texts, |texts| - 1);
    assert texts[..|texts|] == texts;
  }

  /** The loop of `_fetch_comments`, with its counter, `break` and exception. */
  method FetchComments(stream: CommentStream, maxResults: nat) returns (comments: seq<string>)
    ensures comments == FetchedComments(stream, maxResults)
  {
    var texts := stream.texts;
    comments := [];
    var count := 0;
    var broke := false;
    var i := 0;
    while i < |texts|
      invariant 0 <= i <= |texts|
      invariant comments == NonEmpty(texts[..i]) && count == |comments| <= maxResults
      invariant i > 0 ==> |NonEmpty(texts[..i - 1])| < maxResults
      invariant broke ==> i < |texts| && count == maxResults
    {
      if count >= maxResults {
        broke := true;
        break;
      }
      var text := texts[i];
      NonEmptyStep(texts, i);
      if text != [] {
        comments := comments + [text];
        count := count + 1;
      }
      i := i + 1;
    }
    if broke {
      BreakKeepsFirst(texts, i, maxResults);
    } else {
      assert texts[..i] == texts;
      EndKeepsAll(texts, maxResults);
      if stream.raises {
        return [];
      }
    }
  }

  /** The loop breaks at `i`: it has kept exactly the first `maxResults` non-empty texts. */
  lemma BreakKeepsFirst(texts: seq<string>, i: nat, maxResults: nat)
    requires i < |texts| && |NonEmpty(texts[..i])| == maxResults
    ensures Breaks(texts, maxResults) && NonEmpty(texts[..i]) == Take(NonEmpty(texts), maxResults)
  {
    NonEmptyPrefix(texts, i);
    if i < |texts| - 1 {
      NonEmptyPrefix(texts[..|texts| - 1], i);
      assert texts[..|texts| - 1][..i] == texts[..i];
    }
  }

  /** The loop runs out of texts without a break: it has kept all of them. */
  lemma EndKeepsAll(texts: seq<string>, maxResults: nat)
    requires |NonEmpty(texts)| <= maxResults
    requires texts != [] ==> |NonEmpty(texts[..|texts| - 1])| < maxResults
    ensures !Breaks(texts, maxResults) && NonEmpty(texts) == Take(NonEmpty(texts), maxResults)
  {
  }

  // ---------------------------------------------------------------------------
  // `_analyze_with_llm`

  /** The comment lines of the prompt: only the first three comments are shown. */
  function CommentLines(comments: seq<string>): string
  {
    Join(Bullets(Take(comments, 3)), "\n")
  }

  function Bullets(shown: seq<string>): seq<string>
  {
    seq(|shown|, i requires 0 <= i < |shown| => "- " + shown[i])
  }

  /** Comments after the third never reach the completion API. */
  lemma PromptShowsFirstThree(a: seq<string>, b: seq<string>)
    requires |a| >= 3 && |b| >= 3 && a[..3] == b[..3]
    ensures AnalysisPrompt(a) == AnalysisPrompt(b)
  {
    assert Take(a, 3) == Take(b, 3);
  }

  /** The request sent to the completion API: the instructions around the comment lines. */
  function AnalysisPrompt(comments: seq<string>): string {
    PromptHead + CommentLines(comments) + PromptTail
  }

  const PromptHead: string :=
    "Analyze the following YouTube video comments and provide a comprehensive sentiment analysis.\n\n"
    + "Comments:\n"

  const PromptTail: string :=
    "\n\n"
    + "Please provide your analysis in the following JSON format:\n"
    + "{\n"
    + "    \"worth_watching_score\": <number between 0-100>,\n"
    + "    \"overall_sentiment\": \"<positive/negative/mixed>\",\n"
    + "    \"summary\": \"<brief summary of overall opinion>\",\n"
    + "    \"pros\": [\"<positive aspect 1>\", \"<positive aspect 2>\", \"<positive aspect 3>\"],\n"
    + "    \"cons\": [\"<negative aspect 1>\", \"<negative aspect 2>\", \"<negative aspect 3>\"],\n"
    + "    \"key_themes\": [\"<theme 1>\", \"<theme 2>\", \"<theme 3>\"],\n"
    + "    \"confidence_level\": \"<high/medium/low>\"\n"
    + "}\n\n"
    + "Guidelines:\n"
    + "- worth_watching_score: 0-30 (not recommended), 31-60 (mixed/average), 61-100 (recommended)\n"
    + "- Focus on content quality, educational value, entertainment value\n"
    + "- Be objective and balanced in your analysis\n\n"
    + "Respond with ONLY the JSON object, no additional text."

  const Fence: string := "```"
  const JsonFence: string := "```json"

  /**
   * The text handed to `json.loads`: stripped, a leading "```json" removed,
   * then a leading "```", then a trailing "```", and stripped again.
   */
  function StripFences(response: string): (r: string)
    ensures IsStripped(r) && |r| <= |response|
  {
    var s0 := Strip(response);
    var s1 := if StartsWith(s0, JsonFence) then s0[7..] else s0;
    var s2 := if StartsWith(s1, Fence) then s1[3..] else s1;
    var s3 := if EndsWith(s2, Fence) then s2[..|s2| - 3] else s2;
    Strip(s3)
  }

  /** `clean_response`, reassigned step by step. */
  method CleanResponse(response: string) returns (clean: string)
    ensures clean == StripFences(response)
  {
    clean := Strip(response);
    if StartsWith(clean, JsonFence) {
      clean := clean[7..];
    }
    if StartsWith(clean, Fence) {
      clean := clean[3..];
    }
    if EndsWith(clean, Fence) {
      clean := clean[..|clean| - 3];
    }
    clean := Strip(clean);
  }

  /** A body the model wrapped in a "```json" block comes out as it went in. */
  lemma FencedBodyRecovered(body: string)
    requires IsStripped(body)
    ensures StripFences(JsonFence + "\n" + body + "\n" + Fence) == body
  {
    var s := JsonFence + "\n" + body + "\n" + Fence;
    assert s[0] == '`' && s[|s| - 1] == '`';
    StripStripped(s);
    assert StartsWith(s, JsonFence);
    var s1 := s[7..];
    assert s1 == "\n" + body + "\n" + Fence;
    assert !StartsWith(s1, Fence) by { assert s1[0] == '\n'; }
    assert EndsWith(s1, Fence);
    var s3 := s1[..|s1| - 3];
    assert s3 == "\n" + body + "\n";
    StripPadded("\n", body, "\n");
  }

  /** A body without fences or surrounding whitespace is left alone. */
  lemma PlainBodyUnchanged(body: string)
    requires IsStripped(body) && !StartsWith(body, Fence) && !EndsWith(body, Fence)
    ensures StripFences(body) == body
  {
    StripStripped(body);
    JsonFenceIsFence(body);
  }

  lemma JsonFenceIsFence(s: string)
    ensures StartsWith(s, JsonFence) ==> StartsWith(s, Fence)
  {
    if StartsWith(s, JsonFence) {
      assert s[..3] == JsonFence[..3];
    }
  }

  /** The seven report fields with the given values. */
  function Report(score: int, sentiment: string, summary: string, pros: seq<string>, cons: seq<string>,
                  themes: seq<string>, confidence: string): (r: map<string, Json>)
    ensures r.Keys == ReportKeys
  {
    map[
      "worth_watching_score" := JNum(score),
      "overall_sentiment" := JStr(sentiment),
      "summary" := JStr(summary),
      "pros" := Strs(pros),
      "cons" := Strs(cons),
      "key_themes" := Strs(themes),
      "confidence_level" := JStr(confidence)]
  }

  const ReportKeys: set<string> :=
    {"worth_watching_score", "overall_sentiment", "summary", "pros", "cons", "key_themes", "confidence_level"}

  /** The report for a completion that is not JSON. */
  function UnparsedReport(): map<string, Json>
  {
    Report(50, "mixed", "Unable to analyze comments properly",
           ["Analysis unavailable"], ["Analysis unavailable"], ["Analysis unavailable"], "low")
  }

  /**
   * `_analyze_with_llm`, given the completion of `AnalysisPrompt(comments)`:
   * the parsed completion, or the fixed report when it does not parse.
   */
  function Analysis(response: string, parse: string -> Option<Json>): Json
  {
    match parse(StripFences(response))
    case None => JObj(UnparsedReport())
    case Some(j) => j
  }

  // ---------------------------------------------------------------------------
  // `analyze_video_sentiment`

  /** The report for a video without comments. */
  function NoCommentsReport(): map<string, Json>
  {
    Report(50, "unknown", "No comments available for analysis. Comments may be disabled for this video.",
           ["No comments found"], ["Cannot assess video quality"], ["Insufficient data"], "low")
      ["error" := JStr("No comments available")]
  }

  /** The report for an exception, given its message `str(e)`. */
  function FailureReport(message: string): map<string, Json>
  {
    Report(50, "error", "Analysis failed: " + message,
           ["Analysis unavailable"], ["Technical error occurred"], ["Error"], "low")
      ["error" := JStr(message)]
  }

  /** The `TypeError` message of `analysis["..."] = ...` on a parsed value that is not a dict. */
  function ItemAssignmentError(j: Json): string
    requires !j.JObj?
  {
    if j.JArr? then "list indices must be integers or slices, not str"
    else "'" + TypeName(j) + "' object does not support item assignment"
  }

  /** The parsed analysis with the comment count and the video id added. */
  function Augmented(fields: map<string, Json>, count: nat, videoId: string): map<string, Json>
  {
    fields["total_comments_analyzed" := JNum(count)]["video_id" := JStr(videoId)]
  }

  /** `analyze_video_sentiment(video_id)`. */
  function SentimentReport(videoId: string, stream: CommentStream,
                           complete: string -> string, parse: string -> Option<Json>): map<string, Json>
  {
    var comments := FetchedComments(stream, MaxComments);
    ReportOf(videoId, comments, complete(AnalysisPrompt(comments)), parse)
  }

  /**
   * What `analyze_video_sentiment` reports once the comments are fetched,
   * given the completion; without comments the completion is not used.
   */
  function ReportOf(videoId: string, comments: seq<string>,
                    response: string, parse: string -> Option<Json>): map<string, Json>
  {
    if comments == [] then NoCommentsReport()
    else match Analysis(response, parse)
      case JObj(fields) => Augmented(fields, |comments|, videoId)
      case other => FailureReport(ItemAssignmentError(other))
  }

  /** Without comments the completion API is never called: the report is fixed. */
  lemma NoCommentsNoCompletion(videoId: string, stream: CommentStream,
                               complete: string -> string, parse: string -> Option<Json>,
                               complete': string -> string, parse': string -> Option<Json>)
    requires FetchedComments(stream, MaxComments) == []
    ensures var r := SentimentReport(videoId, stream, complete, parse);
      && r == SentimentReport(videoId, stream, complete', parse')
      && r == NoCommentsReport()
      && "error" in r && r["error"] == JStr("No comments available")
      && r["overall_sentiment"] == JStr("unknown")
      && "total_comments_analyzed" !in r
  {
  }

  /**
   * Every report either carries an "error" key, or carries the requested
   * video id and the number of comments analysed, between 1 and 10.
   */
  lemma ReportShape(videoId: string, stream: CommentStream,
                    complete: string -> string, parse: string -> Option<Json>)
    ensures var r := SentimentReport(videoId, stream, complete, parse);
      || "error" in r
      || (&& r["video_id"] == JStr(videoId)
          && r["total_comments_analyzed"].JNum?
          && 1 <= r["total_comments_analyzed"].n <= MaxComments)
  {
    var comments := FetchedComments(stream, MaxComments);
    FetchedCommentsShape(stream, MaxComments);
    ReportOfShape(videoId, comments, complete(AnalysisPrompt(comments)), parse);
  }

  lemma ReportOfShape(videoId: string, comments: seq<string>, response: string, parse: string -> Option<Json>)
    ensures var r := ReportOf(videoId, comments, response, parse);
      || "error" in r
      || (r["video_id"] == JStr(videoId) && r["total_comments_analyzed"] == JNum(|comments|) && comments != [])
  {
  }

  /** The augmented analysis keeps every other field the model returned. */
  lemma AugmentedKeepsFields(videoId: string, comments: seq<string>, response: string,
                             parse: string -> Option<Json>, fields: map<string, Json>)
    requires comments != [] && parse(StripFences(response)) == Some(JObj(fields))
    ensures var r := ReportOf(videoId, comments, response, parse);
      && r.Keys == fields.Keys + {"total_comments_analyzed", "video_id"}
      && r["total_comments_analyzed"] == JNum(|comments|)
      && r["video_id"] == JStr(videoId)
      && forall k :: k in fields && k != "total_comments_analyzed" && k != "video_id" ==> r[k] == fields[k]
  {
  }

  /** A completion that does not parse gives the fixed "mixed" report, augmented. */
  lemma UnparsedCompletionGivesMixed(videoId: string, comments: seq<string>, response: string,
                                     parse: string -> Option<Json>)
    requires comments != [] && parse(StripFences(response)) == None
    ensures var r := ReportOf(videoId, comments, response, parse);
      && r["worth_watching_score"] == JNum(50)
      && r["overall_sentiment"] == JStr("mixed")
      && r["confidence_level"] == JStr("low")
      && "error" !in r
  {
    assert ReportOf(videoId, comments, response, parse) == Augmented(UnparsedReport(), |comments|, videoId);
    UnparsedReportShape(|comments|, videoId);
  }

  lemma UnparsedReportShape(count: nat, videoId: string)
    ensures var r := Augmented(UnparsedReport(), count, videoId);
      && r["worth_watching_score"] == JNum(50)
      && r["overall_sentiment"] == JStr("mixed")
      && r["confidence_level"] == JStr("low")
      && "error" !in r
  {
  }

  /** A completion that parses to a value other than an object fails the augmentation: the "error" report. */
  lemma NonObjectGivesFailure(videoId: string, comments: seq<string>, response: string,
                              parse: string -> Option<Json>, parsed: Json)
    requires comments != [] && parse(StripFences(response)) == Some(parsed) && !parsed.JObj?
    ensures var r := ReportOf(videoId, comments, response, parse);
      && r["error"] == JStr(ItemAssignmentError(parsed))
      && r["overall_sentiment"] == JStr("error")
      && r["worth_watching_score"] == JNum(50)
      && "video_id" !in r
  {
    assert ReportOf(videoId, comments, response, parse) == FailureReport(ItemAssignmentError(parsed));
    FailureReportShape(ItemAssignmentError(parsed));
  }

  lemma FailureReportShape(message: string)
    ensures var r := FailureReport(message);
      && r["error"] == JStr(message)
      && r["overall_sentiment"] == JStr("error")
      && r["worth_watching_score"] == JNum(50)
      && "video_id" !in r
  {
  }

  /** `analyze_video_sentiment`, with the in-place updates of `analysis`. */
  method AnalyzeVideoSentiment(videoId: string, stream: CommentStream,
                               complete: string -> string, parse: string -> Option<Json>)
    returns (report: map<string, Json>)
    ensures report == SentimentReport(videoId, stream, complete, parse)
  {
    var comments := FetchComments(stream, MaxComments);
    if comments == [] {
      return NoCommentsReport();
    }
    var response := complete(AnalysisPrompt(comments));
    ghost var expected := ReportOf(videoId, comments, response, parse);
    assert expected == SentimentReport(videoId, stream, complete, parse);
    var clean := CleanResponse(response);
    var parsed := parse(clean);
    var analysis := if parsed.None? then JObj(UnparsedReport()) else parsed.value;
    assert analysis == Analysis(response, parse);
    if !analysis.JObj? {
      report := FailureReport(ItemAssignmentError(analysis));
    } else {
      var fields := analysis.fields;
      fields := fields["total_comments_analyzed" := JNum(|comments|)];
      fields := fields["video_id" := JStr(videoId)];
      report := fields;
      assert expected == Augmented(analysis.fields, |comments|, videoId);
    }
  }
}
