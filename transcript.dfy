/**
 * Transcript fetching (`manual_transcript.py`) once the network is taken
 * out: what the scrapers and HTTP requests return are inputs.
 *
 * The new API's entries, the caption tracks of the watch page's player
 * response and the response to a track request are given; a failed request,
 * an unreadable page or a raised exception is `None`. What is modelled is
 * the logic around them: the order of the two strategies, the choice of the
 * caption track, the `fmt=json3` query parameter, the flattening of json3
 * events and the cleaning of XML cues.
 */
module Transcript {
  import opened Wrappers
  import opened Strings

  // ---------------------------------------------------------------------------
  // Strategy order (`get_transcript_fallback`)

  /** Python's truthiness of an `Optional[str]`. */
  predicate Truthy(r: Option<string>) {
    r.Some? && r.value != []
  }

  /**
   * `get_transcript_fallback`: the first strategy's result when it is
   * truthy, else the second's when that is truthy, else `None`.
   */
  function Fallback(first: Option<string>, second: Option<string>): (r: Option<string>)
    ensures r.None? <==> !Truthy(first) && !Truthy(second)
    ensures Truthy(first) ==> r == first
    ensures !Truthy(first) && Truthy(second) ==> r == second
    ensures r.Some? ==> r.value != []
  {
    if Truthy(first) then first
    else if Truthy(second) then second
    else None
  }

  /**
   * `get_transcript_new_api`: the entries' texts joined by single spaces,
   * when the API returned a non-empty list; `None` when it returned nothing
   * or raised.
   */
  function NewApiTranscript(entries: Option<seq<string>>): (r: Option<string>)
    ensures r.Some? <==> entries.Some? && entries.value != []
  {
    if entries.Some? && entries.value != [] then Some(Join(entries.value, " ")) else None
  }

  /** Joining `n` texts with single spaces adds exactly `n - 1` characters. */
  lemma {:induction false} NewApiTextLength(entries: seq<string>)
    requires entries != []
    ensures |NewApiTranscript(Some(entries)).value| == TotalLength(entries) + |entries| - 1
  {
    JoinLength(entries, " ");
  }

  function TotalLength(parts: seq<string>): nat {
    if parts == [] then 0 else |parts[0]| + TotalLength(parts[1..])
  }

  lemma {:induction false} JoinLength(parts: seq<string>, sep: string)
    requires parts != []
    ensures |Join(parts, sep)| == TotalLength(parts) + (|parts| - 1) * |sep|
  {
    if |parts| > 1 {
      JoinLength(parts[1..], sep);
    }
  }

  // ---------------------------------------------------------------------------
  // Caption track choice

  /** A caption track: its `languageCode` and `baseUrl`, "" when missing. */
  datatype Track = Track(languageCode: string, baseUrl: string)

  predicate IsEnglish(t: Track) {
    StartsWith(t.languageCode, "en")
  }

  /** The index of the first English track, if any. */
  function FirstEnglish(tracks: seq<Track>): (r: Option<nat>)
    ensures r.Some? ==> r.value < |tracks| && IsEnglish(tracks[r.value])
    ensures r.Some? ==> forall j :: 0 <= j < r.value ==> !IsEnglish(tracks[j])
    ensures r.None? ==> forall j :: 0 <= j < |tracks| ==> !IsEnglish(tracks[j])
  {
    if tracks == [] then None
    else if IsEnglish(tracks[0]) then Some(0)
    else match FirstEnglish(tracks[1..])
      case None => None
      case Some(i) => Some(i + 1)
  }

  /** The track `get_transcript_manual` uses: the first English one, else the first; none without tracks. */
  function ChosenTrack(tracks: seq<Track>): (r: Option<Track>)
    ensures r.None? <==> tracks == []
    ensures r.Some? ==> r.value in tracks
    ensures r.Some? && !IsEnglish(r.value) ==> r.value == tracks[0] && forall t :: t in tracks ==> !IsEnglish(t)
  {
    if tracks == [] then None
    else match FirstEnglish(tracks)
      case Some(i) => Some(tracks[i])
      case None => Some(tracks[0])
  }

  /** With an English track in the list, the choice is the first English track, at or before it. */
  lemma EnglishTrackPreferred(tracks: seq<Track>, i: nat)
    requires i < |tracks| && IsEnglish(tracks[i])
    ensures FirstEnglish(tracks).Some? && FirstEnglish(tracks).value <= i
    ensures ChosenTrack(tracks) == Some(tracks[FirstEnglish(tracks).value])
  {
  }

  /** The search loop of `get_transcript_manual`, with its `break`. */
  method SelectTrack(tracks: seq<Track>) returns (track: Option<Track>)
    ensures track == ChosenTrack(tracks)
  {
    if tracks == [] {
      return None;
    }
    var english: Option<Track> := None;
    var i := 0;
    while i < |tracks|
      invariant 0 <= i <= |tracks|
      invariant english.None?
      invariant forall j :: 0 <= j < i ==> !IsEnglish(tracks[j])
    {
      if IsEnglish(tracks[i]) {
        english := Some(tracks[i]);
        break;
      }
      i := i + 1;
    }
    if english.None? {
      english := Some(tracks[0]);
    }
    return english;
  }

  /** The transcript URL: `baseUrl` with `fmt=json3` added to its query string. */
  function Json3Url(baseUrl: string): (url: string)
    ensures StartsWith(url, baseUrl) && EndsWith(url, "fmt=json3")
    ensures |url| == |baseUrl| + 10
    ensures url[|baseUrl|] == (if '?' in baseUrl then '&' else '?')
  {
    if '?' in baseUrl then baseUrl + "&fmt=json3" else baseUrl + "?fmt=json3"
  }

  /** The URL has exactly one '?' when the base had at most one. */
  lemma {:induction false} Json3UrlOneQuery(baseUrl: string)
    requires forall i, j :: 0 <= i < j < |baseUrl| && baseUrl[i] == '?' ==> baseUrl[j] != '?'
    ensures '?' in Json3Url(baseUrl)
    ensures forall i, j :: 0 <= i < j < |Json3Url(baseUrl)| && Json3Url(baseUrl)[i] == '?' ==> Json3Url(baseUrl)[j] != '?'
  {
    var url := Json3Url(baseUrl);
    var suffix := url[|baseUrl|..];
    assert url == baseUrl + suffix;
    assert '?' !in suffix[1..];
    assert url[|baseUrl|] == '?' || '?' in baseUrl;
  }

  // ---------------------------------------------------------------------------
  // json3 flattening

  /** The piece a segment's `utf8` text contributes: its stripped text, when not blank. */
  function Kept(text: string): (r: seq<string>)
    ensures |r| <= 1
  {
    if text != [] && Strip(text) != [] then [Strip(text)] else []
  }

  /** A segment contributes a piece exactly when it is not all whitespace, and the piece is stripped. */
  lemma KeptStripped(text: string)
    ensures Kept(text) != [] <==> !AllWhitespace(text)
    ensures AllNonBlankStripped(Kept(text))
  {
    StripEmpty(text);
  }

  /** The pieces of a sequence of segment texts, in order. */
  function SegmentPieces(texts: seq<string>): (r: seq<string>)
    ensures |r| <= |texts|
  {
    if texts == [] then [] else SegmentPieces(texts[..|texts| - 1]) + Kept(texts[|texts| - 1])
  }

  /** The pieces of json3 events: each event's segment texts, event by event. */
  function Json3Pieces(events: seq<seq<string>>): seq<string>
  {
    if events == [] then [] else Json3Pieces(events[..|events| - 1]) + SegmentPieces(events[|events| - 1])
  }

  /** All segment texts, event by event. */
  function Flatten(events: seq<seq<string>>): seq<string>
  {
    if events == [] then [] else Flatten(events[..|events| - 1]) + events[|events| - 1]
  }

  lemma {:induction false} SegmentPiecesAppend(a: seq<string>, b: seq<string>)
    ensures SegmentPieces(a + b) == SegmentPieces(a) + SegmentPieces(b)
    decreases |b|
  {
    if b != [] {
      assert (a + b)[..|a + b| - 1] == a + b[..|b| - 1];
      SegmentPiecesAppend(a, b[..|b| - 1]);
    } else {
      assert a + b == a;
    }
  }

  /**
   * Event-then-segment order: the json3 pieces are the pieces of the flat
   * list of all segment texts.
   */
  lemma {:induction false} Json3PiecesFlat(events: seq<seq<string>>)
    ensures Json3Pieces(events) == SegmentPieces(Flatten(events))
  {
    if events != [] {
      Json3PiecesFlat(events[..|events| - 1]);
      SegmentPiecesAppend(Flatten(events[..|events| - 1]), events[|events| - 1]);
    }
  }

  /** Every piece is non-empty and stripped. */
  lemma {:induction false} SegmentPiecesStripped(texts: seq<string>)
    ensures AllNonBlankStripped(SegmentPieces(texts))
  {
    if texts != [] {
      SegmentPiecesStripped(texts[..|texts| - 1]);
      KeptStripped(texts[|texts| - 1]);
    }
  }

  lemma Json3PiecesStripped(events: seq<seq<string>>)
    ensures AllNonBlankStripped(Json3Pieces(events))
  {
    Json3PiecesFlat(events);
    SegmentPiecesStripped(Flatten(events));
  }

  /** The two nested `full_text.append` loops of the json3 path. */
  method FlattenJson3(events: seq<seq<string>>) returns (fullText: seq<string>)
    ensures fullText == Json3Pieces(events)
  {
    fullText := [];
    var e := 0;
    while e < |events|
      invariant 0 <= e <= |events|
      invariant fullText == Json3Pieces(events[..e])
    {
      fullText := AppendSegments(fullText, events[e]);
      Json3PiecesStep(events, e);
      e := e + 1;
    }
    assert events[..e] == events;
  }

  /** The inner loop: one event's segments appended to `full_text`. */
  method AppendSegments(fullText: seq<string>, segs: seq<string>) returns (r: seq<string>)
    ensures r == fullText + SegmentPieces(segs)
  {
    r := fullText;
    var s := 0;
    while s < |segs|
      invariant 0 <= s <= |segs|
      invariant r == fullText + SegmentPieces(segs[..s])
    {
      var text := segs[s];
      AppendSegmentsStep(fullText, segs, s, r);
      if text != [] && Strip(text) != [] {
        r := r + [Strip(text)];
      }
      s := s + 1;
    }
    assert segs[..s] == segs;
  }

  /** One turn of the inner loop keeps its invariant. */
  lemma AppendSegmentsStep(fullText: seq<string>, segs: seq<string>, s: nat, r: seq<string>)
    requires s < |segs| && r == fullText + SegmentPieces(segs[..s])
    ensures (if segs[s] != [] && Strip(segs[s]) != [] then r + [Strip(segs[s])] else r)
         == fullText + SegmentPieces(segs[..s + 1])
  {
    PrefixExtend(segs, s);
  }

  lemma Json3PiecesStep(events: seq<seq<string>>, e: nat)
    requires e < |events|
    ensures Json3Pieces(events[..e + 1]) == Json3Pieces(events[..e]) + SegmentPieces(events[e])
  {
    PrefixExtend(events, e);
  }

  // ---------------------------------------------------------------------------
  // XML cue cleaning

  /** The characters of `[a-zA-Z0-9#]`. */
  predicate IsEntityChar(c: char) {
    ('a' <= c <= 'z') || ('A' <= c <= 'Z') || ('0' <= c <= '9') || c == '#'
  }

  /** The length of the run of entity characters `s` starts with. */
  function RunLength(s: string): (k: nat)
    ensures k <= |s|
  {
    if s != [] && IsEntityChar(s[0]) then 1 + RunLength(s[1..]) else 0
  }

  /** The run is made of entity characters and is followed by none. */
  lemma {:induction false} RunLengthMaximal(s: string)
    ensures forall j :: 0 <= j < RunLength(s) ==> IsEntityChar(s[j])
    ensures RunLength(s) < |s| ==> !IsEntityChar(s[RunLength(s)])
  {
    if s != [] && IsEntityChar(s[0]) {
      RunLengthMaximal(s[1..]);
    }
  }

  /** The length of the match of `&[a-zA-Z0-9#]+;` at the start of `s`, or 0. */
  function EntityLength(s: string): (n: nat)
    ensures n == 0 || 3 <= n <= |s|
  {
    if s != [] && s[0] == '&' then
      var k := RunLength(s[1..]);
      if 1 <= k && 1 + k < |s| && s[1 + k] == ';' then k + 2 else 0
    else 0
  }

  /** `re.sub(r'&[a-zA-Z0-9#]+;', ' ', s)`: matches are found left to right and never overlap. */
  function ReplaceEntities(s: string): string
    decreases |s|
  {
    if s == [] then []
    else if EntityLength(s) > 0 then " " + ReplaceEntities(s[EntityLength(s)..])
    else [s[0]] + ReplaceEntities(s[1..])
  }

  /** No position of `s` starts a match of `&[a-zA-Z0-9#]+;`. */
  predicate NoEntities(s: string) {
    forall i :: 0 <= i < |s| ==> EntityLength(s[i..]) == 0
  }

  /** The first character `re.sub` leaves: a space for an entity, else the character itself. */
  lemma ReplaceEntitiesFirst(s: string)
    requires s != []
    ensures ReplaceEntities(s) != []
    ensures ReplaceEntities(s)[0] == if EntityLength(s) > 0 then ' ' else s[0]
  {
  }

  /** A character other than '&' passes through the substitution unchanged. */
  lemma ReplaceEntitiesPlain(s: string)
    requires s != [] && s[0] != '&'
    ensures ReplaceEntities(s) == [s[0]] + ReplaceEntities(s[1..])
  {
  }

  /** A run of entity characters passes through unchanged ('&' is not one of them). */
  lemma {:induction false} ReplaceEntitiesRun(s: string)
    ensures ReplaceEntities(s) == s[..RunLength(s)] + ReplaceEntities(s[RunLength(s)..])
    decreases |s|
  {
    var k := RunLength(s);
    if k > 0 {
      ReplaceEntitiesPlain(s);
      ReplaceEntitiesRun(s[1..]);
      SplitAfterHead(s, k);
    }
  }

  lemma SplitAfterHead(s: string, k: nat)
    requires 0 < k <= |s|
    ensures s[1..][k - 1..] == s[k..] && s[..k] == [s[0]] + s[1..][..k - 1]
  {
  }

  lemma {:induction false} RunLengthOf(run: string, rest: string)
    requires forall j :: 0 <= j < |run| ==> IsEntityChar(run[j])
    requires rest != [] ==> !IsEntityChar(rest[0])
    ensures RunLength(run + rest) == |run|
  {
    if run != [] {
      assert (run + rest)[1..] == run[1..] + rest;
      RunLengthOf(run[1..], rest);
    } else {
      assert run + rest == rest;
    }
  }

  /** A character that starts no entity, put before entity-free text, leaves it entity-free. */
  lemma NoEntitiesCons(c: char, rest: string)
    requires NoEntities(rest) && EntityLength([c] + rest) == 0
    ensures NoEntities([c] + rest)
  {
    var r := [c] + rest;
    forall i | 0 <= i < |r| ensures EntityLength(r[i..]) == 0 {
      if i > 0 {
        assert r[i..] == rest[i - 1..];
      }
    }
  }

  /**
   * An '&' that starts no entity stays one after the rest is substituted:
   * its run of entity characters is kept and is then followed by neither an
   * entity character nor ';'.
   */
  lemma UnmatchedAmpersand(s: string)
    requires s != [] && s[0] == '&' && EntityLength(s) == 0
    ensures EntityLength([s[0]] + ReplaceEntities(s[1..])) == 0
  {
    var k := RunLength(s[1..]);
    var run := s[1..][..k];
    var tail := s[1..][k..];
    RunLengthMaximal(s[1..]);
    ReplaceEntitiesRun(s[1..]);
    var rest := ReplaceEntities(s[1..]);
    assert rest == run + ReplaceEntities(tail);
    if tail != [] {
      ReplaceEntitiesFirst(tail);
      assert tail[0] == s[1 + k];
    }
    RunLengthOf(run, ReplaceEntities(tail));
    assert ([s[0]] + rest)[1..] == rest;
  }

  /** After the substitution no entity is left: the replacement ' ' never completes a new one. */
  lemma {:induction false} ReplaceEntitiesLeavesNone(s: string)
    ensures NoEntities(ReplaceEntities(s))
    decreases |s|
  {
    if s == [] {
    } else if EntityLength(s) > 0 {
      ReplaceEntitiesLeavesNone(s[EntityLength(s)..]);
      NoEntitiesCons(' ', ReplaceEntities(s[EntityLength(s)..]));
    } else {
      ReplaceEntitiesLeavesNone(s[1..]);
      if s[0] == '&' {
        UnmatchedAmpersand(s);
      }
      NoEntitiesCons(s[0], ReplaceEntities(s[1..]));
    }
  }

  /** Text without entities passes through unchanged. */
  lemma {:induction false} ReplaceEntitiesKeepsClean(s: string)
    requires NoEntities(s)
    ensures ReplaceEntities(s) == s
    decreases |s|
  {
    if s != [] {
      assert s[0..] == s;
      assert forall i :: 0 <= i < |s| - 1 ==> s[1..][i..] == s[i + 1..];
      ReplaceEntitiesKeepsClean(s[1..]);
    }
  }

  /** Substituting entities twice substitutes nothing more. */
  lemma ReplaceEntitiesIdempotent(s: string)
    ensures ReplaceEntities(ReplaceEntities(s)) == ReplaceEntities(s)
  {
    ReplaceEntitiesLeavesNone(s);
    ReplaceEntitiesKeepsClean(ReplaceEntities(s));
  }

  /** The first index of `c` in `s`, or -1. */
  function IndexOf(s: string, c: char): (r: int)
    ensures -1 <= r < |s|
    ensures r >= 0 ==> s[r] == c
    ensures forall j :: 0 <= j < |s| && (r < 0 || j < r) ==> s[j] != c
  {
    if s == [] then -1
    else if s[0] == c then 0
    else
      var r := IndexOf(s[1..], c);
      if r < 0 then -1 else r + 1
  }

  /** The length of the match of `<[^>]+>` at the start of `s`, or 0. */
  function TagLength(s: string): (n: nat)
    ensures n == 0 || 3 <= n <= |s|
  {
    if s != [] && s[0] == '<' then
      var j := IndexOf(s[1..], '>');
      if j >= 1 then j + 2 else 0
    else 0
  }

  /** `re.sub(r'<[^>]+>', '', s)`. */
  function RemoveTags(s: string): (r: string)
    ensures |r| <= |s|
    ensures forall c :: c in r ==> c in s
    decreases |s|
  {
    if s == [] then []
    else if TagLength(s) > 0 then
      var rest := RemoveTags(s[TagLength(s)..]);
      assert forall c :: c in s[TagLength(s)..] ==> c in s;
      rest
    else
      var rest := RemoveTags(s[1..]);
      assert forall c :: c in s[1..] ==> c in s;
      [s[0]] + rest
  }

  /** No position of `s` starts a match of `<[^>]+>`. */
  predicate NoTags(s: string) {
    forall i :: 0 <= i < |s| ==> TagLength(s[i..]) == 0
  }

  /** After the substitution no tag is left: removing one never joins a new one together. */
  lemma {:induction false} RemoveTagsLeavesNone(s: string)
    ensures NoTags(RemoveTags(s))
    decreases |s|
  {
    if s == [] {
    } else if TagLength(s) > 0 {
      RemoveTagsLeavesNone(s[TagLength(s)..]);
    } else {
      var rest := RemoveTags(s[1..]);
      RemoveTagsLeavesNone(s[1..]);
      var r := [s[0]] + rest;
      assert r[1..] == rest;
      assert TagLength(r) == 0 by {
        if s[0] == '<' {
          if IndexOf(s[1..], '>') == 0 {
            assert s[1..][0] == '>';
            assert TagLength(s[1..]) == 0;
            assert rest[0] == '>';
          } else {
            assert '>' !in s[1..];
            assert '>' !in rest;
          }
        }
      }
      forall i | 0 <= i < |r| ensures TagLength(r[i..]) == 0 {
        if i > 0 {
          assert r[i..] == rest[i - 1..];
        }
      }
    }
  }

  /** Text without tags passes through unchanged. */
  lemma {:induction false} RemoveTagsKeepsClean(s: string)
    requires NoTags(s)
    ensures RemoveTags(s) == s
    decreases |s|
  {
    if s != [] {
      assert s[0..] == s;
      assert forall i :: 0 <= i < |s| - 1 ==> s[1..][i..] == s[i + 1..];
      RemoveTagsKeepsClean(s[1..]);
    }
  }

  /** Removing tags twice removes nothing more. */
  lemma RemoveTagsIdempotent(s: string)
    ensures RemoveTags(RemoveTags(s)) == RemoveTags(s)
  {
    RemoveTagsLeavesNone(s);
    RemoveTagsKeepsClean(RemoveTags(s));
  }

  /** One cue's text: entities to spaces, tags removed, stripped. */
  function CleanCue(cue: string): (r: string)
    ensures IsStripped(r)
  {
    Strip(RemoveTags(ReplaceEntities(cue)))
  }

  /** The pieces of the XML path: the non-empty cleaned cues, in order. */
  function XmlPieces(cues: seq<string>): (r: seq<string>)
    ensures |r| <= |cues|
    ensures AllNonBlankStripped(r)
  {
    if cues == [] then []
    else
      var clean := CleanCue(cues[|cues| - 1]);
      XmlPieces(cues[..|cues| - 1]) + (if clean != [] then [clean] else [])
  }

  /** The `full_text.append` loop of the XML path. */
  method CleanCues(cues: seq<string>) returns (fullText: seq<string>)
    ensures fullText == XmlPieces(cues)
  {
    fullText := [];
    var i := 0;
    while i < |cues|
      invariant 0 <= i <= |cues|
      invariant fullText == XmlPieces(cues[..i])
    {
      var cleanText := ReplaceEntities(cues[i]);
      cleanText := RemoveTags(cleanText);
      cleanText := Strip(cleanText);
      if cleanText != [] {
        fullText := fullText + [cleanText];
      }
      assert cues[..i + 1][..i] == cues[..i];
      i := i + 1;
    }
    assert cues[..i] == cues;
  }

  // ---------------------------------------------------------------------------
  // `get_transcript_manual`

  /**
   * The response to a track request: the json3 events (each event's segment
   * `utf8` texts, "" when missing), `None` when the body is not json3 or
   * reading it raised; and the texts that `<text ...>(.*?)</text>` finds in
   * the body.
   */
  datatype TrackResponse = TrackResponse(events: Option<seq<seq<string>>>, cues: seq<string>)

  /**
   * `get_transcript_manual`, given the caption tracks of the player
   * response (`None` when the page could not be fetched or read) and the
   * track request (`None` when it failed).
   */
  function ManualTranscript(tracks: Option<seq<Track>>, fetchTrack: string -> Option<TrackResponse>): (r: Option<string>)
  {
    if tracks.None? then None
    else match ChosenTrack(tracks.value)
      case None => None
      case Some(track) =>
        if track.baseUrl == [] then None
        else match fetchTrack(Json3Url(track.baseUrl))
          case None => None
          case Some(response) =>
            var jsonPieces := if response.events.Some? then Json3Pieces(response.events.value) else [];
            if jsonPieces != [] then Some(Join(jsonPieces, " "))
            else
              var xmlPieces := XmlPieces(response.cues);
              if xmlPieces != [] then Some(Join(xmlPieces, " ")) else None
  }

  /**
   * The manual strategy never returns blank text: what it returns is
   * non-empty and has no leading or trailing whitespace.
   */
  lemma ManualTranscriptStripped(tracks: Option<seq<Track>>, fetchTrack: string -> Option<TrackResponse>)
    ensures var r := ManualTranscript(tracks, fetchTrack);
      r.Some? ==> r.value != [] && IsStripped(r.value)
  {
    var r := ManualTranscript(tracks, fetchTrack);
    if r.Some? {
      var track := ChosenTrack(tracks.value).value;
      var response := fetchTrack(Json3Url(track.baseUrl)).value;
      if response.events.Some? && Json3Pieces(response.events.value) != [] {
        Json3PiecesStripped(response.events.value);
        JoinStripped(Json3Pieces(response.events.value), " ");
      } else {
        JoinStripped(XmlPieces(response.cues), " ");
      }
    }
  }

  /**
   * Whatever the list of tracks, the chosen track's json3 text wins over its
   * XML cues whenever it has a piece.
   */
  lemma Json3BeforeXml(tracks: seq<Track>, track: Track, response: TrackResponse,
                       fetchTrack: string -> Option<TrackResponse>)
    requires ChosenTrack(tracks) == Some(track)
    requires track.baseUrl != [] && fetchTrack(Json3Url(track.baseUrl)) == Some(response)
    requires response.events.Some? && Json3Pieces(response.events.value) != []
    ensures ManualTranscript(Some(tracks), fetchTrack) == Some(Join(Json3Pieces(response.events.value), " "))
  {
  }

  /**
   * In particular, when some track is English, the text is the json3 text
   * of the first English track.
   */
  lemma EnglishJson3Used(tracks: seq<Track>, i: nat, response: TrackResponse,
                         fetchTrack: string -> Option<TrackResponse>)
    requires i < |tracks| && IsEnglish(tracks[i])
    requires var first := tracks[FirstEnglish(tracks).value];
      first.baseUrl != [] && fetchTrack(Json3Url(first.baseUrl)) == Some(response)
    requires response.events.Some? && Json3Pieces(response.events.value) != []
    ensures ManualTranscript(Some(tracks), fetchTrack) == Some(Join(Json3Pieces(response.events.value), " "))
  {
    EnglishTrackPreferred(tracks, i);
    Json3BeforeXml(tracks, tracks[FirstEnglish(tracks).value], response, fetchTrack);
  }

  /** `get_transcript_manual` step by step. */
  method GetTranscriptManual(tracks: Option<seq<Track>>, fetchTrack: string -> Option<TrackResponse>)
    returns (r: Option<string>)
    ensures r == ManualTranscript(tracks, fetchTrack)
  {
    if tracks.None? || tracks.value == [] {
      return None;
    }
    var track := SelectTrack(tracks.value);
    var url := track.value.baseUrl;
    if url == [] {
      return None;
    }
    if '?' in url {
      url := url + "&fmt=json3";
    } else {
      url := url + "?fmt=json3";
    }
    var response := fetchTrack(url);
    if response.None? {
      return None;
    }
    if response.value.events.Some? {
      var fullText := FlattenJson3(response.value.events.value);
      if fullText != [] {
        return Some(Join(fullText, " "));
      }
    }
    var fullText := CleanCues(response.value.cues);
    if fullText != [] {
      return Some(Join(fullText, " "));
    }
    return None;
  }

  /**
   * `get_transcript_fallback`, given what the two strategies would return:
   * the manual strategy is the second choice.
   */
  function TranscriptFallback(entries: Option<seq<string>>, tracks: Option<seq<Track>>,
                              fetchTrack: string -> Option<TrackResponse>): Option<string>
  {
    Fallback(NewApiTranscript(entries), ManualTranscript(tracks, fetchTrack))
  }

  /**
   * When the new API yields some text, the page is never looked at: the
   * result does not depend on the manual strategy's inputs.
   */
  lemma NewApiFirst(entries: seq<string>, tracks: Option<seq<Track>>, fetchTrack: string -> Option<TrackResponse>,
                    otherTracks: Option<seq<Track>>, otherFetch: string -> Option<TrackResponse>)
    requires Join(entries, " ") != []
    ensures TranscriptFallback(Some(entries), tracks, fetchTrack) == Some(Join(entries, " "))
    ensures TranscriptFallback(Some(entries), tracks, fetchTrack)
         == TranscriptFallback(Some(entries), otherTracks, otherFetch)
  {
    assert entries != [];
  }

  /** What the fallback returns is never empty, and when it comes from the page it is stripped. */
  lemma FallbackText(entries: Option<seq<string>>, tracks: Option<seq<Track>>,
                     fetchTrack: string -> Option<TrackResponse>)
    ensures var r := TranscriptFallback(entries, tracks, fetchTrack);
      && (r.Some? ==> r.value != [])
      && (r.Some? && !Truthy(NewApiTranscript(entries)) ==> IsStripped(r.value))
  {
    ManualTranscriptStripped(tracks, fetchTrack);
  }
}
