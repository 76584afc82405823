/**
 * The RAG engine (`ChromaDBVideoRAG`): one active video session over a
 * vector store.
 *
 * The store is abstract: collection names in listing order and, per name,
 * the records added to it. Nearest-neighbour retrieval is a `rank` function
 * given by the caller (the store orders a collection's documents by distance
 * to the question), the transcript is what the fetcher returned, and the
 * completion API is not called here: `QueryResult` returns the prompt it would
 * send.
 *
 * The spec functions `Load`, `QueryResult`, `Delete` and `VideoIds` state what
 * each operation does to a session and a store; the class `VideoRag` holds
 * the two session fields and the store and is proved to follow them.
 */
module RagEngine {
  import opened Wrappers
  import opened Strings
  import opened Naming
  import Chunker

  /** A document of a collection, with the id and metadata `load_video` gives it. */
  datatype Record = Record(id: string, document: string, chunkIndex: nat, videoId: string)

  /** The vector store: collection names in listing order, and each collection's records. */
  datatype Store = Store(names: seq<string>, collections: map<string, seq<Record>>)

  /** Every listed name has a collection and is listed once. */
  ghost predicate ValidStore(s: Store) {
    && (forall n :: n in s.collections <==> n in s.names)
    && (forall i, j :: 0 <= i < j < |s.names| ==> s.names[i] != s.names[j])
  }

  /** `current_video_id` and `current_collection` (a collection is named by its name). */
  datatype Session = Session(videoId: Option<string>, collection: Option<string>)

  datatype Rag = Rag(session: Session, store: Store)

  /** A session never names a video without naming a collection too. */
  ghost predicate ValidRag(r: Rag) {
    ValidStore(r.store) && (r.session.videoId.Some? ==> r.session.collection.Some?)
  }

  /** `client.get_or_create_collection(name)`: an unknown name gets an empty collection, listed last. */
  function GetOrCreate(s: Store, name: string): (r: Store)
    requires ValidStore(s)
    ensures ValidStore(r) && name in r.collections
    ensures name in s.collections ==> r == s
    ensures name !in s.collections ==> r.names == s.names + [name] && r.collections == s.collections[name := []]
  {
    if name in s.collections then s
    else
      var r := Store(s.names + [name], s.collections[name := []]);
      assert forall n :: n in r.names <==> n in s.names || n == name;
      r
  }

  /** `collection.add(...)`: the records go after those already there. */
  function AddRecords(s: Store, name: string, records: seq<Record>): Store
    requires name in s.collections
  {
    s.(collections := s.collections[name := s.collections[name] + records])
  }

  /** `client.delete_collection(name)` for a name the store holds. */
  function RemoveCollection(s: Store, name: string): (r: Store)
    requires ValidStore(s) && name in s.collections
    ensures ValidStore(r)
    ensures r.collections == s.collections - {name}
    ensures forall n :: n in r.names <==> n in s.names && n != name
  {
    var names := RemoveName(s.names, name);
    Store(names, s.collections - {name})
  }

  function RemoveName(names: seq<string>, name: string): (r: seq<string>)
    ensures forall n :: n in r <==> n in names && n != name
    ensures (forall i, j :: 0 <= i < j < |names| ==> names[i] != names[j]) ==>
              forall i, j :: 0 <= i < j < |r| ==> r[i] != r[j]
  {
    if names == [] then []
    else if names[0] == name then RemoveName(names[1..], name)
    else
      var rest := RemoveName(names[1..], name);
      assert (forall i, j :: 0 <= i < j < |names| ==> names[i] != names[j]) ==> names[0] !in names[1..];
      [names[0]] + rest
  }

  /**
   * `_fetch_transcript`: the fetched transcript when there is one and it is
   * not blank.
   */
  function FetchTranscript(fetched: Option<string>): (r: Option<string>)
    ensures r.Some? <==> fetched.Some? && !AllWhitespace(fetched.value)
    ensures r.Some? ==> r == fetched
  {
    match fetched
    case None => None
    case Some(text) =>
      StripEmpty(text);
      if text != [] && Strip(text) != [] then fetched else None
  }

  /** The id `load_video` gives the `i`-th chunk. */
  function ChunkId(i: nat): string {
    "chunk_" + NatToString(i)
  }

  /** The records `load_video` adds: chunk `i` with id `chunk_i` and metadata `chunk_index = i`. */
  function ChunkRecords(videoId: string, chunks: seq<string>): (rs: seq<Record>)
    ensures |rs| == |chunks|
  {
    seq(|chunks|, i requires 0 <= i < |chunks| => Record(ChunkId(i), chunks[i], i, videoId))
  }

  /** The session answers questions: `current_collection` and a non-empty `current_video_id` are set. */
  predicate IsLoaded(s: Session) {
    s.collection.Some? && s.videoId.Some? && s.videoId.value != []
  }

  /**
   * `load_video(video_id)`, given what the transcript fetcher would return:
   * the new session and store, and the boolean result.
   */
  function Load(rag: Rag, videoId: string, fetched: Option<string>): (Rag, bool)
    requires ValidStore(rag.store)
  {
    var session := rag.session;
    if session.videoId == Some(videoId) && session.collection.Some? then (rag, true)
    else
      var name := CollectionName(videoId);
      var existing := name in rag.store.collections;
      // get_collection succeeded: current_collection is overwritten before the count is known
      var session1 := if existing then session.(collection := Some(name)) else session;
      if existing && |rag.store.collections[name]| > 0 then
        (Rag(Session(Some(videoId), Some(name)), rag.store), true)
      else
        match FetchTranscript(fetched)
        case None => (Rag(session1, rag.store), false)
        case Some(transcript) =>
          var chunks := Chunker.Chunks(transcript, Chunker.DefaultChunkSize, Chunker.DefaultOverlap);
          if chunks == [] then (Rag(session1, rag.store), false)
          else
            var store := GetOrCreate(rag.store, name);
            (Rag(Session(Some(videoId), Some(name)), AddRecords(store, name, ChunkRecords(videoId, chunks))), true)
  }

  /** The fixed answers of `query`. */
  const NoVideoLoaded: string := "No video loaded. Please load a video first."
  const NoRelevantInformation: string := "No relevant information found in the video transcript."

  /** The number of chunks `query` retrieves when called without `k`, as the handlers call it. */
  const DefaultK: nat := 4

  /**
   * What `query` returns: a fixed answer, the prompt it sends to the
   * completion API (whose answer it returns verbatim), or the error answer
   * for a store that raised (the current collection no longer exists).
   */
  datatype Reply = Answer(text: string) | Ask(prompt: string) | StoreError

  /** The documents of a collection, in order. */
  function Documents(records: seq<Record>): (docs: seq<string>)
    ensures |docs| == |records|
  {
    seq(|records|, i requires 0 <= i < |records| => records[i].document)
  }

  /**
   * A ranking that only ever returns documents of the collection it ranks,
   * and no more of them than the collection holds.
   */
  ghost predicate RanksWithin(rank: (seq<string>, string) -> seq<string>) {
    && (forall docs, question :: |rank(docs, question)| <= |docs|)
    && (forall docs, question, d :: d in rank(docs, question) ==> d in docs)
  }

  /** The documents `collection.query(query_texts=[question], n_results=k)` returns. */
  function Retrieve(records: seq<Record>, question: string, k: nat,
                    rank: (seq<string>, string) -> seq<string>): (found: seq<string>)
    ensures |found| <= k
    ensures RanksWithin(rank) ==> forall d :: d in found ==> d in Documents(records)
  {
    var ranked := rank(Documents(records), question);
    var found := Take(ranked, k);
    assert forall d :: d in found ==> d in ranked;
    found
  }

  /** The prompt `query` sends: the retrieved chunks, blank-line separated, then the question. */
  function QueryPrompt(context: string, question: string): string {
    "Based on the following YouTube video transcript, please answer the question.\n\n"
    + "Video Transcript Context:\n" + context + "\n\n"
    + "Question: " + question + "\n\n"
    + "IMPORTANT: Respond in the SAME LANGUAGE as the question.\n\n"
    + "Please provide a helpful and accurate answer based only on the transcript.\n"
    + "If the information is not available, please say so."
  }

  /** `query(question, k)`. */
  function QueryResult(rag: Rag, question: string, k: nat, rank: (seq<string>, string) -> seq<string>): Reply
  {
    var session := rag.session;
    if !IsLoaded(session) then Answer(NoVideoLoaded)
    else if session.collection.value !in rag.store.collections then StoreError
    else
      var found := Retrieve(rag.store.collections[session.collection.value], question, k, rank);
      if found == [] then Answer(NoRelevantInformation)
      else Ask(QueryPrompt(Join(found, "\n\n"), question))
  }

  /**
   * `delete_video(video_id)`: drops the video's collection, and ends the
   * session when it is that video's; a store without that collection raises,
   * which gives false and changes nothing.
   */
  function Delete(rag: Rag, videoId: string): (r: (Rag, bool))
    requires ValidStore(rag.store)
    ensures r.1 <==> CollectionName(videoId) in rag.store.collections
    ensures !r.1 ==> r.0 == rag
    ensures r.1 ==> CollectionName(videoId) !in r.0.store.collections
    ensures r.1 ==> r.0.store.collections == rag.store.collections - {CollectionName(videoId)}
    ensures r.1 ==> (r.0.session ==
      if rag.session.videoId == Some(videoId) then Session(None, None) else rag.session)
  {
    var name := CollectionName(videoId);
    if name !in rag.store.collections then (rag, false)
    else
      var session := if rag.session.videoId == Some(videoId) then Session(None, None) else rag.session;
      (Rag(session, RemoveCollection(rag.store, name)), true)
  }

  // ---------------------------------------------------------------------------
  // Properties of the session state machine

  /** Every operation keeps the store well formed and never names a video without a collection. */
  lemma LoadPreservesValid(rag: Rag, videoId: string, fetched: Option<string>)
    requires ValidRag(rag)
    ensures ValidRag(Load(rag, videoId, fetched).0)
  {
    var name := CollectionName(videoId);
    if name in rag.store.collections {
      var s := rag.store;
      var s' := AddRecords(s, name, []);
      assert forall n :: n in s'.collections <==> n in s.collections;
    }
  }

  lemma DeletePreservesValid(rag: Rag, videoId: string)
    requires ValidRag(rag)
    ensures ValidRag(Delete(rag, videoId).0)
  {
  }

  /**
   * Loading the video that is already loaded returns true and changes
   * nothing, whatever the fetcher would return: no transcript is fetched.
   */
  lemma LoadIdempotent(rag: Rag, videoId: string, fetched: Option<string>, fetchedAgain: Option<string>)
    requires ValidRag(rag)
    requires Load(rag, videoId, fetched).1
    ensures var after := Load(rag, videoId, fetched).0;
      ValidStore(after.store) && Load(after, videoId, fetchedAgain) == (after, true)
  {
    LoadPreservesValid(rag, videoId, fetched);
  }

  /**
   * A fresh load (no session for this id, no non-empty collection under its
   * name, a non-blank transcript) stores the transcript's chunks in order:
   * chunk `i` gets id `chunk_i`, metadata `chunk_index = i` and the video id;
   * the session then names the video and its collection.
   */
  lemma FreshLoadStoresChunks(rag: Rag, videoId: string, transcript: string)
    requires ValidRag(rag)
    requires rag.session.videoId != Some(videoId)
    requires CollectionName(videoId) in rag.store.collections ==>
               rag.store.collections[CollectionName(videoId)] == []
    requires !AllWhitespace(transcript)
    ensures var (after, ok) := Load(rag, videoId, Some(transcript));
      var name := CollectionName(videoId);
      var chunks := Chunker.Chunks(transcript, Chunker.DefaultChunkSize, Chunker.DefaultOverlap);
      && ok
      && after.session == Session(Some(videoId), Some(name))
      && name in after.store.collections
      && |after.store.collections[name]| == |chunks| > 0
      && (forall i :: 0 <= i < |chunks| ==>
           after.store.collections[name][i] == Record("chunk_" + NatToString(i), chunks[i], i, videoId))
      && forall n :: n in rag.store.collections && n != name ==>
           n in after.store.collections && after.store.collections[n] == rag.store.collections[n]
  {
    ChunksOfNonBlankText(transcript);
    var name := CollectionName(videoId);
    var chunks := Chunker.Chunks(transcript, Chunker.DefaultChunkSize, Chunker.DefaultOverlap);
    var s := GetOrCreate(rag.store, name);
    assert s.collections[name] == [];
    assert AddRecords(s, name, ChunkRecords(videoId, chunks)).collections[name] == ChunkRecords(videoId, chunks);
  }

  /**
   * A non-blank transcript always yields at least one chunk, so the
   * `if not chunks: return False` exit of `load_video` is never taken.
   */
  lemma ChunksOfNonBlankText(text: string)
    requires !AllWhitespace(text)
    ensures Chunker.Chunks(text, Chunker.DefaultChunkSize, Chunker.DefaultOverlap) != []
  {
    var cs, ov := Chunker.DefaultChunkSize, Chunker.DefaultOverlap;
    var p :| 0 <= p < |text| && !IsWhitespace(text[p]);
    Chunker.WindowsCover(text, 0, cs, ov);
    var ws := Chunker.Windows(text, cs, ov);
    assert Chunker.Covered(ws, p);
    var i :| 0 <= i < |ws| && ws[i].start <= p < ws[i].end;
    var slice := Chunker.PySlice(text, ws[i].start, ws[i].end);
    assert slice[p - ws[i].start] == text[p];
    StripEmpty(slice);
    Chunker.TextsAt(text, ws, i);
    Chunker.NonBlankKeeps(Chunker.Texts(text, ws), i);
  }

  /**
   * The mixed state: when the id's collection exists but is empty and the
   * transcript cannot be fetched, `load_video` returns false having already
   * pointed `current_collection` at that collection, while
   * `current_video_id` still names the previous video.
   */
  lemma FailedLoadOfEmptyCollectionLeavesMixedSession(rag: Rag, videoId: string, fetched: Option<string>)
    requires ValidRag(rag)
    requires !(rag.session.videoId == Some(videoId) && rag.session.collection.Some?)
    requires CollectionName(videoId) in rag.store.collections
    requires rag.store.collections[CollectionName(videoId)] == []
    requires FetchTranscript(fetched) == None
    ensures Load(rag, videoId, fetched)
         == (Rag(Session(rag.session.videoId, Some(CollectionName(videoId))), rag.store), false)
  {
  }

  /**
   * After that mixed state, loading the previous video again returns true
   * at once, and the session keeps answering from the other video's empty
   * collection: every question gets the "no relevant information" answer.
   */
  lemma MixedSessionAnswersFromWrongCollection(
    first: string, second: string, store: Store, question: string, k: nat,
    rank: (seq<string>, string) -> seq<string>)
    requires ValidStore(store) && RanksWithin(rank)
    requires first != [] && CollectionName(first) != CollectionName(second)
    requires CollectionName(second) in store.collections && store.collections[CollectionName(second)] == []
    ensures var loaded := Rag(Session(Some(first), Some(CollectionName(first))), store);
      var (mixed, ok) := Load(loaded, second, None);
      var (again, okAgain) := Load(mixed, first, None);
      && !ok && okAgain
      && again.session == Session(Some(first), Some(CollectionName(second)))
      && QueryResult(again, question, k, rank) == Answer(NoRelevantInformation)
  {
    var loaded := Rag(Session(Some(first), Some(CollectionName(first))), store);
    var again := Rag(Session(Some(first), Some(CollectionName(second))), store);
    assert Load(loaded, second, None) == (again, false);
    assert Load(again, first, None) == (again, true);
    var found := Retrieve(store.collections[CollectionName(second)], question, k, rank);
    assert Documents([]) == [];
  }

  /** `query` without a loaded video gives the fixed answer and sends no prompt. */
  lemma QueryWithoutVideo(rag: Rag, question: string, k: nat, rank: (seq<string>, string) -> seq<string>)
    requires rag.session.videoId.None? || rag.session.collection.None? || rag.session.videoId == Some([])
    ensures QueryResult(rag, question, k, rank) == Answer(NoVideoLoaded)
  {
  }

  /**
   * A prompt is sent only for a loaded session whose collection exists and
   * for which the store retrieved between one and `k` documents, all from
   * that collection.
   */
  lemma QueryAsksOnlyWithContext(rag: Rag, question: string, k: nat, rank: (seq<string>, string) -> seq<string>)
    requires RanksWithin(rank)
    requires QueryResult(rag, question, k, rank).Ask?
    ensures IsLoaded(rag.session) && rag.session.collection.value in rag.store.collections
    ensures var records := rag.store.collections[rag.session.collection.value];
      var found := Retrieve(records, question, k, rank);
      && 0 < |found| <= k
      && (forall d :: d in found ==> d in Documents(records))
      && QueryResult(rag, question, k, rank) == Ask(QueryPrompt(Join(found, "\n\n"), question))
  {
  }

  /**
   * With a video loaded and its collection present, `query` answers the
   * fixed "No relevant information" text exactly when retrieval finds no
   * chunk.
   */
  lemma EmptyRetrievalAnswersNoInformation(rag: Rag, question: string, k: nat,
                                           rank: (seq<string>, string) -> seq<string>)
    requires IsLoaded(rag.session) && rag.session.collection.value in rag.store.collections
    ensures QueryResult(rag, question, k, rank) == Answer(NoRelevantInformation)
        <==> Retrieve(rag.store.collections[rag.session.collection.value], question, k, rank) == []
  {
  }

  /** Deleting a video that is not the current one leaves the session alone. */
  lemma DeleteOtherVideoKeepsSession(rag: Rag, videoId: string)
    requires ValidStore(rag.store) && rag.session.videoId != Some(videoId)
    ensures Delete(rag, videoId).0.session == rag.session
  {
  }

  /**
   * A video loaded fresh into a store that had no collection for it is
   * listed last, under its id with every '_' turned into '-'.
   */
  lemma FreshLoadIsListedLast(rag: Rag, videoId: string, fetched: Option<string>)
    requires ValidRag(rag)
    requires rag.session.videoId != Some(videoId)
    requires CollectionName(videoId) !in rag.store.collections
    requires Load(rag, videoId, fetched).1
    ensures VideoIds(Load(rag, videoId, fetched).0.store.names)
         == VideoIds(rag.store.names) + [ReplaceChar(videoId, '_', '-')]
  {
    var name := CollectionName(videoId);
    VideoIdsAppend(rag.store.names, [name]);
    ListedIdOfName(videoId);
    assert VideoIds([name]) == [VideoIdOf(name)];
  }

  /** Chunk ids never repeat within a load: `str(i)` tells naturals apart. */
  lemma ChunkIdsDistinct(i: nat, j: nat)
    requires i != j
    ensures ChunkId(i) != ChunkId(j)
  {
    NatToStringInjective(i, j);
    assert ChunkId(i)[6..] == NatToString(i);
    assert ChunkId(j)[6..] == NatToString(j);
  }

  lemma {:induction false} NatToStringInjective(i: nat, j: nat)
    requires i != j
    ensures NatToString(i) != NatToString(j)
    decreases i + j
  {
    var a, b := NatToString(i), NatToString(j);
    if i >= 10 && j >= 10 {
      if a == b {
        assert a[..|a| - 1] == NatToString(i / 10);
        assert b[..|b| - 1] == NatToString(j / 10);
        assert a[|a| - 1] == DigitChar(i % 10) && b[|b| - 1] == DigitChar(j % 10);
        if i / 10 != j / 10 {
          NatToStringInjective(i / 10, j / 10);
        }
        assert false;
      }
    } else if i >= 10 {
      assert |a| > 1 == |b|;
    } else if j >= 10 {
      assert |b| > 1 == |a|;
    }
  }

  // ---------------------------------------------------------------------------
  // The engine object

  class VideoRag {
    var currentVideoId: Option<string>
    var currentCollection: Option<string>
    var store: Store

    ghost predicate Valid()
      reads this
    {
      ValidRag(State())
    }

    function State(): Rag
      reads this
    {
      Rag(Session(currentVideoId, currentCollection), store)
    }

    /** A new engine over a persisted store: no video is loaded. */
    constructor (persisted: Store)
      requires ValidStore(persisted)
      ensures Valid()
      ensures currentVideoId == None && currentCollection == None && store == persisted
    {
      currentVideoId := None;
      currentCollection := None;
      store := persisted;
    }

    /** `load_video(video_id)`; `fetched` is what `get_transcript_fallback` would return. */
    method LoadVideo(videoId: string, fetched: Option<string>) returns (ok: bool)
      requires Valid()
      modifies this
      ensures Valid()
      ensures (State(), ok) == Load(old(State()), videoId, fetched)
    {
      ghost var before := State();
      LoadPreservesValid(before, videoId, fetched);
      if currentVideoId == Some(videoId) && currentCollection.Some? {
        return true;
      }
      var name := CollectionName(videoId);
      if name in store.collections {
        currentCollection := Some(name);
        var count := |store.collections[name]|;
        if count > 0 {
          currentVideoId := Some(videoId);
          return true;
        }
      }
      var transcript := FetchTranscript(fetched);
      if transcript.None? {
        return false;
      }
      var chunks := Chunker.SplitText(transcript.value, Chunker.DefaultChunkSize, Chunker.DefaultOverlap);
      if chunks == [] {
        return false;
      }
      store := GetOrCreate(store, name);
      currentCollection := Some(name);
      store := AddRecords(store, name, ChunkRecords(videoId, chunks));
      currentVideoId := Some(videoId);
      return true;
    }

    /** `query(question, k)`. */
    method Query(question: string, k: nat, rank: (seq<string>, string) -> seq<string>) returns (reply: Reply)
      ensures reply == QueryResult(State(), question, k, rank)
    {
      if currentCollection.None? || currentVideoId.None? || currentVideoId.value == [] {
        return Answer(NoVideoLoaded);
      }
      if currentCollection.value !in store.collections {
        return StoreError;
      }
      var relevant := Retrieve(store.collections[currentCollection.value], question, k, rank);
      if relevant == [] {
        return Answer(NoRelevantInformation);
      }
      var context := Join(relevant, "\n\n");
      return Ask(QueryPrompt(context, question));
    }

    /** `delete_video(video_id)`. */
    method DeleteVideo(videoId: string) returns (ok: bool)
      requires Valid()
      modifies this
      ensures Valid()
      ensures (State(), ok) == Delete(old(State()), videoId)
    {
      var name := CollectionName(videoId);
      if name !in store.collections {
        return false;
      }
      store := RemoveCollection(store, name);
      if currentVideoId == Some(videoId) {
        currentVideoId := None;
        currentCollection := None;
      }
      return true;
    }

    /** `list_videos()`: the ids of the collections named "video_...", in store order. */
    method ListVideos() returns (videoIds: seq<string>)
      ensures videoIds == VideoIds(store.names)
    {
      videoIds := [];
      var i := 0;
      while i < |store.names|
        invariant 0 <= i <= |store.names|
        invariant videoIds == VideoIds(store.names[..i])
      {
        var name := store.names[i];
        VideoIdsAppend(store.names[..i], [name]);
        assert store.names[..i + 1] == store.names[..i] + [name];
        if StartsWith(name, CollectionPrefix) {
          videoIds := videoIds + [VideoIdOf(name)];
        }
        i := i + 1;
      }
      assert store.names[..i] == store.names;
    }
  }
}
