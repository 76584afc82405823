/**
 * Collection names of the vector store (`ChromaDBVideoRAG._get_collection_name`)
 * and their reversal in `list_videos`.
 *
 * The name is "video_" followed by the video id with every '-' replaced by
 * '_'; listing replaces every '_' after the prefix by '-'. The reversal is
 * lossy: YouTube ids may hold '_', which comes back as '-', and two ids that
 * differ only in '-' against '_' share one collection.
 */
module Naming {
  import opened Strings

  const CollectionPrefix: string := "video_"

  /** `_get_collection_name(video_id)`. */
  function CollectionName(videoId: string): (name: string)
    ensures StartsWith(name, CollectionPrefix)
    ensures |name| == |CollectionPrefix| + |videoId|
    ensures '-' !in name
  {
    CollectionPrefix + ReplaceChar(videoId, '-', '_')
  }

  /** The id `list_videos` reports for a collection name it keeps. */
  function VideoIdOf(name: string): (videoId: string)
    requires StartsWith(name, CollectionPrefix)
    ensures |videoId| == |name| - |CollectionPrefix|
    ensures '_' !in videoId
  {
    ReplaceChar(name[|CollectionPrefix|..], '_', '-')
  }

  /** Naming a collection and listing it turns every '_' of the id into '-'. */
  lemma ListedIdOfName(videoId: string)
    ensures VideoIdOf(CollectionName(videoId)) == ReplaceChar(videoId, '_', '-')
  {
    var name := CollectionName(videoId);
    assert name[|CollectionPrefix|..] == ReplaceChar(videoId, '-', '_');
  }

  /** Naming a collection and listing it gives back every id that has no '_'. */
  lemma RoundTrip(videoId: string)
    requires '_' !in videoId
    ensures VideoIdOf(CollectionName(videoId)) == videoId
  {
    ListedIdOfName(videoId);
  }

  /** An id with '_' does not survive the round trip: it comes back with '-'. */
  lemma UnderscoreComesBackAsDash()
    ensures VideoIdOf(CollectionName("a_b")) == "a-b"
  {
    ListedIdOfName("a_b");
    assert ReplaceChar("a_b", '_', '-') == "a-b";
  }

  /** Ids that differ only in '-' against '_' name the same collection. */
  lemma DashAndUnderscoreCollide()
    ensures CollectionName("a-b") == CollectionName("a_b")
  {
    assert ReplaceChar("a-b", '-', '_') == "a_b";
    assert ReplaceChar("a_b", '-', '_') == "a_b";
  }

  /** Among ids without '_', distinct ids get distinct collections. */
  lemma NamesDistinguishIdsWithoutUnderscore(a: string, b: string)
    requires '_' !in a && '_' !in b && a != b
    ensures CollectionName(a) != CollectionName(b)
  {
    RoundTrip(a);
    RoundTrip(b);
  }

  /** The ids `list_videos` reports for collection names in store order. */
  function VideoIds(names: seq<string>): (ids: seq<string>)
    ensures |ids| <= |names|
    ensures forall i :: 0 <= i < |ids| ==> '_' !in ids[i]
  {
    if names == [] then []
    else if StartsWith(names[0], CollectionPrefix) then [VideoIdOf(names[0])] + VideoIds(names[1..])
    else VideoIds(names[1..])
  }

  /** `VideoIds` distributes over concatenation of name lists. */
  lemma {:induction false} VideoIdsAppend(a: seq<string>, b: seq<string>)
    ensures VideoIds(a + b) == VideoIds(a) + VideoIds(b)
  {
    if a != [] {
      assert (a + b)[1..] == a[1..] + b;
      VideoIdsAppend(a[1..], b);
    } else {
      assert a + b == b;
    }
  }

  /** The collection names of a list of ids, in order. */
  function CollectionNames(ids: seq<string>): (names: seq<string>)
    ensures |names| == |ids|
  {
    seq(|ids|, i requires 0 <= i < |ids| => CollectionName(ids[i]))
  }

  /**
   * Listing a store whose collections were named from ids without '_' gives
   * back those ids in order; names of other collections are skipped.
   */
  lemma {:induction false} ListingRoundTrip(ids: seq<string>)
    requires forall i :: 0 <= i < |ids| ==> '_' !in ids[i]
    ensures VideoIds(CollectionNames(ids)) == ids
  {
    if ids != [] {
      var names := CollectionNames(ids);
      assert names[1..] == CollectionNames(ids[1..]);
      ListingRoundTrip(ids[1..]);
      RoundTrip(ids[0]);
    }
  }

  /** A name without the prefix is never listed. */
  lemma {:induction false} UnprefixedNamesSkipped(names: seq<string>, other: string)
    requires !StartsWith(other, CollectionPrefix)
    ensures VideoIds(names + [other]) == VideoIds(names)
  {
    VideoIdsAppend(names, [other]);
    assert VideoIds([other]) == VideoIds([]);
  }
}
