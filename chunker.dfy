/**
 * The transcript chunker of the RAG engine (`ChromaDBVideoRAG._split_text`).
 *
 * A window of `chunkSize` characters moves along the text. When the window
 * does not reach the end of the text, it is cut just after its last '.' or
 * ' ', provided that character lies beyond the window's middle. The next
 * window starts `overlap` characters before the previous window's end. Each
 * window's text is stripped, and blank ones are dropped at the end.
 *
 * A window is recorded with the `end` the loop computes, which may lie
 * beyond the end of the text (its text is then clamped, as Python's slice is).
 */
module Chunker {
  import opened Strings

  const DefaultChunkSize: nat := 1000
  const DefaultOverlap: nat := 100

  datatype Window = Window(start: nat, end: nat)

  /** The characters a window may be cut after. */
  predicate IsBreak(c: char) {
    c == '.' || c == ' '
  }

  /**
   * The parameters for which every window starts strictly after the one
   * before it, so that the loop ends: a hard cut advances by
   * `chunkSize - overlap`, a cut at a break by at least
   * `chunkSize / 2 + 2 - overlap`.
   */
  predicate ValidParams(chunkSize: nat, overlap: nat) {
    overlap < chunkSize && overlap < chunkSize / 2 + 2
  }

  function Max(a: int, b: int): int {
    if a < b then b else a
  }

  function Min(a: nat, b: nat): nat {
    if a < b then a else b
  }

  /** Python's `s[a:b]` for non-negative bounds: clamped to the text, empty when `a >= b`. */
  function PySlice(s: string, a: nat, b: nat): string
  {
    if a < b && a < |s| then s[a..Min(b, |s|)] else []
  }

  /**
   * The slice holds `Min(b, |s|) - a` characters when `a` is before both
   * `b` and the end of the text, and none otherwise; its `i`-th character is
   * the text's `a + i`-th.
   */
  lemma {:induction false} PySliceContents(s: string, a: nat, b: nat)
    ensures var r := PySlice(s, a, b);
      && |r| == (if a < b && a < |s| then Min(b, |s|) - a else 0)
      && forall i :: 0 <= i < |r| ==> r[i] == s[a + i]
  {
  }

  /** Python's `s.rfind(c)`: the index of the last `c` in `s`, or -1. */
  function RFind(s: string, c: char): (r: int)
    ensures -1 <= r < |s|
    ensures r >= 0 ==> s[r] == c
    ensures forall j :: r < j < |s| ==> s[j] != c
  {
    if s == [] then -1
    else if s[|s| - 1] == c then |s| - 1
    else RFind(s[..|s| - 1], c)
  }

  /**
   * The full window at `start` stops short of the end of the text and holds
   * a '.' or ' ' beyond its middle (at an offset greater than
   * `chunkSize / 2`).
   */
  predicate HasLateBreak(text: string, start: nat, chunkSize: nat) {
    start + chunkSize < |text|
    && exists j :: start + chunkSize / 2 < j < start + chunkSize && IsBreak(text[j])
  }

  /**
   * Where the window that starts at `start` ends: just after the last '.' or
   * ' ' of the full window when there is one beyond its middle and the window
   * stops short of the end of the text; otherwise `chunkSize` characters on
   * (`WindowEndCut` states this).
   */
  function WindowEnd(text: string, start: nat, chunkSize: nat): (end: nat)
    requires start < |text| && 0 < chunkSize
    ensures start < end <= start + chunkSize
    ensures end == start + chunkSize || start + chunkSize / 2 + 2 <= end
  {
    var hard := start + chunkSize;
    if hard < |text| then
      var breakPoint := Max(RFind(text[start..hard], '.'), RFind(text[start..hard], ' '));
      if breakPoint > chunkSize / 2 then start + breakPoint + 1 else hard
    else
      hard
  }

  /**
   * A window is cut short exactly when the full window stops short of the
   * end of the text and holds a '.' or ' ' beyond its middle; it is then cut
   * just after the last such character.
   */
  lemma WindowEndCut(text: string, start: nat, chunkSize: nat)
    requires start < |text| && 0 < chunkSize
    ensures var end := WindowEnd(text, start, chunkSize);
      && (!HasLateBreak(text, start, chunkSize) ==> end == start + chunkSize)
      && (HasLateBreak(text, start, chunkSize) ==>
            && start + chunkSize / 2 + 2 <= end
            && IsBreak(text[end - 1])
            && forall j :: end <= j < start + chunkSize ==> !IsBreak(text[j]))
  {
    var hard := start + chunkSize;
    if hard < |text| {
      var chunk := text[start..hard];
      var breakPoint := Max(RFind(chunk, '.'), RFind(chunk, ' '));
      if HasLateBreak(text, start, chunkSize) {
        var j :| start + chunkSize / 2 < j < start + chunkSize && IsBreak(text[j]);
        assert chunk[j - start] == text[j];
        assert breakPoint > chunkSize / 2;
        assert chunk[breakPoint] == text[start + breakPoint];
        forall j | start + breakPoint + 1 <= j < hard ensures !IsBreak(text[j]) {
          assert chunk[j - start] == text[j];
        }
      }
    }
  }

  /** The windows the loop visits from `start` on. */
  function WindowsFrom(text: string, start: nat, chunkSize: nat, overlap: nat): seq<Window>
    requires ValidParams(chunkSize, overlap)
    decreases |text| - start
  {
    if start >= |text| then []
    else
      var end := WindowEnd(text, start, chunkSize);
      [Window(start, end)] + WindowsFrom(text, end - overlap, chunkSize, overlap)
  }

  function Windows(text: string, chunkSize: nat, overlap: nat): seq<Window>
    requires ValidParams(chunkSize, overlap)
  {
    WindowsFrom(text, 0, chunkSize, overlap)
  }

  /** The stripped text of one window: `text[start:end].strip()`. */
  function WindowText(text: string, w: Window): string {
    Strip(PySlice(text, w.start, w.end))
  }

  /** The stripped text of each window, blank ones included. */
  function Texts(text: string, ws: seq<Window>): (r: seq<string>)
    ensures |r| == |ws|
  {
    if ws == [] then [] else Texts(text, ws[..|ws| - 1]) + [WindowText(text, ws[|ws| - 1])]
  }

  /** `[c for c in xs if c.strip()]`. */
  function NonBlank(xs: seq<string>): seq<string>
  {
    if xs == [] then []
    else if Strip(xs[0]) != [] then [xs[0]] + NonBlank(xs[1..])
    else NonBlank(xs[1..])
  }

  /** What `_split_text(text, chunkSize, overlap)` returns. */
  function Chunks(text: string, chunkSize: nat, overlap: nat): seq<string>
    requires ValidParams(chunkSize, overlap)
  {
    NonBlank(Texts(text, Windows(text, chunkSize, overlap)))
  }

  /** One turn of the loop of `_split_text`: the window at `start` and its text. */
  method NextWindow(text: string, start: nat, chunkSize: nat) returns (end: nat, chunk: string)
    requires start < |text| && 0 < chunkSize
    ensures end == WindowEnd(text, start, chunkSize)
    ensures chunk == PySlice(text, start, end)
  {
    end := start + chunkSize;
    chunk := PySlice(text, start, end);
    if end < |text| {
      var lastPeriod := RFind(chunk, '.');
      var lastSpace := RFind(chunk, ' ');
      var breakPoint := Max(lastPeriod, lastSpace);
      if breakPoint > chunkSize / 2 {
        chunk := PySlice(text, start, start + breakPoint + 1);
        end := start + breakPoint + 1;
      }
    }
  }

  /** The loop of `_split_text`. */
  method SplitText(text: string, chunkSize: nat, overlap: nat) returns (chunks: seq<string>)
    requires ValidParams(chunkSize, overlap)
    ensures chunks == Chunks(text, chunkSize, overlap)
    ensures AllNonBlankStripped(chunks)
  {
    var raw: seq<string> := [];
    ghost var done: seq<Window> := [];
    var start: nat := 0;
    while start < |text|
      invariant SplitInvariant(text, chunkSize, overlap, done, start, raw)
      decreases |text| - start
    {
      var end, chunk := NextWindow(text, start, chunkSize);
      SplitStep(text, chunkSize, overlap, done, start, raw);
      raw := raw + [Strip(chunk)];
      done := done + [Window(start, end)];
      start := end - overlap;
    }
    SplitDone(text, chunkSize, overlap, done, start, raw);
    chunks := NonBlank(raw);
    ChunksNonBlankStripped(text, chunkSize, overlap);
  }

  /**
   * The invariant of the loop of `_split_text`: the windows done so far
   * followed by those still to come from `start` are all the windows, and
   * `raw` holds the stripped texts of those done.
   */
  ghost predicate SplitInvariant(text: string, chunkSize: nat, overlap: nat,
                                 done: seq<Window>, start: nat, raw: seq<string>)
    requires ValidParams(chunkSize, overlap)
  {
    done + WindowsFrom(text, start, chunkSize, overlap) == Windows(text, chunkSize, overlap)
    && raw == Texts(text, done)
  }

  /** One turn of the loop keeps its invariant: the window at `start` moves from the pending to the done ones. */
  lemma SplitStep(text: string, chunkSize: nat, overlap: nat, done: seq<Window>, start: nat, raw: seq<string>)
    requires ValidParams(chunkSize, overlap) && start < |text|
    requires SplitInvariant(text, chunkSize, overlap, done, start, raw)
    ensures var end := WindowEnd(text, start, chunkSize);
      && end >= overlap
      && SplitInvariant(text, chunkSize, overlap, done + [Window(start, end)], end - overlap,
                        raw + [Strip(PySlice(text, start, end))])
  {
    var end := WindowEnd(text, start, chunkSize);
    var rest := WindowsFrom(text, end - overlap, chunkSize, overlap);
    assert WindowsFrom(text, start, chunkSize, overlap) == [Window(start, end)] + rest;
    assert (done + [Window(start, end)]) + rest == done + ([Window(start, end)] + rest);
    TextsAppend(text, done, Window(start, end));
  }

  /** When the loop stops, `raw` holds the stripped text of every window. */
  lemma SplitDone(text: string, chunkSize: nat, overlap: nat, done: seq<Window>, start: nat, raw: seq<string>)
    requires ValidParams(chunkSize, overlap) && start >= |text|
    requires SplitInvariant(text, chunkSize, overlap, done, start, raw)
    ensures raw == Texts(text, Windows(text, chunkSize, overlap))
  {
    assert WindowsFrom(text, start, chunkSize, overlap) == [];
    assert done + [] == done;
  }

  lemma TextsAppend(text: string, ws: seq<Window>, w: Window)
    ensures Texts(text, ws + [w]) == Texts(text, ws) + [WindowText(text, w)]
  {
    assert (ws + [w])[..|ws|] == ws;
  }

  /** The `i`-th text is the text of the `i`-th window. */
  lemma {:induction false} TextsAt(text: string, ws: seq<Window>, i: nat)
    requires i < |ws|
    ensures Texts(text, ws)[i] == WindowText(text, ws[i])
    decreases |ws|
  {
    if i < |ws| - 1 {
      TextsAt(text, ws[..|ws| - 1], i);
    }
  }

  /** Filtering stripped strings for non-blank ones leaves non-empty, stripped strings. */
  lemma {:induction false} NonBlankOfStripped(xs: seq<string>)
    requires forall i :: 0 <= i < |xs| ==> IsStripped(xs[i])
    ensures AllNonBlankStripped(NonBlank(xs))
  {
    if xs != [] {
      NonBlankOfStripped(xs[1..]);
      if Strip(xs[0]) != [] {
        StripStripped(xs[0]);
      }
    }
  }

  /** The filter keeps every non-blank string, so one non-blank string leaves it non-empty. */
  lemma {:induction false} NonBlankKeeps(xs: seq<string>, i: nat)
    requires i < |xs| && Strip(xs[i]) != []
    ensures NonBlank(xs) != []
  {
    if i > 0 && Strip(xs[0]) == [] {
      NonBlankKeeps(xs[1..], i - 1);
    }
  }

  /** Every chunk is non-empty and has no leading or trailing whitespace. */
  lemma ChunksNonBlankStripped(text: string, chunkSize: nat, overlap: nat)
    requires ValidParams(chunkSize, overlap)
    ensures AllNonBlankStripped(Chunks(text, chunkSize, overlap))
  {
    var ws := Windows(text, chunkSize, overlap);
    forall i | 0 <= i < |ws| ensures IsStripped(Texts(text, ws)[i]) {
      TextsAt(text, ws, i);
    }
    NonBlankOfStripped(Texts(text, ws));
  }

  /**
   * The windows leave no gaps: the first starts at `start`, each next one
   * starts `overlap` characters before the previous end, the last ends at or
   * beyond the end of the text, and every window starts inside the text, is
   * at most `chunkSize` long and ends where `WindowEnd` says.
   */
  lemma {:induction false} WindowsChain(text: string, start: nat, chunkSize: nat, overlap: nat)
    requires ValidParams(chunkSize, overlap) && start < |text|
    ensures var ws := WindowsFrom(text, start, chunkSize, overlap);
      && |ws| > 0
      && ws[0].start == start
      && ws[|ws| - 1].end >= |text|
      && (forall i :: 0 <= i < |ws| ==>
            ws[i].start < |text| && ws[i].end == WindowEnd(text, ws[i].start, chunkSize))
      && (forall i :: 0 <= i < |ws| - 1 ==> ws[i + 1].start == ws[i].end - overlap)
    decreases |text| - start
  {
    var ws := WindowsFrom(text, start, chunkSize, overlap);
    var end := WindowEnd(text, start, chunkSize);
    var next := end - overlap;
    assert ws == [Window(start, end)] + WindowsFrom(text, next, chunkSize, overlap);
    if next < |text| {
      WindowsChain(text, next, chunkSize, overlap);
      var rest := WindowsFrom(text, next, chunkSize, overlap);
      assert forall i :: 1 <= i < |ws| ==> ws[i] == rest[i - 1];
    }
  }

  predicate Covered(ws: seq<Window>, p: nat) {
    exists i :: 0 <= i < |ws| && ws[i].start <= p < ws[i].end
  }

  /** Every position of the text lies inside some window. */
  lemma {:induction false} WindowsCover(text: string, start: nat, chunkSize: nat, overlap: nat)
    requires ValidParams(chunkSize, overlap)
    ensures forall p: nat :: start <= p < |text| ==> Covered(WindowsFrom(text, start, chunkSize, overlap), p)
    decreases |text| - start
  {
    var ws := WindowsFrom(text, start, chunkSize, overlap);
    if start < |text| {
      var end := WindowEnd(text, start, chunkSize);
      var next := end - overlap;
      var rest := WindowsFrom(text, next, chunkSize, overlap);
      assert ws == [Window(start, end)] + rest;
      WindowsCover(text, next, chunkSize, overlap);
      forall p: nat | start <= p < |text| ensures Covered(ws, p) {
        if p < end {
          assert ws[0].start <= p < ws[0].end;
        } else {
          assert next <= p;
          assert Covered(rest, p);
          var i :| 0 <= i < |rest| && rest[i].start <= p < rest[i].end;
          assert ws[i + 1] == rest[i];
        }
      }
    }
  }

  /**
   * With an overlap of at least the window size, the next start is never
   * after the current one, so the loop of `_split_text` never ends on a
   * non-empty text.
   */
  lemma NoProgressWithLargeOverlap(text: string, start: nat, chunkSize: nat, overlap: nat)
    requires start < |text| && 0 < chunkSize <= overlap
    ensures WindowEnd(text, start, chunkSize) - overlap <= start
  {
  }

  /** A text no longer than `chunkSize - overlap` is one window, hence at most one chunk. */
  lemma ShortTextOneChunk(text: string, chunkSize: nat, overlap: nat)
    requires ValidParams(chunkSize, overlap) && 0 < |text| <= chunkSize - overlap
    ensures Windows(text, chunkSize, overlap) == [Window(0, chunkSize)]
    ensures Chunks(text, chunkSize, overlap) == if AllWhitespace(text) then [] else [Strip(text)]
  {
    StripEmpty(text);
    var ws := Windows(text, chunkSize, overlap);
    assert WindowEnd(text, 0, chunkSize) == chunkSize;
    assert ws == [Window(0, chunkSize)] + WindowsFrom(text, chunkSize - overlap, chunkSize, overlap);
    assert text[0..Min(chunkSize, |text|)] == text;
    var raw := Texts(text, ws);
    assert raw == [Strip(text)];
    assert NonBlank(raw) == (if Strip(text) != [] then [raw[0]] else []) + NonBlank(raw[1..]);
  }

  /**
   * A text longer than `chunkSize - overlap` but no longer than `chunkSize`
   * fits in the first window, yet the loop goes on: the second window starts
   * at `chunkSize - overlap`, so its text is the tail of the first window's
   * text, the overlap alone. With `2 * overlap <= chunkSize`, as for the
   * defaults 1000 and 100, there are exactly these two windows.
   */
  lemma OverlapOnlyTail(text: string, chunkSize: nat, overlap: nat)
    requires ValidParams(chunkSize, overlap) && chunkSize - overlap < |text| <= chunkSize
    ensures var ws := Windows(text, chunkSize, overlap);
      && |ws| >= 2
      && ws[0] == Window(0, chunkSize)
      && ws[1] == Window(chunkSize - overlap, 2 * chunkSize - overlap)
      && Texts(text, ws)[0] == Strip(text)
      && Texts(text, ws)[1] == Strip(text[chunkSize - overlap..])
      && (2 * overlap <= chunkSize ==> |ws| == 2)
  {
    var second := chunkSize - overlap;
    assert WindowEnd(text, 0, chunkSize) == chunkSize;
    assert WindowEnd(text, second, chunkSize) == second + chunkSize;
    var tail := WindowsFrom(text, second + chunkSize - overlap, chunkSize, overlap);
    assert WindowsFrom(text, second, chunkSize, overlap)
        == [Window(second, second + chunkSize)] + tail;
    var ws := Windows(text, chunkSize, overlap);
    assert ws == [Window(0, chunkSize), Window(second, second + chunkSize)] + tail;
    assert text[0..Min(chunkSize, |text|)] == text;
    assert 2 * overlap <= chunkSize ==> tail == [];
    TextsAt(text, ws, 0);
    TextsAt(text, ws, 1);
  }

  /** The worked example: "A. B. C." with windows of 4 and an overlap of 1. */
  lemma SplitExample(text: string)
    requires text == "A. B. C."
    ensures Chunks(text, 4, 1) == ["A. B", "B. C", "C."]
  {
    ExampleWindows(text);
    ExampleTexts(text);
    NonBlankKeepsAll(["A. B", "B. C", "C."]);
  }

  /** The windows of the example: two cut at their last ' ', the last running past the end. */
  lemma ExampleWindows(text: string)
    requires text == "A. B. C."
    ensures Windows(text, 4, 1) == [Window(0, 4), Window(3, 7), Window(6, 10)]
  {
    assert text[0..4] == "A. B";
    assert "A. B"[..3] == "A. ";
    assert RFind("A. B", '.') == 1 && RFind("A. B", ' ') == 2;
    assert WindowEnd(text, 0, 4) == 4;
    assert text[3..7] == "B. C";
    assert "B. C"[..3] == "B. ";
    assert RFind("B. C", '.') == 1 && RFind("B. C", ' ') == 2;
    assert WindowEnd(text, 3, 4) == 7;
    assert WindowEnd(text, 6, 4) == 10;
    assert WindowsFrom(text, 9, 4, 1) == [];
    assert WindowsFrom(text, 6, 4, 1) == [Window(6, 10)];
    assert WindowsFrom(text, 3, 4, 1) == [Window(3, 7), Window(6, 10)];
  }

  /** The stripped texts of the example's windows. */
  lemma ExampleTexts(text: string)
    requires text == "A. B. C."
    ensures Texts(text, [Window(0, 4), Window(3, 7), Window(6, 10)]) == ["A. B", "B. C", "C."]
  {
    var w0, w1, w2 := Window(0, 4), Window(3, 7), Window(6, 10);
    assert text[0..4] == "A. B" && text[3..7] == "B. C" && text[6..8] == "C.";
    WindowTextStripped(text, w0);
    WindowTextStripped(text, w1);
    WindowTextStripped(text, w2);
    TextsAppend(text, [], w0);
    assert [] + [w0] == [w0];
    TextsAppend(text, [w0], w1);
    assert [w0] + [w1] == [w0, w1];
    TextsAppend(text, [w0, w1], w2);
    assert [w0, w1] + [w2] == [w0, w1, w2];
  }

  /** A window whose text has nothing to strip yields that text. */
  lemma WindowTextStripped(text: string, w: Window)
    requires w.start < w.end && w.start < |text| && IsStripped(text[w.start..Min(w.end, |text|)])
    ensures WindowText(text, w) == text[w.start..Min(w.end, |text|)]
  {
    StripStripped(text[w.start..Min(w.end, |text|)]);
  }

  /** The filter keeps every string of a list of non-blank, stripped strings. */
  lemma {:induction false} NonBlankKeepsAll(xs: seq<string>)
    requires AllNonBlankStripped(xs)
    ensures NonBlank(xs) == xs
  {
    if xs != [] {
      StripStripped(xs[0]);
      NonBlankKeepsAll(xs[1..]);
    }
  }
}
