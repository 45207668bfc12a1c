/**
 * The text chunker of the PDF service (`split_text_into_chunks`).
 *
 * A window of `chunk_size` characters slides over the text.  When the window
 * does not reach the end of the text it is shortened to end at the last
 * space, period or newline inside it, but only if that point lies in the
 * window's second half.  Every window's text is stripped of surrounding
 * whitespace, the next window starts `overlap` characters before the end of
 * the current one, and empty chunks are dropped at the end.
 */
module Chunker {
  import opened Text

  const DefaultChunkSize: int := 1000
  const DefaultOverlap: int := 200

  function MinInt(a: int, b: int): (m: int) { if a <= b then a else b }

  /** Python's `s.rfind(c)`: the last index of `c` in `s`, or -1. */
  function RFind(s: string, c: char): (r: int)
    ensures -1 <= r < |s|
    ensures 0 <= r ==> s[r] == c
    ensures forall i :: r < i < |s| ==> s[i] != c
  {
    if s == [] then -1
    else if s[|s| - 1] == c then |s| - 1
    else RFind(s[..|s| - 1], c)
  }

  /** The characters a window may be cut at. */
  predicate IsCutChar(c: char) {
    c == ' ' || c == '.' || c == '\n'
  }

  function Max3(a: int, b: int, c: int): (m: int) {
    if a >= b && a >= c then a else if b >= c then b else c
  }

  /** `max(chunk.rfind(' '), chunk.rfind('.'), chunk.rfind('\n'))`. */
  function CutPoint(chunk: string): (r: int)
    ensures -1 <= r < |chunk|
  {
    Max3(RFind(chunk, ' '), RFind(chunk, '.'), RFind(chunk, '\n'))
  }

  /** The cut point is the index of the last cut character of the chunk, or -1 when it has none. */
  lemma CutPointIsLastCutChar(chunk: string)
    ensures var r := CutPoint(chunk);
      && (0 <= r ==> IsCutChar(chunk[r]))
      && (forall i :: r < i < |chunk| ==> !IsCutChar(chunk[i]))
  {
  }

  // ---------------------------------------------------------------------
  // One turn of the loop
  // ---------------------------------------------------------------------

  /**
   * The value of `end` once the turn starting at `start` has looked for a
   * natural cut: `start + chunk_size`, or `start + cut_point` when the
   * window stops short of the end of the text and its last cut character
   * lies past its middle (`cut_point > chunk_size * 0.5`).
   */
  function WindowEnd(text: string, chunkSize: int, start: nat): (e: nat)
    requires 0 < chunkSize && start < |text|
    ensures start < e <= start + chunkSize
  {
    var end := start + chunkSize;
    if end < |text| then
      var cutPoint := CutPoint(text[start..end]);
      if 2 * cutPoint > chunkSize then start + cutPoint else end
    else
      end
  }

  /**
   * A window is shortened exactly when it stops short of the end of the text
   * and has a cut character in its second half; it then ends just before the
   * last such character, which it drops.
   */
  lemma WindowEndCut(text: string, chunkSize: int, start: nat)
    requires 0 < chunkSize && start < |text|
    ensures var e := WindowEnd(text, chunkSize, start);
      && (e < start + chunkSize <==>
            start + chunkSize < |text| && 2 * CutPoint(text[start..start + chunkSize]) > chunkSize)
      && (e < start + chunkSize ==>
            && e < |text|
            && 2 * (e - start) > chunkSize
            && IsCutChar(text[e])
            && forall j :: e < j < start + chunkSize ==> !IsCutChar(text[j]))
  {
    var end := start + chunkSize;
    if end < |text| {
      var chunk := text[start..end];
      CutPointIsLastCutChar(chunk);
      var e := WindowEnd(text, chunkSize, start);
      if e < end {
        assert chunk[e - start] == text[e];
        forall j | e < j < end ensures !IsCutChar(text[j]) {
          assert chunk[j - start] == text[j];
        }
      }
    }
  }

  /** `start = end - overlap`, as the loop is written. */
  function NextStartAsWritten(end: int, overlap: int): (n: int) {
    end - overlap
  }

  /**
   * The next start, `end - overlap`, kept at least one character past the
   * current start so that the loop always moves on.
   */
  function NextStart(start: nat, end: nat, overlap: int): (n: nat)
    ensures start < n
  {
    if end - overlap > start then end - overlap else start + 1
  }

  /**
   * Whenever the overlap is at most half the chunk size (the defaults 1000
   * and 200 included) every window is longer than the overlap, so the
   * guarded step is the step as written.
   */
  lemma NextStartIsAsWritten(text: string, chunkSize: int, overlap: int, start: nat)
    requires 0 < chunkSize && 2 * overlap <= chunkSize && start < |text|
    ensures var e := WindowEnd(text, chunkSize, start);
      NextStart(start, e, overlap) == NextStartAsWritten(e, overlap)
  {
    WindowEndCut(text, chunkSize, start);
  }

  // ---------------------------------------------------------------------
  // All turns
  // ---------------------------------------------------------------------

  /** One turn of the loop: the window `text[start:end]` before stripping. */
  datatype Window = Window(start: nat, end: nat)

  /** The windows of the turns from `start` on. */
  function Windows(text: string, chunkSize: int, overlap: int, start: nat): (ws: seq<Window>)
    requires 0 < chunkSize
    ensures forall k :: 0 <= k < |ws| ==>
      start <= ws[k].start < ws[k].end <= ws[k].start + chunkSize && ws[k].start < |text|
    decreases |text| - start
  {
    if start >= |text| then []
    else
      var end := WindowEnd(text, chunkSize, start);
      [Window(start, end)] + Windows(text, chunkSize, overlap, NextStart(start, end, overlap))
  }

  /** `text[w.start:w.end]`, which Python clips at the end of the text. */
  function Slice(text: string, w: Window): (s: string)
    requires w.start < w.end && w.start < |text|
  {
    text[w.start..MinInt(w.end, |text|)]
  }

  /** The stripped text of each window: the list the loop builds. */
  function RawChunks(text: string, ws: seq<Window>): (r: seq<string>)
    requires forall k :: 0 <= k < |ws| ==> ws[k].start < ws[k].end && ws[k].start < |text|
    ensures |r| == |ws|
  {
    if ws == [] then [] else [Strip(Slice(text, ws[0]))] + RawChunks(text, ws[1..])
  }

  /** `[c for c in chunks if c]`. */
  function NonEmpty(chunks: seq<string>): (r: seq<string>)
    ensures |r| <= |chunks|
  {
    if chunks == [] then []
    else if chunks[0] == [] then NonEmpty(chunks[1..])
    else [chunks[0]] + NonEmpty(chunks[1..])
  }

  /** A list without empty chunks passes the filter unchanged. */
  lemma {:induction false} NonEmptyKeepsAll(chunks: seq<string>)
    requires forall k :: 0 <= k < |chunks| ==> chunks[k] != []
    ensures NonEmpty(chunks) == chunks
  {
    if chunks != [] {
      NonEmptyKeepsAll(chunks[1..]);
    }
  }

  /** The filter keeps every non-empty chunk as often as it occurs, and no empty one. */
  lemma {:induction false} NonEmptyCounts(chunks: seq<string>)
    ensures multiset(NonEmpty(chunks)) == multiset(chunks)[[] := 0]
  {
    if chunks != [] {
      NonEmptyCounts(chunks[1..]);
      assert chunks == [chunks[0]] + chunks[1..];
    }
  }

  /** The filter keeps exactly the non-empty chunks. */
  lemma {:induction false} NonEmptyMembers(chunks: seq<string>)
    ensures forall c :: c in NonEmpty(chunks) <==> c in chunks && c != []
  {
    if chunks != [] {
      NonEmptyMembers(chunks[1..]);
      assert chunks == [chunks[0]] + chunks[1..];
    }
  }

  /** The filter keeps the order of the chunks: filtering a concatenation filters each part. */
  lemma {:induction false} NonEmptyAppend(a: seq<string>, b: seq<string>)
    ensures NonEmpty(a + b) == NonEmpty(a) + NonEmpty(b)
  {
    if a != [] {
      NonEmptyAppend(a[1..], b);
      assert (a + b)[0] == a[0];
      assert (a + b)[1..] == a[1..] + b;
    } else {
      assert a + b == b;
    }
  }

  /** One turn of the loop appends the stripped text of the window at `start`. */
  lemma RawChunksStep(text: string, chunkSize: int, overlap: int, start: nat)
    requires 0 < chunkSize && start < |text|
    ensures var end := WindowEnd(text, chunkSize, start);
      RawChunks(text, Windows(text, chunkSize, overlap, start))
      == [Strip(Slice(text, Window(start, end)))] + RawChunks(text, Windows(text, chunkSize, overlap, NextStart(start, end, overlap)))
  {
    var end := WindowEnd(text, chunkSize, start);
    var ws := Windows(text, chunkSize, overlap, start);
    assert ws == [Window(start, end)] + Windows(text, chunkSize, overlap, NextStart(start, end, overlap));
    assert ws[1..] == Windows(text, chunkSize, overlap, NextStart(start, end, overlap));
  }

  /** What `split_text_into_chunks(text, chunk_size, overlap)` returns. */
  function Chunks(text: string, chunkSize: int, overlap: int): (chunks: seq<string>)
    requires 0 < chunkSize
  {
    NonEmpty(RawChunks(text, Windows(text, chunkSize, overlap, 0)))
  }

  /**
   * The first half of a turn of the loop: the window `text[start:end]`, cut
   * at the last cut character of its second half when it stops short of the
   * end of the text.
   */
  method CutWindow(text: string, chunkSize: int, start: nat) returns (chunk: string, end: nat)
    requires 0 < chunkSize && start < |text|
    ensures end == WindowEnd(text, chunkSize, start)
    ensures chunk == Slice(text, Window(start, end))
  {
    end := start + chunkSize;
    chunk := text[start..MinInt(end, |text|)];
    if end < |text| {
      var cutPoint := CutPoint(chunk);
      if 2 * cutPoint > chunkSize {
        SliceOfSlice(text, start, end, 0, cutPoint);
        chunk := chunk[..cutPoint];
        end := start + cutPoint;
      }
    }
  }

  /** `split_text_into_chunks`. */
  method SplitTextIntoChunks(text: string, chunkSize: int, overlap: int) returns (result: seq<string>)
    requires 0 < chunkSize
    ensures result == Chunks(text, chunkSize, overlap)
  {
    ghost var all := RawChunks(text, Windows(text, chunkSize, overlap, 0));
    var chunks: seq<string> := [];
    var start: nat := 0;
    while start < |text|
      invariant chunks + RawChunks(text, Windows(text, chunkSize, overlap, start)) == all
      decreases |text| - start
    {
      var chunk, end := CutWindow(text, chunkSize, start);
      RawChunksStep(text, chunkSize, overlap, start);
      ghost var later := RawChunks(text, Windows(text, chunkSize, overlap, NextStart(start, end, overlap)));
      assert chunks + [Strip(chunk)] + later == all;
      chunks := chunks + [Strip(chunk)];
      start := NextStart(start, end, overlap);
    }
    assert chunks == all;
    result := NonEmpty(chunks);
  }

  // ---------------------------------------------------------------------
  // Properties
  // ---------------------------------------------------------------------

  /**
   * The windows start at `start`, each is at most `chunk_size` long, each
   * next window starts where the step puts it, and the last step leaves the
   * text.
   */
  lemma {:induction false} WindowsChain(text: string, chunkSize: int, overlap: int, start: nat)
    requires 0 < chunkSize
    ensures var ws := Windows(text, chunkSize, overlap, start);
      && (start < |text| <==> ws != [])
      && (ws != [] ==> ws[0].start == start)
      && (forall k :: 0 <= k < |ws| ==> ws[k].end == WindowEnd(text, chunkSize, ws[k].start))
      && (forall k :: 0 <= k < |ws| ==> ws[k].end <= ws[k].start + chunkSize)
      && (forall k :: 0 <= k && k + 1 < |ws| ==> ws[k + 1].start == NextStart(ws[k].start, ws[k].end, overlap))
      && (ws != [] ==> |text| <= NextStart(ws[|ws| - 1].start, ws[|ws| - 1].end, overlap))
    decreases |text| - start
  {
    if start < |text| {
      var end := WindowEnd(text, chunkSize, start);
      WindowsChain(text, chunkSize, overlap, NextStart(start, end, overlap));
    }
  }

  /** A slice of a slice is a slice. */
  lemma SliceOfSlice(s: string, lo: nat, hi: nat, a: nat, b: nat)
    requires lo <= hi <= |s| && a <= b <= hi - lo
    ensures s[lo..hi][a..b] == s[lo + a..lo + b]
    ensures s[lo..hi][..b] == s[lo..lo + b]
  {
    var inner := s[lo..hi];
    assert forall j :: 0 <= j < b - a ==> inner[a..b][j] == inner[a + j] == s[lo + a + j];
    assert forall j :: 0 <= j < b ==> inner[..b][j] == inner[j] == s[lo + j];
  }

  lemma OccursInSlice(c: string, s: string, lo: nat, hi: nat, a: int)
    requires lo <= hi <= |s| && OccursAt(c, s[lo..hi], a)
    ensures OccursAt(c, s, lo + a)
  {
    SliceOfSlice(s, lo, hi, a, a + |c|);
  }

  /** Position `i` of the text lies in one of the windows. */
  ghost predicate InSomeWindow(ws: seq<Window>, i: nat) {
    exists k :: 0 <= k < |ws| && ws[k].start <= i < ws[k].end
  }

  /**
   * With a non-negative overlap no character is skipped: every position of
   * the text from `start` on lies in some window.
   */
  lemma {:induction false} WindowsCover(text: string, chunkSize: int, overlap: int, start: nat, i: nat)
    requires 0 < chunkSize && 0 <= overlap
    requires start <= i < |text|
    ensures InSomeWindow(Windows(text, chunkSize, overlap, start), i)
    decreases |text| - start
  {
    var ws := Windows(text, chunkSize, overlap, start);
    var end := WindowEnd(text, chunkSize, start);
    var next := NextStart(start, end, overlap);
    assert ws == [Window(start, end)] + Windows(text, chunkSize, overlap, next);
    if i < end {
      assert ws[0] == Window(start, end);
      assert 0 < |ws| && ws[0].start <= i < ws[0].end;
      assert InSomeWindow(ws, i);
    } else {
      WindowsCover(text, chunkSize, overlap, next, i);
      var rest := Windows(text, chunkSize, overlap, next);
      var k :| 0 <= k < |rest| && rest[k].start <= i < rest[k].end;
      assert ws[k + 1] == rest[k];
      assert 0 <= k + 1 < |ws| && ws[k + 1].start <= i < ws[k + 1].end;
      assert InSomeWindow(ws, i);
    }
  }

  /**
   * When the overlap is at most half the chunk size, each window starts
   * exactly `overlap` characters before the end of the previous one.
   */
  lemma WindowsOverlap(text: string, chunkSize: int, overlap: int)
    requires 0 < chunkSize && 2 * overlap <= chunkSize
    ensures var ws := Windows(text, chunkSize, overlap, 0);
      forall k :: 0 <= k && k + 1 < |ws| ==> ws[k + 1].start == NextStartAsWritten(ws[k].end, overlap)
  {
    var ws := Windows(text, chunkSize, overlap, 0);
    WindowsChain(text, chunkSize, overlap, 0);
    forall k | 0 <= k && k + 1 < |ws| ensures ws[k + 1].start == NextStartAsWritten(ws[k].end, overlap) {
      NextStartIsAsWritten(text, chunkSize, overlap, ws[k].start);
    }
  }

  /**
   * Entry k of the built list is the stripped text of window k.
   */
  lemma {:induction false} RawChunksEntries(text: string, ws: seq<Window>)
    requires forall k :: 0 <= k < |ws| ==> ws[k].start < ws[k].end && ws[k].start < |text|
    ensures forall k :: 0 <= k < |ws| ==> RawChunks(text, ws)[k] == Strip(Slice(text, ws[k]))
  {
    if ws != [] {
      RawChunksEntries(text, ws[1..]);
    }
  }

  /**
   * Every chunk returned is non-empty, neither starts nor ends with
   * whitespace, is at most `chunk_size` characters long and is a piece of
   * the text.
   */
  lemma ChunksAreStrippedPieces(text: string, chunkSize: int, overlap: int)
    requires 0 < chunkSize
    ensures forall c :: c in Chunks(text, chunkSize, overlap) ==> StrippedPiece(c, text, chunkSize)
  {
    var ws := Windows(text, chunkSize, overlap, 0);
    var raw := RawChunks(text, ws);
    RawChunksEntries(text, ws);
    NonEmptyMembers(raw);
    forall c | c in Chunks(text, chunkSize, overlap) ensures StrippedPiece(c, text, chunkSize) {
      var k :| 0 <= k < |raw| && raw[k] == c;
      assert c == Strip(Slice(text, ws[k])) && c != [];
      WindowChunkIsPiece(text, ws[k], chunkSize);
    }
  }

  /** `c` is a non-empty piece of `text`, without whitespace at either end, of at most `chunkSize` characters. */
  ghost predicate StrippedPiece(c: string, text: string, chunkSize: int) {
    && c != []
    && !IsSpace(c[0]) && !IsSpace(c[|c| - 1])
    && |c| <= chunkSize
    && exists a :: OccursAt(c, text, a)
  }

  /** The stripped text of one window, when not empty, is a piece of the text no longer than the window. */
  lemma WindowChunkIsPiece(text: string, w: Window, chunkSize: int)
    requires w.start < w.end <= w.start + chunkSize && w.start < |text|
    ensures var c := Strip(Slice(text, w));
      c != [] ==> StrippedPiece(c, text, chunkSize)
  {
    var hi := MinInt(w.end, |text|);
    var c := Strip(text[w.start..hi]);
    var a :| OccursAt(c, text[w.start..hi], a);
    OccursInSlice(c, text, w.start, hi, a);
  }

  /** A text that is all whitespace, the empty text included, gives no chunks. */
  lemma BlankTextHasNoChunks(text: string, chunkSize: int, overlap: int)
    requires 0 < chunkSize && AllSpace(text)
    ensures Chunks(text, chunkSize, overlap) == []
  {
    var ws := Windows(text, chunkSize, overlap, 0);
    var raw := RawChunks(text, ws);
    RawChunksEntries(text, ws);
    NonEmptyMembers(raw);
    forall k | 0 <= k < |raw| ensures raw[k] == [] {
      var piece := Slice(text, ws[k]);
      assert forall j :: 0 <= j < |piece| ==> piece[j] == text[ws[k].start + j];
    }
    if NonEmpty(raw) != [] {
      assert NonEmpty(raw)[0] in NonEmpty(raw);
    }
  }

  /**
   * A text with something besides whitespace and no longer than
   * `chunk_size - overlap` (800 characters with the defaults) is one chunk:
   * itself, stripped.
   */
  lemma ShortTextIsOneChunk(text: string, chunkSize: int, overlap: int)
    requires 0 < chunkSize && |text| <= chunkSize && |text| <= chunkSize - overlap && !AllSpace(text)
    ensures Chunks(text, chunkSize, overlap) == [Strip(text)]
  {
    var ws := Windows(text, chunkSize, overlap, 0);
    var j :| 0 <= j < |text| && !IsSpace(text[j]);
    assert WindowEnd(text, chunkSize, 0) == chunkSize;
    assert Windows(text, chunkSize, overlap, NextStart(0, chunkSize, overlap)) == [];
    assert ws == [Window(0, chunkSize)];
    assert Slice(text, ws[0]) == text;
    assert RawChunks(text, ws) == [Strip(text)];
  }

  /**
   * The last window can repeat the tail of the one before it: a 13-letter
   * text without cut characters, in windows of 8 overlapping by 3, gives a
   * third chunk that lies inside the second.
   */
  lemma TailChunkRepeats()
    ensures Chunks("abcdefghijklm", 8, 3) == ["abcdefgh", "fghijklm", "klm"]
  {
    var text := "abcdefghijklm";
    assert CutPoint(text[0..8]) == -1;
    assert WindowEnd(text, 8, 0) == 8;
    assert WindowEnd(text, 8, 5) == 13;
    assert WindowEnd(text, 8, 10) == 18;
    assert Windows(text, 8, 3, 15) == [];
    assert Windows(text, 8, 3, 0) == [Window(0, 8), Window(5, 13), Window(10, 18)];
    var ws := [Window(0, 8), Window(5, 13), Window(10, 18)];
    assert text[0..8] == "abcdefgh";
    assert text[5..13] == "fghijklm";
    assert text[10..13] == "klm";
    StripKeepsTrimmed("abcdefgh");
    StripKeepsTrimmed("fghijklm");
    StripKeepsTrimmed("klm");
    assert Slice(text, ws[0]) == "abcdefgh";
    assert Slice(text, ws[1]) == "fghijklm";
    assert Slice(text, ws[2]) == "klm";
    assert RawChunks(text, ws) == ["abcdefgh", "fghijklm", "klm"];
    assert NonEmpty(["abcdefgh", "fghijklm", "klm"]) == ["abcdefgh", "fghijklm", "klm"];
  }

  /**
   * The tail of the text comes back: when window `k` already reaches the end
   * of the text but the step from it starts inside the text, another window
   * follows, and its text is a proper suffix of window `k`'s text.
   */
  lemma TailWindowRepeats(text: string, chunkSize: int, overlap: int, start: nat, k: nat)
    requires 0 < chunkSize
    requires var ws := Windows(text, chunkSize, overlap, start);
      && k < |ws| && |text| <= ws[k].end
      && NextStart(ws[k].start, ws[k].end, overlap) < |text|
    ensures var ws := Windows(text, chunkSize, overlap, start);
      && k + 1 < |ws|
      && ws[k].start < ws[k + 1].start
      && Slice(text, ws[k]) == text[ws[k].start..]
      && Slice(text, ws[k + 1]) == text[ws[k + 1].start..]
      && Slice(text, ws[k + 1]) == Slice(text, ws[k])[ws[k + 1].start - ws[k].start..]
  {
    var ws := Windows(text, chunkSize, overlap, start);
    WindowsChain(text, chunkSize, overlap, start);
    assert k + 1 < |ws|;
    var w, v := ws[k], ws[k + 1];
    assert v.start == NextStart(w.start, w.end, overlap);
    assert w.end <= w.start + chunkSize;
    assert v.end == WindowEnd(text, chunkSize, v.start) == v.start + chunkSize;
    TailSlices(text, w, v);
  }

  /** Two windows that both run past the end of the text: the later one's text is a suffix of the earlier one's. */
  lemma TailSlices(text: string, w: Window, v: Window)
    requires w.start < v.start < |text| <= w.end && |text| <= v.end
    ensures Slice(text, w) == text[w.start..] && Slice(text, v) == text[v.start..]
    ensures Slice(text, v) == Slice(text, w)[v.start - w.start..]
  {
    var tail := text[w.start..];
    assert Slice(text, w) == tail;
    SliceOfSlice(text, w.start, |text|, v.start - w.start, |text| - w.start);
    assert tail[v.start - w.start..] == text[v.start..];
  }

  /** With the default sizes the corrected step is always the source's `end - overlap`. */
  lemma DefaultStepIsAsWritten(text: string, start: nat)
    requires start < |text|
    ensures var e := WindowEnd(text, DefaultChunkSize, start);
      NextStart(start, e, DefaultOverlap) == NextStartAsWritten(e, DefaultOverlap)
  {
    NextStartIsAsWritten(text, DefaultChunkSize, DefaultOverlap, start);
  }

  /**
   * Where the source's step does not advance the corrected one differs, also
   * on runs the source finishes: here the first window is cut at 6, the
   * source moves `start` to -1 and the model to 1.
   */
  lemma CorrectedStepDiffers()
    ensures var text := "aaaaaa bbbbbbbbbbbbbbbbbb";
      && WindowEnd(text, 10, 0) == 6
      && NextStartAsWritten(6, 7) == -1
      && NextStart(0, 6, 7) == 1
  {
    var text := "aaaaaa bbbbbbbbbbbbbbbbbb";
    var window := text[0..10];
    assert window == "aaaaaa bbb";
    assert window[6] == ' ';
    assert forall i :: 0 <= i < |window| && i != 6 ==> window[i] in {'a', 'b'};
    assert RFind(window, ' ') == 6;
    assert RFind(window, '.') == -1 && RFind(window, '\n') == -1;
    assert CutPoint(window) == 6;
  }

  /**
   * As written, the loop stops moving when the overlap exceeds half the
   * chunk size: on this text, with chunk size 10 and overlap 7, the second
   * turn starts at 2 and sets `start` back to 2.
   */
  lemma AsWrittenStepStalls()
    ensures var text := "aaaaaaaaa bbbbbbbbbbbb";
      && NextStartAsWritten(WindowEnd(text, 10, 0), 7) == 2
      && NextStartAsWritten(WindowEnd(text, 10, 2), 7) == 2
  {
    var text := "aaaaaaaaa bbbbbbbbbbbb";
    assert CutPoint(text[0..10]) == 9;
    assert CutPoint(text[2..12]) == 7;
  }
}
