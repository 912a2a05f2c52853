/**
 * The sliding-window chunker `chunkText` of the document-ingestion function:
 * a window of `chunkSize` characters moves over the text in steps of
 * `chunkSize - overlap`; the trimmed content of each window is kept when it is
 * not empty, and the walk stops at the first window that reaches the end of
 * the text.
 */
module Chunker {
  import opened Common

  /** Chunk size and overlap the ingestion function passes to `chunkText`. */
  const ChunkSize: nat := 1000
  const ChunkOverlap: nat := 200

  /**
   * The characters `String.prototype.trim` removes: ECMAScript WhiteSpace
   * (TAB, VT, FF, ZWNBSP and every space separator) and LineTerminator
   * (LF, CR, LS, PS).
   */
  predicate IsWhitespace(c: char) {
    var u := c as int;
    u == 0x09 || u == 0x0A || u == 0x0B || u == 0x0C || u == 0x0D
    || u == 0x20 || u == 0xA0 || u == 0x1680 || (0x2000 <= u <= 0x200A)
    || u == 0x2028 || u == 0x2029 || u == 0x202F || u == 0x205F
    || u == 0x3000 || u == 0xFEFF
  }

  /** Every character of `s` is whitespace (the empty string included). */
  predicate Blank(s: string) {
    forall i :: 0 <= i < |s| ==> IsWhitespace(s[i])
  }

  /** `s` with its leading whitespace removed. */
  function TrimStart(s: string): string {
    if s != [] && IsWhitespace(s[0]) then TrimStart(s[1..]) else s
  }

  /** `s` with its trailing whitespace removed. */
  function TrimEnd(s: string): string {
    if s != [] && IsWhitespace(s[|s| - 1]) then TrimEnd(s[..|s| - 1]) else s
  }

  /**
   * `TrimStart` drops a blank prefix of `s` and keeps the rest, which does
   * not start with whitespace.
   */
  lemma {:induction false} TrimStartSpec(s: string)
    ensures var r := TrimStart(s);
      |r| <= |s| && r == s[|s| - |r|..] && Blank(s[..|s| - |r|])
      && (r == [] || !IsWhitespace(r[0]))
  {
    if s != [] && IsWhitespace(s[0]) {
      TrimStartSpec(s[1..]);
      var r := TrimStart(s[1..]);
      assert s[..|s| - |r|] == [s[0]] + s[1..][..|s| - 1 - |r|];
    }
  }

  /**
   * `TrimEnd` drops a blank suffix of `s` and keeps the rest, which does not
   * end with whitespace.
   */
  lemma {:induction false} TrimEndSpec(s: string)
    ensures var r := TrimEnd(s);
      |r| <= |s| && r == s[..|r|] && Blank(s[|r|..])
      && (r == [] || !IsWhitespace(r[|r| - 1]))
  {
    if s != [] && IsWhitespace(s[|s| - 1]) {
      TrimEndSpec(s[..|s| - 1]);
      var r := TrimEnd(s[..|s| - 1]);
      assert s[|r|..] == s[..|s| - 1][|r|..] + [s[|s| - 1]];
    }
  }

  /** Number of leading whitespace characters of `s`. */
  function Lead(s: string): (k: nat)
    ensures k <= |s|
  {
    TrimStartSpec(s);
    |s| - |TrimStart(s)|
  }

  /**
   * `String.prototype.trim`: the result is no longer than `s`, and it is
   * empty exactly when `s` is blank.
   */
  function Trim(s: string): string
  {
    TrimEnd(TrimStart(s))
  }

  /** Trimming never grows a string, and empties exactly the all-whitespace ones. */
  lemma {:induction false} TrimBounds(s: string)
    ensures |Trim(s)| <= |s|
    ensures Trim(s) == [] <==> Blank(s)
  {
    TrimStartSpec(s);
    TrimEndSpec(TrimStart(s));
  }

  /**
   * What is left by `Trim` is the contiguous piece of `s` after its leading
   * whitespace; everything dropped on either side is whitespace, and a
   * non-empty result starts and ends with a non-whitespace character.
   */
  lemma {:induction false} TrimPiece(s: string)
    ensures var r := Trim(s);
      Lead(s) + |r| <= |s| && r == s[Lead(s)..Lead(s) + |r|]
      && Blank(s[..Lead(s)]) && Blank(s[Lead(s) + |r|..])
      && (r != [] ==> !IsWhitespace(r[0]) && !IsWhitespace(r[|r| - 1]))
  {
    var t := TrimStart(s);
    var r := TrimEnd(t);
    TrimStartSpec(s);
    TrimEndSpec(t);
    assert s[Lead(s) + |r|..] == t[|r|..];
  }

  /** A window `[start, end)` of the text. */
  datatype Window = Window(start: nat, end: nat)

  /** Every window lies within a text of `n` characters. */
  predicate WithinText(ws: seq<Window>, n: nat) {
    forall j :: 0 <= j < |ws| ==> ws[j].start <= ws[j].end <= n
  }

  /**
   * The windows the loop of `chunkText` visits from `start` on: each window
   * is `[start, min(start + size, n))`; the walk stops after a window that
   * reaches `n`, and otherwise resumes at that window's end less `overlap`.
   */
  function WindowsFrom(n: nat, start: nat, size: nat, overlap: nat): (ws: seq<Window>)
    requires overlap < size
    ensures WithinText(ws, n)
    decreases n - start
  {
    if start >= n then []
    else
      var end := Min(start + size, n);
      if end == n then [Window(start, end)]
      else [Window(start, end)] + WindowsFrom(n, Resume(end, overlap), size, overlap)
  }

  /** A window of a text of `n` characters that is non-empty and as long as `size` allows. */
  predicate FullWindow(w: Window, n: nat, size: nat) {
    w.start < w.end <= n && w.end == Min(w.start + size, n)
  }

  /**
   * Each window is non-empty, starts no earlier than `start`, and ends
   * `size` characters after it starts or at the end of the text.
   */
  lemma {:induction false} WindowsFromBounds(n: nat, start: nat, size: nat, overlap: nat)
    requires overlap < size
    ensures forall j :: 0 <= j < |WindowsFrom(n, start, size, overlap)| ==>
      start <= WindowsFrom(n, start, size, overlap)[j].start && FullWindow(WindowsFrom(n, start, size, overlap)[j], n, size)
    decreases n - start
  {
    var ws := WindowsFrom(n, start, size, overlap);
    var end := Min(start + size, n);
    if start < n {
      assert ws[0] == Window(start, end);
      if end < n {
        var rest := WindowsFrom(n, Resume(end, overlap), size, overlap);
        WindowsFromBounds(n, Resume(end, overlap), size, overlap);
        assert ws == [Window(start, end)] + rest;
        forall j | 0 < j < |ws|
          ensures start <= ws[j].start && FullWindow(ws[j], n, size)
        {
          assert ws[j] == rest[j - 1];
        }
      }
    }
  }

  /** The windows `chunkText` visits over a text of `n` characters. */
  function Windows(n: nat, size: nat, overlap: nat): (ws: seq<Window>)
    requires overlap < size
    ensures WithinText(ws, n)
  {
    WindowsFrom(n, 0, size, overlap)
  }

  /** The trimmed contents of the windows `ws` of `text`, blank ones dropped, in order. */
  function ChunksOf(text: string, ws: seq<Window>): seq<string>
    requires WithinText(ws, |text|)
  {
    if ws == [] then []
    else
      var c := Trim(text[ws[0].start..ws[0].end]);
      (if c != [] then [c] else []) + ChunksOf(text, ws[1..])
  }

  /** The chunk the window at `start` contributes: its trimmed content, unless that is empty. */
  function WindowChunk(text: string, start: nat, size: nat): seq<string>
    requires start <= |text|
  {
    var c := Trim(text[start..Min(start + size, |text|)]);
    if c != [] then [c] else []
  }

  /**
   * The chunks `chunkText`'s loop collects from the window at `start` on:
   * that window's chunk, then, unless the window reaches the end of the
   * text, the chunks from `end - overlap` on.
   */
  function ChunksFrom(text: string, start: nat, size: nat, overlap: nat): seq<string>
    requires overlap < size
    decreases |text| - start
  {
    if start >= |text| then []
    else
      var end := Min(start + size, |text|);
      WindowChunk(text, start, size) + (if end == |text| then [] else ChunksFrom(text, Resume(end, overlap), size, overlap))
  }

  /** Where the walk resumes after a window ending at `end`: `overlap` characters back. */
  function Resume(end: nat, overlap: nat): nat
    requires overlap <= end
  {
    end - overlap
  }

  /** What `chunkText(text, size, overlap)` returns. */
  function Chunks(text: string, size: nat, overlap: nat): seq<string>
    requires overlap < size
  {
    ChunksFrom(text, 0, size, overlap)
  }

  /** The chunks from `start` on are the chunks of the windows from `start` on. */
  lemma {:induction false} ChunksFromWindows(text: string, start: nat, size: nat, overlap: nat)
    requires overlap < size
    ensures ChunksFrom(text, start, size, overlap) == ChunksOf(text, WindowsFrom(|text|, start, size, overlap))
    decreases |text| - start
  {
    if start < |text| {
      var end := Min(start + size, |text|);
      var ws := WindowsFrom(|text|, start, size, overlap);
      assert ws[0] == Window(start, end);
      assert ChunksOf(text, ws) == WindowChunk(text, start, size) + ChunksOf(text, ws[1..]);
      if end == |text| {
        assert ws[1..] == [];
      } else {
        ChunksFromWindows(text, Resume(end, overlap), size, overlap);
        assert ws[1..] == WindowsFrom(|text|, Resume(end, overlap), size, overlap);
      }
    }
  }

  /**
   * Moving one piece from the pending part to the collected part keeps the
   * whole. Stated over plain sequences so that `ChunkTextNext` regroups its
   * chunk lists without unfolding them.
   */
  lemma {:induction false} Regroup<T>(done: seq<T>, piece: seq<T>, pending: seq<T>, rest: seq<T>, whole: seq<T>, after: seq<T>)
    requires done + pending == whole && pending == piece + rest && after == done + piece
    ensures after + rest == whole
  {
  }

  /** The last iteration of `chunkText`: once a window reaches the end of the text, everything is collected. */
  lemma {:induction false} ChunkTextLast(text: string, start: nat, size: nat, overlap: nat, before: seq<string>, after: seq<string>)
    requires overlap < size && start < |text| && Min(start + size, |text|) == |text|
    requires before + ChunksFrom(text, start, size, overlap) == Chunks(text, size, overlap)
    requires after == before + WindowChunk(text, start, size)
    ensures after == Chunks(text, size, overlap)
  {
  }

  /**
   * One round of the walk: the chunks from a window that does not reach the
   * end of the text are its own chunk, then the chunks from `next`, which is
   * `overlap` characters before the window's end.
   */
  lemma {:induction false} ChunksFromStep(text: string, start: nat, size: nat, overlap: nat, next: nat)
    requires overlap < size && start < |text| && Min(start + size, |text|) < |text|
    requires next == Resume(Min(start + size, |text|), overlap)
    ensures ChunksFrom(text, start, size, overlap) == WindowChunk(text, start, size) + ChunksFrom(text, next, size, overlap)
  {
  }

  /** Any other iteration of `chunkText`: the next window starts `overlap` characters before this one ends. */
  lemma {:induction false} ChunkTextNext(text: string, start: nat, size: nat, overlap: nat, next: nat, before: seq<string>, after: seq<string>)
    requires overlap < size && start < |text| && Min(start + size, |text|) < |text|
    requires next == Resume(Min(start + size, |text|), overlap)
    requires before + ChunksFrom(text, start, size, overlap) == Chunks(text, size, overlap)
    requires after == before + WindowChunk(text, start, size)
    ensures after + ChunksFrom(text, next, size, overlap) == Chunks(text, size, overlap)
  {
    ChunksFromStep(text, start, size, overlap, next);
    Regroup(before, WindowChunk(text, start, size), ChunksFrom(text, start, size, overlap),
            ChunksFrom(text, next, size, overlap), Chunks(text, size, overlap), after);
  }

  /**
   * `chunkText` (index.ts lines 13-30). The loop does not validate its
   * parameters; `overlap < chunkSize` is what makes `start` advance.
   */
  method ChunkText(text: string, chunkSize: nat, overlap: nat) returns (chunks: seq<string>)
    requires overlap < chunkSize
    ensures chunks == Chunks(text, chunkSize, overlap)
  {
    chunks := [];
    var start: nat := 0;
    assert chunks + ChunksFrom(text, start, chunkSize, overlap) == ChunksFrom(text, start, chunkSize, overlap);
    while start < |text|
      invariant chunks + ChunksFrom(text, start, chunkSize, overlap) == Chunks(text, chunkSize, overlap)
      decreases |text| - start
    {
      var end := Min(start + chunkSize, |text|);
      var trimmed := Trim(text[start..end]);
      ghost var before := chunks;
      if trimmed != [] {
        chunks := chunks + [trimmed];
      }
      if end == |text| {
        ChunkTextLast(text, start, chunkSize, overlap, before, chunks);
        break;
      }
      var next := end - overlap;
      ChunkTextNext(text, start, chunkSize, overlap, next, before, chunks);
      start := next;
    }
  }

  // ---------------------------------------------------------------------------
  // Properties of the windows

  /**
   * From any `start` inside the text, the windows begin at `start`, each
   * following window begins exactly `size - overlap` after the previous one,
   * only the last window reaches the end of the text, and it does reach it.
   */
  lemma {:induction false} WindowsFromShape(n: nat, start: nat, size: nat, overlap: nat)
    requires overlap < size && start < n
    ensures var ws := WindowsFrom(n, start, size, overlap);
      |ws| > 0 && ws[0].start == start && ws[|ws| - 1].end == n
      && (forall j :: 0 <= j < |ws| - 1 ==>
            ws[j].end < n && ws[j + 1].start == ws[j].start + (size - overlap))
    decreases n - start
  {
    var ws := WindowsFrom(n, start, size, overlap);
    var end := Min(start + size, n);
    if end != n {
      var next := Resume(end, overlap);
      WindowsFromShape(n, next, size, overlap);
      var rest := WindowsFrom(n, next, size, overlap);
      assert ws == [Window(start, end)] + rest;
      forall j | 0 <= j < |ws| - 1
        ensures ws[j].end < n && ws[j + 1].start == ws[j].start + (size - overlap)
      {
        if j > 0 {
          assert ws[j] == rest[j - 1] && ws[j + 1] == rest[j];
        }
      }
    }
  }

  /**
   * The windows of a text: none for the empty text; otherwise the first
   * starts at 0, starts strictly increase by exactly `size - overlap`, and
   * the last window, and only it, ends at the end of the text.
   */
  lemma {:induction false} WindowsShape(n: nat, size: nat, overlap: nat)
    requires overlap < size
    ensures var ws := Windows(n, size, overlap);
      (ws == [] <==> n == 0)
      && (n > 0 ==> ws[0].start == 0 && ws[|ws| - 1].end == n)
      && (forall j :: 0 <= j < |ws| - 1 ==>
            ws[j].end < n && ws[j + 1].start == ws[j].start + (size - overlap))
  {
    if n > 0 {
      WindowsFromShape(n, 0, size, overlap);
    }
  }

  /** Every position of the text at or after `start` lies in some window; `j` is one. */
  lemma {:induction false} WindowsFromCover(n: nat, start: nat, size: nat, overlap: nat, i: nat)
    returns (j: nat)
    requires overlap < size && start <= i < n
    ensures j < |WindowsFrom(n, start, size, overlap)|
    ensures WindowsFrom(n, start, size, overlap)[j].start <= i < WindowsFrom(n, start, size, overlap)[j].end
    decreases n - start
  {
    var ws := WindowsFrom(n, start, size, overlap);
    var end := Min(start + size, n);
    assert ws[0] == Window(start, end);
    if i < end {
      j := 0;
    } else {
      var next := Resume(end, overlap);
      var k := WindowsFromCover(n, next, size, overlap, i);
      var rest := WindowsFrom(n, next, size, overlap);
      assert ws[1..] == rest;
      assert ws[k + 1] == rest[k];
      j := k + 1;
    }
  }

  /** The example of a 2300-character text with the deployed 1000/200 parameters. */
  lemma {:induction false} Windows2300()
    ensures Windows(2300, ChunkSize, ChunkOverlap)
         == [Window(0, 1000), Window(800, 1800), Window(1600, 2300)]
  {
    assert WindowsFrom(2300, 1600, 1000, 200) == [Window(1600, 2300)];
    assert WindowsFrom(2300, 800, 1000, 200) == [Window(800, 1800), Window(1600, 2300)];
  }

  // ---------------------------------------------------------------------------
  // Properties of the chunks

  /**
   * Every chunk is not empty and is the trimmed content of one of the
   * windows, and there are no more chunks than windows.
   */
  lemma {:induction false} ChunksOfSound(text: string, ws: seq<Window>, k: nat)
    requires WithinText(ws, |text|)
    requires k < |ChunksOf(text, ws)|
    ensures |ChunksOf(text, ws)| <= |ws|
    ensures ChunksOf(text, ws)[k] != []
    ensures exists j :: 0 <= j < |ws| && ChunksOf(text, ws)[k] == Trim(text[ws[j].start..ws[j].end])
  {
    var c := Trim(text[ws[0].start..ws[0].end]);
    var head := if c != [] then [c] else [];
    var rest := ChunksOf(text, ws[1..]);
    assert ChunksOf(text, ws) == head + rest;
    if k < |head| {
      assert ChunksOf(text, ws)[k] == c;
      if rest != [] {
        ChunksOfSound(text, ws[1..], 0);
      }
    } else {
      ChunksOfSound(text, ws[1..], k - |head|);
      var j :| 0 <= j < |ws[1..]| && rest[k - |head|] == Trim(text[ws[1..][j].start..ws[1..][j].end]);
      assert ws[1..][j] == ws[j + 1];
    }
  }

  /**
   * Each chunk `chunkText` returns is non-empty, at most `size` characters
   * long and the trim of one of its windows.
   */
  lemma {:induction false} ChunkSound(text: string, size: nat, overlap: nat, k: nat)
    requires overlap < size
    requires k < |Chunks(text, size, overlap)|
    ensures var c := Chunks(text, size, overlap)[k];
      c != [] && |c| <= size
      && exists j :: 0 <= j < |Windows(|text|, size, overlap)|
           && c == Trim(text[Windows(|text|, size, overlap)[j].start..Windows(|text|, size, overlap)[j].end])
  {
    var ws := Windows(|text|, size, overlap);
    ChunksFromWindows(text, 0, size, overlap);
    ChunksOfSound(text, ws, k);
    var j :| 0 <= j < |ws| && Chunks(text, size, overlap)[k] == Trim(text[ws[j].start..ws[j].end]);
    WindowsFromBounds(|text|, 0, size, overlap);
    assert ws[j].end == Min(ws[j].start + size, |text|);
    TrimBounds(text[ws[j].start..ws[j].end]);
  }

  /** The chunks of some windows are none exactly when every window's content is blank. */
  lemma {:induction false} ChunksOfEmpty(text: string, ws: seq<Window>)
    requires WithinText(ws, |text|)
    ensures ChunksOf(text, ws) == [] <==>
      forall j :: 0 <= j < |ws| ==> Blank(text[ws[j].start..ws[j].end])
  {
    if ws != [] {
      TrimBounds(text[ws[0].start..ws[0].end]);
      ChunksOfEmpty(text, ws[1..]);
      if ChunksOf(text, ws) == [] {
        forall j | 0 <= j < |ws| ensures Blank(text[ws[j].start..ws[j].end]) {
          if j > 0 {
            assert ws[j] == ws[1..][j - 1];
          }
        }
      }
    }
  }

  /** A slice of a blank string is blank. */
  lemma {:induction false} BlankSlice(s: string, lo: nat, hi: nat)
    requires lo <= hi <= |s| && Blank(s)
    ensures Blank(s[lo..hi])
  {
    forall i | 0 <= i < hi - lo ensures IsWhitespace(s[lo..hi][i]) {
      assert s[lo..hi][i] == s[lo + i];
    }
  }

  /**
   * Empty or all-whitespace text gives no chunks, and any text with a
   * non-whitespace character gives at least one.
   */
  lemma {:induction false} NoChunksIffBlank(text: string, size: nat, overlap: nat)
    requires overlap < size
    ensures Chunks(text, size, overlap) == [] <==> Blank(text)
  {
    var ws := Windows(|text|, size, overlap);
    ChunksFromWindows(text, 0, size, overlap);
    ChunksOfEmpty(text, ws);
    if Blank(text) {
      BlankWindows(text, ws);
    } else {
      var i :| 0 <= i < |text| && !IsWhitespace(text[i]);
      var j := NonBlankWindow(text, size, overlap, i);
    }
  }

  /** A non-whitespace character at `i` makes the window `j` that covers it non-blank. */
  lemma {:induction false} NonBlankWindow(text: string, size: nat, overlap: nat, i: nat) returns (j: nat)
    requires overlap < size && i < |text| && !IsWhitespace(text[i])
    ensures j < |Windows(|text|, size, overlap)|
    ensures !Blank(text[Windows(|text|, size, overlap)[j].start..Windows(|text|, size, overlap)[j].end])
  {
    var ws := Windows(|text|, size, overlap);
    j := WindowsFromCover(|text|, 0, size, overlap, i);
    assert text[ws[j].start..ws[j].end][i - ws[j].start] == text[i];
  }

  /** Every window of a blank text is blank. */
  lemma {:induction false} BlankWindows(text: string, ws: seq<Window>)
    requires WithinText(ws, |text|) && Blank(text)
    ensures forall j :: 0 <= j < |ws| ==> Blank(text[ws[j].start..ws[j].end])
  {
    forall j | 0 <= j < |ws| ensures Blank(text[ws[j].start..ws[j].end]) {
      BlankSlice(text, ws[j].start, ws[j].end);
    }
  }

  /** Trimming text that has no whitespace changes nothing. */
  lemma {:induction false} TrimNoWhitespace(s: string)
    requires forall i :: 0 <= i < |s| ==> !IsWhitespace(s[i])
    ensures Trim(s) == s
  {
    if s != [] {
      assert TrimStart(s) == s;
    }
  }

  /**
   * A 2300-character text without whitespace, chunked with the deployed
   * parameters, gives exactly the three windows [0,1000), [800,1800) and
   * [1600,2300) as chunks.
   */
  lemma {:induction false} Chunks2300(text: string)
    requires |text| == 2300
    requires forall i :: 0 <= i < |text| ==> !IsWhitespace(text[i])
    ensures Chunks(text, ChunkSize, ChunkOverlap)
         == [text[0..1000], text[800..1800], text[1600..2300]]
  {
    Windows2300();
    var ws := Windows(2300, ChunkSize, ChunkOverlap);
    ChunksFromWindows(text, 0, ChunkSize, ChunkOverlap);
    forall j | 0 <= j < 3 ensures Trim(text[ws[j].start..ws[j].end]) == text[ws[j].start..ws[j].end] {
      var s := text[ws[j].start..ws[j].end];
      forall i | 0 <= i < |s| ensures !IsWhitespace(s[i]) {
        assert s[i] == text[ws[j].start + i];
      }
      TrimNoWhitespace(s);
    }
    assert ChunksOf(text, ws[2..]) == [text[1600..2300]];
    assert ChunksOf(text, ws[1..]) == [text[800..1800], text[1600..2300]];
  }
}
