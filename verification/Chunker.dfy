/** Splitting a document into overlapping chunks, cut at a line or sentence end where there is one. */
module Chunker {
  import opened Common
  import opened Text

  const MAX_DOCUMENT_CHARACTERS: nat := 100_000
  const CHUNK_CHARACTERS: nat := 800
  const CHUNK_OVERLAP_CHARACTERS: nat := 120

  // ---- Specification ----

  predicate Blank(c: char) { c == ' ' || c == '\t' }

  /** `content.replace("\r\n", "\n")`: a carriage return goes exactly when a line feed follows it. */
  function UnixNewlines(s: string): string {
    if s == [] then [] else KeptHead(s) + UnixNewlines(s[1..])
  }

  function KeptHead(s: string): string
    requires s != []
  {
    if s[0] == '\r' && |s| > 1 && s[1] == '\n' then [] else [s[0]]
  }

  function Normalize(content: string): string { Strip(Squeeze(UnixNewlines(content), Blank, false)) }

  predicate At(s: string, pattern: string, i: int) {
    0 <= i <= i + |pattern| <= |s| && s[i..i + |pattern|] == pattern
  }

  /** `s.rfind(pattern, lo, hi)`. */
  function RFind(s: string, pattern: string, lo: nat, hi: nat): (i: int)
    requires hi <= |s|
    ensures i == -1 || (lo <= i && i + |pattern| <= hi && At(s, pattern, i))
    ensures forall k | i < k && lo <= k && k + |pattern| <= hi :: !At(s, pattern, k)
    decreases hi
  {
    if hi < lo + |pattern| || hi == 0 then
      (if pattern == "" && hi == 0 && lo == 0 then 0 else -1)
    else if At(s, pattern, hi - |pattern|) then hi - |pattern|
    else RFind(s, pattern, lo, hi - 1)
  }

  /** Where the window that starts at `start` ends. */
  function WindowEnd(s: string, start: nat): (end: nat)
    requires start < |s|
    ensures start < end <= |s| && end - start <= CHUNK_CHARACTERS
    ensures end < |s| ==> end - start >= CHUNK_CHARACTERS / 2 + 2
  {
    var end := if start + CHUNK_CHARACTERS < |s| then start + CHUNK_CHARACTERS else |s|;
    if end < |s| then
      var line, sentence := RFind(s, "\n", start, end), RFind(s, ". ", start, end);
      var boundary := if line < sentence then sentence else line;
      if boundary > start + CHUNK_CHARACTERS / 2 then boundary + 1 else end
    else end
  }

  function NextStart(start: nat, end: nat): nat {
    if end < start + 1 + CHUNK_OVERLAP_CHARACTERS then start + 1 else end - CHUNK_OVERLAP_CHARACTERS
  }

  datatype Window = Window(start: nat, end: nat)

  function Windows(s: string, start: nat): (w: seq<Window>)
    requires start < |s|
    ensures w != [] && w[0].start == start
    decreases |s| - start
  {
    var end := WindowEnd(s, start);
    [Window(start, end)] + if end >= |s| then [] else Windows(s, NextStart(start, end))
  }

  predicate InText(s: string, w: seq<Window>) {
    forall i | 0 <= i < |w| :: w[i].start < w[i].end <= |s|
  }

  /** The windows' stripped texts, without those that are blank. */
  function ChunksOf(s: string, w: seq<Window>): seq<string>
    requires InText(s, w)
  {
    if w == [] then [] else
      var last := w[|w| - 1];
      var chunk := Strip(s[last.start..last.end]);
      ChunksOf(s, w[..|w| - 1]) + if chunk == [] then [] else [chunk]
  }

  /** `chunk_text`; nothing for a document that is empty or too long. */
  function Chunks(content: string): Option<seq<string>> {
    var s := Normalize(content);
    if s == [] || |s| > MAX_DOCUMENT_CHARACTERS then None
    else
      WindowsInText(s, 0);
      Some(ChunksOf(s, Windows(s, 0)))
  }

  method ChunkText(content: string) returns (r: Option<seq<string>>)
    ensures r == Chunks(content)
  {
    hide Normalize, Windows, ChunksOf;
    var s := Normalize(content);
    if s == [] || |s| > MAX_DOCUMENT_CHARACTERS { return None; }
    WindowsInText(s, 0);
    var chunks := ChunkNormalized(s);
    return Some(chunks);
  }

  /** The loop over `start` and `end`. */
  method ChunkNormalized(s: string) returns (chunks: seq<string>)
    requires s != []
    ensures InText(s, Windows(s, 0)) && chunks == ChunksOf(s, Windows(s, 0))
  {
    hide Strip, RFind;
    chunks := [];
    var start := 0;
    ghost var done: seq<Window> := [];
    while start < |s|
      invariant start < |s| && done + Windows(s, start) == Windows(s, 0)
      invariant InText(s, done) && chunks == ChunksOf(s, done)
      decreases |s| - start
    {
      var end := if start + CHUNK_CHARACTERS < |s| then start + CHUNK_CHARACTERS else |s|;
      if end < |s| {
        var line, sentence := RFind(s, "\n", start, end), RFind(s, ". ", start, end);
        var boundary := if line < sentence then sentence else line;
        if boundary > start + CHUNK_CHARACTERS / 2 {
          end := boundary + 1;
        }
      }
      assert end == WindowEnd(s, start);
      var chunk := Strip(s[start..end]);
      if chunk != [] {
        chunks := chunks + [chunk];
      }
      ghost var before := done;
      done := done + [Window(start, end)];
      DoneGrows(s, before, start, end);
      if end >= |s| {
        break;
      }
      start := if end < start + 1 + CHUNK_OVERLAP_CHARACTERS then start + 1 else end - CHUNK_OVERLAP_CHARACTERS;
    }
  }

  lemma DoneGrows(s: string, done: seq<Window>, start: nat, end: nat)
    requires start < |s| && end == WindowEnd(s, start) && InText(s, done)
    requires done + Windows(s, start) == Windows(s, 0)
    ensures var more := done + [Window(start, end)];
            && more[..|done|] == done && InText(s, more)
            && (if end >= |s| then more == Windows(s, 0) else more + Windows(s, NextStart(start, end)) == Windows(s, 0))
  {
    hide Windows, WindowEnd;
    WindowsStep(s, start);
    var rest := if end >= |s| then [] else Windows(s, NextStart(start, end));
    assert done + ([Window(start, end)] + rest) == (done + [Window(start, end)]) + rest;
  }

  lemma WindowsStep(s: string, start: nat)
    requires start < |s|
    ensures var end := WindowEnd(s, start);
            Windows(s, start) == [Window(start, end)] + if end >= |s| then [] else Windows(s, NextStart(start, end))
  {
    hide WindowEnd;
  }

  // ---- Line ends ----

  /** Replacement is done piece by piece, except across a carriage return and its line feed. */
  lemma {:induction false} UnixNewlinesConcat(a: string, b: string)
    requires a == [] || b == [] || a[|a| - 1] != '\r' || b[0] != '\n'
    ensures UnixNewlines(a + b) == UnixNewlines(a) + UnixNewlines(b)
    decreases |a|
  {
    hide KeptHead;
    if a == [] {
      assert a + b == b;
    } else {
      UnixNewlinesConcat(a[1..], b);
      HeadConcat(a, b);
      assert (a + b)[1..] == a[1..] + b;
      var head, tail, rest := KeptHead(a), UnixNewlines(a[1..]), UnixNewlines(b);
      assert head + (tail + rest) == (head + tail) + rest;
    }
  }

  lemma HeadConcat(a: string, b: string)
    requires a != [] && (b == [] || a[|a| - 1] != '\r' || b[0] != '\n')
    ensures KeptHead(a + b) == KeptHead(a)
  {
    assert |a| == 1 && b != [] ==> (a + b)[1] == b[0];
  }

  lemma {:induction false} UnixNewlinesKeepsLine(s: string)
    requires '\n' !in s
    ensures UnixNewlines(s) == s
    decreases |s|
  {
    if s != [] {
      assert |s| >= 2 ==> s[1] in s;
      UnixNewlinesKeepsLine(s[1..]);
    }
  }

  /** A carriage return and line feed become a line feed, whatever stands before and after them. */
  lemma LineEndReplaced(a: string, b: string)
    ensures UnixNewlines(a + "\r\n" + b) == UnixNewlines(a) + "\n" + UnixNewlines(b)
  {
    assert a + "\r\n" + b == a + ("\r\n" + b);
    UnixNewlinesConcat(a, "\r\n" + b);
    assert ("\r\n" + b)[1..] == "\n" + b && ("\n" + b)[1..] == b;
  }

  /** Where there is none, nothing is replaced. */
  lemma {:induction false} OtherTextStays(s: string)
    requires forall k | 0 <= k < |s| - 1 :: !(s[k] == '\r' && s[k + 1] == '\n')
    ensures UnixNewlines(s) == s
    decreases |s|
  {
    if s != [] {
      forall k | 0 <= k < |s[1..]| - 1 ensures !(s[1..][k] == '\r' && s[1..][k + 1] == '\n') {
        assert s[1..][k] == s[k + 1] && s[1..][k + 1] == s[k + 2];
      }
      OtherTextStays(s[1..]);
    }
  }

  /**
   * What is normalised before cutting: line ends become line feeds, runs of spaces and tabs one space each, and
   * the ends are stripped. These equations, with the two on line ends, leave no choice.
   */
  lemma BlankRunSqueezed(a: string, run: string, b: string)
    requires run != [] && forall k | 0 <= k < |run| :: run[k] == ' ' || run[k] == '\t'
    requires a == [] || (a[|a| - 1] != ' ' && a[|a| - 1] != '\t')
    requires b == [] || (b[0] != ' ' && b[0] != '\t')
    ensures Squeeze(a + run + b, Blank, false) == Squeeze(a, Blank, false) + " " + Squeeze(b, Blank, false)
  {
    SqueezeRun(a, run, b, Blank);
  }

  /** A document is refused exactly if nothing is left of it, or more than a hundred thousand characters. */
  lemma RefusedIff(content: string)
    ensures var s := Strip(Squeeze(UnixNewlines(content), Blank, false));
            Chunks(content).None? <==> s == "" || |s| > 100_000
  {}

  // ---- The windows tile the text ----

  lemma {:induction false} WindowsInText(s: string, start: nat)
    requires start < |s|
    ensures InText(s, Windows(s, start))
    decreases |s| - start
  {
    var end := WindowEnd(s, start);
    if end < |s| { WindowsInText(s, NextStart(start, end)); }
  }

  /** A window of at most 800 characters. */
  predicate Sized(w: Window) { w.start < w.end <= w.start + 800 }

  /** A cut window keeps at least 402 characters, and the next one repeats exactly the last 120 of them. */
  predicate Neighbours(s: string, p: Window, q: Window) {
    p.end < |s| && p.start + 402 <= p.end && q.start == p.end - 120
  }

  predicate Tiles(s: string, w: seq<Window>) {
    && w != [] && w[|w| - 1].end == |s|
    && (forall i | 0 <= i < |w| :: Sized(w[i]))
    && (forall i, j | 0 <= i && j == i + 1 < |w| :: Neighbours(s, w[i], w[j]))
  }

  lemma TilesCons(s: string, p: Window, w: seq<Window>)
    requires Tiles(s, w) && Sized(p) && Neighbours(s, p, w[0])
    ensures Tiles(s, [p] + w)
  {
    hide Sized, Neighbours;
    var v := [p] + w;
    assert forall i | 0 < i < |v| :: v[i] == w[i - 1];
    forall i, j | 0 <= i && j == i + 1 < |v| ensures Neighbours(s, v[i], v[j]) {
      if i > 0 { assert Neighbours(s, w[i - 1], w[i]); }
    }
  }

  /**
   * The first window starts at the beginning, the last ends at the end, and neighbours share exactly 120
   * characters.
   */
  lemma {:induction false} WindowsTile(s: string, start: nat)
    requires start < |s|
    ensures Tiles(s, Windows(s, start)) && Windows(s, start)[0].start == start
    decreases |s| - start
  {
    hide Windows;
    var end := WindowEnd(s, start);
    WindowsStep(s, start);
    if end < |s| {
      WindowsTile(s, NextStart(start, end));
      TilesCons(s, Window(start, end), Windows(s, NextStart(start, end)));
    }
  }

  // ---- Where a window is cut ----

  /**
   * A place to cut the 800 characters from `start` on, more than 400 into them: a line feed, or a full stop
   * with the blank after it still among the 800.
   */
  predicate Break(s: string, start: nat, k: int) {
    && start + 400 < k < |s|
    && (|| (s[k] == '\n' && k < start + 800)
        || (s[k] == '.' && k + 1 < |s| && s[k + 1] == ' ' && k + 1 < start + 800))
  }

  /**
   * Only a text that goes on beyond 800 characters is cut: right after the last such place, if there is one, and
   * after exactly 800 characters otherwise.
   */
  ghost predicate WellCut(s: string, w: Window) {
    w.start + 800 < |s| &&
    if exists k :: Break(s, w.start, k)
    then Break(s, w.start, w.end - 1) && forall k | Break(s, w.start, k) :: k <= w.end - 1
    else w.end == w.start + 800
  }

  lemma WindowIsWellCut(s: string, start: nat)
    requires start < |s| && WindowEnd(s, start) < |s|
    ensures WellCut(s, Window(start, WindowEnd(s, start)))
  {
    hide RFind;
    var end := start + 800;
    var line, sentence := RFind(s, "\n", start, end), RFind(s, ". ", start, end);
    forall k | start <= k < end ensures At(s, "\n", k) <==> s[k] == '\n' { LineAt(s, k); }
    forall k | start <= k < end - 1 ensures At(s, ". ", k) <==> s[k] == '.' && s[k + 1] == ' ' { SentenceAt(s, k); }
    forall k | Break(s, start, k) ensures k <= line || k <= sentence {
      if s[k] == '\n' { assert At(s, "\n", k); } else { assert At(s, ". ", k); }
    }
    var boundary := if line < sentence then sentence else line;
    if boundary > start + 400 { assert Break(s, start, boundary); }
  }

  lemma LineAt(s: string, k: nat)
    requires k < |s|
    ensures At(s, "\n", k) <==> s[k] == '\n'
  {
    assert s[k..k + 1] == [s[k]];
  }

  lemma SentenceAt(s: string, k: nat)
    requires k + 1 < |s|
    ensures At(s, ". ", k) <==> s[k] == '.' && s[k + 1] == ' '
  {
    assert s[k..k + 2] == [s[k], s[k + 1]];
  }

  /** Every window but the last is cut after the last line or sentence end in its second half, or at 800. */
  lemma {:induction false} WindowsAreWellCut(s: string, start: nat)
    requires start < |s|
    ensures forall w | w in Windows(s, start) && w.end < |s| :: WellCut(s, w)
    decreases |s| - start
  {
    hide Windows, WindowEnd, WellCut;
    var end := WindowEnd(s, start);
    WindowsStep(s, start);
    if end < |s| {
      WindowIsWellCut(s, start);
      WindowsAreWellCut(s, NextStart(start, end));
    }
  }

  /** Tiling and cuts leave no choice: these are the only windows there can be. */
  lemma {:induction false} WindowsAreUnique(s: string, start: nat, w: seq<Window>)
    requires start < |s| && Tiles(s, w) && w[0].start == start
    requires forall x | x in w && x.end < |s| :: WellCut(s, x)
    ensures w == Windows(s, start)
    decreases |s| - start
  {
    hide Windows, WindowEnd, Tiles, WellCut;
    var end := WindowEnd(s, start);
    WindowsStep(s, start);
    FirstWindow(s, w);
    if end < |s| { WindowIsWellCut(s, start); }
    OneCut(s, start, w[0].end, end);
    if end < |s| {
      TilesTail(s, w);
      assert forall x | x in w[1..] :: x in w;
      WindowsAreUnique(s, NextStart(start, end), w[1..]);
      assert w == [w[0]] + w[1..];
    } else {
      assert w == [w[0]];
    }
  }

  lemma FirstWindow(s: string, w: seq<Window>)
    requires Tiles(s, w)
    ensures w != [] && w[0] in w && Sized(w[0]) && w[0].end <= |s|
    ensures w[0].end < |s| ==> |w| > 1 && w[1].start == w[0].end - 120 && w[0].start + 402 <= w[0].end
    ensures w[0].end == |s| ==> |w| == 1
  {
    if |w| > 1 { assert Neighbours(s, w[0], w[1]); }
  }

  lemma TilesTail(s: string, w: seq<Window>)
    requires Tiles(s, w) && |w| > 1
    ensures Tiles(s, w[1..])
  {
    var v := w[1..];
    assert forall i | 0 <= i < |v| :: v[i] == w[i + 1];
    forall i, j | 0 <= i && j == i + 1 < |v| ensures Neighbours(s, v[i], v[j]) {
      assert Neighbours(s, w[i + 1], w[j + 1]);
    }
  }

  /** Two ends for one window, each proper for it, are the same end. */
  lemma OneCut(s: string, start: nat, a: nat, b: nat)
    requires start < |s| && start < a <= |s| && b == WindowEnd(s, start) && a <= start + 800
    requires a < |s| ==> WellCut(s, Window(start, a)) && start + 402 <= a
    requires b < |s| ==> WellCut(s, Window(start, b))
    ensures a == b
  {
    hide RFind;
    if a < |s| && b < |s| && exists k :: Break(s, start, k) {
      assert Break(s, start, a - 1) && Break(s, start, b - 1);
    }
  }

  /** The text of the windows, the shared 120 characters taken once. */
  function Rebuilt(s: string, w: seq<Window>): string
    requires InText(s, w)
  {
    if w == [] then []
    else if |w| == 1 then s[w[0].start..w[0].end]
    else
      var last := w[|w| - 1];
      Rebuilt(s, w[..|w| - 1]) + if last.start + 120 <= last.end then s[last.start + 120..last.end] else []
  }

  lemma {:induction false} RebuiltPrefix(s: string, w: seq<Window>, k: nat)
    requires InText(s, w) && Tiles(s, w) && 1 <= k <= |w| && w[0].start == 0
    ensures InText(s, w[..k]) && Rebuilt(s, w[..k]) == s[..w[k - 1].end]
  {
    if k > 1 {
      RebuiltPrefix(s, w, k - 1);
      WindowsAdvance(s, w, k - 1);
      assert w[..k][..k - 1] == w[..k - 1];
      var p, q := w[k - 2], w[k - 1];
      assert s[..p.end] + s[p.end..q.end] == s[..q.end];
    }
  }

  lemma WindowsAdvance(s: string, w: seq<Window>, k: nat)
    requires Tiles(s, w) && 0 < k < |w|
    ensures w[k].start + 120 == w[k - 1].end < w[k].end
  {
    assert Neighbours(s, w[k - 1], w[k]);
    if k < |w| - 1 { assert Neighbours(s, w[k], w[k + 1]); }
  }

  /** No character of the text is lost, repeated or moved. */
  lemma WindowsRebuildText(s: string)
    requires s != []
    ensures InText(s, Windows(s, 0)) && Rebuilt(s, Windows(s, 0)) == s
  {
    hide Windows, Tiles, Rebuilt;
    var w := Windows(s, 0);
    WindowsInText(s, 0);
    WindowsTile(s, 0);
    RebuiltPrefix(s, w, |w|);
    TilesToEnd(s, w);
    assert w[..|w|] == w && s[..|s|] == s;
  }

  lemma TilesToEnd(s: string, w: seq<Window>)
    requires Tiles(s, w)
    ensures w != [] && w[|w| - 1].end == |s|
  {}

  /** Each cut window moves the start on by at least 282, so few windows are needed. */
  lemma {:induction false} WindowsAreFew(s: string, start: nat)
    requires start < |s|
    ensures |Windows(s, start)| == 1 || 282 * (|Windows(s, start)| - 1) + start <= |s| - 121
    ensures |s| - start <= 800 ==> |Windows(s, start)| == 1
    decreases |s| - start
  {
    var end := WindowEnd(s, start);
    if end < |s| { WindowsAreFew(s, NextStart(start, end)); }
  }

  /** The number of chunks of a document of n > 800 characters is at most 1 + (n - 121) / 282. */
  lemma ChunksAreFew(content: string)
    requires Chunks(content).Some?
    ensures var n := |Normalize(content)|;
            1 <= |Chunks(content).value| <= if n <= 800 then 1 else 1 + (n - 121) / 282
  {
    hide Normalize, Windows, ChunksOf, Contains;
    var s := Normalize(content);
    WindowsAreFew(s, 0);
    WindowsInText(s, 0);
    NoMoreChunksThanWindows(s, Windows(s, 0));
    NormalizedEndsVisibly(content);
    PassageInOneChunk(s, 0, 1);
  }

  lemma {:induction false} NoMoreChunksThanWindows(s: string, w: seq<Window>)
    requires InText(s, w)
    ensures |ChunksOf(s, w)| <= |w|
  {
    if w != [] { NoMoreChunksThanWindows(s, w[..|w| - 1]); }
  }

  lemma NormalizedEndsVisibly(content: string)
    ensures var s := Normalize(content); s != [] ==> !IsSpace(s[0]) && !IsSpace(s[|s| - 1])
  {}

  /** Every chunk has text, at most 800 characters of it, and starts and ends in a visible one. */
  lemma {:induction false} ChunksAreStripped(s: string, w: seq<Window>)
    requires InText(s, w) && forall i | 0 <= i < |w| :: w[i].end <= w[i].start + 800
    ensures forall chunk | chunk in ChunksOf(s, w) ::
              0 < |chunk| <= 800 && !IsSpace(chunk[0]) && !IsSpace(chunk[|chunk| - 1])
  {
    if w != [] { ChunksAreStripped(s, w[..|w| - 1]); }
  }

  /** The text of a window without the blanks around it. */
  function WindowText(s: string, w: Window): string
    requires w.start <= w.end <= |s|
  {
    Strip(s[w.start..w.end])
  }

  /** Something visible stands in the window. */
  predicate HasText(s: string, w: Window)
    requires w.start <= w.end <= |s|
  {
    exists k :: w.start <= k < w.end && !IsSpace(s[k])
  }

  /** `from` says which window each chunk comes from: in order, and leaving out only the blank ones. */
  ghost predicate Follow(s: string, w: seq<Window>, chunks: seq<string>, from: seq<nat>)
    requires InText(s, w)
  {
    && |from| == |chunks|
    && (forall j | 0 <= j < |from| :: from[j] < |w| && chunks[j] == WindowText(s, w[from[j]]))
    && (forall j, k | 0 <= j < k < |from| :: from[j] < from[k])
    && (forall i: nat | i < |w| :: i in from <==> HasText(s, w[i]))
  }

  /** The chunks are the texts of the windows, in their order, one for each window that is not blank. */
  lemma {:induction false} ChunksFollowWindows(s: string, w: seq<Window>) returns (from: seq<nat>)
    requires InText(s, w)
    ensures Follow(s, w, ChunksOf(s, w), from)
  {
    hide Follow, WindowText, HasText, Strip;
    from := [];
    if w == [] {
      NothingFollows(s);
    } else {
      var n := |w| - 1;
      from := ChunksFollowWindows(s, w[..n]);
      TextIffVisible(s, w[n]);
      FollowStep(s, w, ChunksOf(s, w[..n]), from);
      TextOfWindow(s, w[n]);
      var earlier := ChunksOf(s, w[..n]);
      assert ChunksOf(s, w) == if HasText(s, w[n]) then earlier + [WindowText(s, w[n])] else earlier + [];
      assert earlier + [] == earlier;
      if HasText(s, w[n]) { from := from + [n]; }
    }
  }

  lemma TextOfWindow(s: string, w: Window)
    requires w.start <= w.end <= |s|
    ensures WindowText(s, w) == Strip(s[w.start..w.end])
  {}

  lemma NothingFollows(s: string)
    ensures Follow(s, [], [], [])
  {}

  lemma FollowStep(s: string, w: seq<Window>, chunks: seq<string>, from: seq<nat>)
    requires w != [] && InText(s, w) && Follow(s, w[..|w| - 1], chunks, from)
    ensures var n := |w| - 1;
            if HasText(s, w[n]) then Follow(s, w, chunks + [WindowText(s, w[n])], from + [n])
            else Follow(s, w, chunks, from)
  {
    hide HasText, WindowText;
    var n := |w| - 1;
    assert forall i: nat | i < n :: w[..n][i] == w[i];
  }

  lemma TextIffVisible(s: string, w: Window)
    requires w.start <= w.end <= |s|
    ensures WindowText(s, w) != [] <==> HasText(s, w)
  {
    hide IsSpace;
    var t := s[w.start..w.end];
    assert forall k | 0 <= k < |t| :: t[k] == s[w.start + k];
    if WindowText(s, w) != [] {
      var k :| 0 <= k < |t| && !IsSpace(t[k]);
      assert !IsSpace(s[w.start + k]);
    }
    if HasText(s, w) {
      var k :| w.start <= k < w.end && !IsSpace(s[k]);
      assert t[k - w.start] == s[k];
    }
  }

  // ---- Short passages stay whole ----

  /** `passage` occurs in `text`. */
  predicate Contains(text: string, passage: string) {
    exists i :: 0 <= i <= |text| && At(text, passage, i)
  }

  lemma SliceOfSlice(s: string, lo: nat, hi: nat, a: nat, b: nat)
    requires lo <= a <= b <= hi <= |s|
    ensures s[lo..hi][a - lo..b - lo] == s[a..b]
  {
    assert |s[lo..hi][a - lo..b - lo]| == |s[a..b]|;
    forall k | 0 <= k < b - a ensures s[lo..hi][a - lo..b - lo][k] == s[a..b][k] {
      assert s[lo..hi][a - lo + k] == s[a + k];
    }
  }

  /** Stripping a window keeps any passage in it that starts and ends visibly. */
  lemma StripKeeps(text: string, a: nat, b: nat)
    requires a < b <= |text| && !IsSpace(text[a]) && !IsSpace(text[b - 1])
    ensures Contains(Strip(text), text[a..b])
  {
    var lo, hi := LeadingSpace(text), TrimmedEnd(text);
    assert lo <= a && b <= hi;
    SliceOfSlice(text, lo, hi, a, b);
    assert At(Strip(text), text[a..b], a - lo);
  }

  lemma {:induction false} WindowHasChunk(s: string, w: seq<Window>, i: nat, a: nat, b: nat) returns (j: nat)
    requires InText(s, w) && i < |w| && w[i].start <= a < b <= w[i].end
    requires !IsSpace(s[a]) && !IsSpace(s[b - 1])
    ensures j < |ChunksOf(s, w)| && Contains(ChunksOf(s, w)[j], s[a..b])
  {
    hide Strip, IsSpace, Contains;
    if i < |w| - 1 {
      j := WindowHasChunk(s, w[..|w| - 1], i, a, b);
    } else {
      WindowKeeps(s, w[i], a, b);
      NothingContainsVisible(s[a..b]);
      j := |ChunksOf(s, w[..|w| - 1])|;
    }
  }

  lemma WindowKeeps(s: string, w: Window, a: nat, b: nat)
    requires w.start <= a < b <= w.end <= |s| && !IsSpace(s[a]) && !IsSpace(s[b - 1])
    ensures Contains(Strip(s[w.start..w.end]), s[a..b])
  {
    hide Strip, IsSpace, Contains;
    var text := s[w.start..w.end];
    assert text[a - w.start] == s[a] && text[b - 1 - w.start] == s[b - 1];
    StripKeeps(text, a - w.start, b - w.start);
    SliceOfSlice(s, w.start, w.end, a, b);
  }

  lemma NothingContainsVisible(passage: string)
    requires passage != []
    ensures !Contains([], passage)
  {}

  /** The window that holds the passage: the first one to end at or after it. */
  lemma {:induction false} PassageInOneWindow(s: string, start: nat, a: nat, b: nat) returns (i: nat)
    requires start < |s| && start <= a < b <= |s| && b - a <= 121
    ensures var w := Windows(s, start); i < |w| && w[i].start <= a && b <= w[i].end
    decreases |s| - start
  {
    var end := WindowEnd(s, start);
    if b <= end {
      i := 0;
    } else {
      i := PassageInOneWindow(s, NextStart(start, end), a, b);
      i := i + 1;
    }
  }

  /** A passage of at most 121 characters that starts and ends visibly lies inside a single chunk. */
  lemma PassageInOneChunk(s: string, a: nat, b: nat)
    requires a < b <= |s| && b - a <= 121 && !IsSpace(s[a]) && !IsSpace(s[b - 1])
    ensures InText(s, Windows(s, 0))
    ensures exists j :: 0 <= j < |ChunksOf(s, Windows(s, 0))| && Contains(ChunksOf(s, Windows(s, 0))[j], s[a..b])
  {
    WindowsInText(s, 0);
    var i := PassageInOneWindow(s, 0, a, b);
    var j := WindowHasChunk(s, Windows(s, 0), i, a, b);
  }

  // ---- 121 is the longest length for which this holds ----

  function Marked(i: nat): char { if i == 679 then '<' else if i == 800 then '>' else 'x' }

  /** A thousand visible characters, without any place to cut. */
  function Unbroken(): string { seq(1000, (i: nat) => Marked(i)) }

  /** What is found begins with its first character. */
  lemma NotThere(s: string, pattern: string, hi: nat)
    requires hi <= |s| && pattern != "" && forall k | 0 <= k < |s| :: s[k] != pattern[0]
    ensures RFind(s, pattern, 0, hi) == -1
  {
    hide RFind;
    forall k | 0 <= k && k + |pattern| <= |s| ensures !At(s, pattern, k) {
      assert s[k..k + |pattern|][0] == s[k];
    }
  }

  lemma UnbrokenWindows()
    ensures Windows(Unbroken(), 0) == [Window(0, 800), Window(680, 1000)]
  {
    hide RFind;
    var s := Unbroken();
    NotThere(s, "\n", 800);
    NotThere(s, ". ", 800);
    assert WindowEnd(s, 0) == 800;
    assert WindowEnd(s, 680) == 1000;
    assert Windows(s, 680) == [Window(680, 1000)];
  }

  lemma ContainsMeansMembers(text: string, passage: string, c: char)
    requires Contains(text, passage) && c in passage
    ensures c in text
  {
    var i :| 0 <= i <= |text| && At(text, passage, i);
    var k :| 0 <= k < |passage| && passage[k] == c;
    assert text[i..i + |passage|][k] == text[i + k];
  }

  lemma StripMembers(text: string, c: char)
    ensures c in Strip(text) ==> c in text
  {}

  /** One character more and a passage can be split over two chunks. */
  lemma PassageBoundIsTight()
    ensures var s := Unbroken();
            && !IsSpace(s[679]) && !IsSpace(s[800]) && InText(s, Windows(s, 0))
            && forall chunk | chunk in ChunksOf(s, Windows(s, 0)) :: !Contains(chunk, s[679..801])
  {
    hide Windows, Strip;
    var s := Unbroken();
    WindowsInText(s, 0);
    UnbrokenWindows();
    var first, second := s[0..800], s[680..1000];
    assert s[679..801][0] == '<' && s[679..801][121] == '>';
    assert '>' !in first && '<' !in second;
    var w := Windows(s, 0);
    assert w[..1] == [Window(0, 800)] && w[..1][..0] == [];
    assert ChunksOf(s, w[..1][..0]) == [];
    assert forall chunk | chunk in ChunksOf(s, w[..1]) :: chunk == Strip(first);
    forall chunk | chunk in ChunksOf(s, w) ensures !Contains(chunk, s[679..801]) {
      assert chunk == Strip(first) || chunk == Strip(second);
      StripMembers(first, '>');
      StripMembers(second, '<');
      if Contains(chunk, s[679..801]) {
        ContainsMeansMembers(chunk, s[679..801], '<');
        ContainsMeansMembers(chunk, s[679..801], '>');
      }
    }
  }
}
