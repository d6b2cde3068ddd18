/** The overlapping windows into which engine/src/document_processing.rs cuts a text. */
module DocumentChunks {
  import opened Wrappers
  import opened Text

  /** The second of two line feeds in a row. */
  predicate IsParagraphBreak(text: string, i: nat)
    requires i < |text|
  {
    i > 0 && text[i - 1] == '\n' && text[i] == '\n'
  }

  function ParagraphBoundary(text: string, lower: nat, upper: nat): (found: Option<nat>)
    requires upper <= |text|
    ensures found.Some? ==> lower < found.value < upper && IsParagraphBreak(text, found.value)
    ensures forall i | lower < i < upper && IsParagraphBreak(text, i) :: found.Some? && i <= found.value
    decreases upper
  {
    if upper <= lower + 1 then None
    else if IsParagraphBreak(text, upper - 1) then Some(upper - 1)
    else ParagraphBoundary(text, lower, upper - 1)
  }

  /** A window is `size` long, or runs to the end of the text, or stops at the last break of its second half. */
  function WindowEnd(text: string, size: nat, start: nat): (end: nat)
    requires start < |text| && size > 0
    ensures start < end <= |text| && end <= start + size
    ensures end < |text| ==> start + size / 2 < end
    ensures end < start + size && end < |text| ==> IsParagraphBreak(text, end)
    ensures start + size < |text| ==> forall i | end < i < start + size :: !IsParagraphBreak(text, i)
    ensures start + size >= |text| ==> end == |text|
  {
    var target := if start + size < |text| then start + size else |text|;
    if target < |text| then
      match ParagraphBoundary(text, start + size / 2, target)
      case Some(boundary) => boundary
      case None => target
    else target
  }

  /** Where the window after `[start, end)` starts: `overlap` back, with saturating subtraction, but past `start`. */
  function NextStart(start: nat, end: nat, overlap: nat): nat {
    var back := if end < overlap then 0 else end - overlap;
    if back > start + 1 then back else start + 1
  }

  function Windows(text: string, size: nat, overlap: nat, start: nat): (windows: seq<(nat, nat)>)
    requires start < |text| && size > 0
    ensures |windows| > 0 && windows[0] == (start, WindowEnd(text, size, start))
    decreases |text| - start
  {
    var end := WindowEnd(text, size, start);
    [(start, end)] + if end < |text| then Windows(text, size, overlap, NextStart(start, end, overlap)) else []
  }

  function Piece(text: string, window: (nat, nat)): string {
    if window.0 <= window.1 <= |text| then text[window.0..window.1] else ""
  }

  /** The windows trimmed, without those that are only white space. */
  function Chunks(text: string, windows: seq<(nat, nat)>): seq<string> {
    if |windows| == 0 then []
    else
      var value := Trim(Piece(text, windows[0]), IsRustSpace);
      (if value != "" then [value] else []) + Chunks(text, windows[1..])
  }

  predicate IsWhole(text: string, size: nat, overlap: nat) {
    text == "" || size == 0 || overlap >= size
  }

  method ChunkText(text: string, size: nat, overlap: nat) returns (chunks: seq<string>)
    ensures chunks == if IsWhole(text, size, overlap) then [text] else Chunks(text, Windows(text, size, overlap, 0))
  {
    if text == "" || size == 0 || overlap >= size {
      return [text];
    }
    hide IsRustSpace, Trim, WindowEnd, Chunks, Windows, NextStart, Completes;
    chunks := [];
    var start := 0;
    Begin(text, size, overlap);
    while start < |text|
      invariant start < |text| && Completes(chunks, text, size, overlap, start)
      decreases |text| - start
    {
      var end := WindowEnd(text, size, start);
      var value := Trim(text[start..end], IsRustSpace);
      Advance(chunks, text, size, overlap, start);
      if value != "" {
        chunks := chunks + [value];
      }
      if end >= |text| {
        break;
      }
      NextStartIsInside(start, end, overlap);
      start := NextStart(start, end, overlap);
    }
  }

  /** What is left to do from `start` completes `chunks` to all the chunks. */
  ghost predicate Completes(chunks: seq<string>, text: string, size: nat, overlap: nat, start: nat)
    requires start < |text| && size > 0
  {
    chunks + Chunks(text, Windows(text, size, overlap, start)) == Chunks(text, Windows(text, size, overlap, 0))
  }

  lemma Begin(text: string, size: nat, overlap: nat)
    requires text != "" && size > 0
    ensures Completes([], text, size, overlap, 0)
  {
  }

  lemma Advance(chunks: seq<string>, text: string, size: nat, overlap: nat, start: nat)
    requires start < |text| && size > 0 && Completes(chunks, text, size, overlap, start)
    ensures var end := WindowEnd(text, size, start);
            var value := Trim(text[start..end], IsRustSpace);
            var more := if value != "" then chunks + [value] else chunks;
            && (end < |text| ==> Completes(more, text, size, overlap, NextStart(start, end, overlap)))
            && (end == |text| ==> more == Chunks(text, Windows(text, size, overlap, 0)))
  {
    hide IsRustSpace, Trim, WindowEnd, Chunks, Windows, NextStart;
    ChunksUnfold(text, size, overlap, start);
    var end := WindowEnd(text, size, start);
    var value := Trim(text[start..end], IsRustSpace);
    var found := if value != "" then [value] else [];
    assert chunks + [] == chunks;
    if end < |text| {
      NextStartIsInside(start, end, overlap);
      Regroup(chunks, found, Chunks(text, Windows(text, size, overlap, NextStart(start, end, overlap))));
    } else {
      Regroup(chunks, found, []);
      assert chunks + found + [] == chunks + found;
    }
  }

  lemma Regroup(a: seq<string>, b: seq<string>, c: seq<string>)
    ensures a + (b + c) == (a + b) + c
  {
  }

  lemma NextStartIsInside(start: nat, end: nat, overlap: nat)
    requires start < end
    ensures start < NextStart(start, end, overlap) <= end
  {
  }

  lemma ChunksUnfold(text: string, size: nat, overlap: nat, start: nat)
    requires start < |text| && size > 0
    ensures var end := WindowEnd(text, size, start);
            var value := Trim(text[start..end], IsRustSpace);
            Chunks(text, Windows(text, size, overlap, start))
            == (if value != "" then [value] else [])
               + if end < |text| then Chunks(text, Windows(text, size, overlap, NextStart(start, end, overlap))) else []
  {
    hide IsRustSpace, Trim, WindowEnd;
    var windows := Windows(text, size, overlap, start);
    var end := WindowEnd(text, size, start);
    assert windows[1..] == if end < |text| then Windows(text, size, overlap, NextStart(start, end, overlap)) else [];
    assert Piece(text, windows[0]) == text[start..end];
  }

  // ---------- Covering ----------

  /** Window `w` is followed by `next`: no character lies between them, and the start moves on. */
  predicate Follows(w: (nat, nat), next: (nat, nat), overlap: nat) {
    w.0 < next.0 <= w.1 && next.0 == NextStart(w.0, w.1, overlap)
  }

  predicate Tiles(text: string, size: nat, overlap: nat, windows: seq<(nat, nat)>) {
    && |windows| > 0 && windows[|windows| - 1].1 == |text|
    && (forall k | 0 <= k < |windows| :: windows[k].0 < windows[k].1 <= |text| && windows[k].1 <= windows[k].0 + size)
    && forall k | 0 < k < |windows| :: Follows(windows[k - 1], windows[k], overlap)
  }

  /** The windows leave no gap from `start` to the end of the text, and none is longer than `size`. */
  lemma {:induction false} WindowsTile(text: string, size: nat, overlap: nat, start: nat)
    requires start < |text| && size > 0
    ensures Tiles(text, size, overlap, Windows(text, size, overlap, start))
    decreases |text| - start
  {
    hide WindowEnd, Follows;
    var end := WindowEnd(text, size, start);
    if end < |text| {
      var rest := Windows(text, size, overlap, NextStart(start, end, overlap));
      WindowsTile(text, size, overlap, NextStart(start, end, overlap));
      var windows := [(start, end)] + rest;
      NextFollows(start, end, WindowEnd(text, size, NextStart(start, end, overlap)), overlap);
      forall k | 0 < k < |windows| ensures Follows(windows[k - 1], windows[k], overlap) {
        if k > 1 {
          assert Follows(rest[k - 2], rest[k - 1], overlap);
        }
      }
    }
  }

  lemma NextFollows(start: nat, end: nat, nextEnd: nat, overlap: nat)
    requires start < end
    ensures Follows((start, end), (NextStart(start, end, overlap), nextEnd), overlap)
  {
  }

  lemma {:induction false} CoveredFrom(text: string, size: nat, overlap: nat, start: nat, k: nat) returns (i: nat)
    requires start <= k < |text| && size > 0
    ensures var windows := Windows(text, size, overlap, start);
            i < |windows| && windows[i].0 <= k < windows[i].1 <= |text|
    decreases |text| - start
  {
    var end := WindowEnd(text, size, start);
    if k < end {
      i := 0;
    } else {
      i := CoveredFrom(text, size, overlap, NextStart(start, end, overlap), k);
      i := i + 1;
    }
  }

  lemma {:induction false} ChunkOfWindow(text: string, windows: seq<(nat, nat)>, i: nat)
    requires i < |windows|
    ensures var value := Trim(Piece(text, windows[i]), IsRustSpace); value != "" ==> value in Chunks(text, windows)
  {
    hide IsRustSpace, Trim, Piece;
    if i > 0 {
      ChunkOfWindow(text, windows[1..], i - 1);
    }
  }

  /** Trimming keeps every character that is not white space where it stood. */
  lemma TrimKeeps(s: string, k: nat) returns (from: nat, end: nat)
    requires k < |s| && !IsRustSpace(s[k])
    ensures from <= k < end <= |s| && Trim(s, IsRustSpace) == s[from..end]
  {
    hide IsRustSpace, TrimStart, TrimEnd;
    var e := TrimEnd(s, IsRustSpace);
    var t := TrimStart(e, IsRustSpace);
    from, end := |e| - |t|, |e|;
    assert e == s[..end];
    assert e[from..] == s[from..end];
    assert k < |e| ==> e[k] == s[k];
  }

  /** Every character that is not white space is in some chunk, in its place in the text. */
  lemma NothingIsLost(text: string, size: nat, overlap: nat, k: nat) returns (from: nat, end: nat)
    requires size > 0 && k < |text| && !IsRustSpace(text[k])
    ensures from <= k < end <= |text| && text[from..end] in Chunks(text, Windows(text, size, overlap, 0))
  {
    hide IsRustSpace, TrimStart, TrimEnd, Chunks, Windows;
    var windows := Windows(text, size, overlap, 0);
    var i := CoveredFrom(text, size, overlap, 0, k);
    var w := windows[i];
    var piece := Piece(text, w);
    from, end := TrimKeeps(piece, k - w.0);
    ChunkOfWindow(text, windows, i);
    SliceOfPiece(text, w, from, end);
    from, end := w.0 + from, w.0 + end;
  }

  lemma SliceOfPiece(text: string, w: (nat, nat), from: nat, end: nat)
    requires w.0 <= w.1 <= |text| && from <= end <= w.1 - w.0
    ensures Piece(text, w)[from..end] == text[w.0 + from..w.0 + end]
  {
    var part := Piece(text, w)[from..end];
    forall j | 0 <= j < |part| ensures part[j] == text[w.0 + from..w.0 + end][j] {
      assert part[j] == Piece(text, w)[from + j] == text[w.0 + (from + j)];
    }
  }

  lemma {:induction false} ChunksFit(text: string, size: nat, windows: seq<(nat, nat)>, chunk: string)
    requires forall k | 0 <= k < |windows| :: windows[k].1 <= windows[k].0 + size
    requires chunk in Chunks(text, windows)
    ensures 0 < |chunk| <= size && !IsRustSpace(chunk[0]) && !IsRustSpace(chunk[|chunk| - 1])
  {
    hide IsRustSpace, TrimStart, TrimEnd;
    if chunk in Chunks(text, windows[1..]) {
      ChunksFit(text, size, windows[1..], chunk);
    }
  }

  /** No chunk is empty, longer than `size`, or has white space at an end. */
  lemma ChunksAreProper(text: string, size: nat, overlap: nat, chunk: string)
    requires !IsWhole(text, size, overlap) && chunk in Chunks(text, Windows(text, size, overlap, 0))
    ensures 0 < |chunk| <= size && !IsRustSpace(chunk[0]) && !IsRustSpace(chunk[|chunk| - 1])
  {
    hide Windows, Chunks, IsRustSpace;
    WindowsTile(text, size, overlap, 0);
    ChunksFit(text, size, Windows(text, size, overlap, 0), chunk);
  }

  // ---------- Putting the text together again ----------

  /** What the windows after the first add when `overlap` characters are dropped from each. */
  function Tails(text: string, windows: seq<(nat, nat)>, overlap: nat): string {
    if |windows| == 0 then ""
    else
      var piece := Piece(text, windows[0]);
      (if overlap <= |piece| then piece[overlap..] else "") + Tails(text, windows[1..], overlap)
  }

  function Assembled(text: string, windows: seq<(nat, nat)>, overlap: nat): string
    requires |windows| > 0
  {
    Piece(text, windows[0]) + Tails(text, windows[1..], overlap)
  }

  function Rebuilt(text: string, size: nat, overlap: nat): string
    requires !IsWhole(text, size, overlap)
  {
    Assembled(text, Windows(text, size, overlap, 0), overlap)
  }

  /** An overlap of at most half a window is taken in full, and the next window covers it. */
  lemma NextWindow(text: string, size: nat, overlap: nat, start: nat)
    requires start < |text| && 0 <= overlap <= size / 2 && overlap < size && WindowEnd(text, size, start) < |text|
    ensures var end := WindowEnd(text, size, start);
            var next := NextStart(start, end, overlap);
            && next == end - overlap && start < next < |text|
            && |Piece(text, (next, WindowEnd(text, size, next)))| >= overlap
  {
    hide WindowEnd;
  }

  lemma AssembledUnfold(text: string, size: nat, overlap: nat, start: nat)
    requires start < |text| && size > 0
    ensures var end := WindowEnd(text, size, start);
            && (end == |text| ==> Assembled(text, Windows(text, size, overlap, start), overlap) == text[start..])
            && (end < |text| ==>
                  var rest := Windows(text, size, overlap, NextStart(start, end, overlap));
                  var piece := Piece(text, rest[0]);
                  Assembled(text, Windows(text, size, overlap, start), overlap)
                  == text[start..end] + ((if overlap <= |piece| then piece[overlap..] else "") + Tails(text, rest[1..], overlap)))
  {
    hide WindowEnd, NextStart;
    var end := WindowEnd(text, size, start);
    var windows := Windows(text, size, overlap, start);
    NextStartIsInside(start, end, overlap);
    assert windows[1..] == if end < |text| then Windows(text, size, overlap, NextStart(start, end, overlap)) else [];
    assert text[start..end] + "" == text[start..end];
  }

  lemma {:induction false} RebuiltFrom(text: string, size: nat, overlap: nat, start: nat)
    requires start < |text| && 0 <= overlap <= size / 2 && overlap < size
    ensures Assembled(text, Windows(text, size, overlap, start), overlap) == text[start..]
    decreases |text| - start
  {
    hide WindowEnd, NextStart, Windows, Piece, Tails;
    var end := WindowEnd(text, size, start);
    AssembledUnfold(text, size, overlap, start);
    if end < |text| {
      NextWindow(text, size, overlap, start);
      var next := NextStart(start, end, overlap);
      var rest := Windows(text, size, overlap, next);
      RebuiltFrom(text, size, overlap, next);
      DropAtJoin(text, start, end, overlap, Piece(text, rest[0]), Tails(text, rest[1..], overlap));
    }
  }

  lemma DropAtJoin(text: string, start: nat, end: nat, overlap: nat, piece: string, tails: string)
    requires overlap <= end && start <= end <= |text| && overlap <= |piece|
    requires piece + tails == text[end - overlap..]
    ensures text[start..end] + (piece[overlap..] + tails) == text[start..]
  {
    assert piece[overlap..] + tails == (piece + tails)[overlap..];
    assert text[end - overlap..][overlap..] == text[end..];
  }

  /** Letters, with two line feeds just after the middle of the first window, one character longer than it. */
  function Interrupted(size: nat): string {
    seq(size + 1, i => if i == size / 2 || i == size / 2 + 1 then '\n' else 'a')
  }

  lemma InterruptedIsNotRebuilt(size: nat, overlap: nat)
    requires size / 2 < overlap < size
    ensures Rebuilt(Interrupted(size), size, overlap) != Interrupted(size)
  {
    var text := Interrupted(size);
    var half := size / 2;
    assert IsParagraphBreak(text, half + 1);
    forall i | half + 1 < i < size ensures !IsParagraphBreak(text, i) {}
    assert WindowEnd(text, size, 0) == half + 1;
    assert WindowEnd(text, size, 1) == size + 1;
    assert Windows(text, size, overlap, 1) == [(1, size + 1)];
    assert Windows(text, size, overlap, 0) == [(0, half + 1)] + [(1, size + 1)];
    assert Windows(text, size, overlap, 0)[1..] == [(1, size + 1)];
    assert Tails(text, [(1, size + 1)], overlap) == Piece(text, (1, size + 1))[overlap..] + "";
  }

  /** Dropping the overlap from every later window rebuilds every text exactly when the overlap is at most half a
      window: a window may stop at a break just after its middle, and then the next one starts too late. */
  lemma RebuildsIff(size: nat, overlap: nat)
    requires overlap < size
    ensures (forall text | text != "" :: Rebuilt(text, size, overlap) == text) <==> overlap <= size / 2
  {
    if overlap <= size / 2 {
      forall text | text != "" ensures Rebuilt(text, size, overlap) == text {
        RebuiltFrom(text, size, overlap, 0);
        assert text[0..] == text;
      }
    } else {
      InterruptedIsNotRebuilt(size, overlap);
      assert Interrupted(size) != "";
    }
  }
}
