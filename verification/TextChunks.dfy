/** Splitting a digest text into message-sized chunks at paragraph and line breaks. */
module TextChunks {
  import opened Common

  const BREAK := "\n\n"

  predicate BreakAt(text: string, k: nat) {
    k + 2 <= |text| && text[k..k + 2] == BREAK
  }

  /** First index of a paragraph break at or after `from`, or the length of the text. */
  function FirstBreak(text: string, from: nat): (i: nat)
    requires from <= |text|
    ensures from <= i <= |text|
    ensures i < |text| ==> i + 2 <= |text| && text[i..i + 2] == BREAK
    ensures forall k :: from <= k < i ==> !BreakAt(text, k)
    decreases |text| - from
  {
    if |text| - from < 2 then |text|
    else if text[from..from + 2] == BREAK then from
    else FirstBreak(text, from + 1)
  }

  /** str.split on paragraph breaks. */
  function Blocks(text: string): seq<string>
    decreases |text|
  {
    var i := FirstBreak(text, 0);
    if i == |text| then [text] else [text[..i]] + Blocks(text[i + 2..])
  }

  function Joined(blocks: seq<string>): string
    requires blocks != []
  {
    if |blocks| == 1 then blocks[0] else blocks[0] + BREAK + Joined(blocks[1..])
  }

  predicate HasBreak(s: string) {
    exists k :: 0 <= k < |s| && BreakAt(s, k)
  }

  /** The blocks are what lies between the paragraph breaks: joined again they are the text, and none holds a break. */
  lemma {:induction false} BlocksAreExact(text: string)
    ensures Blocks(text) != [] && Joined(Blocks(text)) == text
    ensures forall b :: 0 <= b < |Blocks(text)| ==> !HasBreak(Blocks(text)[b])
    decreases |text|
  {
    var i := FirstBreak(text, 0);
    NoBreakBefore(text, i);
    if i < |text| {
      BlocksAreExact(text[i + 2..]);
      AroundBreak(text, i);
      assert Blocks(text)[1..] == Blocks(text[i + 2..]);
    } else {
      assert text[..i] == text;
    }
  }

  lemma NoBreakBefore(text: string, i: nat)
    requires i == FirstBreak(text, 0)
    ensures !HasBreak(text[..i])
  {
    var first := text[..i];
    forall k | 0 <= k < |first| ensures !BreakAt(first, k) {
      assert !BreakAt(text, k) && (k + 2 <= |first| ==> first[k..k + 2] == text[k..k + 2]);
    }
  }

  /** Last newline before `limit`, or -1. */
  function LastNewline(s: string, limit: nat): (i: int)
    requires limit <= |s|
    ensures -1 <= i < limit
    ensures i >= 0 ==> s[i] == '\n'
    ensures forall k :: i < k < limit ==> s[k] != '\n'
  {
    if limit == 0 then -1 else if s[limit - 1] == '\n' then limit - 1 else LastNewline(s, limit - 1)
  }

  /** The characters that are not newlines, in order. */
  function Visible(s: string): string {
    if s == "" then "" else (if s[0] == '\n' then "" else [s[0]]) + Visible(s[1..])
  }

  function VisibleAll(chunks: seq<string>): string {
    if chunks == [] then "" else VisibleAll(chunks[..|chunks| - 1]) + Visible(chunks[|chunks| - 1])
  }

  lemma {:induction false} VisibleConcat(a: string, b: string)
    ensures Visible(a + b) == Visible(a) + Visible(b)
  {
    if a == "" {
      assert a + b == b;
    } else {
      assert (a + b)[1..] == a[1..] + b;
      VisibleConcat(a[1..], b);
    }
  }

  lemma {:induction false} VisibleAllConcat(a: seq<string>, b: seq<string>)
    ensures VisibleAll(a + b) == VisibleAll(a) + VisibleAll(b)
  {
    if b == [] {
      assert a + b == a;
    } else {
      assert (a + b)[..|a + b| - 1] == a + b[..|b| - 1];
      VisibleAllConcat(a, b[..|b| - 1]);
    }
  }

  /** What is visible in the chunks that are done and in the open one. */
  function Shown(done: seq<string>, open: string): string {
    VisibleAll(done) + Visible(open)
  }

  lemma ShownJoined(done: seq<string>, open: string, piece: string)
    ensures Shown(done, if open == "" then piece else open + BREAK + piece) == Shown(done, open) + Visible(piece)
  {
    BreakVisible(open, piece);
    Associate(VisibleAll(done), Visible(open), Visible(piece));
  }

  lemma Associate(a: string, b: string, c: string)
    ensures a + b + c == a + (b + c)
  {
  }

  lemma ShownNext(done: seq<string>, remaining: string, piece: string, rest: string)
    requires Visible(piece) + Visible(rest) == Visible(remaining)
    ensures Shown(done + [piece], rest) == Shown(done, remaining)
  {
    VisibleSnoc(done, piece);
    Associate(VisibleAll(done), Visible(piece), Visible(rest));
  }

  lemma ShownAtFirst(text: string, blocks: seq<string>)
    ensures Shown([], text) == Visible(text) && Shown([], "") == VisibleAll(blocks[..0])
  {
  }

  lemma ShownClosed(done: seq<string>, open: string)
    ensures VisibleAll(if open == "" then done else done + [open]) == Shown(done, open)
  {
    VisibleSnoc(done, open);
  }

  lemma VisibleSnoc(chunks: seq<string>, s: string)
    ensures VisibleAll(chunks + [s]) == VisibleAll(chunks) + Visible(s)
  {
    assert (chunks + [s])[..|chunks|] == chunks;
  }

  lemma BreakVisible(a: string, b: string)
    ensures Visible(a + BREAK + b) == Visible(a) + Visible(b)
  {
    VisibleConcat(a + BREAK, b);
    VisibleConcat(a, BREAK);
    assert Visible(BREAK) == "" by { assert BREAK[1..] == "\n"; assert Visible("\n") == ""; }
  }

  lemma CutAtBreak(text: string, i: nat)
    requires i + 2 <= |text| && text[i..i + 2] == BREAK
    ensures Visible(text) == Visible(text[..i]) + Visible(text[i + 2..])
  {
    BreakVisible(text[..i], text[i + 2..]);
    AroundBreak(text, i);
  }

  lemma AroundBreak(text: string, i: nat)
    requires i + 2 <= |text| && text[i..i + 2] == BREAK
    ensures text == text[..i] + BREAK + text[i + 2..]
  {
    assert text == text[..i] + text[i..i + 2] + text[i + 2..];
  }

  lemma {:induction false} BlocksKeepVisible(text: string)
    ensures VisibleAll(Blocks(text)) == Visible(text)
    decreases |text|
  {
    var i := FirstBreak(text, 0);
    var first := [text[..i]];
    assert VisibleAll(first) == Visible(text[..i]) by { assert first[..0] == []; }
    if i == |text| {
      assert text[..i] == text;
    } else {
      BlocksKeepVisible(text[i + 2..]);
      VisibleAllConcat(first, Blocks(text[i + 2..]));
      CutAtBreak(text, i);
    }
  }

  predicate Fit(pieces: seq<string>, maxLen: nat) {
    forall i :: 0 <= i < |pieces| ==> |pieces[i]| <= maxLen
  }

  /** Cuts a block into pieces of at most `maxLen`, at a line break in the second half when there is one. */
  method Pieces(block: string, maxLen: nat) returns (pieces: seq<string>)
    requires maxLen >= 1
    ensures Fit(pieces, maxLen) && HalfFull(pieces, maxLen)
    ensures VisibleAll(pieces) == Visible(block)
    ensures |block| <= maxLen ==> |pieces| == 1 && pieces[0] == block
  {
    pieces := [];
    var remaining := block;
    ShownAtFirst(block, []);
    while |remaining| > maxLen
      invariant Full(pieces, maxLen)
      invariant |block| <= maxLen ==> pieces == [] && remaining == block
      invariant Shown(pieces, remaining) == Visible(block)
      decreases |remaining|
    {
      pieces, remaining := CutPiece(pieces, remaining, maxLen);
    }
    pieces := LastPiece(pieces, remaining, maxLen);
  }

  /** Pieces that were cut because what followed did not fit. */
  predicate Full(pieces: seq<string>, maxLen: nat) {
    forall i :: 0 <= i < |pieces| ==> maxLen / 2 <= |pieces[i]| <= maxLen
  }

  method CutPiece(pieces: seq<string>, remaining: string, maxLen: nat) returns (more: seq<string>, rest: string)
    requires 1 <= maxLen < |remaining| && Full(pieces, maxLen)
    ensures Full(more, maxLen) && |rest| < |remaining|
    ensures Shown(more, rest) == Shown(pieces, remaining)
  {
    var piece;
    piece, rest := CutOne(remaining, maxLen);
    more := pieces + [piece];
    ShownNext(pieces, remaining, piece, rest);
  }

  method LastPiece(pieces: seq<string>, remaining: string, maxLen: nat) returns (more: seq<string>)
    requires Full(pieces, maxLen) && |remaining| <= maxLen
    ensures Fit(more, maxLen) && HalfFull(more, maxLen) && more == pieces + [remaining]
    ensures VisibleAll(more) == Shown(pieces, remaining)
  {
    more := pieces + [remaining];
    VisibleSnoc(pieces, remaining);
  }

  /** Cut at the last line break of the second half, up to the limit; at the limit when there is none. */
  predicate CutWell(text: string, maxLen: nat, cut: nat)
    requires maxLen < |text|
  {
    && maxLen / 2 <= cut <= maxLen
    && (text[cut] == '\n' || cut == maxLen)
    && (forall k :: cut < k <= maxLen ==> text[k] != '\n')
    && (text[cut] != '\n' ==> forall k :: maxLen / 2 <= k <= maxLen ==> text[k] != '\n')
  }

  /** All but the last piece fill at least half of the limit. */
  predicate HalfFull(pieces: seq<string>, maxLen: nat) {
    forall i :: 0 <= i < |pieces| - 1 ==> maxLen / 2 <= |pieces[i]|
  }

  method CutOne(remaining: string, maxLen: nat) returns (piece: string, rest: string)
    requires 1 <= maxLen < |remaining|
    ensures |piece| <= maxLen && |rest| < |remaining|
    ensures CutWell(remaining, maxLen, |piece|) && piece == remaining[..|piece|]
    ensures rest == remaining[|piece| + (if remaining[|piece|] == '\n' then 1 else 0)..]
    ensures Visible(piece) + Visible(rest) == Visible(remaining)
  {
    var cut := LastNewline(remaining, maxLen + 1);
    if cut < maxLen / 2 {
      cut := maxLen;
    }
    piece, rest := remaining[..cut], remaining[cut..];
    assert remaining == piece + rest;
    VisibleConcat(piece, rest);
    if "\n" <= rest {
      assert rest[0] == '\n';
      rest := rest[1..];
    }
  }

  /** No two neighbouring chunks would have fitted into one. */
  predicate Crowded(chunks: seq<string>, maxLen: nat) {
    forall i :: 0 <= i < |chunks| - 1 ==> |chunks[i]| + |BREAK| + |chunks[i + 1]| > maxLen
  }

  /** Chunks that are done and the one that is open: within the limit, and none closed early. */
  predicate Packed(done: seq<string>, open: string, maxLen: nat) {
    && (forall i :: 0 <= i < |done| ==> 1 <= |done[i]| <= maxLen) && |open| <= maxLen
    && Crowded(done, maxLen) && (done == [] || |done[|done| - 1]| + |BREAK| + |open| > maxLen)
  }

  /** Every chunk is non-empty and short enough, none is started early, and no visible character is lost, added or moved. */
  method Chunks(text: string, maxLen: nat) returns (chunks: seq<string>)
    requires maxLen >= 1
    ensures forall i :: 0 <= i < |chunks| ==> 1 <= |chunks[i]| <= maxLen
    ensures Crowded(chunks, maxLen)
    ensures VisibleAll(chunks) == Visible(text)
  {
    var blocks := Blocks(text);
    var done, open := PackBlocks(blocks, maxLen);
    BlocksKeepVisible(text);
    chunks := Flush(done, open, maxLen);
  }

  method PackBlocks(blocks: seq<string>, maxLen: nat) returns (done: seq<string>, open: string)
    requires maxLen >= 1
    ensures Packed(done, open, maxLen) && Shown(done, open) == VisibleAll(blocks)
  {
    done, open := [], "";
    ShownAtFirst("", blocks);
    for b := 0 to |blocks|
      invariant Packed(done, open, maxLen)
      invariant Shown(done, open) == VisibleAll(blocks[..b])
    {
      done, open := AddBlock(done, open, blocks[b], maxLen);
      OneMoreVisible(blocks, b);
    }
    assert blocks[..|blocks|] == blocks;
  }

  method AddBlock(chunks: seq<string>, current: string, block: string, maxLen: nat) returns (done: seq<string>, open: string)
    requires maxLen >= 1 && Packed(chunks, current, maxLen)
    ensures Packed(done, open, maxLen)
    ensures Shown(done, open) == Shown(chunks, current) + Visible(block)
  {
    var pieces := Pieces(block, maxLen);
    done, open := Pack(chunks, current, pieces, maxLen);
  }

  method Flush(done: seq<string>, open: string, maxLen: nat) returns (chunks: seq<string>)
    requires Packed(done, open, maxLen)
    ensures chunks == if open == "" then done else done + [open]
    ensures (forall i :: 0 <= i < |chunks| ==> 1 <= |chunks[i]| <= maxLen) && Crowded(chunks, maxLen)
    ensures VisibleAll(chunks) == Shown(done, open)
  {
    ShownClosed(done, open);
    ClosedIsCrowded(done, open, maxLen);
    chunks := if open == "" then done else done + [open];
  }

  lemma ClosedIsCrowded(done: seq<string>, open: string, maxLen: nat)
    requires Packed(done, open, maxLen)
    ensures var chunks := if open == "" then done else done + [open];
      (forall i :: 0 <= i < |chunks| ==> 1 <= |chunks[i]| <= maxLen) && Crowded(chunks, maxLen)
  {
  }

  lemma OneMoreVisible(pieces: seq<string>, p: nat)
    requires p < |pieces|
    ensures VisibleAll(pieces[..p + 1]) == VisibleAll(pieces[..p]) + Visible(pieces[p])
  {
    assert pieces[..p + 1] == pieces[..p] + [pieces[p]];
    VisibleSnoc(pieces[..p], pieces[p]);
  }

  /** Packs pieces into the current chunk, joined by paragraph breaks, starting a new chunk when one does not fit. */
  method Pack(chunks: seq<string>, current: string, pieces: seq<string>, maxLen: nat) returns (done: seq<string>, open: string)
    requires Fit(pieces, maxLen) && Packed(chunks, current, maxLen)
    ensures Packed(done, open, maxLen)
    ensures Shown(done, open) == Shown(chunks, current) + VisibleAll(pieces)
  {
    done, open := chunks, current;
    ghost var before := Shown(chunks, current);
    assert pieces[..0] == [] && before + VisibleAll([]) == before;
    for p := 0 to |pieces|
      invariant Packed(done, open, maxLen)
      invariant Shown(done, open) == before + VisibleAll(pieces[..p])
    {
      var piece := pieces[p];
      OneMoreVisible(pieces, p);
      Associate(before, VisibleAll(pieces[..p]), Visible(piece));
      if piece == "" && open == "" {
        continue;
      }
      done, open := AddPiece(done, open, piece, maxLen);
    }
    assert pieces[..|pieces|] == pieces;
  }

  /** The piece joins the open chunk when it fits, and opens the next one when it does not. */
  predicate AsAdded(chunks: seq<string>, current: string, piece: string, maxLen: nat, done: seq<string>, open: string) {
    var candidate := if current == "" then piece else current + BREAK + piece;
    if |candidate| <= maxLen then open == candidate && done == chunks
    else open == piece && done == if current == "" then chunks else chunks + [current]
  }

  method AddPiece(chunks: seq<string>, current: string, piece: string, maxLen: nat) returns (done: seq<string>, open: string)
    requires |piece| <= maxLen && Packed(chunks, current, maxLen)
    ensures Packed(done, open, maxLen)
    ensures AsAdded(chunks, current, piece, maxLen, done, open)
    ensures Shown(done, open) == Shown(chunks, current) + Visible(piece)
  {
    var candidate := if current == "" then piece else current + BREAK + piece;
    if |candidate| <= maxLen {
      done, open := chunks, candidate;
    } else {
      done := if current == "" then chunks else chunks + [current];
      open := piece;
    }
    AddedStaysPacked(chunks, current, piece, maxLen, done, open);
    AddedKeepsVisible(chunks, current, piece, maxLen, done, open);
  }

  lemma AddedStaysPacked(chunks: seq<string>, current: string, piece: string, maxLen: nat, done: seq<string>, open: string)
    requires |piece| <= maxLen && Packed(chunks, current, maxLen) && AsAdded(chunks, current, piece, maxLen, done, open)
    ensures Packed(done, open, maxLen)
  {
    forall i | 0 <= i < |done| - 1 ensures |done[i]| + |BREAK| + |done[i + 1]| > maxLen {
      assert done[i] == chunks[i] && (i + 1 < |chunks| ==> done[i + 1] == chunks[i + 1]);
    }
  }

  lemma AddedKeepsVisible(chunks: seq<string>, current: string, piece: string, maxLen: nat, done: seq<string>, open: string)
    requires AsAdded(chunks, current, piece, maxLen, done, open)
    ensures Shown(done, open) == Shown(chunks, current) + Visible(piece)
  {
    if |if current == "" then piece else current + BREAK + piece| <= maxLen {
      ShownJoined(chunks, current, piece);
    } else {
      ShownClosed(chunks, current);
    }
  }
}
