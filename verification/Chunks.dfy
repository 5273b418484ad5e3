/** Splitting long answers for Telegram (chic/telegram/render.py, `source_chunks`). */
module Chunks {

  const TARGET := 3500

  /** `s.rfind("\n", lo, hi)`: the last newline in `[lo, hi)`, or -1. */
  function RFind(s: string, lo: nat, hi: nat): (i: int)
    requires lo <= hi <= |s|
    ensures i == -1 || (lo <= i < hi && s[i] == '\n')
    ensures forall j :: lo <= j < hi && s[j] == '\n' ==> j <= i
  {
    if hi <= lo then -1 else if s[hi - 1] == '\n' then hi - 1 else RFind(s, lo, hi - 1)
  }

  /** `s.rstrip("\n")` */
  function RStrip(s: string): (r: string)
    ensures r <= s
    ensures forall i :: |r| <= i < |s| ==> s[i] == '\n'
    ensures r != [] ==> r[|r| - 1] != '\n'
  {
    if s != [] && s[|s| - 1] == '\n' then RStrip(s[..|s| - 1]) else s
  }

  /** Where a long text is cut: after the last newline in the window's second half, else at its end. */
  function Cut(rest: string): (cut: nat)
    requires |rest| > TARGET
    ensures TARGET / 2 < cut <= TARGET
  {
    var newline := RFind(rest, TARGET / 2, TARGET);
    if newline != -1 then newline + 1 else TARGET
  }

  function Pieces(rest: string): seq<string>
    decreases |rest|
  {
    if |rest| > TARGET then [RStrip(rest[..Cut(rest)])] + Pieces(rest[Cut(rest)..])
    else if RStrip(rest) != [] then [RStrip(rest)] else []
  }

  function SourceChunks(text: string): seq<string> { if |text| <= TARGET then [text] else Pieces(text) }

  method Split(text: string) returns (chunks: seq<string>)
    ensures chunks == SourceChunks(text)
  {
    if |text| <= TARGET {
      return [text];
    }
    chunks := [];
    var rest := text;
    while |rest| > TARGET
      invariant chunks + Pieces(rest) == Pieces(text)
      decreases |rest|
    {
      var cut := TARGET;
      var newline := RFind(rest, TARGET / 2, TARGET);
      if newline != -1 {
        cut := newline + 1;
      }
      ghost var before := chunks;
      chunks := chunks + [RStrip(rest[..cut])];
      assert chunks + Pieces(rest[cut..]) == before + Pieces(rest);
      rest := rest[cut..];
    }
    rest := RStrip(rest);
    if rest != [] {
      chunks := chunks + [rest];
    }
  }

  // ---- nothing but newlines is lost ------------------------------------------------

  function Newlines(n: nat): string { seq(n, i => '\n') }

  /** The chunks in order, each followed by its run of newlines. */
  function Glue(chunks: seq<string>, gaps: seq<nat>): string
    requires |chunks| == |gaps|
  {
    if chunks == [] then [] else chunks[0] + Newlines(gaps[0]) + Glue(chunks[1..], gaps[1..])
  }

  lemma StripLosesNewlines(s: string)
    ensures s == RStrip(s) + Newlines(|s| - |RStrip(s)|)
  {
  }

  /** Some stretch as long as half a window, 1750 characters, has no newline. */
  ghost predicate LongLine(s: string) { exists i: nat :: UnbrokenAt(s, i) }

  ghost predicate UnbrokenAt(s: string, i: nat) {
    i + TARGET / 2 <= |s| && forall j :: i <= j < i + TARGET / 2 ==> s[j] != '\n'
  }

  lemma LongLineAfter(s: string, cut: nat)
    requires cut <= |s| && LongLine(s[cut..])
    ensures LongLine(s)
  {
    var rest := s[cut..];
    var i: nat :| UnbrokenAt(rest, i);
    assert forall j :: cut + i <= j < cut + i + TARGET / 2 ==> s[j] == rest[j - cut];
    assert UnbrokenAt(s, cut + i);
  }

  /** A piece loses no newline at its end only where a line is too long for half a window. */
  lemma CutInLine(rest: string)
    requires |rest| > TARGET && |RStrip(rest[..Cut(rest)])| == Cut(rest)
    ensures LongLine(rest)
  {
    CutsAtNewlines(rest);
    var head := rest[..Cut(rest)];
    assert RStrip(head) == head;
    assert head[|head| - 1] == rest[Cut(rest) - 1];
    assert UnbrokenAt(rest, TARGET / 2);
  }

  /** Where the pieces go on, some newline was lost, unless a line of the text is too long. */
  ghost predicate Separated(gaps: seq<nat>, rest: string) {
    forall i :: 0 <= i < |gaps| - 1 ==> gaps[i] >= 1 || LongLine(rest)
  }

  lemma SeparatedCons(gap: nat, gaps: seq<nat>, rest: string, cut: nat)
    requires cut <= |rest| && Separated(gaps, rest[cut..]) && (gap >= 1 || LongLine(rest))
    ensures Separated([gap] + gaps, rest)
  {
    hide LongLine;
    forall i | 0 <= i < |gaps|
      ensures ([gap] + gaps)[i] >= 1 || LongLine(rest)
    {
      if i > 0 && gaps[i - 1] == 0 {
        LongLineAfter(rest, cut);
      }
    }
  }

  lemma {:induction false} PiecesGlue(rest: string) returns (gaps: seq<nat>, tail: nat)
    ensures |gaps| == |Pieces(rest)|
    ensures rest == Glue(Pieces(rest), gaps) + Newlines(tail)
    ensures Pieces(rest) != [] ==> tail == 0
    ensures Separated(gaps, rest)
    decreases |rest|
  {
    hide RStrip, Cut, LongLine, Pieces, Glue;
    PiecesStep(rest);
    if |rest| > TARGET {
      var cut := Cut(rest);
      var head := rest[..cut];
      var gap: nat := |head| - |RStrip(head)|;
      StripLosesNewlines(head);
      gaps, tail := PiecesGlue(rest[cut..]);
      if gap == 0 {
        CutInLine(rest);
      }
      SeparatedCons(gap, gaps, rest, cut);
      assert rest == head + rest[cut..];
      GlueStep(head, rest[cut..], RStrip(head), gap, Pieces(rest[cut..]), gaps, tail);
      if gaps == [] {
        gaps, tail := [gap + tail], 0;
      } else {
        gaps := [gap] + gaps;
      }
    } else if RStrip(rest) != [] {
      StripLosesNewlines(rest);
      gaps, tail := [|rest| - |RStrip(rest)|], 0;
      GlueOne(RStrip(rest), gaps[0]);
    } else {
      StripLosesNewlines(rest);
      gaps, tail := [], |rest|;
      GlueNone();
    }
  }

  lemma PiecesStep(rest: string)
    ensures |rest| > TARGET ==> Pieces(rest) == [RStrip(rest[..Cut(rest)])] + Pieces(rest[Cut(rest)..])
    ensures |rest| <= TARGET ==> Pieces(rest) == if RStrip(rest) != [] then [RStrip(rest)] else []
  {
    hide RStrip, Cut;
  }

  lemma GlueNone()
    ensures Glue([], []) == []
  {
  }

  lemma GlueOne(piece: string, gap: nat)
    ensures Glue([piece], [gap]) == piece + Newlines(gap)
  {
    hide Newlines;
    assert [piece][1..] == [] && [gap][1..] == [];
  }

  /** One more piece in front; newlines that no piece follows go to its own run. */
  lemma GlueStep(head: string, rest: string, piece: string, gap: nat, pieces: seq<string>, gaps: seq<nat>, tail: nat)
    requires head == piece + Newlines(gap)
    requires |pieces| == |gaps| && rest == Glue(pieces, gaps) + Newlines(tail)
    ensures gaps == [] ==> head + rest == Glue([piece] + pieces, [gap + tail])
    ensures head + rest == Glue([piece] + pieces, [gap] + gaps) + Newlines(tail)
  {
    hide Newlines, Glue;
    GlueCons(piece, gap, pieces, gaps);
    Regroup(head, Glue(pieces, gaps), Newlines(tail));
    if gaps == [] {
      GlueNone();
      assert [piece] + pieces == [piece];
      GlueOne(piece, gap + tail);
      MoreNewlines(gap, tail);
      Regroup(piece, Newlines(gap), Newlines(tail));
      assert rest == Newlines(tail);
    }
  }

  lemma GlueCons(piece: string, gap: nat, pieces: seq<string>, gaps: seq<nat>)
    requires |pieces| == |gaps|
    ensures Glue([piece] + pieces, [gap] + gaps) == piece + Newlines(gap) + Glue(pieces, gaps)
  {
    hide Newlines;
    assert ([piece] + pieces)[1..] == pieces && ([gap] + gaps)[1..] == gaps;
  }

  lemma Regroup(a: string, b: string, c: string)
    ensures a + (b + c) == (a + b) + c
  {
  }

  lemma MoreNewlines(n: nat, m: nat)
    ensures Newlines(n) + Newlines(m) == Newlines(n + m)
  {
  }

  /**
   The text is the chunks in order with a run of newlines after each. A run is empty before
   the last chunk, so that a line is broken, only if some 1750 characters have no newline.
   */
  lemma ChunksGlue(text: string) returns (gaps: seq<nat>)
    ensures |gaps| == |SourceChunks(text)| && text == Glue(SourceChunks(text), gaps)
    ensures forall i :: 0 <= i < |gaps| - 1 ==> gaps[i] >= 1 || LongLine(text)
  {
    hide LongLine;
    if |text| <= TARGET {
      gaps := [0];
      assert gaps[1..] == [] && SourceChunks(text)[1..] == [];
    } else {
      var tail;
      gaps, tail := PiecesGlue(text);
    }
  }

  /** No chunk is too long, and there are few of them. */
  lemma {:induction false} PiecesBounded(rest: string)
    ensures forall i :: 0 <= i < |Pieces(rest)| ==> |Pieces(rest)[i]| <= TARGET
    ensures |Pieces(rest)| <= |rest| / 1751 + 1
    decreases |rest|
  {
    if |rest| > TARGET {
      PiecesBounded(rest[Cut(rest)..]);
      assert |rest[Cut(rest)..]| / 1751 + 1 <= |rest| / 1751;
    }
  }

  /** What is left at the end makes one chunk, without its newlines, unless it is nothing else. */
  lemma RestIsOnePiece(rest: string)
    requires |rest| <= 3500
    ensures |Pieces(rest)| <= 1
    ensures Pieces(rest) == [] <==> forall i :: 0 <= i < |rest| ==> rest[i] == '\n'
    ensures Pieces(rest) != [] ==> Pieces(rest)[0] != [] && Pieces(rest)[0][|Pieces(rest)[0]| - 1] != '\n'
  {
    PiecesStep(rest);
    var kept := RStrip(rest);
    assert kept != [] ==> rest[|kept| - 1] != '\n';
  }

  lemma ChunksBounded(text: string)
    ensures forall i :: 0 <= i < |SourceChunks(text)| ==> |SourceChunks(text)[i]| <= 3500
    ensures |SourceChunks(text)| <= |text| / 1751 + 1
    ensures |text| <= 3500 ==> SourceChunks(text) == [text]
  {
    PiecesBounded(text);
  }

  /** A cut falls inside a line only when the window's second half has no newline to cut at. */
  lemma CutsAtNewlines(rest: string)
    requires |rest| > TARGET
    ensures (exists j :: TARGET / 2 <= j < TARGET && rest[j] == '\n') ==>
              && rest[Cut(rest) - 1] == '\n'
              && forall j :: Cut(rest) <= j < TARGET ==> rest[j] != '\n'
    ensures !(exists j :: TARGET / 2 <= j < TARGET && rest[j] == '\n') ==> Cut(rest) == TARGET
  {
    var newline := RFind(rest, TARGET / 2, TARGET);
  }
}
