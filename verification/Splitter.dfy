/** The document splitter. */
module Splitters {
  import opened Sequences
  import opened Text

  /* ---- searching ---- */

  predicate OccursAt(s: string, p: string, k: int) {
    0 <= k && k + |p| <= |s| && s[k..k + |p|] == p
  }

  /** Start of the last occurrence of a pattern, or -1. */
  function RFind(s: string, p: string): (r: int)
    requires p != ""
    ensures r == -1 || OccursAt(s, p, r)
    ensures forall k :: r < k ==> !OccursAt(s, p, k)
  {
    RFindFrom(s, p, |s| - |p|)
  }

  function RFindFrom(s: string, p: string, k: int): (r: int)
    requires p != "" && k + |p| <= |s|
    ensures r == -1 || (OccursAt(s, p, r) && r <= k)
    ensures forall j :: r < j <= k ==> !OccursAt(s, p, j)
    decreases k
  {
    if k < 0 then -1 else if s[k..k + |p|] == p then k else RFindFrom(s, p, k - 1)
  }

  function Max(a: int, b: int): int {
    if a >= b then a else b
  }

  /** The last line break, full stop or ". " of a window. */
  function BreakAt(window: string): int {
    Max(RFind(window, "\n"), Max(RFind(window, "\U{3002}"), RFind(window, ". ")))
  }

  /* ---- splitting one paragraph ---- */

  /** Where the piece that starts at `start` ends. */
  function PieceEnd(p: string, start: nat, max: nat): nat
    requires start <= |p|
  {
    var end := if start + max < |p| then start + max else |p|;
    if end < |p| && BreakAt(p[start..end]) > max / 4 then start + BreakAt(p[start..end]) + 1 else end
  }

  /** The least advance of a piece that is not the last one. */
  function MinAdvance(max: nat): nat {
    if max < max / 4 + 2 then max else max / 4 + 2
  }

  lemma BreakInside(window: string)
    ensures -1 <= BreakAt(window) < |window| || (window == "" && BreakAt(window) == -1)
  {
  }

  lemma PieceEndBounds(p: string, start: nat, max: nat)
    requires start <= |p|
    ensures start <= PieceEnd(p, start, max) <= |p|
    ensures PieceEnd(p, start, max) <= start + max
    ensures PieceEnd(p, start, max) == |p| || PieceEnd(p, start, max) >= start + MinAdvance(max)
  {
    hide BreakAt;
    var end := if start + max < |p| then start + max else |p|;
    BreakInside(p[start..end]);
  }

  /** Splitting advances exactly for a positive limit. */
  lemma AdvancesIffPositive(p: string, start: nat, max: nat)
    requires start < |p|
    ensures PieceEnd(p, start, max) > start <==> max >= 1
  {
    hide PieceEnd;
    PieceEndBounds(p, start, max);
  }

  /* ---- exactly when splitting ends ---- */

  /** An index as slices take it: negative ones count from the end, and all are cut off at the ends. */
  function Clamp(s: string, i: int): nat {
    var k := if i < 0 then i + |s| else i;
    if k < 0 then 0 else if k > |s| then |s| else k
  }

  function Slice(s: string, i: int, j: int): string {
    if Clamp(s, i) <= Clamp(s, j) then s[Clamp(s, i)..Clamp(s, j)] else ""
  }

  /** Where the loop goes on, for limits and positions of any sign. */
  function NextStart(p: string, start: int, max: int): int {
    var end := if start + max < |p| then start + max else |p|;
    if end < |p| && BreakAt(Slice(p, start, end)) > max / 4 then start + BreakAt(Slice(p, start, end)) + 1 else end
  }

  lemma NextIsPieceEnd(p: string, start: nat, max: nat)
    requires start <= |p|
    ensures NextStart(p, start, max) == PieceEnd(p, start, max)
  {
  }

  /** The position after a number of turns of the loop. */
  function StartAfter(p: string, max: int, turns: nat): int {
    if turns == 0 then 0 else NextStart(p, StartAfter(p, max, turns - 1), max)
  }

  ghost predicate Ends(p: string, max: int) {
    |p| <= max || exists turns :: StartAfter(p, max, turns) >= |p|
  }

  lemma SliceLength(p: string, i: int, j: int)
    ensures |Slice(p, i, j)| == if Clamp(p, i) <= Clamp(p, j) then Clamp(p, j) - Clamp(p, i) else 0
  {
  }

  lemma StaysInside(p: string, start: int, max: int)
    requires max <= 0 && start < |p|
    ensures NextStart(p, start, max) < |p|
  {
    hide BreakAt, Slice;
    SliceLength(p, start, start + max);
    BreakInside(Slice(p, start, start + max));
  }

  lemma {:induction false} NeverReachesTheEnd(p: string, max: int, turns: nat)
    requires max <= 0 && p != ""
    ensures StartAfter(p, max, turns) < |p|
  {
    hide NextStart;
    if turns > 0 {
      NeverReachesTheEnd(p, max, turns - 1);
      StaysInside(p, StartAfter(p, max, turns - 1), max);
    }
  }

  lemma {:induction false} ReachesTheEnd(p: string, max: int, turns: nat)
    requires max >= 1
    ensures 0 <= StartAfter(p, max, turns) <= |p|
    ensures StartAfter(p, max, turns) >= |p| || StartAfter(p, max, turns) >= turns
  {
    hide NextStart, PieceEnd;
    if turns > 0 {
      ReachesTheEnd(p, max, turns - 1);
      var start := StartAfter(p, max, turns - 1);
      NextIsPieceEnd(p, start, max);
      PieceEndBounds(p, start, max);
      if start < |p| { AdvancesIffPositive(p, start, max); }
    }
  }

  /** Splitting a paragraph ends exactly for a positive limit or an empty paragraph; at zero and below the loop
      goes on for ever. */
  lemma EndsIff(p: string, max: int)
    ensures Ends(p, max) <==> max >= 1 || p == ""
  {
    if p == "" {
      assert StartAfter(p, max, 0) >= |p|;
    } else if max >= 1 {
      ReachesTheEnd(p, max, |p|);
    } else {
      forall turns ensures StartAfter(p, max, turns) < |p| { NeverReachesTheEnd(p, max, turns); }
    }
  }

  function Pieces(p: string, start: nat, max: nat): (r: seq<string>)
    requires start <= |p| && max >= 1
    decreases |p| - start
  {
    if start == |p| then []
    else
      AdvancesIffPositive(p, start, max);
      PieceEndBounds(p, start, max);
      var end := PieceEnd(p, start, max);
      var piece := Strip(p[start..end]);
      (if piece != "" then [piece] else []) + Pieces(p, end, max)
  }

  /** The segments of a paragraph. */
  function SplitParagraph(p: string, max: nat): seq<string>
    requires max >= 1
  {
    if |p| <= max then [p]
    else if Pieces(p, 0, max) != [] then Pieces(p, 0, max)
    else [p[..max]]
  }

  lemma ParagraphMeaning(p: string, max: nat)
    requires max >= 1
    ensures SplitParagraph(p, max)
         == if |p| <= max then [p] else if Pieces(p, 0, max) != [] then Pieces(p, 0, max) else [p[..max]]
    ensures Pieces(p, |p|, max) == []
  {
  }

  lemma PieceStep(p: string, start: nat, max: nat, before: seq<string>)
    requires start < |p| && max >= 1
    ensures start < PieceEnd(p, start, max) <= |p|
    ensures var piece := Strip(p[start..PieceEnd(p, start, max)]);
            before + Pieces(p, start, max)
            == (if piece != "" then before + [piece] else before) + Pieces(p, PieceEnd(p, start, max), max)
  {
    hide Strip, BreakAt, PieceEnd;
    AdvancesIffPositive(p, start, max);
    PieceEndBounds(p, start, max);
  }

  lemma SliceStart(p: string, max: int)
    ensures p == "" ==> Slice(p, 0, max) == ""
    ensures 0 <= max <= |p| ==> Slice(p, 0, max) == p[..max]
  {
  }

  ghost predicate Fits(segments: seq<string>, max: nat) {
    forall i :: 0 <= i < |segments| ==> 1 <= |segments[i]| <= max
  }

  /** The quotient rounded up, for a positive divisor. */
  function CeilDiv(a: nat, b: nat): nat
    requires b > 0
  {
    if a == 0 then 0 else if a <= b then 1 else 1 + CeilDiv(a - b, b)
  }

  lemma {:induction false} CeilDivMeaning(a: nat, b: nat)
    requires b > 0
    ensures b * CeilDiv(a, b) >= a && (a > 0 ==> b * (CeilDiv(a, b) - 1) < a)
  {
    if a > b {
      CeilDivMeaning(a - b, b);
      var q := CeilDiv(a - b, b);
      assert b * (1 + q) == b + b * q && b * q == b + b * (q - 1);
    }
  }

  lemma {:induction false} CeilDivMonotone(a: nat, c: nat, b: nat)
    requires b > 0 && a <= c
    ensures CeilDiv(a, b) <= CeilDiv(c, b)
  {
    if a > b { CeilDivMonotone(a - b, c - b, b); }
  }

  lemma CeilDivStep(a: nat, b: nat, c: nat)
    requires b > 0 && b <= c <= a
    ensures CeilDiv(a - c, b) + 1 <= CeilDiv(a, b)
  {
    CeilDivMonotone(a - c, a - b, b);
  }

  /** One piece: stripped of white space, within the limit, with the ink of its stretch. */
  lemma PieceFacts(p: string, start: nat, max: nat)
    requires start < |p| && max >= 1
    ensures start < PieceEnd(p, start, max) <= |p|
    ensures var piece := Strip(p[start..PieceEnd(p, start, max)]);
            |piece| <= max && Ink(p[start..]) == Ink(piece) + Ink(p[PieceEnd(p, start, max)..])
    ensures CeilDiv(|p| - PieceEnd(p, start, max), MinAdvance(max)) + 1 <= CeilDiv(|p| - start, MinAdvance(max))
  {
    hide Ink, Strip, BreakAt, IsSpace, PieceEnd;
    AdvancesIffPositive(p, start, max);
    PieceEndBounds(p, start, max);
    var end := PieceEnd(p, start, max);
    InkStrip(p[start..end]);
    assert p[start..] == p[start..end] + p[end..];
    InkAppend(p[start..end], p[end..]);
    if end < |p| {
      CeilDivStep(|p| - start, MinAdvance(max), end - start);
    }
  }

  /** Pieces are non-empty, short, and few, and carry all the ink. */
  lemma {:induction false} PiecesFacts(p: string, start: nat, max: nat)
    requires start <= |p| && max >= 1
    ensures Fits(Pieces(p, start, max), max)
    ensures InkOf(Pieces(p, start, max)) == Ink(p[start..])
    ensures |Pieces(p, start, max)| <= CeilDiv(|p| - start, MinAdvance(max))
    decreases |p| - start
  {
    hide PieceEnd, Strip, CeilDiv, Ink, MinAdvance;
    if start == |p| {
      assert p[start..] == "";
      EmptyInk();
    } else {
      PieceFacts(p, start, max);
      var end := PieceEnd(p, start, max);
      var piece := Strip(p[start..end]);
      var rest := Pieces(p, end, max);
      PiecesFacts(p, end, max);
      EmptyInk();
      if piece != "" {
        assert Pieces(p, start, max) == [piece] + rest;
        assert ([piece] + rest)[1..] == rest;
      } else {
        assert Pieces(p, start, max) == rest;
      }
    }
  }

  lemma EmptyInk()
    ensures Ink("") == ""
  {
  }

  /** A paragraph's segments are non-empty and short and carry all its ink; a long paragraph yields at most
      one segment for every MinAdvance(max) characters. */
  lemma ParagraphFacts(p: string, max: nat)
    requires max >= 1 && p != ""
    ensures Fits(SplitParagraph(p, max), max)
    ensures InkOf(SplitParagraph(p, max)) == Ink(p)
    ensures |p| > max ==> |SplitParagraph(p, max)| <= CeilDiv(|p|, MinAdvance(max))
  {
    hide Pieces, Ink;
    if |p| <= max {
      OneInk(p);
    } else {
      PiecesFacts(p, 0, max);
      assert p[0..] == p;
      if Pieces(p, 0, max) == [] {
        OneInk(p[..max]);
        assert p == p[..max] + p[max..];
        InkAppend(p[..max], p[max..]);
      }
    }
  }

  lemma OneInk(p: string)
    ensures InkOf([p]) == Ink(p)
  {
    assert [p][1..] == [];
  }

  /* ---- segments of a text ---- */

  /** `text.split("\n\n")`. */
  function SplitBlank(text: string): (r: seq<string>)
    ensures r != []
    decreases |text|
  {
    if |text| < 2 then [text]
    else if text[0] == '\n' && text[1] == '\n' then [""] + SplitBlank(text[2..])
    else
      var rest := SplitBlank(text[1..]);
      [[text[0]] + rest[0]] + rest[1..]
  }

  /** `text.splitlines()`; a carriage return and a line feed together are one boundary. */
  function SplitLines(text: string): seq<string>
    decreases |text|
  {
    if text == "" then []
    else if text[0] == '\r' && |text| >= 2 && text[1] == '\n' then [""] + SplitLines(text[2..])
    else if IsLineBreak(text[0]) then [""] + SplitLines(text[1..])
    else
      var rest := SplitLines(text[1..]);
      if |text| == 1 then [text]
      else if rest == [] then [[text[0]]]
      else [[text[0]] + rest[0]] + rest[1..]
  }

  /** Strips every part and drops the empty ones. */
  function StripAll(parts: seq<string>): (r: seq<string>)
    ensures |r| <= |parts|
    ensures forall s :: s in r ==> s != ""
  {
    if parts == [] then []
    else (if Strip(parts[0]) != "" then [Strip(parts[0])] else []) + StripAll(parts[1..])
  }

  function Paragraphs(text: string): (r: seq<string>)
    ensures forall s :: s in r ==> s != ""
  {
    var blocks := StripAll(SplitBlank(text));
    if |blocks| <= 1 then StripAll(SplitLines(text)) else blocks
  }

  function SplitAll(paragraphs: seq<string>, max: nat): seq<string>
    requires max >= 1
  {
    if paragraphs == [] then [] else SplitParagraph(paragraphs[0], max) + SplitAll(paragraphs[1..], max)
  }

  function Segments(text: string, max: nat): seq<string>
    requires max >= 1
  {
    SplitAll(Paragraphs(text), max)
  }

  lemma {:induction false} SplitBlankInk(text: string)
    ensures InkOf(SplitBlank(text)) == Ink(text)
    decreases |text|
  {
    hide Ink;
    if |text| < 2 {
      OneInk(text);
    } else if text[0] == '\n' && text[1] == '\n' {
      SplitBlankInk(text[2..]);
      assert ([""] + SplitBlank(text[2..]))[1..] == SplitBlank(text[2..]);
      EmptyInk();
      SpaceInk(text, 2);
    } else {
      SplitBlankInk(text[1..]);
      FrontInk(text[0], SplitBlank(text[1..]), text[1..]);
      assert text == [text[0]] + text[1..];
    }
  }

  /** Leading white space carries no ink. */
  lemma {:induction false} SpaceInk(text: string, k: nat)
    requires k <= |text| && forall i :: 0 <= i < k ==> IsSpace(text[i])
    ensures Ink(text) == Ink(text[k..])
  {
    hide IsSpace;
    if k == 0 {
      assert text[0..] == text;
    } else {
      assert text[k..] == text[1..][k - 1..];
      SpaceInk(text[1..], k - 1);
    }
  }

  /** Putting a character in front of the first part. */
  lemma FrontInk(c: char, parts: seq<string>, text: string)
    requires parts != [] && InkOf(parts) == Ink(text)
    ensures InkOf([[c] + parts[0]] + parts[1..]) == Ink([c] + text)
  {
    hide Ink, IsSpace, InkOf;
    InkAppend([c], parts[0]);
    InkAppend([c], text);
    InkOfCons([c] + parts[0], parts[1..]);
    InkOfCons(parts[0], parts[1..]);
    assert parts == [parts[0]] + parts[1..];
    assert (Ink([c]) + Ink(parts[0])) + InkOf(parts[1..]) == Ink([c]) + (Ink(parts[0]) + InkOf(parts[1..]));
  }

  lemma InkOfCons(s: string, rest: seq<string>)
    ensures InkOf([s] + rest) == Ink(s) + InkOf(rest)
  {
    assert ([s] + rest)[1..] == rest;
  }

  lemma {:induction false} SplitLinesInk(text: string)
    ensures InkOf(SplitLines(text)) == Ink(text)
    decreases |text|
  {
    hide Ink;
    EmptyInk();
    if text == "" {
    } else if text[0] == '\r' && |text| >= 2 && text[1] == '\n' {
      SplitLinesInk(text[2..]);
      assert ([""] + SplitLines(text[2..]))[1..] == SplitLines(text[2..]);
      SpaceInk(text, 2);
    } else if IsLineBreak(text[0]) {
      SplitLinesInk(text[1..]);
      assert ([""] + SplitLines(text[1..]))[1..] == SplitLines(text[1..]);
      SpaceInk(text, 1);
    } else {
      SplitLinesInk(text[1..]);
      var rest := SplitLines(text[1..]);
      assert text == [text[0]] + text[1..];
      if |text| == 1 {
        OneInk(text);
      } else if rest == [] {
        OneInk([text[0]]);
        InkAppend([text[0]], text[1..]);
      } else {
        FrontInk(text[0], rest, text[1..]);
      }
    }
  }

  lemma {:induction false} StripAllInk(parts: seq<string>)
    ensures InkOf(StripAll(parts)) == InkOf(parts)
  {
    hide Ink, Strip;
    if parts != [] {
      InkStrip(parts[0]);
      EmptyInk();
      StripAllInk(parts[1..]);
      var s := Strip(parts[0]);
      var rest := StripAll(parts[1..]);
      if s != "" {
        assert StripAll(parts) == [s] + rest && ([s] + rest)[1..] == rest;
      } else {
        assert StripAll(parts) == rest;
        assert Ink(parts[0]) + InkOf(parts[1..]) == InkOf(parts[1..]);
      }
    }
  }

  lemma {:induction false} StripAllBlank(parts: seq<string>)
    requires InkOf(parts) == ""
    ensures StripAll(parts) == []
  {
    hide Ink, Strip;
    if parts != [] {
      InkStrip(parts[0]);
      StripAllBlank(parts[1..]);
    }
  }

  /** The segments of the first i paragraphs; without a positive limit there are none to split. */
  function SplitFirst(paragraphs: seq<string>, i: nat, max: int): seq<string>
    requires i <= |paragraphs| && (max >= 1 || paragraphs == [])
  {
    if i == 0 then [] else SplitFirst(paragraphs, i - 1, max) + SplitParagraph(paragraphs[i - 1], max)
  }

  lemma FirstStart(paragraphs: seq<string>, max: int)
    requires max >= 1 || paragraphs == []
    ensures SplitFirst(paragraphs, 0, max) == []
  {
  }

  lemma FirstStep(paragraphs: seq<string>, i: nat, max: int)
    requires i < |paragraphs| && max >= 1
    ensures SplitFirst(paragraphs, i + 1, max) == SplitFirst(paragraphs, i, max) + SplitParagraph(paragraphs[i], max)
  {
  }

  lemma {:induction false} FirstAndRest(paragraphs: seq<string>, i: nat, max: nat)
    requires i <= |paragraphs| && max >= 1
    ensures SplitFirst(paragraphs, i, max) + SplitAll(paragraphs[i..], max) == SplitAll(paragraphs, max)
  {
    hide SplitParagraph;
    if i == 0 {
      assert paragraphs[0..] == paragraphs;
    } else {
      FirstAndRest(paragraphs, i - 1, max);
      assert paragraphs[i - 1..][1..] == paragraphs[i..];
    }
  }

  lemma AllIsFirst(paragraphs: seq<string>, max: nat)
    requires max >= 1
    ensures SplitFirst(paragraphs, |paragraphs|, max) == SplitAll(paragraphs, max)
  {
    FirstAndRest(paragraphs, |paragraphs|, max);
  }

  lemma SegmentsMeaning(text: string, max: nat)
    requires max >= 1
    ensures Segments(text, max) == SplitAll(Paragraphs(text), max)
  {
  }

  lemma ParagraphsMeaning(text: string)
    ensures Paragraphs(text)
         == if |StripAll(SplitBlank(text))| <= 1 then StripAll(SplitLines(text)) else StripAll(SplitBlank(text))
  {
  }

  /** A text has paragraphs exactly when it is not blank, and none of them is empty. */
  lemma ParagraphsFacts(text: string)
    ensures Paragraphs(text) == [] <==> Ink(text) == ""
  {
    hide Ink, Strip, StripAll, SplitBlank, SplitLines;
    if Ink(text) == "" { BlankHasNone(text); }
    StripAllInk(SplitBlank(text));
    StripAllInk(SplitLines(text));
    SplitBlankInk(text);
    SplitLinesInk(text);
  }

  lemma BlankHasNone(text: string)
    requires Ink(text) == ""
    ensures StripAll(SplitBlank(text)) == [] && StripAll(SplitLines(text)) == []
  {
    hide *;
    SplitBlankInk(text);
    SplitLinesInk(text);
    StripAllBlank(SplitBlank(text));
    StripAllBlank(SplitLines(text));
  }

  lemma {:induction false} SplitAllFacts(paragraphs: seq<string>, max: nat)
    requires max >= 1 && forall s :: s in paragraphs ==> s != ""
    ensures Fits(SplitAll(paragraphs, max), max)
    ensures InkOf(SplitAll(paragraphs, max)) == InkOf(paragraphs)
  {
    hide Ink, InkOf, SplitParagraph;
    if paragraphs != [] {
      hide Fits;
      InkOfCons(paragraphs[0], paragraphs[1..]);
      assert paragraphs == [paragraphs[0]] + paragraphs[1..];
      assert paragraphs[0] in paragraphs && forall s :: s in paragraphs[1..] ==> s in paragraphs;
      ParagraphFacts(paragraphs[0], max);
      SplitAllFacts(paragraphs[1..], max);
      InkOfAppend(SplitParagraph(paragraphs[0], max), SplitAll(paragraphs[1..], max));
      FitsAppend(SplitParagraph(paragraphs[0], max), SplitAll(paragraphs[1..], max), max);
    }
  }

  lemma FitsAppend(a: seq<string>, b: seq<string>, max: nat)
    requires Fits(a, max) && Fits(b, max)
    ensures Fits(a + b, max)
  {
  }

  /** Whatever the text: every segment is non-empty and within the limit, and the segments in order carry
      exactly the text's characters that are not white space. */
  lemma SegmentsFacts(text: string, max: nat)
    requires max >= 1
    ensures Fits(Segments(text, max), max)
    ensures InkOf(Segments(text, max)) == Ink(text)
    ensures Segments(text, max) == [] <==> Ink(text) == ""
  {
    hide Ink, SplitBlank, SplitLines;
    SplitBlankInk(text);
    SplitLinesInk(text);
    StripAllInk(SplitBlank(text));
    StripAllInk(SplitLines(text));
    SplitAllFacts(Paragraphs(text), max);
    if Ink(text) == "" {
      StripAllBlank(SplitBlank(text));
      StripAllBlank(SplitLines(text));
    }
  }

  /* ---- where a long paragraph is cut ---- */

  /** A line break, a full stop, or a stop before a blank. */
  ghost predicate StopAt(s: string, k: int) {
    OccursAt(s, "\n", k) || OccursAt(s, "\U{3002}", k) || OccursAt(s, ". ", k)
  }

  ghost predicate IsLastStop(s: string, k: int) {
    StopAt(s, k) && forall j :: k < j ==> !StopAt(s, j)
  }

  /** One stretch: the rest of the paragraph if that fits, and else up to and with the first character of the
      last stop in its window, if that lies beyond a quarter of the limit, and else the whole window. */
  ghost predicate IsStretch(p: string, start: int, end: int, max: nat) {
    && 0 <= start < end <= |p|
    && if start + max >= |p| then end == |p|
       else
         var window := p[start..start + max];
         || (exists k :: IsLastStop(window, k) && 4 * k > max && end == start + k + 1)
         || ((forall k :: IsLastStop(window, k) ==> 4 * k <= max) && end == start + max)
  }

  /** The cuts of a paragraph from a start to its end. */
  ghost predicate AreCuts(p: string, start: int, max: nat, cuts: seq<int>) {
    && cuts != [] && cuts[0] == start && cuts[|cuts| - 1] == |p|
    && forall i :: 0 <= i < |cuts| - 1 ==> IsStretch(p, cuts[i], cuts[i + 1], max)
  }

  function NonEmptyText(): string -> bool {
    (s: string) => s != ""
  }

  /** The stretches between cuts, stripped. */
  function Stretches(p: string, cuts: seq<int>): seq<string> {
    if |cuts| < 2 || !(0 <= cuts[0] <= cuts[1] <= |p|) then []
    else [Strip(p[cuts[0]..cuts[1]])] + Stretches(p, cuts[1..])
  }

  lemma BreakIsLastStop(window: string)
    ensures BreakAt(window) == -1 ==> forall k :: !StopAt(window, k)
    ensures BreakAt(window) >= 0 ==> IsLastStop(window, BreakAt(window))
  {
  }

  lemma PieceIsStretch(p: string, start: nat, max: nat)
    requires start < |p| && max >= 1
    ensures IsStretch(p, start, PieceEnd(p, start, max), max)
  {
    AdvancesIffPositive(p, start, max);
    PieceEndBounds(p, start, max);
    hide BreakAt, StopAt;
    if start + max < |p| {
      var window := p[start..start + max];
      BreakIsLastStop(window);
      if BreakAt(window) >= 0 {
        assert IsLastStop(window, BreakAt(window));
        forall k | IsLastStop(window, k) ensures k == BreakAt(window) {}
      }
    }
  }

  lemma {:induction false} PiecesAreStretches(p: string, start: nat, max: nat) returns (cuts: seq<int>)
    requires start <= |p| && max >= 1
    ensures AreCuts(p, start, max, cuts)
    ensures Pieces(p, start, max) == Filter(Stretches(p, cuts), NonEmptyText())
    decreases |p| - start
  {
    hide Strip, PieceEnd, IsStretch;
    if start == |p| {
      cuts := [start];
      assert Stretches(p, cuts) == [];
    } else {
      var end := PieceEnd(p, start, max);
      PieceIsStretch(p, start, max);
      AdvancesIffPositive(p, start, max);
      PieceEndBounds(p, start, max);
      var rest := PiecesAreStretches(p, end, max);
      cuts := [start] + rest;
      assert cuts[1..] == rest;
      FilterFront(Strip(p[start..end]), Stretches(p, rest));
    }
  }

  lemma FilterFront(s: string, rest: seq<string>)
    ensures Filter([s] + rest, NonEmptyText()) == (if s != "" then [s] else []) + Filter(rest, NonEmptyText())
  {
    assert ([s] + rest)[1..] == rest;
  }

  /** A long paragraph's segments are the non-empty ones of its stripped stretches. */
  ghost predicate IsSplit(p: string, max: nat, parts: seq<string>) {
    exists cuts :: AreCuts(p, 0, max, cuts) && IsSplitAt(p, max, cuts, parts)
  }

  ghost predicate IsSplitAt(p: string, max: nat, cuts: seq<int>, parts: seq<string>) {
    var pieces := Filter(Stretches(p, cuts), NonEmptyText());
    parts == if pieces != [] then pieces else [if max <= |p| then p[..max] else p]
  }

  lemma ParagraphIsSplit(p: string, max: nat)
    requires max >= 1 && |p| > max
    ensures IsSplit(p, max, SplitParagraph(p, max))
  {
    hide AreCuts, Stretches, Pieces;
    var cuts := PiecesAreStretches(p, 0, max);
    assert IsSplitAt(p, max, cuts, SplitParagraph(p, max));
  }

  /* ---- where a text is cut ---- */

  function JoinBlank(parts: seq<string>): string {
    if parts == [] then "" else if |parts| == 1 then parts[0] else parts[0] + "\n\n" + JoinBlank(parts[1..])
  }

  ghost predicate NoTwoBreaks(s: string) {
    forall k :: 0 <= k < |s| - 1 ==> s[k] != '\n' || s[k + 1] != '\n'
  }

  /** No part has a blank line in it, or one that begins in it. */
  ghost predicate NoBlankInside(parts: seq<string>, i: int)
    requires 0 <= i < |parts|
  {
    NoTwoBreaks(if i < |parts| - 1 then parts[i] + "\n" else parts[i])
  }

  /** Splitting at blank lines cuts at the first blank line, then at the first behind it, and so on. */
  lemma {:induction false} BlankMeaning(text: string)
    ensures JoinBlank(SplitBlank(text)) == text
    ensures forall i :: 0 <= i < |SplitBlank(text)| ==> NoBlankInside(SplitBlank(text), i)
    decreases |text|
  {
    var parts := SplitBlank(text);
    if |text| < 2 {
    } else if text[0] == '\n' && text[1] == '\n' {
      var rest := SplitBlank(text[2..]);
      BlankMeaning(text[2..]);
      assert parts[1..] == rest;
      assert text == "\n\n" + text[2..];
      forall i | 0 <= i < |parts| ensures NoBlankInside(parts, i) {
        if i > 0 { assert NoBlankInside(rest, i - 1) && parts[i] == rest[i - 1]; }
      }
    } else {
      var rest := SplitBlank(text[1..]);
      BlankMeaning(text[1..]);
      FrontBlank(text, rest);
    }
  }

  lemma FrontBlank(text: string, rest: seq<string>)
    requires |text| >= 2 && !(text[0] == '\n' && text[1] == '\n') && rest != [] && JoinBlank(rest) == text[1..]
    requires forall i :: 0 <= i < |rest| ==> NoBlankInside(rest, i)
    ensures var parts := [[text[0]] + rest[0]] + rest[1..];
            JoinBlank(parts) == text && forall i :: 0 <= i < |parts| ==> NoBlankInside(parts, i)
  {
    hide *;
    JoinPush(text[0], rest);
    JoinStarts(rest);
    assert text == [text[0]] + text[1..];
    FrontIsClean(text[0], rest);
  }

  /** How a join begins. */
  lemma JoinStarts(rest: seq<string>)
    requires rest != []
    ensures rest[0] != "" ==> JoinBlank(rest) != "" && JoinBlank(rest)[0] == rest[0][0]
    ensures rest[0] == "" && |rest| > 1 ==> JoinBlank(rest) != "" && JoinBlank(rest)[0] == '\n'
  {
  }

  lemma JoinPush(c: char, rest: seq<string>)
    requires rest != []
    ensures JoinBlank([[c] + rest[0]] + rest[1..]) == [c] + JoinBlank(rest)
  {
    var parts := [[c] + rest[0]] + rest[1..];
    var behind := if |rest| > 1 then "\n\n" + JoinBlank(rest[1..]) else "";
    assert parts[1..] == rest[1..] && parts[0] == [c] + rest[0] && |parts| == |rest|;
    hide JoinBlank;
    JoinFront(rest, behind);
    JoinFront(parts, behind);
    Joined([c], rest[0], behind);
  }

  lemma FrontIsClean(c: char, rest: seq<string>)
    requires rest != [] && forall i :: 0 <= i < |rest| ==> NoBlankInside(rest, i)
    requires c == '\n' ==> if rest[0] == "" then |rest| == 1 else rest[0][0] != '\n'
    ensures var parts := [[c] + rest[0]] + rest[1..];
            forall i :: 0 <= i < |parts| ==> NoBlankInside(parts, i)
  {
    var parts := [[c] + rest[0]] + rest[1..];
    hide NoTwoBreaks;
    forall i | 0 <= i < |parts| ensures NoBlankInside(parts, i) {
      assert NoBlankInside(rest, i);
      if i == 0 {
        FirstPart(c, if |rest| > 1 then rest[0] + "\n" else rest[0]);
        assert [c] + (rest[0] + "\n") == ([c] + rest[0]) + "\n";
      }
    }
  }

  lemma JoinFront(parts: seq<string>, behind: string)
    requires parts != [] && behind == if |parts| > 1 then "\n\n" + JoinBlank(parts[1..]) else ""
    ensures JoinBlank(parts) == parts[0] + behind
  {
  }

  lemma FirstPart(c: char, s: string)
    requires NoTwoBreaks(s) && (c == '\n' && s != "" ==> s[0] != '\n')
    ensures NoTwoBreaks([c] + s)
  {
  }

  /** A text, line by line: no line has a line boundary in it, each but perhaps the last ends at one, a carriage
      return and a line feed together being one. */
  ghost predicate AreLines(text: string, lines: seq<string>, ends: seq<string>)
    decreases |lines|
  {
    if lines == [] || ends == [] then text == "" && lines == [] && ends == []
    else
      && lines[0] + ends[0] <= text
      && (forall i :: 0 <= i < |lines[0]| ==> !IsLineBreak(lines[0][i]))
      && (var rest := text[|lines[0] + ends[0]|..];
          && IsEnd(lines[0], ends[0], rest)
          && AreLines(rest, lines[1..], ends[1..]))
  }

  ghost predicate IsEnd(line: string, end: string, rest: string) {
    || (end == "" && line != "" && rest == "")
    || end == "\r\n"
    || (|end| == 1 && IsLineBreak(end[0]) && !(end == "\r" && rest != "" && rest[0] == '\n'))
  }

  lemma {:induction false} LinesMeaning(text: string) returns (ends: seq<string>)
    ensures AreLines(text, SplitLines(text), ends)
    decreases |text|
  {
    hide IsLineBreak;
    if text == "" {
      ends := [];
    } else if text[0] == '\r' && |text| >= 2 && text[1] == '\n' {
      var rest := LinesMeaning(text[2..]);
      ends := ["\r\n"] + rest;
      assert text == "" + "\r\n" + text[2..];
      assert ([""] + SplitLines(text[2..]))[1..] == SplitLines(text[2..]) && ends[1..] == rest;
    } else if IsLineBreak(text[0]) {
      var rest := LinesMeaning(text[1..]);
      ends := [[text[0]]] + rest;
      assert text == "" + [text[0]] + text[1..];
      assert ([""] + SplitLines(text[1..]))[1..] == SplitLines(text[1..]) && ends[1..] == rest;
    } else {
      var rest := LinesMeaning(text[1..]);
      ends := FrontLine(text, SplitLines(text[1..]), rest);
    }
  }

  lemma FrontLine(text: string, lines: seq<string>, rest: seq<string>) returns (ends: seq<string>)
    requires text != "" && !IsLineBreak(text[0]) && AreLines(text[1..], lines, rest)
    ensures AreLines(text, if lines == [] then [[text[0]]] else [[text[0]] + lines[0]] + lines[1..], ends)
  {
    hide IsLineBreak;
    assert text == [text[0]] + text[1..];
    if lines == [] {
      ends := [""];
    } else {
      ends := rest;
      var first := [text[0]] + lines[0];
      var all := [first] + lines[1..];
      assert all[1..] == lines[1..];
      assert first + ends[0] == [text[0]] + (lines[0] + ends[0]);
      assert text[|first + ends[0]|..] == text[1..][|lines[0] + ends[0]|..];
    }
  }

  /** Paragraphs are the stripped, non-empty blocks between blank lines, and the lines if there is at most one. */
  lemma {:induction false} StripAllMeaning(parts: seq<string>)
    ensures StripAll(parts) == Filter(seq(|parts|, i requires 0 <= i < |parts| => Strip(parts[i])), NonEmptyText())
  {
    hide Strip;
    if parts != [] {
      var stripped := seq(|parts|, i requires 0 <= i < |parts| => Strip(parts[i]));
      var rest := seq(|parts[1..]|, i requires 0 <= i < |parts[1..]| => Strip(parts[1..][i]));
      assert stripped == [Strip(parts[0])] + rest;
      FilterFront(Strip(parts[0]), rest);
      StripAllMeaning(parts[1..]);
    }
  }

  /* ---- documents ---- */

  /** A metadata value; only texts and numbers matter here. */
  datatype Value = Text(text: string) | Number(n: nat)

  datatype Document = Document(content: string, metadata: map<string, Value>)

  /** How numbers are written, and the digest that names a document without an id of its own. */
  datatype Naming = Naming(digits: nat -> string, digest: string -> string)

  /** The explicit id unless it is empty or zero, and else one made from the content. */
  function DocumentId(d: Document, naming: Naming): string {
    var explicit := if "document_id" in d.metadata then d.metadata["document_id"] else Text("");
    match explicit
    case Text(text) => if text != "" then text else "doc-" + naming.digest(d.content)
    case Number(n) => if n != 0 then naming.digits(n) else "doc-" + naming.digest(d.content)
  }

  /** The i-th chunk: the document's own metadata, with its index, parent, splitter and id written over them. */
  function ChunkOf(d: Document, segment: string, i: nat, naming: Naming): Document {
    var parent := DocumentId(d, naming);
    Document(segment, d.metadata + map[
      "chunk_index" := Number(i),
      "parent_id" := Text(parent),
      "splitter" := Text("paragraph"),
      "document_id" := Text(parent + "#" + naming.digits(i))])
  }

  /** A document goes by the id in its metadata, unless that is missing, empty or zero. */
  lemma DocumentIdMeaning(d: Document, naming: Naming)
    ensures var given := "document_id" in d.metadata
                         && d.metadata["document_id"] != Text("") && d.metadata["document_id"] != Number(0);
            DocumentId(d, naming) ==
            if !given then "doc-" + naming.digest(d.content)
            else if d.metadata["document_id"].Text? then d.metadata["document_id"].text
            else naming.digits(d.metadata["document_id"].n)
  {
  }

  class DocumentSplitter {
    const maxChunkChars: int
    const naming: Naming

    constructor (maxChunkChars: int, naming: Naming)
      ensures this.maxChunkChars == maxChunkChars && this.naming == naming
    {
      this.maxChunkChars, this.naming := maxChunkChars, naming;
    }

    /** For exactly the inputs on which the loop ends, as EndsIff says. */
    method SplitLongParagraph(paragraph: string) returns (parts: seq<string>)
      requires maxChunkChars >= 1 || paragraph == ""
      ensures parts == if paragraph == "" then [""] else SplitParagraph(paragraph, maxChunkChars)
      ensures if |paragraph| <= maxChunkChars || paragraph == "" then parts == [paragraph]
              else IsSplit(paragraph, maxChunkChars, parts)
    {
      hide Strip, BreakAt, Ink, CeilDiv, Pieces, SplitParagraph, Slice, IsSplit;
      if paragraph != "" { ParagraphMeaning(paragraph, maxChunkChars); }
      if |paragraph| > maxChunkChars >= 1 { ParagraphIsSplit(paragraph, maxChunkChars); }
      if |paragraph| <= maxChunkChars {
        return [paragraph];
      }
      parts := [];
      var start := 0;
      while start < |paragraph|
        invariant start <= |paragraph|
        invariant paragraph == "" ==> parts == []
        invariant paragraph != "" ==>
          parts + Pieces(paragraph, start, maxChunkChars) == Pieces(paragraph, 0, maxChunkChars)
        decreases |paragraph| - start
      {
        var end := if start + maxChunkChars < |paragraph| then start + maxChunkChars else |paragraph|;
        if end < |paragraph| {
          var breakAt := BreakAt(paragraph[start..end]);
          if breakAt > maxChunkChars / 4 {
            end := start + breakAt + 1;
          }
        }
        PieceStep(paragraph, start, maxChunkChars, parts);
        var piece := Strip(paragraph[start..end]);
        if piece != "" {
          parts := parts + [piece];
        }
        start := end;
      }
      SliceStart(paragraph, maxChunkChars);
      if parts == [] {
        parts := [Slice(paragraph, 0, maxChunkChars)];
      }
    }

    /** With a limit that is not positive only a blank text can be segmented, into nothing. */
    method SegmentText(text: string) returns (segments: seq<string>)
      requires maxChunkChars >= 1 || Ink(text) == ""
      ensures segments == if Ink(text) == "" then [] else Segments(text, maxChunkChars)
    {
      hide *;
      ParagraphsMeaning(text);
      ParagraphsFacts(text);
      var paragraphs := StripAll(SplitBlank(text));
      if |paragraphs| <= 1 {
        paragraphs := StripAll(SplitLines(text));
      }
      segments := [];
      FirstStart(paragraphs, maxChunkChars);
      for i := 0 to |paragraphs|
        invariant segments == SplitFirst(paragraphs, i, maxChunkChars)
      {
        assert paragraphs[i] in paragraphs;
        var parts := SplitLongParagraph(paragraphs[i]);
        FirstStep(paragraphs, i, maxChunkChars);
        segments := segments + parts;
      }
      if paragraphs != [] {
        AllIsFirst(paragraphs, maxChunkChars);
        SegmentsMeaning(text, maxChunkChars);
      }
    }

    /** The chunks of a document carry its ink in order, numbered from 0; a blank document stays as it is. */
    method Split(document: Document) returns (chunks: seq<Document>)
      requires maxChunkChars >= 1 || Ink(document.content) == ""
      ensures Ink(document.content) == "" ==> chunks == [document]
      ensures Ink(document.content) != "" ==>
                && |chunks| == |Segments(document.content, maxChunkChars)|
                && forall i :: 0 <= i < |chunks| ==>
                     chunks[i] == ChunkOf(document, Segments(document.content, maxChunkChars)[i], i, naming)
    {
      hide Segments, ChunkOf, Ink, Fits, InkOf;
      var segments := SegmentText(document.content);
      if maxChunkChars >= 1 { SegmentsFacts(document.content, maxChunkChars); }
      if segments == [] {
        return [document];
      }
      chunks := [];
      for index := 0 to |segments|
        invariant |chunks| == index
        invariant forall i :: 0 <= i < index ==> chunks[i] == ChunkOf(document, segments[i], i, naming)
      {
        chunks := chunks + [ChunkOf(document, segments[index], index, naming)];
      }
    }
  }

  /** The chunks of a document are named after it and their index, so different chunks have different ids,
      decimal numerals being distinct; all other metadata is the document's. */
  lemma ChunkIdsDiffer(d: Document, segment: string, i: nat, other: string, j: nat, naming: Naming)
    requires forall k, l :: naming.digits(k) == naming.digits(l) ==> k == l
    ensures var chunk := ChunkOf(d, segment, i, naming);
            && DocumentId(chunk, naming) == DocumentId(d, naming) + "#" + naming.digits(i)
            && chunk.content == segment
            && {"chunk_index", "parent_id", "splitter"} <= chunk.metadata.Keys
            && chunk.metadata["chunk_index"] == Number(i)
            && chunk.metadata["parent_id"] == Text(DocumentId(d, naming))
            && chunk.metadata["splitter"] == Text("paragraph")
            && (forall key :: key in d.metadata && key !in {"chunk_index", "parent_id", "splitter", "document_id"} ==>
                  key in chunk.metadata && chunk.metadata[key] == d.metadata[key])
    ensures DocumentId(ChunkOf(d, segment, i, naming), naming) == DocumentId(ChunkOf(d, other, j, naming), naming)
       <==> i == j
  {
    var prefix := DocumentId(d, naming) + "#";
    assert (prefix + naming.digits(i))[|prefix|..] == naming.digits(i);
    assert (prefix + naming.digits(j))[|prefix|..] == naming.digits(j);
  }
}
