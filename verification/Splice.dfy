/**
 Splicing an overlay into a line: the parts of the line on both sides (`extractSegments`) and the
 composed line (`compositeLineAt`).
 */
module Splicing {
  import opened Basics
  import opened Styled
  import opened Truncate
  import opened Overlay

  // ---- The parts on both sides ----

  /** The part before the overlay is the line up to its last glyph that starts before `beforeEnd`. */
  ghost predicate Heads(line: Text, beforeEnd: nat, p: nat) {
    && p <= |line|
    && (p == 0 || (line[p - 1].Glyph? && Width(line[..p - 1]) < beforeEnd))
    && (forall k | p <= k < |line| && line[k].Glyph? :: Width(line[..k]) >= beforeEnd)
  }

  /** The part after it is a stretch of the line, behind the codes that replay the style there. */
  ghost predicate Tails(line: Text, start: nat, end: int, strict: bool, after: Text, j: nat, e: nat) {
    && j <= e <= |line|
    && (j < e ==> line[j].Glyph?)
    && (forall k | 0 <= k < j && line[k].Glyph? :: Width(line[..k]) < start)
    && AllInRange(line, start, end, strict, j, e)
    && Ends(line, end, strict, e)
    && after == TailText(line, j, e)
  }

  function TailText(line: Text, j: nat, e: nat): Text
    requires j <= e <= |line|
  {
    if j < e then ActiveCodes(After(line[..j], PLAIN)) + line[j..e] else []
  }

  ghost predicate Heading(line: Text, beforeEnd: nat, i: nat, pending: Text, p: nat) {
    && p <= i <= |line|
    && (p == 0 || (line[p - 1].Glyph? && Width(line[..p - 1]) < beforeEnd))
    && (forall k | p <= k < i && line[k].Glyph? :: Width(line[..k]) >= beforeEnd)
    && (Width(line[..i]) < beforeEnd ==> OnlyCodes(line, p, i) && pending == line[p..i])
  }

  ghost predicate Tailing(line: Text, start: nat, end: int, strict: bool, i: nat, after: Text, j: nat) {
    && j <= i <= |line|
    && (j < i ==> line[j].Glyph? && Width(line[..i]) >= start)
    && (forall k | 0 <= k < j && line[k].Glyph? :: Width(line[..k]) < start)
    && AllInRange(line, start, end, strict, j, i)
    && after == TailText(line, j, i)
  }

  lemma SegmentStart(line: Text, beforeEnd: nat, start: nat, end: int, strict: bool)
    ensures Heading(line, beforeEnd, 0, [], 0)
    ensures Tailing(line, start, end, strict, 0, [], 0)
    ensures Width(line[..0]) == 0 && After(line[..0], PLAIN) == PLAIN
  {
  }

  lemma HeadCode(line: Text, beforeEnd: nat, i: nat, pending: Text, p: nat)
    requires Heading(line, beforeEnd, i, pending, p) && i < |line| && !line[i].Glyph?
    ensures Heading(line, beforeEnd, i + 1, if Width(line[..i]) < beforeEnd then pending + [line[i]] else pending, p)
  {
    hide Width;
    WidthNext(line, i);
    Extend(line, p, i);
  }

  lemma HeadGlyph(line: Text, beforeEnd: nat, i: nat, pending: Text, p: nat)
    requires Heading(line, beforeEnd, i, pending, p) && i < |line| && line[i].Glyph?
    ensures Width(line[..i]) < beforeEnd ==> line[..p] + pending + [line[i]] == line[..i + 1]
    ensures Width(line[..i]) < beforeEnd ==> Heading(line, beforeEnd, i + 1, [], i + 1) && Width(line[..p]) == Width(line[..i])
    ensures Width(line[..i]) >= beforeEnd ==> Heading(line, beforeEnd, i + 1, pending, p)
  {
    hide Width;
    WidthNext(line, i);
    if Width(line[..i]) < beforeEnd { NoGlyphs(line, p, i); }
    if Width(line[..i]) < beforeEnd { Flush(line, p, i); assert line[i + 1..i + 1] == []; }
  }

  /** Once the column is reached, no later glyph starts before it. */
  lemma HeadEnd(line: Text, beforeEnd: nat, i: nat, pending: Text, p: nat)
    requires Heading(line, beforeEnd, i, pending, p) && (i == |line| || Width(line[..i]) >= beforeEnd)
    ensures Heads(line, beforeEnd, p)
  {
    hide Width;
    forall k | i <= k < |line| ensures Width(line[..k]) >= Width(line[..i]) {
      WidthMonotone(line, i, k);
    }
  }

  lemma TailCode(line: Text, start: nat, end: int, strict: bool, i: nat, after: Text, j: nat)
    requires Tailing(line, start, end, strict, i, after, j) && i < |line| && !line[i].Glyph?
    ensures j < i ==> Width(line[..i]) >= start && Tailing(line, start, end, strict, i + 1, after + [line[i]], j)
    ensures j < i ==> Width(line[j..i + 1]) == Width(line[j..i])
    ensures j == i ==> Tailing(line, start, end, strict, i + 1, after, i + 1) && Width(line[i + 1..i + 1]) == Width(line[i..i])
  {
    WidthNext(line, i);
    Extend(line, j, i);
    TailTextNext(line, j, i);
    assert line[i + 1..i + 1] == line[i..i];
    if j == i { assert TailText(line, j, i) == [] == TailText(line, i + 1, i + 1); }
    hide Width, InRange, ActiveCodes, After, TailText;
  }

  lemma TailGlyph(line: Text, start: nat, end: int, strict: bool, i: nat, after: Text, j: nat)
    requires Tailing(line, start, end, strict, i, after, j) && i < |line| && line[i].Glyph?
    requires InRange(line, start, end, strict, i)
    ensures Tailing(line, start, end, strict, i + 1,
      (if j == i then after + ActiveCodes(After(line[..i], PLAIN)) else after) + [line[i]], j)
    ensures Width(line[j..i + 1]) == Width(line[j..i]) + line[i].width
  {
    hide Width, ActiveCodes, After, TailText, InRange;
    WidthNext(line, i);
    Extend(line, j, i);
    TailTextNext(line, j, i);
    assert Width(line[..i]) >= start by { RangeIs(line, start, end, strict, i); }
  }

  lemma TailTextNext(line: Text, j: nat, i: nat)
    requires j <= i < |line|
    ensures (if j == i then TailText(line, j, i) + ActiveCodes(After(line[..i], PLAIN)) else TailText(line, j, i)) + [line[i]]
      == TailText(line, j, i + 1)
  {
    hide ActiveCodes, After;
    assert line[j..i + 1] == line[j..i] + [line[i]];
    var codes := ActiveCodes(After(line[..j], PLAIN));
    assert [] + codes == codes && codes + line[j..i] + [line[i]] == codes + line[j..i + 1];
  }

  lemma TailSkip(line: Text, start: nat, end: int, strict: bool, i: nat, after: Text, j: nat)
    requires Tailing(line, start, end, strict, i, after, j) && i < |line| && line[i].Glyph?
    requires Width(line[..i]) < start
    ensures j == i && Tailing(line, start, end, strict, i + 1, after, i + 1) && Width(line[i + 1..i + 1]) == Width(line[i..i])
  {
    hide Width, ActiveCodes, After;
    assert line[i + 1..i + 1] == line[i..i];
  }

  lemma TailEnd(line: Text, start: nat, end: int, strict: bool, i: nat, after: Text, j: nat)
    requires Tailing(line, start, end, strict, i, after, j) && Ends(line, end, strict, i)
    ensures Tails(line, start, end, strict, after, j, i)
  {
  }

  lemma StyleNext(line: Text, i: nat)
    requires i < |line|
    ensures After(line[..i + 1], PLAIN) == Advance(After(line[..i], PLAIN), line[i])
  {
    assert line[..i + 1] == line[..i] + [line[i]];
    Snoc(line[..i], line[i], PLAIN);
  }

  /** `extractSegments`, with its pooled tracker. */
  method ExtractSegments(tracker: AnsiCodeTracker, line: Text, beforeEnd: nat, afterStart: nat, afterLen: int, strictAfter: bool)
    returns (before: Text, beforeWidth: nat, after: Text, afterWidth: nat, ghost p: nat, ghost j: nat, ghost e: nat)
    requires beforeEnd <= afterStart
    modifies tracker
    ensures Heads(line, beforeEnd, p) && before == line[..p] && beforeWidth == Width(before)
    ensures afterLen <= 0 ==> after == [] && afterWidth == 0
    ensures afterLen > 0 ==> Tails(line, afterStart, afterStart + afterLen, strictAfter, after, j, e) && afterWidth == Width(line[j..e])
  {
    hide Width, After, Process, Heading, Tailing, Heads, Tails, InRange, Ends, ActiveCodes, TailText;
    before, beforeWidth, after, afterWidth := [], 0, [], 0;
    p, j, e := 0, 0, 0;
    var currentCol, pendingBefore: Text, afterStarted := 0, [], false;
    var afterEnd := afterStart + afterLen;
    tracker.Clear();
    SegmentStart(line, beforeEnd, afterStart, afterEnd, strictAfter);
    assert line[..0] == [] && line[0..0] == [];
    var i := 0;
    while i < |line|
      invariant 0 <= i <= |line| && currentCol == Width(line[..i])
      invariant tracker.State() == After(line[..i], PLAIN)
      invariant p <= i && before == line[..p] && beforeWidth == Width(before) && Heading(line, beforeEnd, i, pendingBefore, p)
      invariant afterLen <= 0 ==> after == [] && afterWidth == 0 && !afterStarted
      invariant j <= i && (afterLen > 0 ==>
        && currentCol < afterEnd && Tailing(line, afterStart, afterEnd, strictAfter, i, after, j)
        && afterStarted == (j < i) && afterWidth == Width(line[j..i]))
    {
      WidthNext(line, i);
      StyleNext(line, i);
      if !line[i].Glyph? {
        tracker.ProcessItem(line[i]);
        HeadCode(line, beforeEnd, i, pendingBefore, p);
        if afterLen > 0 { TailCode(line, afterStart, afterEnd, strictAfter, i, after, j); }
        if currentCol < beforeEnd {
          pendingBefore := pendingBefore + [line[i]];
        } else if afterStart <= currentCol < afterEnd && afterStarted {
          after := after + [line[i]];
        }
        if !afterStarted { j := i + 1; }
      } else {
        var w := line[i].width;
        HeadGlyph(line, beforeEnd, i, pendingBefore, p);
        RangeIs(line, afterStart, afterEnd, strictAfter, i);
        e := i + 1;
        if currentCol < beforeEnd {
          before := before + pendingBefore + [line[i]];
          pendingBefore := [];
          beforeWidth := beforeWidth + w;
          p := i + 1;
          if afterLen > 0 { TailSkip(line, afterStart, afterEnd, strictAfter, i, after, j); }
          j := i + 1;
        } else if afterStart <= currentCol < afterEnd {
          var fits := !strictAfter || currentCol + w <= afterEnd;
          if fits {
            TailGlyph(line, afterStart, afterEnd, strictAfter, i, after, j);
            if !afterStarted {
              var codes := tracker.GetActiveCodes();
              after := after + codes;
              afterStarted := true;
            }
            after := after + [line[i]];
            afterWidth := afterWidth + w;
          } else {
            e := i;
          }
        } else {
          if afterLen > 0 { TailSkip(line, afterStart, afterEnd, strictAfter, i, after, j); }
          j := i + 1;
        }
        currentCol := currentCol + w;
        if if afterLen <= 0 then currentCol >= beforeEnd else currentCol >= afterEnd {
          HeadEnd(line, beforeEnd, i + 1, pendingBefore, p);
          if afterLen > 0 { TailEnd(line, afterStart, afterEnd, strictAfter, e, after, j); }
          return;
        }
      }
      i := i + 1;
    }
    e := |line|;
    HeadEnd(line, beforeEnd, i, pendingBefore, p);
    if afterLen > 0 { TailEnd(line, afterStart, afterEnd, strictAfter, e, after, j); }
  }

  // ---- The composed line ----

  /** The parts of a composed line, and where they are in the base line and the overlay. */
  datatype Parts = Parts(before: Text, overlay: Text, after: Text, p: nat, cut: Cut, j: nat, e: nat)

  /** Where a slice is in its line. */
  datatype Cut = Cut(m: nat, j: nat, e: nat)

  ghost predicate IsCut(line: Text, length: nat, text: Text, cut: Cut) {
    if length == 0 then text == [] else Slices(line, 0, length, true, text, cut.m, cut.j, cut.e)
  }

  function Compose(parts: Parts, startCol: nat, overlayWidth: nat, totalWidth: nat): Text {
    var b, o, a := Width(parts.before), Width(parts.overlay), Width(parts.after);
    parts.before + Spaces(startCol - b) + SEGMENT_RESET + parts.overlay + Spaces(overlayWidth - o) + SEGMENT_RESET +
    parts.after + Spaces(AfterTarget(b, o, startCol, overlayWidth, totalWidth) - a)
  }

  /** The columns left behind the overlay. */
  function AfterTarget(b: nat, o: nat, startCol: nat, overlayWidth: nat, totalWidth: nat): nat {
    Max(0, totalWidth - Max(startCol, b) - Max(overlayWidth, o))
  }

  /** The parts that a base line and an overlay contribute. */
  ghost predicate PartsOf(parts: Parts, base: Text, overlay: Text, startCol: nat, overlayWidth: nat, totalWidth: nat) {
    && Heads(base, startCol, parts.p) && parts.before == base[..parts.p]
    && IsCut(overlay, overlayWidth, parts.overlay, parts.cut)
    && (if totalWidth <= startCol + overlayWidth then parts.after == []
        else Tails(base, startCol + overlayWidth, totalWidth, true, parts.after, parts.j, parts.e))
  }

  /** A line cut to a width, if it is wider. */
  ghost predicate CutTo(whole: Text, totalWidth: nat, result: Text, cut: Cut) {
    if Width(whole) <= totalWidth then result == whole else IsCut(whole, totalWidth, result, cut)
  }

  lemma TailWidth(line: Text, start: nat, end: int, strict: bool, after: Text, j: nat, e: nat)
    requires Tails(line, start, end, strict, after, j, e)
    ensures j <= e <= |line| && Width(after) == Width(line[j..e])
    ensures Cells(after, PLAIN) == Cells(line[j..e], After(line[..j], PLAIN))
  {
    hide InRange, Ends;
    if j < e {
      AfterWellFormed(line[..j], PLAIN);
      ActiveCodesReplay(After(line[..j], PLAIN));
      Concat(ActiveCodes(After(line[..j], PLAIN)), line[j..e], PLAIN);
      hide Cells, After, Width;
      assert [] + Cells(line[j..e], After(line[..j], PLAIN)) == Cells(line[j..e], After(line[..j], PLAIN));
    } else {
      assert line[j..e] == [];
    }
  }

  lemma CutWidth(line: Text, length: nat, text: Text, cut: Cut)
    requires IsCut(line, length, text, cut)
    ensures Width(text) <= length
    ensures length > 0 ==> cut.j <= cut.e <= |line| && Width(text) == Width(line[cut.j..cut.e])
  {
    if length > 0 { StrictSliceWidth(line, 0, length, text, cut.m, cut.j, cut.e); }
  }

  /** `compositeLineAt` */
  method CompositeLineAt(tracker: AnsiCodeTracker, base: Text, isImage: bool, overlay: Text,
                         startCol: nat, overlayWidth: nat, totalWidth: nat)
    returns (result: Text, ghost parts: Parts, ghost cut: Cut)
    modifies tracker
    ensures isImage ==> result == base
    ensures !isImage ==> PartsOf(parts, base, overlay, startCol, overlayWidth, totalWidth)
    ensures !isImage ==> CutTo(Compose(parts, startCol, overlayWidth, totalWidth), totalWidth, result, cut)
    ensures !isImage ==> Width(result) <= totalWidth
  {
    cut := Cut(0, 0, 0);
    if isImage { return base, Parts([], [], [], 0, cut, 0, 0), cut; }
    hide Width, Heads, Tails, Slices, Spaces, Compose, PartsOf, IsCut, CutTo;
    var afterStart := startCol + overlayWidth;
    var before, beforeWidth, after, afterWidth, p, j, e :=
      ExtractSegments(tracker, base, startCol, afterStart, totalWidth - afterStart, true);
    var text, width, m, j', e' := SliceWithWidth(overlay, 0, overlayWidth, true);
    parts := Parts(before, text, after, p, Cut(m, j', e'), j, e);
    PartsAre(parts, base, overlay, startCol, overlayWidth, totalWidth);
    ComposeIs(parts, startCol, overlayWidth, totalWidth, beforeWidth, width, afterWidth);
    var whole := PadAndJoin(before, beforeWidth, text, width, after, afterWidth, startCol, overlayWidth, totalWidth);
    result, cut := SafeguardWidth(whole, totalWidth);
  }

  /** The padding and joining in `compositeLineAt`. */
  method PadAndJoin(before: Text, beforeWidth: nat, overlay: Text, width: nat, after: Text, afterWidth: nat,
                    startCol: nat, overlayWidth: nat, totalWidth: nat)
    returns (whole: Text)
    ensures whole == before + Spaces(startCol - beforeWidth) + SEGMENT_RESET + overlay + Spaces(overlayWidth - width) +
      SEGMENT_RESET + after + Spaces(Max(0, totalWidth - Max(startCol, beforeWidth) - Max(overlayWidth, width)) - afterWidth)
  {
    var beforePad, overlayPad := Max(0, startCol - beforeWidth), Max(0, overlayWidth - width);
    var actualBeforeWidth, actualOverlayWidth := Max(startCol, beforeWidth), Max(overlayWidth, width);
    var afterTarget := Max(0, totalWidth - actualBeforeWidth - actualOverlayWidth);
    var afterPad := Max(0, afterTarget - afterWidth);
    assert Spaces(beforePad) == Spaces(startCol - beforeWidth) && Spaces(overlayPad) == Spaces(overlayWidth - width);
    assert Spaces(afterPad) == Spaces(afterTarget - afterWidth);
    whole := before + Spaces(beforePad) + SEGMENT_RESET + overlay + Spaces(overlayPad) + SEGMENT_RESET + after + Spaces(afterPad);
  }

  /** The safeguard at the end of `compositeLineAt`. */
  method SafeguardWidth(whole: Text, totalWidth: nat) returns (result: Text, ghost cut: Cut)
    ensures CutTo(whole, totalWidth, result, cut) && Width(result) <= totalWidth
  {
    hide Width, Slices, CutTo;
    result, cut := whole, Cut(0, 0, 0);
    if Width(whole) > totalWidth {
      var text, width, m, j, e := SliceWithWidth(whole, 0, totalWidth, true);
      result, cut := text, Cut(m, j, e);
    }
    CutIs(whole, totalWidth, result, cut);
    CompositeFits(whole, totalWidth, result, cut);
  }

  lemma ComposeIs(parts: Parts, startCol: nat, overlayWidth: nat, totalWidth: nat, b: int, o: int, a: int)
    requires b == Width(parts.before) && o == Width(parts.overlay) && a == Width(parts.after)
    ensures Compose(parts, startCol, overlayWidth, totalWidth) ==
      parts.before + Spaces(startCol - b) + SEGMENT_RESET + parts.overlay + Spaces(overlayWidth - o) + SEGMENT_RESET +
      parts.after + Spaces(Max(0, totalWidth - Max(startCol, b) - Max(overlayWidth, o)) - a)
  {
  }

  lemma CutIs(whole: Text, totalWidth: nat, result: Text, cut: Cut)
    requires Width(whole) <= totalWidth ==> result == whole
    requires Width(whole) > totalWidth && totalWidth == 0 ==> result == []
    requires Width(whole) > totalWidth && totalWidth > 0 ==> Slices(whole, 0, totalWidth, true, result, cut.m, cut.j, cut.e)
    ensures CutTo(whole, totalWidth, result, cut)
  {
  }

  /** What the two scans return, put together. */
  lemma PartsAre(parts: Parts, base: Text, overlay: Text, startCol: nat, overlayWidth: nat, totalWidth: nat)
    requires Heads(base, startCol, parts.p) && parts.before == base[..parts.p]
    requires if totalWidth <= startCol + overlayWidth then parts.after == []
      else Tails(base, startCol + overlayWidth, totalWidth, true, parts.after, parts.j, parts.e)
    requires if overlayWidth == 0 then parts.overlay == []
      else Slices(overlay, 0, overlayWidth, true, parts.overlay, parts.cut.m, parts.cut.j, parts.cut.e)
    ensures PartsOf(parts, base, overlay, startCol, overlayWidth, totalWidth)
    ensures totalWidth > startCol + overlayWidth ==>
      parts.j <= parts.e <= |base| && Width(parts.after) == Width(base[parts.j..parts.e])
    ensures totalWidth <= startCol + overlayWidth ==> Width(parts.after) == 0
    ensures overlayWidth > 0 ==>
      parts.cut.j <= parts.cut.e <= |overlay| && Width(parts.overlay) == Width(overlay[parts.cut.j..parts.cut.e])
    ensures overlayWidth == 0 ==> Width(parts.overlay) == 0
  {
    hide Heads, Tails, Slices;
    EmptyCells();
    CutWidth(overlay, overlayWidth, parts.overlay, parts.cut);
    if totalWidth > startCol + overlayWidth {
      TailWidth(base, startCol + overlayWidth, totalWidth, true, parts.after, parts.j, parts.e);
    }
  }

  /** Whatever the widths of the glyphs, the line is not wider than the terminal. */
  lemma CompositeFits(whole: Text, totalWidth: nat, result: Text, cut: Cut)
    requires CutTo(whole, totalWidth, result, cut)
    ensures Width(result) <= totalWidth
  {
    if Width(whole) > totalWidth { CutWidth(whole, totalWidth, result, cut); }
  }

  // ---- What the composed line shows ----

  lemma PaddedShows(t: Text, n: int, s: Style)
    ensures Cells(t + Spaces(n), s) == Cells(t, s) + Blanks(n, After(t, s))
    ensures Width(t + Spaces(n)) == Width(t) + Max(0, n)
  {
    Concat(t, Spaces(n), s);
    SpacesCells(n, After(t, s));
    if n >= 0 { SpacesWidth(n); } else { assert Spaces(n) == []; }
  }

  lemma ResetShows(t: Text, s: Style)
    ensures Cells(t + SEGMENT_RESET, s) == Cells(t, s) && After(t + SEGMENT_RESET, s) == PLAIN
    ensures Width(t + SEGMENT_RESET) == Width(t)
  {
    assert t + SEGMENT_RESET == t + [SEGMENT_RESET[0]] + [SEGMENT_RESET[1]];
    Snoc(t, SEGMENT_RESET[0], s);
    Snoc(t + [SEGMENT_RESET[0]], SEGMENT_RESET[1], s);
  }

  /** The three parts in their own styles, with blanks between them; before the cut the line is never
      too short. */
  lemma ComposeShows(parts: Parts, startCol: nat, overlayWidth: nat, totalWidth: nat)
    ensures var b, o, a := Width(parts.before), Width(parts.overlay), Width(parts.after);
      var n := AfterTarget(b, o, startCol, overlayWidth, totalWidth);
      var whole := Compose(parts, startCol, overlayWidth, totalWidth);
      && Width(whole) == Max(startCol, b) + Max(overlayWidth, o) + Max(n, a) >= totalWidth
      && Cells(whole, PLAIN) ==
        Cells(parts.before, PLAIN) + Blanks(startCol - b, After(parts.before, PLAIN)) +
        (Cells(parts.overlay, PLAIN) + Blanks(overlayWidth - o, After(parts.overlay, PLAIN))) +
        (Cells(parts.after, PLAIN) + Blanks(n - a, After(parts.after, PLAIN)))
  {
    hide Width, Cells, After, Spaces, Blanks;
    var b, o, a := Width(parts.before), Width(parts.overlay), Width(parts.after);
    var n: int := AfterTarget(b, o, startCol, overlayWidth, totalWidth);
    var x := parts.before + Spaces(startCol - b);
    var y := parts.overlay + Spaces(overlayWidth - o);
    var z := parts.after + Spaces(n - a);
    PaddedShows(parts.before, startCol - b, PLAIN);
    PaddedShows(parts.overlay, overlayWidth - o, PLAIN);
    PaddedShows(parts.after, n - a, PLAIN);
    ResetShows(x, PLAIN);
    Concat(x + SEGMENT_RESET, y, PLAIN);
    ResetShows(x + SEGMENT_RESET + y, PLAIN);
    Concat(x + SEGMENT_RESET + y + SEGMENT_RESET, z, PLAIN);
    assert Compose(parts, startCol, overlayWidth, totalWidth) == x + SEGMENT_RESET + y + SEGMENT_RESET + z;
  }

  // ---- Glyphs of one column ----

  ghost predicate Narrow(t: Text) { forall i | 0 <= i < |t| && t[i].Glyph? :: t[i].width == 1 }

  /** Then the cells are the columns. */
  lemma {:induction false} NarrowColumns(t: Text, s: Style)
    requires Narrow(t)
    ensures |Cells(t, s)| == Width(t)
  {
    if t != [] {
      NarrowColumns(t[1..], Advance(s, t[0]));
    }
  }

  lemma NextGlyph(t: Text, p: nat) returns (k: nat)
    requires p <= |t|
    ensures p <= k <= |t| && OnlyCodes(t, p, k) && (k < |t| ==> t[k].Glyph?)
  {
    k := p;
    while k < |t| && !t[k].Glyph?
      invariant p <= k <= |t| && OnlyCodes(t, p, k)
    {
      k := k + 1;
    }
  }

  lemma HeadColumns(line: Text, beforeEnd: nat, p: nat)
    requires Narrow(line) && Heads(line, beforeEnd, p)
    ensures Width(line[..p]) == Min(beforeEnd, Width(line))
  {
    if p > 0 { WidthNext(line, p - 1); }
    WidthMonotone(line, p, |line|);
    var k := NextGlyph(line, p);
    NoGlyphs(line, p, k);
    assert line[..|line|] == line && (p == 0 ==> Width(line[..p]) == 0);
    hide Width;
  }

  lemma {:induction false} EarlyColumns(line: Text, start: nat, j: nat, x: nat)
    requires Narrow(line) && x <= j <= |line|
    requires forall k | 0 <= k < j && line[k].Glyph? :: Width(line[..k]) < start
    ensures Width(line[..x]) <= start
  {
    if x > 0 {
      EarlyColumns(line, start, j, x - 1);
      WidthNext(line, x - 1);
    }
  }

  lemma {:induction false} RangeColumns(line: Text, start: nat, end: int, j: nat, e: nat, x: nat)
    requires Narrow(line) && j <= x <= e <= |line| && Width(line[..j]) <= end
    requires AllInRange(line, start, end, true, j, e)
    ensures Width(line[..x]) <= end
  {
    if x > j {
      RangeColumns(line, start, end, j, e, x - 1);
      WidthNext(line, x - 1);
      if line[x - 1].Glyph? { assert InRange(line, start, end, true, x - 1); }
    }
  }

  /** The part after the overlay: the columns from `start` to the end of the screen. */
  lemma TailColumns(line: Text, start: nat, end: nat, after: Text, j: nat, e: nat)
    requires Narrow(line) && start < end && Tails(line, start, end, true, after, j, e)
    ensures j <= e <= |line|
    ensures Width(line) > start ==> Width(line[..j]) == start && Width(line[..e]) == Min(end, Width(line))
    ensures Width(line) <= start ==> j == e
  {
    hide Width;
    EarlyColumns(line, start, j, j);
    RangeColumns(line, start, end, j, e, e);
    WidthMonotone(line, j, e);
    WidthMonotone(line, e, |line|);
    assert line[..|line|] == line;
    if j < e {
      assert InRange(line, start, end, true, j);
      WidthNext(line, j);
      WidthMonotone(line, j + 1, |line|);
    }
    if e < |line| && line[e].Glyph? { WidthNext(line, e); }
  }

  lemma CutColumns(line: Text, length: nat, text: Text, cut: Cut)
    requires Narrow(line) && IsCut(line, length, text, cut)
    ensures Width(text) == Min(length, Width(line))
    ensures |Cells(text, PLAIN)| == Min(length, Width(line)) <= |Cells(line, PLAIN)|
    ensures Cells(text, PLAIN) == Cells(line, PLAIN)[..Min(length, Width(line))]
  {
    EmptyCells();
    NarrowColumns(line, PLAIN);
    if length > 0 {
      var e := cut.e;
      SliceFromStart(line, length, true, text, cut.m, cut.j, e);
      NarrowColumns(text, PLAIN);
      assert line == line[..e] + line[e..];
      Concat(line[..e], line[e..], PLAIN);
      CutWidth(line, length, text, cut);
      if e < |line| && line[e].Glyph? { WidthNext(line, e); }
      assert line[..|line|] == line;
    }
  }

  lemma ComposeNarrow(parts: Parts, base: Text, overlay: Text, startCol: nat, overlayWidth: nat, totalWidth: nat)
    requires Narrow(base) && Narrow(overlay)
    requires PartsOf(parts, base, overlay, startCol, overlayWidth, totalWidth)
    ensures Narrow(Compose(parts, startCol, overlayWidth, totalWidth))
  {
    assert Narrow(parts.before);
    assert Narrow(parts.overlay) by {
      if overlayWidth > 0 { SliceFromStart(overlay, overlayWidth, true, parts.overlay, parts.cut.m, parts.cut.j, parts.cut.e); }
    }
    assert Narrow(parts.after);
    hide PartsOf, Width;
    var b, o := Width(parts.before), Width(parts.overlay);
    NarrowConcat(parts.before, Spaces(startCol - b), SEGMENT_RESET);
    NarrowConcat(parts.before + Spaces(startCol - b) + SEGMENT_RESET, parts.overlay, Spaces(overlayWidth - o));
    var left := parts.before + Spaces(startCol - b) + SEGMENT_RESET + parts.overlay + Spaces(overlayWidth - o);
    NarrowConcat(left, SEGMENT_RESET, parts.after);
    NarrowConcat(left + SEGMENT_RESET + parts.after, [], Spaces(AfterTarget(b, o, startCol, overlayWidth, totalWidth) - Width(parts.after)));
    assert left + SEGMENT_RESET + parts.after + [] == left + SEGMENT_RESET + parts.after;
  }

  lemma NarrowConcat(a: Text, b: Text, c: Text)
    requires Narrow(a) && Narrow(b) && Narrow(c)
    ensures Narrow(a + b + c)
  {
  }

  predicate IsSpace(c: Cell) { c.ch == SPACE.ch && c.width == SPACE.width }

  /** Column `x` of the composed line: the overlay or a space under the overlay, the base line or a
      space elsewhere, each in its own style. */
  ghost predicate ShowsAt(c: Cell, base: seq<Cell>, overlay: seq<Cell>, startCol: nat, overlayWidth: nat, x: nat) {
    if startCol <= x < startCol + overlayWidth
    then (if x - startCol < |overlay| then c == overlay[x - startCol] else IsSpace(c))
    else (if x < |base| then c == base[x] else IsSpace(c))
  }

  lemma RowShows(base: seq<Cell>, overlay: seq<Cell>, startCol: nat, overlayWidth: nat, totalWidth: nat,
                 after: seq<Cell>, s: Style, t: Style, u: Style, row: seq<Cell>, x: nat)
    requires var b, o := Min(startCol, |base|), Min(overlayWidth, |overlay|);
      row == base[..b] + Blanks(startCol - b, s) + (overlay[..o] + Blanks(overlayWidth - o, t)) +
        (after + Blanks(Max(0, totalWidth - startCol - overlayWidth) - |after|, u))
    requires var from := startCol + overlayWidth;
      after == if from < totalWidth && from < |base| then base[from..Min(totalWidth, |base|)] else []
    requires x < totalWidth
    ensures x < |row| && ShowsAt(row[x], base, overlay, startCol, overlayWidth, x)
  {
  }

  lemma CompositeParts(parts: Parts, base: Text, overlay: Text, startCol: nat, overlayWidth: nat, totalWidth: nat)
    requires Narrow(base) && Narrow(overlay)
    requires PartsOf(parts, base, overlay, startCol, overlayWidth, totalWidth)
    ensures var b, o, from := Cells(base, PLAIN), Cells(overlay, PLAIN), startCol + overlayWidth;
      && Width(parts.before) == Min(startCol, |b|) && Cells(parts.before, PLAIN) == b[..Min(startCol, |b|)]
      && Width(parts.overlay) == Min(overlayWidth, |o|) && Cells(parts.overlay, PLAIN) == o[..Min(overlayWidth, |o|)]
      && Width(parts.after) == |Cells(parts.after, PLAIN)|
      && Cells(parts.after, PLAIN) == if from < totalWidth && from < |b| then b[from..Min(totalWidth, |b|)] else []
  {
    hide Width, Cells, After, Heads, Tails, Slices;
    var from := startCol + overlayWidth;
    NarrowColumns(base, PLAIN);
    NarrowColumns(overlay, PLAIN);
    EmptyCells();
    BeforeColumns(base, startCol, parts.p);
    CutColumns(overlay, overlayWidth, parts.overlay, parts.cut);
    if from < totalWidth {
      AfterColumns(base, from, totalWidth, parts.after, parts.j, parts.e);
    }
  }

  lemma BeforeColumns(base: Text, startCol: nat, p: nat)
    requires Narrow(base) && Heads(base, startCol, p)
    ensures var b := Cells(base, PLAIN);
      p <= |base| && Width(base[..p]) == Min(startCol, |b|) && Cells(base[..p], PLAIN) == b[..Min(startCol, |b|)]
  {
    NarrowColumns(base, PLAIN);
    NarrowColumns(base[..p], PLAIN);
    HeadColumns(base, startCol, p);
    assert base == base[..p] + base[p..];
    Concat(base[..p], base[p..], PLAIN);
  }

  lemma AfterColumns(base: Text, from: nat, totalWidth: nat, after: Text, j: nat, e: nat)
    requires Narrow(base) && from < totalWidth && Tails(base, from, totalWidth, true, after, j, e)
    ensures var b := Cells(base, PLAIN);
      && Width(after) == |Cells(after, PLAIN)|
      && Cells(after, PLAIN) == if from < |b| then b[from..Min(totalWidth, |b|)] else []
  {
    hide Width, Cells, After, Tails;
    NarrowColumns(base, PLAIN);
    TailColumns(base, from, totalWidth, after, j, e);
    TailWidth(base, from, totalWidth, true, after, j, e);
    NarrowColumns(base[..j], PLAIN);
    NarrowColumns(base[j..e], After(base[..j], PLAIN));
    CellsSplit(base, j, e, PLAIN);
    EmptyCells();
    if j == e { assert base[j..e] == []; }
  }

  lemma AfterTargetIs(base: seq<Cell>, overlay: seq<Cell>, startCol: nat, overlayWidth: nat, totalWidth: nat)
    ensures AfterTarget(Min(startCol, |base|), Min(overlayWidth, |overlay|), startCol, overlayWidth, totalWidth) ==
      Max(0, totalWidth - startCol - overlayWidth)
  {
  }

  /** Every column of the composed line, before the cut. */
  lemma ComposedColumn(parts: Parts, base: Text, overlay: Text, startCol: nat, overlayWidth: nat, totalWidth: nat, x: nat)
    requires Narrow(base) && Narrow(overlay) && x < totalWidth
    requires PartsOf(parts, base, overlay, startCol, overlayWidth, totalWidth)
    ensures var row := Cells(Compose(parts, startCol, overlayWidth, totalWidth), PLAIN);
      x < |row| && ShowsAt(row[x], Cells(base, PLAIN), Cells(overlay, PLAIN), startCol, overlayWidth, x)
  {
    hide Width, Cells, After, PartsOf, Compose, Narrow, ShowsAt, Blanks, Max, Min, AfterTarget;
    ComposeShows(parts, startCol, overlayWidth, totalWidth);
    CompositeParts(parts, base, overlay, startCol, overlayWidth, totalWidth);
    AfterTargetIs(Cells(base, PLAIN), Cells(overlay, PLAIN), startCol, overlayWidth, totalWidth);
    RowShows(Cells(base, PLAIN), Cells(overlay, PLAIN), startCol, overlayWidth, totalWidth, Cells(parts.after, PLAIN),
      After(parts.before, PLAIN), After(parts.overlay, PLAIN), After(parts.after, PLAIN),
      Cells(Compose(parts, startCol, overlayWidth, totalWidth), PLAIN), x);
  }

  lemma CutShows(whole: Text, totalWidth: nat, result: Text, cut: Cut)
    requires Narrow(whole) && CutTo(whole, totalWidth, result, cut) && Width(whole) >= totalWidth
    ensures |Cells(whole, PLAIN)| >= totalWidth && Cells(result, PLAIN) == Cells(whole, PLAIN)[..totalWidth]
    ensures Width(result) == totalWidth
  {
    hide Width, Cells, IsCut, Narrow;
    NarrowColumns(whole, PLAIN);
    if Width(whole) > totalWidth { CutColumns(whole, totalWidth, result, cut); }
  }

  /** Splicing is exact by columns: with glyphs of one column the line is as wide as the terminal, and
      every column shows what it should. */
  lemma CompositeExact(parts: Parts, base: Text, overlay: Text, startCol: nat, overlayWidth: nat, totalWidth: nat, result: Text, cut: Cut)
    requires Narrow(base) && Narrow(overlay)
    requires PartsOf(parts, base, overlay, startCol, overlayWidth, totalWidth)
    requires CutTo(Compose(parts, startCol, overlayWidth, totalWidth), totalWidth, result, cut)
    ensures Width(result) == |Cells(result, PLAIN)| == totalWidth
    ensures forall x: nat | x < totalWidth ::
      ShowsAt(Cells(result, PLAIN)[x], Cells(base, PLAIN), Cells(overlay, PLAIN), startCol, overlayWidth, x)
  {
    hide Width, Cells, After, PartsOf, CutTo, Compose, Narrow, ShowsAt, Blanks;
    var whole := Compose(parts, startCol, overlayWidth, totalWidth);
    ComposeShows(parts, startCol, overlayWidth, totalWidth);
    ComposeNarrow(parts, base, overlay, startCol, overlayWidth, totalWidth);
    CutShows(whole, totalWidth, result, cut);
    forall x: nat | x < totalWidth
      ensures ShowsAt(Cells(result, PLAIN)[x], Cells(base, PLAIN), Cells(overlay, PLAIN), startCol, overlayWidth, x)
    {
      ComposedColumn(parts, base, overlay, startCol, overlayWidth, totalWidth, x);
    }
  }
}
