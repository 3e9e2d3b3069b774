/**
 Truncation of styled text to a width (`truncateToWidth` and its helpers). A tab is a glyph of
 width 3, as `visibleWidth` counts it.
 */
module Truncate {
  import opened Basics
  import opened Styled

  /** `" ".repeat(Math.max(0, n))` */
  function Spaces(n: int): Text {
    seq(if n < 0 then 0 else n, _ => SPACE)
  }

  lemma {:induction false} SpacesWidth(n: nat)
    ensures Width(Spaces(n)) == n
  {
    if n > 0 {
      assert Spaces(n)[0] == SPACE && Spaces(n)[1..] == Spaces(n - 1);
      SpacesWidth(n - 1);
    }
  }

  // ---- The prefix that fits ----

  function GlyphWidth(item: Item): nat { if item.Glyph? then item.width else 0 }

  /** `p` cuts `t` after its last glyph that fits in `target` columns together with all before it:
      escape sequences behind that glyph are not kept. */
  ghost predicate IsFit(t: Text, target: int, p: nat) {
    && p <= |t| && (p == 0 || (t[p - 1].Glyph? && Width(t[..p]) <= target))
    && (forall k | p <= k < |t| && t[k].Glyph? && OnlyCodes(t, p, k) :: Width(t[..k + 1]) > target)
  }

  ghost predicate OnlyCodes(t: Text, a: nat, b: nat)
    requires a <= b <= |t|
  {
    forall i | a <= i < b :: !t[i].Glyph?
  }

  lemma {:induction false} WidthMonotone(t: Text, a: nat, b: nat)
    requires a <= b <= |t|
    ensures Width(t[..a]) <= Width(t[..b]) <= Width(t)
  {
    assert t[..b] == t[..a] + t[a..b] && t == t[..b] + t[b..];
    Concat(t[..a], t[a..b], PLAIN);
    Concat(t[..b], t[b..], PLAIN);
  }

  lemma WidthNext(t: Text, i: nat)
    requires i < |t|
    ensures Width(t[..i + 1]) == Width(t[..i]) + GlyphWidth(t[i])
  {
    assert t[..i + 1] == t[..i] + [t[i]];
    Snoc(t[..i], t[i], PLAIN);
  }

  lemma {:induction false} NoGlyphs(t: Text, a: nat, b: nat)
    requires a <= b <= |t| && OnlyCodes(t, a, b)
    ensures Width(t[..b]) == Width(t[..a])
  {
    if a < b {
      NoGlyphs(t, a, b - 1);
      WidthNext(t, b - 1);
    }
  }

  /** There is one such cut. */
  lemma FitUnique(t: Text, target: int, p: nat, q: nat)
    requires IsFit(t, target, p) && IsFit(t, target, q) && p <= q
    ensures p == q
  {
    if p < q {
      var k := FirstGlyph(t, p, q);
      WidthMonotone(t, k + 1, q);
    }
  }

  lemma {:induction false} FirstGlyph(t: Text, p: nat, q: nat) returns (k: nat)
    requires p < q <= |t| && t[q - 1].Glyph?
    ensures p <= k < q && t[k].Glyph? && OnlyCodes(t, p, k)
  {
    k := p;
    while !t[k].Glyph?
      invariant p <= k < q && forall i | p <= i < k :: !t[i].Glyph?
      decreases q - k
    {
      k := k + 1;
    }
  }

  /** The state of the scanning loops after `i` items: `p` is the end of the kept prefix, which is
      still growing while `keep`. */
  ghost predicate Scanned(t: Text, target: int, i: nat, p: nat, keep: bool) {
    && p <= i <= |t| && (p == 0 || (t[p - 1].Glyph? && Width(t[..p]) <= target))
    && (if keep then OnlyCodes(t, p, i) else IsFit(t, target, p))
  }

  lemma ScanCode(t: Text, target: int, i: nat, p: nat, keep: bool)
    requires Scanned(t, target, i, p, keep) && i < |t| && !t[i].Glyph?
    ensures Scanned(t, target, i + 1, p, keep)
  {
  }

  lemma ScanGlyph(t: Text, target: int, i: nat, p: nat, keep: bool)
    requires Scanned(t, target, i, p, keep) && i < |t| && t[i].Glyph?
    ensures keep && Width(t[..p]) + t[i].width <= target ==>
      Scanned(t, target, i + 1, i + 1, true) && Width(t[..i + 1]) == Width(t[..p]) + t[i].width
    ensures !(keep && Width(t[..p]) + t[i].width <= target) ==> Scanned(t, target, i + 1, p, false)
    ensures keep ==> Width(t[..i]) == Width(t[..p])
  {
    if keep {
      NoGlyphs(t, p, i);
      WidthNext(t, i);
      if Width(t[..p]) + t[i].width > target {
        forall k | p <= k < |t| && t[k].Glyph? && OnlyCodes(t, p, k)
          ensures Width(t[..k + 1]) > target
        {
          assert k == i;
        }
      }
    }
  }

  lemma ScanEnd(t: Text, target: int, i: nat, p: nat, keep: bool)
    requires Scanned(t, target, i, p, keep) && (i == |t| || !keep)
    ensures IsFit(t, target, p)
  {
  }

  /** `isPrintableAscii`: no escape sequence, no tab, every glyph one column. */
  predicate IsPrintableAscii(t: Text) {
    forall i | 0 <= i < |t| :: t[i].Glyph? && t[i].width == 1 && |t[i].ch| == 1 && ' ' <= t[i].ch[0] <= '~'
  }

  lemma {:induction false} AsciiWidth(t: Text)
    requires IsPrintableAscii(t)
    ensures Width(t) == |t|
  {
    if t != [] { AsciiWidth(t[1..]); }
  }

  lemma AsciiFit(t: Text, p: nat)
    requires IsPrintableAscii(t) && 0 < p < |t|
    ensures IsFit(t, p, p)
  {
    AsciiWidth(t[..p]);
    AsciiWidth(t[..p + 1]);
    forall k | p <= k < |t| && t[k].Glyph? && OnlyCodes(t, p, k) ensures k == p {
      assert t[p].Glyph?;
    }
  }

  lemma AsciiClip(t: Text, maxWidth: nat)
    requires IsPrintableAscii(t) && maxWidth > 0 && t != []
    ensures var p := if |t| <= maxWidth then |t| else maxWidth;
      IsFit(t, maxWidth, p) && Width(t[..p]) == p && (p == |t| ==> t[..p] == t)
  {
    var p := if |t| <= maxWidth then |t| else maxWidth;
    AsciiWidth(t[..p]);
    if p < |t| { AsciiFit(t, p); } else { assert t[p - 1].Glyph?; }
  }

  lemma Flush(t: Text, p: nat, i: nat)
    requires p <= i < |t|
    ensures t[..p] + t[p..i] + [t[i]] == t[..i + 1]
  {
    assert t[..p] + t[p..i] == t[..i];
  }

  lemma SliceNext(t: Text, p: nat, i: nat)
    requires p <= i < |t|
    ensures t[p..i] + [t[i]] == t[p..i + 1] && t[i + 1..i + 1] == []
  {
  }

  /** `truncateFragmentToWidth` */
  method TruncateFragment(t: Text, maxWidth: int) returns (text: Text, width: nat, ghost p: nat)
    ensures IsFit(t, maxWidth, p) || maxWidth <= 0
    ensures maxWidth <= 0 ==> p == 0
    ensures p <= |t| && text == t[..p] && width == Width(text)
  {
    if maxWidth <= 0 || t == [] {
      return [], 0, 0;
    }
    hide IsFit, Width, Scanned;
    if IsPrintableAscii(t) {
      text := if |t| <= maxWidth then t else t[..maxWidth];
      AsciiClip(t, maxWidth);
      return text, |text|, |text|;
    }
    text, width, p := [], 0, 0;
    var pending: Text := [];
    var i := 0;
    assert t[..0] == [];
    ScanStart(t, maxWidth);
    while i < |t|
      invariant 0 <= i <= |t| && p <= i && Scanned(t, maxWidth, i, p, true)
      invariant text == t[..p] && pending == t[p..i] && width == Width(t[..p])
    {
      SliceNext(t, p, i);
      if !t[i].Glyph? {
        ScanCode(t, maxWidth, i, p, true);
        pending := pending + [t[i]];
      } else {
        ScanGlyph(t, maxWidth, i, p, true);
        if width + t[i].width > maxWidth {
          ScanEnd(t, maxWidth, i + 1, p, false);
          return;
        }
        Flush(t, p, i);
        text := text + pending + [t[i]];
        pending := [];
        width := width + t[i].width;
        p := i + 1;
      }
      i := i + 1;
    }
    ScanEnd(t, maxWidth, i, p, true);
  }

  lemma ScanStart(t: Text, target: int)
    ensures Scanned(t, target, 0, 0, true) && Width([]) == 0
  {
  }

  // ---- The result ----

  const RESET := Sgr(["0"])

  /** `finalizeTruncatedResult` */
  function Finalize(prefix: Text, prefixWidth: int, ellipsis: Text, ellipsisWidth: int, maxWidth: int, pad: bool): Text {
    var result := if |ellipsis| > 0 then prefix + [RESET] + ellipsis + [RESET] else prefix + [RESET];
    if pad then result + Spaces(maxWidth - prefixWidth - ellipsisWidth) else result
  }

  /** What truncation promises, whichever path ran. `p` and `q` say how much of the text and of the
      ellipsis is kept. */
  ghost predicate Truncates(t: Text, maxWidth: int, ellipsis: Text, pad: bool, result: Text, p: nat, q: nat) {
    if maxWidth <= 0 then result == []
    else if Width(t) <= maxWidth then result == if pad then t + Spaces(maxWidth - Width(t)) else t
    else
      && p <= |t| && q <= |ellipsis|
      && (if Width(ellipsis) < maxWidth then q == |ellipsis| && IsFit(t, maxWidth - Width(ellipsis), p)
          else p == 0 && IsFit(ellipsis, maxWidth, q))
      && result == if Width(ellipsis) >= maxWidth && Width(ellipsis[..q]) == 0
                   then (if pad then Spaces(maxWidth) else [])
                   else Finalize(t[..p], Width(t[..p]), ellipsis[..q], Width(ellipsis[..q]), maxWidth, pad)
  }

  /** The general scanning path. */
  method Scan(t: Text, maxWidth: int, ellipsis: Text, pad: bool) returns (result: Text, ghost p: nat)
    requires Width(ellipsis) < maxWidth
    ensures Truncates(t, maxWidth, ellipsis, pad, result, p, |ellipsis|)
    ensures Width(result) <= maxWidth && (pad ==> Width(result) == maxWidth)
  {
    hide IsFit, Width, Scanned, Truncates;
    var target := maxWidth - Width(ellipsis);
    var kept: Text, pending: Text := [], [];
    var visibleSoFar, keptWidth, keep := 0, 0, true;
    var overflowed := false;
    p := 0;
    var i := 0;
    ScanStart(t, target);
    assert t[..0] == [];
    while i < |t|
      invariant 0 <= i <= |t| && Scanned(t, target, i, p, keep) && p <= i
      invariant kept == t[..p] && (keep ==> pending == t[p..i])
      invariant keptWidth == Width(t[..p]) && visibleSoFar == Width(t[..i]) <= maxWidth
    {
      WidthNext(t, i);
      SliceNext(t, p, i);
      if !t[i].Glyph? {
        ScanCode(t, target, i, p, keep);
        pending := pending + [t[i]];
      } else {
        ScanGlyph(t, target, i, p, keep);
        if keep && keptWidth + t[i].width <= target {
          Flush(t, p, i);
          kept := kept + pending + [t[i]];
          pending := [];
          keptWidth := keptWidth + t[i].width;
          p := i + 1;
        } else {
          keep := false;
          pending := [];
        }
        visibleSoFar := visibleSoFar + t[i].width;
        if visibleSoFar > maxWidth {
          overflowed := true;
          break;
        }
      }
      i := i + 1;
    }
    if overflowed {
      WidthMonotone(t, i + 1, |t|);
      ScanEnd(t, target, i + 1, p, keep);
      result := Finalize(kept, keptWidth, ellipsis, Width(ellipsis), maxWidth, pad);
    } else {
      assert t[..i] == t;
      result := if pad then t + Spaces(maxWidth - visibleSoFar) else t;
    }
    assert t[..|t|] == t && ellipsis[..|ellipsis|] == ellipsis;
    ScanDone(t, maxWidth, ellipsis, pad, result, p);
    TruncatedWidth(t, maxWidth, ellipsis, pad, result, p, |ellipsis|);
  }

  lemma ScanDone(t: Text, maxWidth: int, ellipsis: Text, pad: bool, result: Text, p: nat)
    requires Width(ellipsis) < maxWidth && p <= |t|
    requires Width(t) <= maxWidth ==> result == if pad then t + Spaces(maxWidth - Width(t)) else t
    requires Width(t) > maxWidth ==> IsFit(t, maxWidth - Width(ellipsis), p)
    requires Width(t) > maxWidth ==> result == Finalize(t[..p], Width(t[..p]), ellipsis, Width(ellipsis), maxWidth, pad)
    ensures Truncates(t, maxWidth, ellipsis, pad, result, p, |ellipsis|)
  {
    assert ellipsis[..|ellipsis|] == ellipsis;
  }

  /** `truncateToWidth` */
  method TruncateToWidth(t: Text, maxWidth: int, ellipsis: Text, pad: bool) returns (result: Text, ghost p: nat, ghost q: nat)
    ensures Truncates(t, maxWidth, ellipsis, pad, result, p, q)
    ensures Width(result) <= Max(0, maxWidth) && (pad ==> Width(result) == Max(0, maxWidth))
    ensures 0 < maxWidth && Width(t) <= maxWidth && !pad ==> result == t
  {
    hide IsFit, Width;
    p, q := 0, 0;
    var ellipsisWidth := Width(ellipsis);
    if maxWidth <= 0 {
      result := [];
    } else if t == [] {
      result := if pad then Spaces(maxWidth) else [];
      EmptyText(maxWidth, pad);
    } else if ellipsisWidth >= maxWidth {
      var textWidth := Width(t);
      if textWidth <= maxWidth {
        result := if pad then t + Spaces(maxWidth - textWidth) else t;
      } else {
        var clipped, width;
        clipped, width, q := TruncateFragment(ellipsis, maxWidth);
        if width == 0 {
          result := if pad then Spaces(maxWidth) else [];
        } else {
          result := Finalize([], 0, clipped, width, maxWidth, pad);
          assert t[..0] == [] && Width([]) == 0 by { ScanStart(t, 0); }
        }
      }
    } else if IsPrintableAscii(t) {
      AsciiWidth(t);
      if |t| <= maxWidth {
        result := if pad then t + Spaces(maxWidth - |t|) else t;
      } else {
        var targetWidth := maxWidth - ellipsisWidth;
        p, q := targetWidth, |ellipsis|;
        AsciiWidth(t[..p]);
        AsciiFit(t, p);
        assert ellipsis[..q] == ellipsis;
        result := Finalize(t[..targetWidth], targetWidth, ellipsis, ellipsisWidth, maxWidth, pad);
      }
    } else {
      result, p := Scan(t, maxWidth, ellipsis, pad);
      q := |ellipsis|;
    }
    TruncatedWidth(t, maxWidth, ellipsis, pad, result, p, q);
  }

  lemma EmptyText(maxWidth: int, pad: bool)
    ensures Width([]) == 0 && [] + Spaces(maxWidth) == Spaces(maxWidth)
  {
  }

  // ---- What truncation means ----

  /** The fast path for printable ASCII, the scanning path and the paths for a wide ellipsis agree:
      the promise determines the result. */
  lemma TruncationUnique(t: Text, maxWidth: int, ellipsis: Text, pad: bool, r: Text, p: nat, q: nat, r': Text, p': nat, q': nat)
    requires Truncates(t, maxWidth, ellipsis, pad, r, p, q) && Truncates(t, maxWidth, ellipsis, pad, r', p', q')
    ensures r == r'
  {
    if maxWidth > 0 && Width(t) > maxWidth {
      hide IsFit, Width;
      if Width(ellipsis) < maxWidth {
        var target := maxWidth - Width(ellipsis);
        if p <= p' { FitUnique(t, target, p, p'); } else { FitUnique(t, target, p', p); }
      } else {
        if q <= q' { FitUnique(ellipsis, maxWidth, q, q'); } else { FitUnique(ellipsis, maxWidth, q', q); }
      }
    }
  }

  lemma FinalizeWidth(a: Text, e: Text, maxWidth: int, pad: bool)
    requires Width(a) + Width(e) <= maxWidth
    ensures Width(Finalize(a, Width(a), e, Width(e), maxWidth, pad)) == if pad then maxWidth else Width(a) + Width(e)
  {
    Snoc(a, RESET, PLAIN);
    Concat(a + [RESET], e, PLAIN);
    Snoc(a + [RESET] + e, RESET, PLAIN);
    var body := if |e| > 0 then a + [RESET] + e + [RESET] else a + [RESET];
    var n := maxWidth - Width(a) - Width(e);
    assert Width(e) == 0 || |e| > 0;
    Concat(body, Spaces(n), PLAIN);
    SpacesWidth(n);
    hide Width;
  }

  /** Never wider than asked, and exactly as wide with padding. */
  lemma TruncatedWidth(t: Text, maxWidth: int, ellipsis: Text, pad: bool, result: Text, p: nat, q: nat)
    requires Truncates(t, maxWidth, ellipsis, pad, result, p, q)
    ensures Width(result) <= Max(0, maxWidth) && (pad ==> Width(result) == Max(0, maxWidth))
  {
    if maxWidth > 0 {
      SpacesWidth(maxWidth);
      if Width(t) <= maxWidth {
        Concat(t, Spaces(maxWidth - Width(t)), PLAIN);
        SpacesWidth(maxWidth - Width(t));
      } else {
        assert t[..0] == [] && ellipsis[..|ellipsis|] == ellipsis && ellipsis[..0] == [] && Width([]) == 0;
        FinalizeWidth(t[..p], ellipsis[..q], maxWidth, pad);
      }
    }
  }

  function Blanks(n: int, s: Style): seq<Cell> {
    seq(if n < 0 then 0 else n, _ => Cell(SPACE.ch, SPACE.width, s))
  }

  lemma {:induction false} SpacesCells(n: int, s: Style)
    ensures Cells(Spaces(n), s) == Blanks(n, s) && After(Spaces(n), s) == s
  {
    if n > 0 {
      assert Spaces(n)[0] == SPACE && Spaces(n)[1..] == Spaces(n - 1);
      SpacesCells(n - 1, s);
      assert Blanks(n, s) == [Cell(SPACE.ch, SPACE.width, s)] + Blanks(n - 1, s);
    }
  }

  lemma FinalizeCells(a: Text, e: Text, maxWidth: int, pad: bool, s: Style)
    ensures Cells(Finalize(a, Width(a), e, Width(e), maxWidth, pad), s)
      == Cells(a, s) + Cells(e, PLAIN) + Blanks(if pad then maxWidth - Width(a) - Width(e) else 0, PLAIN)
  {
    hide Width, Cells, After;
    Snoc(a, RESET, s);
    Concat(a + [RESET], e, s);
    Snoc(a + [RESET] + e, RESET, s);
    var body := if |e| > 0 then a + [RESET] + e + [RESET] else a + [RESET];
    var n := maxWidth - Width(a) - Width(e);
    Concat(body, Spaces(n), s);
    SpacesCells(n, PLAIN);
    assert Process(After(a, s), ["0"]) == PLAIN && Process(After(a + [RESET] + e, s), ["0"]) == PLAIN;
    if |e| == 0 {
      assert Cells(e, PLAIN) == [] by { assert e == []; EmptyCells(); }
    }
  }

  lemma EmptyCells()
    ensures Width([]) == 0 && forall s :: Cells([], s) == []
  {
  }

  /** What is seen of a text that does not fit: the glyphs that fit from its start in their own
      styles, then those of the ellipsis in its own, then blanks. A clipped ellipsis without any
      width is not shown. */
  lemma TruncatedCells(t: Text, maxWidth: int, ellipsis: Text, pad: bool, result: Text, p: nat, q: nat, s: Style)
    requires Truncates(t, maxWidth, ellipsis, pad, result, p, q)
    requires 0 < maxWidth < Width(t)
    ensures p <= |t| && q <= |ellipsis| && (Width(ellipsis) >= maxWidth ==> p == 0)
    ensures var bare := Width(ellipsis) >= maxWidth && Width(ellipsis[..q]) == 0;
      Cells(result, s) == Cells(t[..p], s) + (if bare then [] else Cells(ellipsis[..q], PLAIN))
        + Blanks(if pad then maxWidth - Width(t[..p]) - Width(ellipsis[..q]) else 0, if bare then s else PLAIN)
    ensures Cells(t, s) == Cells(t[..p], s) + Cells(t[p..], After(t[..p], s))
  {
    hide Width, Cells, After, IsFit;
    assert t == t[..p] + t[p..];
    Concat(t[..p], t[p..], s);
    if Width(ellipsis) >= maxWidth && Width(ellipsis[..q]) == 0 {
      assert t[..0] == [];
      EmptyCells();
      SpacesCells(maxWidth, s);
      if !pad { assert Blanks(0, s) == []; } else { assert [] + [] + Blanks(maxWidth, s) == Blanks(maxWidth, s); }
    } else {
      FinalizeCells(t[..p], ellipsis[..q], maxWidth, pad, s);
    }
  }
}
