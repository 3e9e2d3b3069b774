/**
 Columns of styled text: cutting a range of columns out of a line (`sliceWithWidth`).
 */
module Overlay {
  import opened Basics
  import opened Styled
  import opened Truncate

  // ---- Cutting out columns ----

  /** The escape sequences of a text. */
  function Codes(t: Text): Text {
    if t == [] then []
    else Codes(t[..|t| - 1]) + if t[|t| - 1].Glyph? then [] else [t[|t| - 1]]
  }

  lemma CodesSnoc(t: Text, item: Item)
    ensures Codes(t + [item]) == Codes(t) + if item.Glyph? then [] else [item]
  {
    assert (t + [item])[..|t|] == t;
  }

  lemma {:induction false} CodesSameStyle(t: Text, s: Style)
    ensures After(Codes(t), s) == After(t, s) && Cells(Codes(t), s) == [] && Width(Codes(t)) == 0
  {
    if t != [] {
      var init, last := t[..|t| - 1], t[|t| - 1];
      CodesSameStyle(init, s);
      assert t == init + [last];
      Snoc(init, last, s);
      if last.Glyph? { assert Codes(init) + [] == Codes(init); } else { Snoc(Codes(init), last, s); }
    }
  }

  /** The glyph `line[k]` starts in the columns from `start` to `end`, and ends in them if that is asked. */
  ghost predicate InRange(line: Text, start: nat, end: int, strict: bool, k: nat)
    requires k < |line|
  {
    start <= Width(line[..k]) < end && (strict ==> Width(line[..k + 1]) <= end)
  }

  /** All the glyphs of `line[j..e]` are. */
  ghost predicate AllInRange(line: Text, start: nat, end: int, strict: bool, j: nat, e: nat)
    requires j <= e <= |line|
  {
    forall k | j <= k < e && line[k].Glyph? :: InRange(line, start, end, strict, k)
  }

  /** None of the first `m` items is at column `start` yet. */
  ghost predicate StartsLater(line: Text, start: nat, m: nat)
    requires m <= |line|
  {
    forall k | 0 <= k < m :: Width(line[..k]) < start
  }

  /** Scanning ends with the line, at the end column, or at a glyph that would stick out. */
  ghost predicate Ends(line: Text, end: int, strict: bool, e: nat)
    requires e <= |line|
  {
    e == |line| || Width(line[..e]) >= end || (strict && line[e].Glyph? && Width(line[..e + 1]) > end)
  }

  function KeptText(line: Text, m: nat, j: nat, e: nat): Text
    requires m <= j <= e <= |line|
  {
    if j < e then line[m..j] + Codes(line[..m]) + line[j..e] else line[m..j]
  }

  lemma KeptNext(line: Text, m: nat, j: nat, i: nat)
    requires m <= j <= i < |line|
    ensures KeptText(line, m, j, i) + (if j < i then [] else Codes(line[..m])) + [line[i]] == KeptText(line, m, j, i + 1)
  {
    assert line[j..i + 1] == line[j..i] + [line[i]];
    if j < i {
      var head := line[m..j] + Codes(line[..m]);
      assert head + line[j..i] + [] + [line[i]] == head + line[j..i + 1];
    }
  }

  /** The kept glyphs are those of `line[j..e]`. The escape sequences before column `start`, which is
      reached at `m`, come out right before the first kept glyph: behind those of `line[m..j]`. */
  ghost predicate Slices(line: Text, start: nat, end: int, strict: bool, text: Text, m: nat, j: nat, e: nat) {
    && m <= j <= e <= |line|
    && StartsLater(line, start, m)
    && OnlyCodes(line, m, j)
    && (j < e ==> line[j].Glyph?)
    && AllInRange(line, start, end, strict, j, e)
    && Ends(line, end, strict, e)
    && text == KeptText(line, m, j, e)
  }

  /** The loop of `sliceWithWidth` after `i` items. */
  ghost predicate Slicing(line: Text, start: nat, end: int, strict: bool, i: nat,
                          text: Text, pending: Text, width: nat, m: nat, j: nat) {
    && m <= j <= i <= |line| && Width(line[..i]) < end
    && StartsLater(line, start, m)
    && (Width(line[..i]) < start ==> m == i)
    && OnlyCodes(line, m, j)
    && (j < i ==> line[j].Glyph?)
    && AllInRange(line, start, end, strict, j, i)
    && pending == (if j < i then [] else Codes(line[..m]))
    && width == Width(line[j..i])
    && text == KeptText(line, m, j, i)
  }

  lemma SliceEarlyCode(line: Text, start: nat, end: int, strict: bool, i: nat, text: Text, pending: Text, width: nat, m: nat, j: nat)
    requires Slicing(line, start, end, strict, i, text, pending, width, m, j) && i < |line| && !line[i].Glyph?
    requires Width(line[..i]) < start
    ensures Slicing(line, start, end, strict, i + 1, text, pending + [line[i]], width, i + 1, i + 1)
  {
    hide Width, Codes, InRange;
    WidthNext(line, i);
    assert line[..i + 1] == line[..i] + [line[i]];
    CodesSnoc(line[..i], line[i]);
    assert line[i + 1..i + 1] == line[j..i];
  }

  lemma SliceLeadingCode(line: Text, start: nat, end: int, strict: bool, i: nat, text: Text, pending: Text, width: nat, m: nat, j: nat)
    requires Slicing(line, start, end, strict, i, text, pending, width, m, j) && i < |line| && !line[i].Glyph?
    requires Width(line[..i]) >= start && j == i
    ensures Slicing(line, start, end, strict, i + 1, text + [line[i]], pending, width, m, i + 1)
  {
    hide Width, Codes, InRange;
    WidthNext(line, i);
    Extend(line, m, i);
    assert line[i + 1..i + 1] == line[i..i];
  }

  lemma SliceInnerCode(line: Text, start: nat, end: int, strict: bool, i: nat, text: Text, pending: Text, width: nat, m: nat, j: nat)
    requires Slicing(line, start, end, strict, i, text, pending, width, m, j) && i < |line| && !line[i].Glyph?
    requires Width(line[..i]) >= start && j < i
    ensures Slicing(line, start, end, strict, i + 1, text + [line[i]], pending, width, m, j)
  {
    hide Width, Codes, InRange, KeptText;
    WidthNext(line, i);
    Extend(line, j, i);
    KeptNext(line, m, j, i);
    assert text + [] == text;
  }

  lemma RangeGrows(line: Text, start: nat, end: int, strict: bool, j: nat, i: nat)
    requires j <= i < |line| && AllInRange(line, start, end, strict, j, i) && InRange(line, start, end, strict, i)
    ensures AllInRange(line, start, end, strict, j, i + 1) && Width(line[..i]) >= start
  {
  }

  /** A kept glyph that leaves columns to fill. */
  lemma SliceGlyph(line: Text, start: nat, end: int, strict: bool, i: nat, text: Text, pending: Text, width: nat, m: nat, j: nat)
    requires Slicing(line, start, end, strict, i, text, pending, width, m, j) && i < |line| && line[i].Glyph?
    requires InRange(line, start, end, strict, i) && Width(line[..i]) + line[i].width < end
    ensures Slicing(line, start, end, strict, i + 1, text + pending + [line[i]], [], width + line[i].width, m, j)
  {
    hide Width, Codes, InRange, KeptText, OnlyCodes, StartsLater, AllInRange;
    WidthNext(line, i);
    Extend(line, j, i);
    KeptNext(line, m, j, i);
    RangeGrows(line, start, end, strict, j, i);
  }

  /** A kept glyph that reaches the end column. */
  lemma SliceLastGlyph(line: Text, start: nat, end: int, strict: bool, i: nat, text: Text, pending: Text, width: nat, m: nat, j: nat)
    requires Slicing(line, start, end, strict, i, text, pending, width, m, j) && i < |line| && line[i].Glyph?
    requires InRange(line, start, end, strict, i) && Width(line[..i]) + line[i].width >= end
    ensures Slices(line, start, end, strict, text + pending + [line[i]], m, j, i + 1)
    ensures width + line[i].width == Width(line[j..i + 1])
  {
    hide Width, Codes, InRange, KeptText, OnlyCodes, StartsLater, AllInRange;
    WidthNext(line, i);
    Extend(line, j, i);
    KeptNext(line, m, j, i);
    RangeGrows(line, start, end, strict, j, i);
  }

  lemma Extend(line: Text, a: nat, i: nat)
    requires a <= i < |line|
    ensures line[a..i + 1] == line[a..i] + [line[i]]
    ensures Width(line[a..i + 1]) == Width(line[a..i]) + GlyphWidth(line[i])
  {
    Snoc(line[a..i], line[i], PLAIN);
  }

  lemma NothingKept(line: Text, i: nat)
    requires i <= |line|
    ensures line[i..i] == [] == KeptText(line, i, i, i) && Width(line[i..i]) == 0
  {
  }

  /** A glyph that starts too early is not kept. */
  lemma SliceEarlyGlyph(line: Text, start: nat, end: int, strict: bool, i: nat, text: Text, pending: Text, width: nat, m: nat, j: nat)
    requires Slicing(line, start, end, strict, i, text, pending, width, m, j) && i < |line| && line[i].Glyph?
    requires Width(line[..i]) < start && Width(line[..i]) + line[i].width < end
    ensures Slicing(line, start, end, strict, i + 1, text, pending, width, i + 1, i + 1)
  {
    hide Codes, InRange, KeptText, Width;
    WidthNext(line, i);
    assert line[..i + 1] == line[..i] + [line[i]];
    CodesSnoc(line[..i], line[i]);
    NothingKept(line, i);
    NothingKept(line, i + 1);
  }

  /** One that starts too early and reaches over all the columns ends the cut with nothing. */
  lemma SliceWholeGlyph(line: Text, start: nat, end: int, strict: bool, i: nat, text: Text, pending: Text, width: nat, m: nat, j: nat)
    requires Slicing(line, start, end, strict, i, text, pending, width, m, j) && i < |line| && line[i].Glyph?
    requires Width(line[..i]) < start && Width(line[..i]) + line[i].width >= end
    ensures Slices(line, start, end, strict, text, i + 1, i + 1, i + 1)
    ensures width == 0 == Width(line[i + 1..i + 1])
  {
    hide Codes, InRange, KeptText, Width;
    WidthNext(line, i);
    NothingKept(line, i);
    NothingKept(line, i + 1);
  }

  /** Nor is one that sticks out, and the cut ends before it. */
  lemma SliceWideGlyph(line: Text, start: nat, end: int, strict: bool, i: nat, text: Text, pending: Text, width: nat, m: nat, j: nat)
    requires Slicing(line, start, end, strict, i, text, pending, width, m, j) && i < |line| && line[i].Glyph?
    requires Width(line[..i]) >= start && !InRange(line, start, end, strict, i)
    ensures Width(line[..i]) + line[i].width >= end
    ensures Slices(line, start, end, strict, text, m, j, i) && width == Width(line[j..i])
  {
    hide Width, Codes, KeptText, AllInRange, OnlyCodes, StartsLater;
    WidthNext(line, i);
  }

  lemma SliceCode(line: Text, start: nat, end: int, strict: bool, i: nat, text: Text, pending: Text, width: nat, m: nat, j: nat)
    requires Slicing(line, start, end, strict, i, text, pending, width, m, j) && i < |line| && !line[i].Glyph?
    ensures Width(line[..i + 1]) == Width(line[..i])
    ensures j <= i && var early := Width(line[..i]) < start;
      Slicing(line, start, end, strict, i + 1, if early then text else text + [line[i]], if early then pending + [line[i]] else pending,
        width, if early then i + 1 else m, if j < i then j else i + 1)
  {
    WidthNext(line, i);
    if Width(line[..i]) < start {
      SliceEarlyCode(line, start, end, strict, i, text, pending, width, m, j);
    } else if j < i {
      SliceInnerCode(line, start, end, strict, i, text, pending, width, m, j);
    } else {
      SliceLeadingCode(line, start, end, strict, i, text, pending, width, m, j);
    }
  }

  lemma SliceKeptGlyph(line: Text, start: nat, end: int, strict: bool, i: nat, text: Text, pending: Text, width: nat, m: nat, j: nat)
    requires Slicing(line, start, end, strict, i, text, pending, width, m, j) && i < |line| && line[i].Glyph?
    requires InRange(line, start, end, strict, i)
    ensures var text' := text + pending + [line[i]];
      if Width(line[..i]) + line[i].width < end
      then Slicing(line, start, end, strict, i + 1, text', [], width + line[i].width, m, j)
      else Slices(line, start, end, strict, text', m, j, i + 1) && width + line[i].width == Width(line[j..i + 1])
  {
    hide Slices, Width;
    hide Slicing;
    if Width(line[..i]) + line[i].width < end {
      SliceGlyph(line, start, end, strict, i, text, pending, width, m, j);
    } else {
      SliceLastGlyph(line, start, end, strict, i, text, pending, width, m, j);
    }
  }

  lemma SliceLostGlyph(line: Text, start: nat, end: int, strict: bool, i: nat, text: Text, pending: Text, width: nat, m: nat, j: nat)
    requires Slicing(line, start, end, strict, i, text, pending, width, m, j) && i < |line| && line[i].Glyph?
    requires !InRange(line, start, end, strict, i)
    ensures Width(line[..i]) >= start ==> Width(line[..i]) + line[i].width >= end
    ensures var early := Width(line[..i]) < start;
      var m', j', e := if early then i + 1 else m, if early then i + 1 else j, if early then i + 1 else i;
      if Width(line[..i]) + line[i].width < end
      then Slicing(line, start, end, strict, i + 1, text, pending, width, m', j')
      else Slices(line, start, end, strict, text, m', j', e) && width == Width(line[j'..e])
  {
    hide Slices, Width;
    hide Slicing;
    if Width(line[..i]) < start && Width(line[..i]) + line[i].width < end {
      SliceEarlyGlyph(line, start, end, strict, i, text, pending, width, m, j);
    } else if Width(line[..i]) < start {
      SliceWholeGlyph(line, start, end, strict, i, text, pending, width, m, j);
    } else {
      SliceWideGlyph(line, start, end, strict, i, text, pending, width, m, j);
    }
  }

  lemma SliceEnd(line: Text, start: nat, end: int, strict: bool, text: Text, pending: Text, width: nat, m: nat, j: nat)
    requires Slicing(line, start, end, strict, |line|, text, pending, width, m, j)
    ensures Slices(line, start, end, strict, text, m, j, |line|) && width == Width(line[j..|line|])
  {
  }

  lemma SliceStart(line: Text, start: nat, end: int, strict: bool)
    requires 0 < end
    ensures Slicing(line, start, end, strict, 0, [], [], 0, 0, 0) && Width(line[..0]) == 0
  {
  }

  /** `sliceWithWidth` */
  method SliceWithWidth(line: Text, start: nat, length: int, strict: bool)
    returns (text: Text, width: nat, ghost m: nat, ghost j: nat, ghost e: nat)
    ensures length <= 0 ==> text == [] && width == 0
    ensures length > 0 ==> Slices(line, start, start + length, strict, text, m, j, e) && width == Width(line[j..e])
  {
    text, width, m, j, e := [], 0, 0, 0, 0;
    if length <= 0 { return; }
    hide *;
    var end := start + length;
    var currentCol, pending: Text := 0, [];
    SliceStart(line, start, end, strict);
    var i := 0;
    while i < |line|
      invariant 0 <= i <= |line| && currentCol == Width(line[..i]) < end
      invariant m <= j <= i && Slicing(line, start, end, strict, i, text, pending, width, m, j)
    {
      if !line[i].Glyph? {
        text, pending, m, j := TakeCode(line, start, end, strict, i, currentCol, text, pending, width, m, j);
      } else {
        text, pending, width, m, j, e := TakeGlyph(line, start, end, strict, i, currentCol, text, pending, width, m, j);
        currentCol := currentCol + line[i].width;
        if currentCol >= end { return; }
      }
      i := i + 1;
    }
    e := |line|;
    SliceEnd(line, start, end, strict, text, pending, width, m, j);
  }

  /** One escape sequence in the loop of `sliceWithWidth`. */
  method TakeCode(line: Text, start: nat, end: int, strict: bool, i: nat, currentCol: nat,
                  text0: Text, pending0: Text, width: nat, ghost m0: nat, ghost j0: nat)
    returns (text: Text, pending: Text, ghost m: nat, ghost j: nat)
    requires i < |line| && !line[i].Glyph? && currentCol == Width(line[..i]) < end
    requires Slicing(line, start, end, strict, i, text0, pending0, width, m0, j0) && m0 <= j0 <= i
    ensures Width(line[..i + 1]) == currentCol && m <= j <= i + 1
    ensures Slicing(line, start, end, strict, i + 1, text, pending, width, m, j)
  {
    hide *;
    SliceCode(line, start, end, strict, i, text0, pending0, width, m0, j0);
    text, pending, m, j := text0, pending0, if currentCol < start then i + 1 else m0, if j0 < i then j0 else i + 1;
    if start <= currentCol < end {
      text := text + [line[i]];
    } else if currentCol < start {
      pending := pending + [line[i]];
      j := i + 1;
    }
  }

  /** One glyph in the loop of `sliceWithWidth`. */
  method TakeGlyph(line: Text, start: nat, end: int, strict: bool, i: nat, currentCol: nat,
                   text0: Text, pending0: Text, width0: nat, ghost m0: nat, ghost j0: nat)
    returns (text: Text, pending: Text, width: nat, ghost m: nat, ghost j: nat, ghost e: nat)
    requires i < |line| && line[i].Glyph? && currentCol == Width(line[..i])
    requires Slicing(line, start, end, strict, i, text0, pending0, width0, m0, j0) && m0 <= j0 <= i
    ensures Width(line[..i + 1]) == currentCol + line[i].width && m <= j <= i + 1
    ensures currentCol + line[i].width < end ==> Slicing(line, start, end, strict, i + 1, text, pending, width, m, j)
    ensures currentCol + line[i].width >= end ==>
      Slices(line, start, end, strict, text, m, j, e) && j <= e <= |line| && width == Width(line[j..e])
  {
    hide *;
    text, pending, width, m, j, e := text0, pending0, width0, m0, j0, i + 1;
    var w := line[i].width;
    var inRange := start <= currentCol < end;
    var fits := !strict || currentCol + w <= end;
    RangeIs(line, start, end, strict, i);
    if inRange && fits {
      SliceKeptGlyph(line, start, end, strict, i, text, pending, width, m, j);
      text := text + pending + [line[i]];
      pending := [];
      width := width + w;
    } else {
      SliceLostGlyph(line, start, end, strict, i, text, pending, width, m, j);
      if currentCol < start {
        m, j := i + 1, i + 1;
      } else {
        e := i;
      }
    }
  }

  lemma RangeIs(line: Text, start: nat, end: int, strict: bool, i: nat)
    requires i < |line| && line[i].Glyph?
    ensures Width(line[..i + 1]) == Width(line[..i]) + line[i].width
    ensures InRange(line, start, end, strict, i) <==>
      start <= Width(line[..i]) < end && (!strict || Width(line[..i]) + line[i].width <= end)
  {
    WidthNext(line, i);
  }

  // ---- What a cut shows ----

  /** Splits a line in three: what is seen of each part depends on the style before it. */
  lemma CellsSplit(line: Text, j: nat, e: nat, s: Style)
    requires j <= e <= |line|
    ensures After(line[..e], s) == After(line[j..e], After(line[..j], s))
    ensures Cells(line, s) == Cells(line[..j], s) + Cells(line[j..e], After(line[..j], s)) + Cells(line[e..], After(line[..e], s))
    ensures Cells(line[..e], s) == Cells(line[..j], s) + Cells(line[j..e], After(line[..j], s))
    ensures Width(line[..e]) == Width(line[..j]) + Width(line[j..e])
    ensures Width(line) == Width(line[..e]) + Width(line[e..])
  {
    assert line[..e] == line[..j] + line[j..e] && line == line[..e] + line[e..];
    Concat(line[..j], line[j..e], s);
    Concat(line[..e], line[e..], s);
  }

  /** A cut shows the glyphs of its range, and shows them in the styles they have in the line exactly
      when the sequences before the start column and those between it and the first kept glyph may
      change places. */
  lemma SliceShows(line: Text, start: nat, end: int, strict: bool, text: Text, m: nat, j: nat, e: nat, s: Style)
    requires Slices(line, start, end, strict, text, m, j, e) && j < e
    ensures Cells(text, s) == Cells(line[j..e], After(line[..m], After(line[m..j], s)))
    ensures Cells(line, s) == Cells(line[..j], s) + Cells(line[j..e], After(line[..j], s)) + Cells(line[e..], After(line[..e], s))
    ensures Cells(text, s) == Cells(line[j..e], After(line[..j], s))
      <==> After(line[..m], After(line[m..j], s)) == After(line[m..j], After(line[..m], s))
  {
    var between := After(line[m..j], s);
    CellsSplit(line, j, e, s);
    CellsSplit(line, m, j, s);
    CodesSameStyle(line[..m], between);
    Concat(line[m..j], Codes(line[..m]), s);
    Concat(line[m..j] + Codes(line[..m]), line[j..e], s);
    OnlyCodesShowNothing(line[m..j], s);
    var kept := line[j..e];
    assert kept[0] == line[j];
    FirstCell(kept, After(line[..m], between));
    FirstCell(kept, After(line[..j], s));
    hide Cells, After, InRange, OnlyCodes, Codes, Width;
    assert Cells(line[m..j], s) == [] && Cells(Codes(line[..m]), between) == [];
  }

  lemma FirstCell(t: Text, s: Style)
    requires t != [] && t[0].Glyph?
    ensures Cells(t, s) != [] && Cells(t, s)[0].style == s
  {
  }

  lemma {:induction false} OnlyCodesShowNothing(t: Text, s: Style)
    requires OnlyCodes(t, 0, |t|)
    ensures Cells(t, s) == [] && Width(t) == 0
  {
    if t != [] {
      assert !t[0].Glyph? && OnlyCodes(t[1..], 0, |t| - 1);
      OnlyCodesShowNothing(t[1..], Advance(s, t[0]));
    }
  }

  /** From column 0 nothing can change places: the cut is a prefix of the line. */
  lemma SliceFromStart(line: Text, end: int, strict: bool, text: Text, m: nat, j: nat, e: nat)
    requires Slices(line, 0, end, strict, text, m, j, e)
    ensures text == line[..e]
  {
    assert m == 0;
    assert Codes(line[..0]) == [];
    assert line[..j] + [] + line[j..e] == line[..e];
  }

  /** A strict cut is never wider than asked. */
  lemma {:induction false} StrictSliceFits(line: Text, start: nat, end: int, text: Text, m: nat, j: nat, e: nat, x: nat)
    requires Slices(line, start, end, true, text, m, j, e) && j < x <= e
    ensures Width(line[..x]) <= end
  {
    WidthNext(line, x - 1);
    if x - 1 > j {
      StrictSliceFits(line, start, end, text, m, j, e, x - 1);
    }
    if line[x - 1].Glyph? { assert InRange(line, start, end, true, x - 1); }
  }

  lemma StrictSliceWidth(line: Text, start: nat, length: nat, text: Text, m: nat, j: nat, e: nat)
    requires length > 0 && Slices(line, start, start + length, true, text, m, j, e)
    ensures Width(text) == Width(line[j..e]) <= length
  {
    CodesSameStyle(line[..m], PLAIN);
    OnlyCodesShowNothing(line[m..j], PLAIN);
    Concat(line[m..j], Codes(line[..m]), PLAIN);
    Concat(line[m..j] + Codes(line[..m]), line[j..e], PLAIN);
    CellsSplit(line, j, e, PLAIN);
    if j < e {
      StrictSliceFits(line, start, start + length, text, m, j, e, e);
      assert InRange(line, start, start + length, true, j);
    }
  }

  lemma ColourShows(code: nat, s: Style)
    requires IsForeground(code)
    ensures Process(s, [Decimal(code)]) == s.(fg := Direct(code))
  {
    ReplayDirect(s, code, []);
    DecimalRoundTrip(code);
    ValueSnoc("", '0');
    assert "" + ['0'] == "0" && ParseInt("0") == 0;
    hide Decimal, ParseInt;
    assert [Decimal(code)] + [] == [Decimal(code)];
    assert Decimal(code) != "0";
  }

  /** One column cut out behind two colours: the glyph is green in the line and red in the cut. */
  lemma SliceSwapsStyles()
    ensures var red, green := Sgr([Decimal(31)]), Sgr([Decimal(32)]);
      var line, text := [red, Glyph("x", 1), green, Glyph("y", 1)], [green, red, Glyph("y", 1)];
      && Slices(line, 1, 2, true, text, 2, 3, 4)
      && Cells(line, PLAIN) == [Cell("x", 1, PLAIN.(fg := Direct(31))), Cell("y", 1, PLAIN.(fg := Direct(32)))]
      && Cells(text, PLAIN) == [Cell("y", 1, PLAIN.(fg := Direct(31)))]
  {
    hide Decimal, Process, Slices;
    var red, green, x, y := Sgr([Decimal(31)]), Sgr([Decimal(32)]), Glyph("x", 1), Glyph("y", 1);
    ColourShows(31, PLAIN);
    ColourShows(32, PLAIN.(fg := Direct(31)));
    ColourShows(32, PLAIN);
    ColourShows(31, PLAIN.(fg := Direct(32)));
    CutBetween(red, green, x, y);
    var r, g := PLAIN.(fg := Direct(31)), PLAIN.(fg := Direct(32));
    assert [red, x, green, y][1..] == [x, green, y] && [x, green, y][1..] == [green, y] && [green, y][1..] == [y];
    assert [green, red, y][1..] == [red, y] && [red, y][1..] == [y] && [y][1..] == [];
    OneCell(y, g);
    OneCell(y, r);
    assert Cells([green, y], r) == Cells([y], g);
    assert Cells([x, green, y], r) == [Cell("x", 1, r), Cell("y", 1, g)];
    assert Cells([red, y], g) == Cells([y], r);
  }

  lemma OneCell(glyph: Item, s: Style)
    requires glyph.Glyph?
    ensures Cells([glyph], s) == [Cell(glyph.ch, glyph.width, s)]
  {
    Snoc([], glyph, s);
    assert [] + [glyph] == [glyph] && [] + [Cell(glyph.ch, glyph.width, s)] == [Cell(glyph.ch, glyph.width, s)];
  }

  lemma CutBetween(a: Item, b: Item, x: Item, y: Item)
    requires a.Sgr? && b.Sgr? && x.Glyph? && y.Glyph? && x.width == y.width == 1
    ensures Slices([a, x, b, y], 1, 2, true, [b, a, y], 2, 3, 4)
  {
    var line := [a, x, b, y];
    assert line[..0] == [];
    WidthNext(line, 0);
    WidthNext(line, 1);
    WidthNext(line, 2);
    WidthNext(line, 3);
    CodesSnoc([], a);
    CodesSnoc([a], x);
    assert [] + [a] == [a] && line[..2] == [a] + [x] && Codes([]) == [];
    assert line[2..3] == [b] && line[3..4] == [y];
    hide Width, Codes;
  }
}
