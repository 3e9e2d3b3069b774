/**
 Word wrapping of styled text (`wrapTextWithAnsi` and its helpers). The output lines are
 read each from a plain style, as the terminal reads them. Wrapping may only drop blanks:
 every other glyph comes out once, in order, in the style it had in the input.
 */
module Wrap {
  import opened Basics
  import opened Styled

  // ---- What wrapping may change ----

  predicate IsBlank(c: Cell) {
    (c.ch == SPACE.ch && c.width == SPACE.width) || (c.ch == NEWLINE.ch && c.width == NEWLINE.width)
  }

  /** `kept` is `all` without some of its blanks. */
  ghost predicate Thin(kept: seq<Cell>, all: seq<Cell>)
    decreases |all|
  {
    if all == [] then kept == []
    else
      || (kept != [] && kept[0] == all[0] && Thin(kept[1..], all[1..]))
      || (IsBlank(all[0]) && Thin(kept, all[1..]))
  }

  lemma {:induction false} ThinRefl(a: seq<Cell>)
    ensures Thin(a, a)
  {
    if a != [] { ThinRefl(a[1..]); }
  }

  lemma {:induction false} ThinConcat(a: seq<Cell>, b: seq<Cell>, c: seq<Cell>, d: seq<Cell>)
    requires Thin(a, b) && Thin(c, d)
    ensures Thin(a + c, b + d)
    decreases |b|
  {
    if b == [] {
      assert a + c == c && b + d == d;
    } else {
      assert (b + d)[1..] == b[1..] + d;
      if a != [] && a[0] == b[0] && Thin(a[1..], b[1..]) {
        assert (a + c)[1..] == a[1..] + c;
        ThinConcat(a[1..], b[1..], c, d);
      } else {
        ThinConcat(a, b[1..], c, d);
      }
    }
  }

  /** The glyphs other than blanks. */
  function Solid(cells: seq<Cell>): seq<Cell> {
    if cells == [] then []
    else (if IsBlank(cells[0]) then [] else [cells[0]]) + Solid(cells[1..])
  }

  lemma {:induction false} ThinKeepsSolid(kept: seq<Cell>, all: seq<Cell>)
    requires Thin(kept, all)
    ensures Solid(kept) == Solid(all)
    decreases |all|
  {
    if all != [] {
      if kept != [] && kept[0] == all[0] && Thin(kept[1..], all[1..]) {
        ThinKeepsSolid(kept[1..], all[1..]);
      } else {
        ThinKeepsSolid(kept, all[1..]);
      }
    }
  }

  lemma {:induction false} ThinKeepsCell(kept: seq<Cell>, all: seq<Cell>, c: Cell)
    requires Thin(kept, all) && c in all && !IsBlank(c)
    ensures c in kept
    decreases |all|
  {
    if kept != [] && kept[0] == all[0] && Thin(kept[1..], all[1..]) {
      if c != all[0] { ThinKeepsCell(kept[1..], all[1..], c); }
    } else {
      ThinKeepsCell(kept, all[1..], c);
    }
  }

  // ---- Lines ----

  /** The meaning of a list of lines: each line is read from the plain style. */
  function AllCells(lines: seq<Text>): seq<Cell> {
    if lines == [] then [] else AllCells(lines[..|lines| - 1]) + Cells(lines[|lines| - 1], PLAIN)
  }

  lemma AllCellsSnoc(lines: seq<Text>, line: Text)
    ensures AllCells(lines + [line]) == AllCells(lines) + Cells(line, PLAIN)
  {
    assert (lines + [line])[..|lines|] == lines;
  }

  lemma AllCellsSingle(line: Text)
    ensures AllCells([line]) == Cells(line, PLAIN)
  {
    AllCellsSnoc([], line);
    assert [] + [line] == [line] && [] + Cells(line, PLAIN) == Cells(line, PLAIN);
  }

  lemma {:induction false} AllCellsConcat(a: seq<Text>, b: seq<Text>)
    ensures AllCells(a + b) == AllCells(a) + AllCells(b)
  {
    if b == [] {
      assert a + b == a;
    } else {
      var init, last := b[..|b| - 1], b[|b| - 1];
      assert a + b == (a + init) + [last];
      AllCellsSnoc(a + init, last);
      AllCellsConcat(a, init);
    }
  }

  /** `trimEnd`, which an escape sequence at the end stops. */
  function TrimEnd(t: Text): Text {
    if t != [] && t[|t| - 1] == SPACE then TrimEnd(t[..|t| - 1]) else t
  }

  lemma {:induction false} TrimEndFacts(t: Text, s: Style)
    ensures After(TrimEnd(t), s) == After(t, s)
    ensures Width(TrimEnd(t)) <= Width(t)
    ensures IsWhitespace(t) ==> TrimEnd(t) == []
  {
    if t != [] && t[|t| - 1] == SPACE {
      var init := t[..|t| - 1];
      assert t == init + [SPACE];
      TrimEndFacts(init, s);
      Snoc(init, SPACE, s);
    }
  }

  function TrimAll(lines: seq<Text>): (r: seq<Text>)
    ensures |r| == |lines|
  {
    if lines == [] then [] else TrimAll(lines[..|lines| - 1]) + [TrimEnd(lines[|lines| - 1])]
  }

  predicate Trimmed(t: Text) { t != [] ==> t[|t| - 1] != SPACE }

  lemma {:induction false} TrimEndTrims(t: Text)
    ensures Trimmed(TrimEnd(t)) && TrimEnd(t) <= t && IsWhitespace(t[|TrimEnd(t)|..])
  {
    if t != [] && t[|t| - 1] == SPACE {
      var init := t[..|t| - 1];
      TrimEndTrims(init);
      assert t[|TrimEnd(init)|..] == init[|TrimEnd(init)|..] + [SPACE];
    }
  }

  lemma TrimAllTrims(lines: seq<Text>)
    ensures forall i | 0 <= i < |lines| :: Trimmed(TrimAll(lines)[i])
  {
    hide Trimmed, TrimAll, TrimEnd;
    TrimAllAt(lines);
    forall i | 0 <= i < |lines| ensures Trimmed(TrimAll(lines)[i]) { TrimEndTrims(lines[i]); }
  }

  lemma {:induction false} TrimAllAt(lines: seq<Text>)
    ensures forall i | 0 <= i < |lines| :: TrimAll(lines)[i] == TrimEnd(lines[i])
  {
    if lines != [] { TrimAllAt(lines[..|lines| - 1]); }
  }

  ghost predicate AllBlank(cells: seq<Cell>) { forall i | 0 <= i < |cells| :: IsBlank(cells[i]) }

  /** The cells of a line come first, and only blanks after them. */
  ghost predicate Begins(line: Text, cells: seq<Cell>) {
    Cells(line, PLAIN) <= cells && AllBlank(cells[|Cells(line, PLAIN)|..])
  }

  /** The lines are cut out of `all` one after the other, and only blanks are lost, behind each line. */
  ghost predicate Cut(lines: seq<Text>, all: seq<Cell>)
    decreases |lines|
  {
    if lines == [] then all == []
    else exists n | 0 <= n <= |all| :: Cut(lines[..|lines| - 1], all[..n]) && Begins(lines[|lines| - 1], all[n..])
  }

  lemma CutLine(lines: seq<Text>, line: Text, all: seq<Cell>, rest: seq<Cell>)
    requires Cut(lines, all) && Begins(line, rest)
    ensures Cut(lines + [line], all + rest)
  {
    hide Begins;
    assert (lines + [line])[..|lines|] == lines;
    assert (all + rest)[..|all|] == all && (all + rest)[|all|..] == rest;
  }

  lemma CutBlanks(lines: seq<Text>, all: seq<Cell>, blanks: seq<Cell>)
    requires Cut(lines, all) && lines != [] && AllBlank(blanks)
    ensures Cut(lines, all + blanks)
  {
    hide Cut, Begins;
    var init, last := lines[..|lines| - 1], lines[|lines| - 1];
    assert lines == init + [last];
    var n := CutWitness(lines, all);
    BeginsBlanks(last, all[n..], blanks);
    CutLine(init, last, all[..n], all[n..] + blanks);
    Assoc(all[..n], all[n..], blanks);
  }

  lemma BeginsBlanks(line: Text, cells: seq<Cell>, blanks: seq<Cell>)
    requires Begins(line, cells) && AllBlank(blanks)
    ensures Begins(line, cells + blanks)
  {
    var n := |Cells(line, PLAIN)|;
    assert (cells + blanks)[n..] == cells[n..] + blanks;
  }

  /** Where the last line begins. */
  lemma CutWitness(lines: seq<Text>, all: seq<Cell>) returns (n: nat)
    requires Cut(lines, all) && lines != []
    ensures n <= |all| && Cut(lines[..|lines| - 1], all[..n]) && Begins(lines[|lines| - 1], all[n..])
    ensures all == all[..n] + all[n..]
  {
    hide Begins;
    n :| 0 <= n <= |all| && Cut(lines[..|lines| - 1], all[..n]) && Begins(lines[|lines| - 1], all[n..]);
    hide Cut;
    assert all == all[..n] + all[n..];
  }

  lemma CutNone(all: seq<Cell>)
    ensures Cut([], all) <==> all == []
  {
  }

  lemma {:induction false} CutConcat(a: seq<Text>, x: seq<Cell>, b: seq<Text>, y: seq<Cell>)
    requires Cut(a, x) && Cut(b, y)
    ensures Cut(a + b, x + y)
    decreases |b|
  {
    hide Cut, Begins, AllBlank;
    if b == [] {
      CutNone(y);
      assert a + b == a && x + y == x;
    } else {
      var init, last := b[..|b| - 1], b[|b| - 1];
      assert b == init + [last];
      var n := CutWitness(b, y);
      CutConcat(a, x, init, y[..n]);
      CutLine(a + init, last, x + y[..n], y[n..]);
      Assoc(a, init, [last]);
      Assoc(x, y[..n], y[n..]);
    }
  }

  lemma {:induction false} CutAll(lines: seq<Text>)
    ensures Cut(lines, AllCells(lines))
  {
    if lines != [] {
      var init, last := lines[..|lines| - 1], lines[|lines| - 1];
      CutAll(init);
      CutLine(init, last, AllCells(init), Cells(last, PLAIN));
      assert init + [last] == lines;
    }
  }

  lemma {:induction false} TrimEndBlanks(t: Text, s: Style)
    ensures var kept := Cells(TrimEnd(t), s);
      kept <= Cells(t, s) && AllBlank(Cells(t, s)[|kept|..])
  {
    if t != [] && t[|t| - 1] == SPACE {
      var init := t[..|t| - 1];
      TrimEndBlanks(init, s);
      assert t == init + [SPACE];
      Snoc(init, SPACE, s);
    }
  }

  lemma TrimBegins(line: Text, cells: seq<Cell>)
    requires Begins(line, cells)
    ensures Begins(TrimEnd(line), cells)
  {
    TrimEndBlanks(line, PLAIN);
    var all, kept := Cells(line, PLAIN), Cells(TrimEnd(line), PLAIN);
    assert cells == all + cells[|all|..];
    assert cells[|kept|..] == all[|kept|..] + cells[|all|..];
  }

  lemma {:induction false} BlankThins(cells: seq<Cell>)
    requires AllBlank(cells)
    ensures Thin([], cells)
  {
    if cells != [] { BlankThins(cells[1..]); }
  }

  /** So in particular the lines are the text without some blanks. */
  lemma {:induction false} CutThins(lines: seq<Text>, all: seq<Cell>)
    requires Cut(lines, all)
    ensures Thin(AllCells(lines), all)
  {
    hide Cut, Begins, Thin, AllBlank;
    if lines == [] {
      CutNone(all);
      assert Thin([], []) by { ThinRefl([]); }
    } else {
      var init, last := lines[..|lines| - 1], lines[|lines| - 1];
      var n := CutWitness(lines, all);
      CutThins(init, all[..n]);
      BeginsThins(last, all[n..]);
      ThinConcat(AllCells(init), all[..n], Cells(last, PLAIN), all[n..]);
    }
  }

  lemma BeginsThins(line: Text, cells: seq<Cell>)
    requires Begins(line, cells)
    ensures Thin(Cells(line, PLAIN), cells)
  {
    hide Thin, Cells, AllBlank;
    var c := Cells(line, PLAIN);
    var blanks := cells[|c|..];
    assert cells == c + blanks;
    BlankThins(blanks);
    ThinRefl(c);
    ThinConcat(c, c, [], blanks);
    assert c + [] == c;
  }

  lemma LineBegins(line: Text, ended: Text)
    requires Cells(ended, PLAIN) == Cells(line, PLAIN) || Cells(ended, PLAIN) == Cells(TrimEnd(line), PLAIN)
    ensures Begins(ended, Cells(line, PLAIN))
  {
    hide Cells;
    assert Begins(line, Cells(line, PLAIN));
    TrimBegins(line, Cells(line, PLAIN));
  }

  /** A line end reset is invisible. */
  lemma LineEndResetInvisible(t: Text, s: Style, style: Style)
    ensures Cells(t + LineEndReset(style), s) == Cells(t, s)
    ensures Width(t + LineEndReset(style)) == Width(t)
  {
    Concat(t, LineEndReset(style), s);
    if UNDERLINE in style.attributes {
      assert LineEndReset(style)[1..] == [];
    }
  }

  /** It switches the underline off, and nothing else, where one is on. */
  lemma LineEndResetStyle(s: Style)
    ensures After(LineEndReset(s), s) == NotUnderlined(s)
    ensures LineEndReset(s) == [] <==> UNDERLINE !in s.attributes
  {
    if UNDERLINE in s.attributes {
      UnderlineOff(s);
      assert LineEndReset(s)[1..] == [];
    }
  }

  lemma UnderlineOff(s: Style)
    ensures Advance(s, Sgr(["24"])) == NotUnderlined(s)
  {
    hide ApplyParams, ParseInt;
    TwentyFour();
    NextParam(s, ["24"], 0);
    NoParams(NotUnderlined(s));
    assert ["24"][0..] == ["24"] && ["24"][1..] == [];
  }

  lemma TwentyFour()
    ensures ParseInt("24") == 24
  {
    ValueSnoc("", '2');
    ValueSnoc("2", '4');
    assert "" + ['2'] == "2" && "2" + ['4'] == "24";
  }

  lemma LineEndsAs(line: Text, ended: Text, style: Style)
    requires After(line, PLAIN) == style
    requires ended == TrimEnd(line) + LineEndReset(style) || ended == line + LineEndReset(style)
    ensures After(ended, PLAIN) == NotUnderlined(style)
  {
    hide After, LineEndReset, TrimEnd;
    TrimEndFacts(line, PLAIN);
    LineEndResetStyle(style);
    Concat(line, LineEndReset(style), PLAIN);
    Concat(TrimEnd(line), LineEndReset(style), PLAIN);
  }

  // ---- Tokens ----

  /** `token.trim() === ""`: an escape sequence in the token makes it false. */
  predicate IsWhitespace(t: Text) {
    forall i | 0 <= i < |t| :: t[i] == SPACE
  }

  ghost predicate HasGlyph(t: Text) {
    exists i | 0 <= i < |t| :: t[i].Glyph?
  }

  ghost predicate IsToken(t: Text, blank: bool) {
    && HasGlyph(t)
    && forall i | 0 <= i < |t| && t[i].Glyph? :: (t[i] == SPACE) == blank
  }

  /** Blank tokens and word tokens alternate. */
  ghost predicate Alternate(tokens: seq<Text>) {
    && (forall i | 0 <= i < |tokens| :: IsToken(tokens[i], true) || IsToken(tokens[i], false))
    && (forall i | 0 < i < |tokens| :: IsToken(tokens[i], true) != IsToken(tokens[i - 1], true))
  }

  function Flatten(tokens: seq<Text>): Text {
    if tokens == [] then [] else Flatten(tokens[..|tokens| - 1]) + tokens[|tokens| - 1]
  }

  lemma FlattenSnoc(tokens: seq<Text>, token: Text)
    ensures Flatten(tokens + [token]) == Flatten(tokens) + token
  {
    assert (tokens + [token])[..|tokens|] == tokens;
  }

  lemma TokenGrows(token: Text, codes: Text, glyph: Item, blank: bool)
    requires token == [] || IsToken(token, blank)
    requires !HasGlyph(codes) && glyph.Glyph? && (glyph == SPACE) == blank
    ensures IsToken(token + codes + [glyph], blank)
  {
    assert (token + codes + [glyph])[|token + codes|] == glyph;
  }

  lemma TokenTakesCodes(token: Text, codes: Text, blank: bool)
    requires IsToken(token, blank) && !HasGlyph(codes)
    ensures IsToken(token + codes, blank)
  {
    var g :| 0 <= g < |token| && token[g].Glyph?;
    assert (token + codes)[g] == token[g];
  }

  lemma AlternateSnoc(tokens: seq<Text>, token: Text, blank: bool)
    requires Alternate(tokens) && IsToken(token, blank)
    requires tokens != [] ==> IsToken(tokens[|tokens| - 1], !blank)
    ensures Alternate(tokens + [token])
  {
    var all := tokens + [token];
    TokenKindUnique(token);
    if tokens != [] { TokenKindUnique(tokens[|tokens| - 1]); }
    forall i | 0 < i < |all| ensures IsToken(all[i], true) != IsToken(all[i - 1], true) {
      if i < |tokens| { assert all[i] == tokens[i] && all[i - 1] == tokens[i - 1]; }
    }
  }

  lemma TokenKindUnique(token: Text)
    requires HasGlyph(token)
    ensures !(IsToken(token, true) && IsToken(token, false))
  {
    var g :| 0 <= g < |token| && token[g].Glyph?;
  }

  lemma HasGlyphSnoc(t: Text, item: Item)
    ensures HasGlyph(t + [item]) == (HasGlyph(t) || item.Glyph?)
  {
    if HasGlyph(t) {
      var g :| 0 <= g < |t| && t[g].Glyph?;
      assert (t + [item])[g] == t[g];
    }
    if item.Glyph? { assert (t + [item])[|t|] == item; }
  }

  /** The state of the splitting loop after reading `read`. */
  ghost predicate Splitting(read: Text, tokens: seq<Text>, current: Text, codes: Text, blank: bool) {
    && read == Flatten(tokens) + current + codes
    && !HasGlyph(codes)
    && Alternate(tokens)
    && (current == [] ==> tokens == [] && !HasGlyph(read))
    && (current != [] ==> IsToken(current, blank))
    && (current != [] && tokens != [] ==> IsToken(tokens[|tokens| - 1], !blank))
  }

  lemma SplitCode(read: Text, tokens: seq<Text>, current: Text, codes: Text, blank: bool, code: Item)
    requires Splitting(read, tokens, current, codes, blank) && !code.Glyph?
    ensures Splitting(read + [code], tokens, current, codes + [code], blank)
  {
    HasGlyphSnoc(read, code);
    HasGlyphSnoc(codes, code);
  }

  lemma SplitGlyph(read: Text, tokens: seq<Text>, current: Text, codes: Text, blank: bool, glyph: Item)
    requires Splitting(read, tokens, current, codes, blank) && glyph.Glyph?
    ensures var now := glyph == SPACE;
      if now != blank && current != []
      then Splitting(read + [glyph], tokens + [current], codes + [glyph], [], now)
      else Splitting(read + [glyph], tokens, current + codes + [glyph], [], now)
  {
    hide IsToken, Alternate, HasGlyph;
    var now := glyph == SPACE;
    HasGlyphEmpty();
    if now != blank && current != [] {
      FlattenSnoc(tokens, current);
      AlternateSnoc(tokens, current, blank);
      TokenGrows([], codes, glyph, now);
      assert [] + codes + [glyph] == codes + [glyph];
    } else {
      TokenGrows(current, codes, glyph, now);
      assert Flatten(tokens) + current + codes + [glyph] == Flatten(tokens) + (current + codes + [glyph]);
    }
  }

  lemma SplitStart(text: Text)
    ensures Splitting(text[..0], [], [], [], false)
  {
  }

  lemma SplitEnd(text: Text, tokens: seq<Text>, current: Text, codes: Text, blank: bool)
    requires Splitting(text, tokens, current, codes, blank)
    ensures current + [] == current
    ensures current + codes == [] ==> Flatten(tokens) == text && !HasGlyph(text)
    ensures Flatten(tokens + [current + codes]) == text
    ensures HasGlyph(text) ==> Alternate(tokens + [current + codes])
  {
    FlattenSnoc(tokens, current + codes);
    assert Flatten(tokens) + current + codes == Flatten(tokens) + (current + codes);
    if current != [] {
      TokenTakesCodes(current, codes, blank);
      AlternateSnoc(tokens, current + codes, blank);
    }
  }

  lemma HasGlyphEmpty()
    ensures !HasGlyph([])
  {
  }

  /** `splitIntoTokensWithAnsi` */
  method SplitIntoTokens(text: Text) returns (tokens: seq<Text>)
    ensures Flatten(tokens) == text
    ensures HasGlyph(text) ==> Alternate(tokens)
  {
    hide *;
    tokens := [];
    var current: Text, pendingAnsi: Text := [], [];
    var inWhitespace := false;
    var i := 0;
    SplitStart(text);
    while i < |text|
      invariant 0 <= i <= |text|
      invariant Splitting(text[..i], tokens, current, pendingAnsi, inWhitespace)
    {
      assert text[..i + 1] == text[..i] + [text[i]];
      if !text[i].Glyph? {
        SplitCode(text[..i], tokens, current, pendingAnsi, inWhitespace, text[i]);
        pendingAnsi := pendingAnsi + [text[i]];
        i := i + 1;
        continue;
      }
      SplitGlyph(text[..i], tokens, current, pendingAnsi, inWhitespace, text[i]);
      var charIsSpace := text[i] == SPACE;
      if charIsSpace != inWhitespace && current != [] {
        tokens := tokens + [current];
        current := [];
      }
      assert pendingAnsi == [] ==> current + pendingAnsi == current;
      assert current == [] ==> current + pendingAnsi == pendingAnsi;
      if pendingAnsi != [] {
        current := current + pendingAnsi;
        pendingAnsi := [];
      }
      inWhitespace := charIsSpace;
      current := current + [text[i]];
      i := i + 1;
    }
    assert text[..i] == text;
    SplitEnd(text, tokens, current, pendingAnsi, inWhitespace);
    if pendingAnsi != [] {
      current := current + pendingAnsi;
    }
    if current != [] {
      tokens := tokens + [current];
    }
  }

  // ---- Widths ----

  predicate PositiveWidths(t: Text) {
    forall i | 0 <= i < |t| && t[i].Glyph? && t[i] != NEWLINE :: t[i].width >= 1
  }

  predicate WordsFit(t: Text, width: nat) {
    forall i | 0 <= i < |t| && t[i].Glyph? && t[i] != NEWLINE && t[i] != SPACE :: t[i].width <= width
  }

  lemma {:induction false} GlyphCell(t: Text, s: Style, i: nat)
    requires i < |t| && t[i].Glyph?
    ensures exists style :: Cell(t[i].ch, t[i].width, style) in Cells(t, s)
    ensures t[i].width <= Width(t)
  {
    if i > 0 {
      GlyphCell(t[1..], Advance(s, t[0]), i - 1);
      var style :| Cell(t[i].ch, t[i].width, style) in Cells(t[1..], Advance(s, t[0]));
    } else {
      assert Cells(t, s)[0] == Cell(t[0].ch, t[0].width, s);
    }
  }

  lemma {:induction false} CellFits(t: Text, s: Style, c: Cell)
    requires c in Cells(t, s)
    ensures c.width <= Width(t)
  {
    if !(t[0].Glyph? && c == Cell(t[0].ch, t[0].width, s)) {
      CellFits(t[1..], Advance(s, t[0]), c);
    }
  }

  lemma {:induction false} CellInSomeLine(lines: seq<Text>, c: Cell)
    requires c in AllCells(lines)
    ensures exists k | 0 <= k < |lines| :: c in Cells(lines[k], PLAIN)
  {
    var init, last := lines[..|lines| - 1], lines[|lines| - 1];
    if c !in Cells(last, PLAIN) {
      CellInSomeLine(init, c);
      var k :| 0 <= k < |init| && c in Cells(init[k], PLAIN);
      assert lines[k] == init[k];
    }
  }

  /** No layout can keep a glyph that is wider than the line. */
  lemma TooWideGlyph(text: Text, lines: seq<Text>, width: nat, i: nat)
    requires Thin(AllCells(lines), Cells(text, PLAIN))
    requires i < |text| && text[i].Glyph? && text[i] != SPACE && text[i] != NEWLINE && text[i].width > width
    ensures exists k | 0 <= k < |lines| :: Width(lines[k]) > width
  {
    GlyphCell(text, PLAIN, i);
    var style :| Cell(text[i].ch, text[i].width, style) in Cells(text, PLAIN);
    var c := Cell(text[i].ch, text[i].width, style);
    ThinKeepsCell(AllCells(lines), Cells(text, PLAIN), c);
    CellInSomeLine(lines, c);
    var k :| 0 <= k < |lines| && c in Cells(lines[k], PLAIN);
    CellFits(lines[k], PLAIN, c);
  }

  // ---- Where lines are broken ----

  function CellsWidth(cells: seq<Cell>): nat {
    if cells == [] then 0 else cells[0].width + CellsWidth(cells[1..])
  }

  lemma {:induction false} CellsWidthConcat(a: seq<Cell>, b: seq<Cell>)
    ensures CellsWidth(a + b) == CellsWidth(a) + CellsWidth(b)
  {
    if a == [] {
      assert a + b == b;
    } else {
      assert (a + b)[1..] == a[1..] + b;
      CellsWidthConcat(a[1..], b);
    }
  }

  lemma {:induction false} WidthOfCells(t: Text, s: Style)
    ensures CellsWidth(Cells(t, s)) == Width(t)
  {
    if t != [] {
      WidthOfCells(t[1..], Advance(s, t[0]));
      if t[0].Glyph? { assert Cells(t, s)[1..] == Cells(t[1..], s); }
    }
  }

  predicate IsSpace(c: Cell) { c.ch == SPACE.ch && c.width == SPACE.width }

  /** Where the spaces, or the other glyphs, around `p` end. */
  function RunEnd(all: seq<Cell>, p: nat): (r: nat)
    requires p <= |all|
    ensures p <= r <= |all|
    decreases |all| - p
  {
    if p + 1 < |all| && IsSpace(all[p]) == IsSpace(all[p + 1]) then RunEnd(all, p + 1) else Min(p + 1, |all|)
  }

  /** Where they begin. */
  function RunStart(all: seq<Cell>, p: nat): (r: nat)
    ensures r <= p
  {
    if 0 < p < |all| && IsSpace(all[p - 1]) == IsSpace(all[p]) then RunStart(all, p - 1) else p
  }

  /** A break at `p`, behind a line that began at `q`, is necessary: the word that follows does not fit
      any more, or the spaces did not; and only a word that is too wide for a line is broken inside. */
  ghost predicate BreakAt(all: seq<Cell>, q: nat, p: nat, max: nat)
    requires q <= p <= |all|
  {
    && CellsWidth(all[q..p]) + CellsWidth(all[p..RunEnd(all, p)]) > max
    && (0 < p < |all| && !IsSpace(all[p - 1]) && !IsSpace(all[p]) ==> CellsWidth(all[RunStart(all, p)..RunEnd(all, p)]) > max)
  }

  /** `cells` are in `all`, from `a` on. */
  ghost predicate At(all: seq<Cell>, a: int, cells: seq<Cell>) {
    0 <= a <= a + |cells| <= |all| && all[a..a + |cells|] == cells
  }

  /** The line is cut out of `all` from `q` to `p`. */
  ghost predicate LineAt(line: Text, all: seq<Cell>, q: int, p: int) {
    0 <= q <= p <= |all| && Begins(line, all[q..p])
  }

  lemma AtConcat(all: seq<Cell>, a: int, x: seq<Cell>, y: seq<Cell>)
    ensures At(all, a, x + y) <==> At(all, a, x) && At(all, a + |x|, y)
  {
    if 0 <= a && a + |x| + |y| <= |all| {
      JoinSlices(all, a, a + |x|, a + |x| + |y|);
      if At(all, a, x + y) {
        SubSlice(all, a, a + |x| + |y|, 0, |x|);
        SubSlice(all, a, a + |x| + |y|, |x|, |x| + |y|);
        Parts(x, y, []);
        assert x + y + [] == x + y && (x + y)[0..|x|] == (x + y)[..|x|];
      }
    }
  }

  lemma LineIsAt(line: Text, all: seq<Cell>, q: int, cells: seq<Cell>)
    requires At(all, q, cells) && Begins(line, cells)
    ensures LineAt(line, all, q, q + |cells|)
  {
    hide Begins;
  }

  lemma TrimLineAt(line: Text, all: seq<Cell>, q: int, p: int)
    requires LineAt(line, all, q, p)
    ensures LineAt(TrimEnd(line), all, q, p)
  {
    hide Begins;
    TrimBegins(line, all[q..p]);
  }

  /** The style in which a broken line has to end, so that no line is drawn under what is beside it. */
  function NotUnderlined(s: Style): Style { s.(attributes := s.attributes - {UNDERLINE}) }

  /** The line ends in the style that a text, begun in style `from`, has behind its first `p` cells,
      but for the underline. */
  ghost predicate EndsAs(line: Text, text: Text, from: Style, p: nat) {
    exists m | 0 <= m <= |text| ::
      |Cells(text[..m], from)| == p && After(line, PLAIN) == NotUnderlined(After(text[..m], from))
  }

  /** The lines are cut out of the text up to `p`, all with necessary breaks behind them, at which they
      end in the style of the text. */
  ghost predicate Ended(lines: seq<Text>, text: Text, p: nat, max: nat)
    requires p <= |Cells(text, PLAIN)|
    decreases |lines|
  {
    if lines == [] then p == 0
    else exists q | 0 <= q <= p ::
      && Ended(lines[..|lines| - 1], text, q, max)
      && LineOf(lines[|lines| - 1], text, q, p, max) && BreakAt(Cells(text, PLAIN), q, p, max)
  }

  /** A broken line: the cells from `q` to `p`, in the style of the text at `p`. It is not made for
      nothing, unless the glyph that follows is wider than a line. */
  ghost predicate LineOf(line: Text, text: Text, q: int, p: int, max: nat) {
    LineAt(line, Cells(text, PLAIN), q, p) && EndsAs(line, text, PLAIN, p) && HasReason(line, Cells(text, PLAIN), q, p, max)
  }

  ghost predicate HasReason(line: Text, all: seq<Cell>, q: int, p: int, max: nat) {
    q < p || line != [] || (0 <= p < |all| && all[p].width > max)
  }

  /** The lines are cut out of the text, and every break between them is necessary. */
  ghost predicate Filled(lines: seq<Text>, text: Text, max: nat) {
    lines != [] && exists p | 0 <= p <= |Cells(text, PLAIN)| :: EndedBut(lines, text, p, max)
  }

  /** All but the last line, which begins at `p` and ends in the style of the text. */
  ghost predicate EndedBut(lines: seq<Text>, text: Text, p: nat, max: nat)
    requires lines != [] && p <= |Cells(text, PLAIN)|
  {
    && Ended(lines[..|lines| - 1], text, p, max)
    && LineAt(lines[|lines| - 1], Cells(text, PLAIN), p, |Cells(text, PLAIN)|)
    && After(lines[|lines| - 1], PLAIN) == After(text, PLAIN)
  }

  lemma EndedSnoc(lines: seq<Text>, line: Text, text: Text, q: nat, p: nat, max: nat)
    requires q <= p <= |Cells(text, PLAIN)| && Ended(lines, text, q, max)
    requires LineOf(line, text, q, p, max) && BreakAt(Cells(text, PLAIN), q, p, max)
    ensures Ended(lines + [line], text, p, max)
  {
    hide LineOf, BreakAt;
    assert (lines + [line])[..|lines|] == lines;
  }

  lemma EndedLast(lines: seq<Text>, text: Text, p: nat, max: nat) returns (q: nat)
    requires p <= |Cells(text, PLAIN)| && Ended(lines, text, p, max) && lines != []
    ensures q <= p && Ended(lines[..|lines| - 1], text, q, max)
    ensures LineOf(lines[|lines| - 1], text, q, p, max) && BreakAt(Cells(text, PLAIN), q, p, max)
  {
    hide LineOf, BreakAt;
    q :| 0 <= q <= p && Ended(lines[..|lines| - 1], text, q, max)
      && LineOf(lines[|lines| - 1], text, q, p, max) && BreakAt(Cells(text, PLAIN), q, p, max);
  }

  lemma IsLineOf(line: Text, text: Text, q: int, p: int, max: nat)
    requires LineAt(line, Cells(text, PLAIN), q, p) && EndsAs(line, text, PLAIN, p)
    requires HasReason(line, Cells(text, PLAIN), q, p, max)
    ensures LineOf(line, text, q, p, max)
  {
    hide LineAt, EndsAs, HasReason;
  }

  lemma LineOfTrims(line: Text, text: Text, q: nat, p: nat, max: nat)
    requires LineOf(line, text, q, p, max)
    ensures LineOf(TrimEnd(line), text, q, p, max)
  {
    hide LineAt, Cells, After, TrimEnd;
    TrimLineAt(line, Cells(text, PLAIN), q, p);
    TrimEndFacts(line, PLAIN);
    if q >= p { NothingToTrim(line, Cells(text, PLAIN), q, p); }
  }

  lemma NothingToTrim(line: Text, all: seq<Cell>, q: nat, p: nat)
    requires LineAt(line, all, q, p) && q >= p
    ensures TrimEnd(line) == line
  {
    assert Cells(line, PLAIN) == [];
    if line != [] && line[|line| - 1] == SPACE {
      var init := line[..|line| - 1];
      assert line == init + [SPACE];
      Snoc(init, SPACE, PLAIN);
    }
  }

  lemma {:induction false} EndedTrims(lines: seq<Text>, text: Text, p: nat, max: nat)
    requires p <= |Cells(text, PLAIN)| && Ended(lines, text, p, max)
    ensures Ended(TrimAll(lines), text, p, max)
    decreases |lines|
  {
    var all := Cells(text, PLAIN);
    if lines != [] {
      var init, last := lines[..|lines| - 1], lines[|lines| - 1];
      var q := EndedLast(lines, text, p, max);
      hide Ended, LineOf, BreakAt;
      EndedTrims(init, text, q, max);
      LineOfTrims(last, text, q, p, max);
      EndedSnoc(TrimAll(init), TrimEnd(last), text, q, p, max);
    }
  }

  lemma FilledTrims(lines: seq<Text>, text: Text, max: nat)
    requires Filled(lines, text, max)
    ensures Filled(TrimAll(lines), text, max)
  {
    hide Ended, LineAt;
    var all := Cells(text, PLAIN);
    var p :| 0 <= p <= |all| && EndedBut(lines, text, p, max);
    EndedTrims(lines[..|lines| - 1], text, p, max);
    TrimLineAt(lines[|lines| - 1], all, p, |all|);
    TrimEndFacts(lines[|lines| - 1], PLAIN);
    assert TrimAll(lines)[..|lines| - 1] == TrimAll(lines[..|lines| - 1]);
    assert EndedBut(TrimAll(lines), text, p, max);
  }

  lemma {:induction false} EndedCuts(lines: seq<Text>, text: Text, p: nat, max: nat)
    requires p <= |Cells(text, PLAIN)| && Ended(lines, text, p, max)
    ensures Cut(lines, Cells(text, PLAIN)[..p])
    decreases |lines|
  {
    hide Ended, LineAt, BreakAt, Cut, EndsAs;
    var all := Cells(text, PLAIN);
    if lines == [] {
      NothingEnded(text, p, max);
      CutNone(all[..p]);
    } else {
      var init, last := lines[..|lines| - 1], lines[|lines| - 1];
      var q := EndedLast(lines, text, p, max);
      EndedCuts(init, text, q, max);
      CutOneMore(init, last, all, q, p);
      assert init + [last] == lines;
    }
  }

  lemma CutOneMore(lines: seq<Text>, line: Text, all: seq<Cell>, q: nat, p: nat)
    requires LineAt(line, all, q, p) && Cut(lines, all[..q])
    ensures Cut(lines + [line], all[..p])
  {
    hide Begins, Cut;
    CutLine(lines, line, all[..q], all[q..p]);
    JoinSlices(all, q, p, p);
  }

  lemma FilledCuts(lines: seq<Text>, text: Text, max: nat)
    requires Filled(lines, text, max)
    ensures Cut(lines, Cells(text, PLAIN))
  {
    hide Ended, LineAt, Cut;
    var all := Cells(text, PLAIN);
    var init, last := lines[..|lines| - 1], lines[|lines| - 1];
    var p :| 0 <= p <= |all| && EndedBut(lines, text, p, max);
    EndedCuts(init, text, p, max);
    CutOneMore(init, last, all, p, |all|);
    assert init + [last] == lines && all[..|all|] == all;
  }

  lemma FilledOne(line: Text, text: Text, max: nat)
    requires Begins(line, Cells(text, PLAIN)) && After(line, PLAIN) == After(text, PLAIN)
    ensures Filled([line], text, max)
  {
    var all := Cells(text, PLAIN);
    assert all[0..|all|] == all;
    assert LineAt(line, all, 0, |all|);
    hide Begins, LineAt;
    assert [line][..0] == [];
    assert Ended([], text, 0, max);
    assert EndedBut([line], text, 0, max);
  }

  // ---- Tokens are runs ----

  lemma {:induction false} TokenCells(t: Text, s: Style, blank: bool)
    requires forall i | 0 <= i < |t| && t[i].Glyph? :: (t[i] == SPACE) == blank
    ensures forall c | c in Cells(t, s) :: IsSpace(c) == blank
    ensures HasGlyph(t) ==> Cells(t, s) != []
  {
    if t != [] {
      TokenCells(t[1..], Advance(s, t[0]), blank);
      if HasGlyph(t) && !t[0].Glyph? {
        var g :| 0 <= g < |t| && t[g].Glyph?;
        assert t[1..][g - 1].Glyph?;
      }
    }
  }

  lemma {:induction false} FlattenConcat(a: seq<Text>, b: seq<Text>)
    ensures Flatten(a + b) == Flatten(a) + Flatten(b)
  {
    if b == [] {
      assert a + b == a;
    } else {
      var init, last := b[..|b| - 1], b[|b| - 1];
      FlattenConcat(a, init);
      FlattenSnoc(a + init, last);
      FlattenSnoc(init, last);
      hide Flatten;
      assert b == init + [last];
      Assoc(a, init, [last]);
      Assoc(Flatten(a), Flatten(init), last);
    }
  }

  /** The cells from `a` to `b` are a maximal run. */
  ghost predicate IsRun(all: seq<Cell>, a: nat, b: nat) {
    && a < b <= |all|
    && (forall i | a <= i < b :: IsSpace(all[i]) == IsSpace(all[a]))
    && (a > 0 ==> IsSpace(all[a - 1]) != IsSpace(all[a]))
    && (b < |all| ==> IsSpace(all[b]) != IsSpace(all[a]))
  }

  lemma {:induction false} RunEnds(all: seq<Cell>, a: nat, b: nat, p: nat)
    requires IsRun(all, a, b) && a <= p < b
    ensures RunEnd(all, p) == b
    decreases b - p
  {
    if p + 1 < b { RunEnds(all, a, b, p + 1); }
  }

  lemma {:induction false} RunStarts(all: seq<Cell>, a: nat, b: nat, p: nat)
    requires IsRun(all, a, b) && a <= p < b
    ensures RunStart(all, p) == a
  {
    if a < p { RunStarts(all, a, b, p - 1); }
  }

  lemma KindOf(tokens: seq<Text>, k: nat) returns (blank: bool)
    requires Alternate(tokens) && k < |tokens|
    ensures IsToken(tokens[k], blank) && (IsToken(tokens[k], true) <==> blank)
    ensures k > 0 ==> IsToken(tokens[k - 1], !blank)
    ensures k + 1 < |tokens| ==> IsToken(tokens[k + 1], !blank)
  {
    hide IsToken;
    blank := IsToken(tokens[k], true);
    if k + 1 < |tokens| { assert IsToken(tokens[k + 1], true) != IsToken(tokens[k + 1 - 1], true); }
  }

  lemma LastKind(tokens: seq<Text>, k: nat, blank: bool)
    requires 0 < k <= |tokens| && IsToken(tokens[k - 1], blank)
    ensures var cells := Cells(Flatten(tokens[..k]), PLAIN);
      cells != [] && IsSpace(cells[|cells| - 1]) == blank
  {
    var read, token := Flatten(tokens[..k - 1]), tokens[k - 1];
    FlattenSnoc(tokens[..k - 1], token);
    assert tokens[..k - 1] + [token] == tokens[..k];
    Concat(read, token, PLAIN);
    TokenCells(token, After(read, PLAIN), blank);
    var cells := Cells(token, After(read, PLAIN));
    assert cells[|cells| - 1] in cells;
  }

  lemma FirstKind(tokens: seq<Text>, k: nat, blank: bool, style: Style)
    requires k < |tokens| && IsToken(tokens[k], blank)
    ensures var cells := Cells(Flatten(tokens[k..]), style);
      cells != [] && IsSpace(cells[0]) == blank
  {
    var token := tokens[k];
    FlattenConcat([token], tokens[k + 1..]);
    FlattenSnoc([], token);
    NoTokens();
    assert [] + [token] == [token] && [token] + tokens[k + 1..] == tokens[k..] && [] + token == token;
    Concat(token, Flatten(tokens[k + 1..]), style);
    TokenCells(token, style, blank);
    assert Cells(token, style)[0] in Cells(token, style);
  }

  lemma NoTokens()
    ensures Flatten([]) == [] && forall s :: Cells([], s) == []
  {
  }

  lemma RunIn(before: seq<Cell>, cells: seq<Cell>, after: seq<Cell>, blank: bool)
    requires cells != [] && forall c | c in cells :: IsSpace(c) == blank
    requires before != [] ==> IsSpace(before[|before| - 1]) != blank
    requires after != [] ==> IsSpace(after[0]) != blank
    ensures var all := before + cells + after;
      IsRun(all, |before|, |before| + |cells|) && At(all, 0, before + cells)
  {
    hide IsSpace;
    var all := before + cells + after;
    BeginsAt(before + cells, after);
    forall i | |before| <= i < |before| + |cells| ensures all[i] == cells[i - |before|] && all[i] in cells {}
    if before != [] { assert all[|before| - 1] == before[|before| - 1]; }
    if after != [] { assert all[|before| + |cells|] == after[0]; }
    hide At;
  }

  lemma BeginsAt(cells: seq<Cell>, more: seq<Cell>)
    ensures At(cells + more, 0, cells)
  {
    assert (cells + more)[0..|cells|] == cells;
  }

  /** Token `k`, and where its cells are. */
  lemma TokenIsRun(tokens: seq<Text>, k: nat)
    requires Alternate(tokens) && k < |tokens|
    ensures var all, read := Cells(Flatten(tokens), PLAIN), Flatten(tokens[..k]);
      var a, cells := |Cells(read, PLAIN)|, Cells(tokens[k], After(read, PLAIN));
      IsRun(all, a, a + |cells|) && At(all, 0, Cells(read, PLAIN) + cells)
  {
    hide Cells, Flatten, After, Alternate, IsSpace, IsRun, At;
    var read, token, rest := Flatten(tokens[..k]), tokens[k], Flatten(tokens[k + 1..]);
    var before, cells := Cells(read, PLAIN), Cells(token, After(read, PLAIN));
    var after := Cells(rest, After(read + token, PLAIN));
    TakeSnoc(tokens, k);
    FlattenConcat(tokens[..k + 1], tokens[k + 1..]);
    FlattenSnoc(tokens[..k], token);
    Concat(read + token, rest, PLAIN);
    Concat(read, token, PLAIN);
    var blank := KindOf(tokens, k);
    TokenCells(token, After(read, PLAIN), blank);
    hide IsToken;
    NoTokens();
    if k > 0 { LastKind(tokens, k, !blank); }
    if k + 1 < |tokens| { FirstKind(tokens, k + 1, !blank, After(read + token, PLAIN)); }
    RunIn(before, cells, after, blank);
  }

  // ---- Breaking a long word ----

  /** Every glyph takes at least one column and at most `max`. */
  ghost predicate Narrow(t: Text, max: nat) {
    forall i | 0 <= i < |t| && t[i].Glyph? :: 1 <= t[i].width <= max
  }

  ghost predicate AllFit(lines: seq<Text>, max: nat) {
    forall k | 0 <= k < |lines| :: Width(lines[k]) <= max
  }

  lemma NarrowConcat(a: Text, b: Text, max: nat)
    ensures Narrow(a + b, max) <==> Narrow(a, max) && Narrow(b, max)
  {
    if Narrow(a + b, max) {
      forall i | 0 <= i < |a| && a[i].Glyph? ensures 1 <= a[i].width <= max { assert (a + b)[i] == a[i]; }
      forall i | 0 <= i < |b| && b[i].Glyph? ensures 1 <= b[i].width <= max { assert (a + b)[|a| + i] == b[i]; }
    }
  }

  /** The state of the breaking loop after reading `read`, in style `from` at its start. */
  ghost predicate Breaking(read: Text, from: Style, lines: seq<Text>, line: Text, w: nat, style: Style, max: nat) {
    && AllCells(lines) + Cells(line, PLAIN) == Cells(read, from)
    && After(line, PLAIN) == style == After(read, from)
    && WellFormed(style)
    && w == Width(line)
    && (line == [] ==> lines == [])
    && NoRoom(lines + [line], max)
    && PiecesEndAs(lines, read, from)
    && (Narrow(read, max) ==> w <= max && AllFit(lines, max) && (HasGlyph(read) ==> w > 0))
  }

  /** Each piece ends in the style that the word has where the piece ends, but for the underline. */
  ghost predicate PiecesEndAs(pieces: seq<Text>, word: Text, from: Style) {
    forall j | 0 <= j < |pieces| :: EndsAs(pieces[j], word, from, |AllCells(pieces[..j + 1])|)
  }

  lemma EndsAsMore(line: Text, text: Text, more: Text, from: Style, p: nat)
    requires EndsAs(line, text, from, p)
    ensures EndsAs(line, text + more, from, p)
  {
    hide Cells, After;
    var m :| 0 <= m <= |text| && |Cells(text[..m], from)| == p && After(line, PLAIN) == NotUnderlined(After(text[..m], from));
    assert (text + more)[..m] == text[..m];
  }

  lemma EndsAsAll(line: Text, text: Text, from: Style)
    requires After(line, PLAIN) == NotUnderlined(After(text, from))
    ensures EndsAs(line, text, from, |Cells(text, from)|)
  {
    hide Cells, After;
    assert text[..|text|] == text;
  }

  lemma PiecesMore(pieces: seq<Text>, word: Text, item: Item, from: Style)
    requires PiecesEndAs(pieces, word, from)
    ensures PiecesEndAs(pieces, word + [item], from)
  {
    hide EndsAs, AllCells;
    forall j | 0 <= j < |pieces| ensures EndsAs(pieces[j], word + [item], from, |AllCells(pieces[..j + 1])|) {
      EndsAsMore(pieces[j], word, [item], from, |AllCells(pieces[..j + 1])|);
    }
  }

  lemma PiecesSnoc(pieces: seq<Text>, piece: Text, word: Text, from: Style)
    requires PiecesEndAs(pieces, word, from)
    requires AllCells(pieces) + Cells(piece, PLAIN) == Cells(word, from)
    requires After(piece, PLAIN) == NotUnderlined(After(word, from))
    ensures PiecesEndAs(pieces + [piece], word, from)
  {
    hide EndsAs, Cells, After;
    var all := pieces + [piece];
    AllCellsSnoc(pieces, piece);
    EndsAsAll(piece, word, from);
    forall j | 0 <= j < |all| ensures EndsAs(all[j], word, from, |AllCells(all[..j + 1])|) {
      if j < |pieces| {
        assert all[..j + 1] == pieces[..j + 1];
      } else {
        assert all[..j + 1] == all;
      }
    }
  }

  /** The first glyph of `next` did not fit behind `line`. */
  predicate NoRoomFor(line: Text, next: Text, max: nat) {
    Cells(next, PLAIN) != [] && Width(line) + Cells(next, PLAIN)[0].width > max
  }

  ghost predicate NoRoom(lines: seq<Text>, max: nat) {
    forall i | 0 <= i < |lines| - 1 :: NoRoomFor(lines[i], lines[i + 1], max)
  }

  lemma NoRoomSnoc(lines: seq<Text>, last: Text, max: nat)
    ensures NoRoom(lines + [last], max) <==> NoRoom(lines, max) && (lines != [] ==> NoRoomFor(lines[|lines| - 1], last, max))
  {
    hide NoRoomFor;
    var all := lines + [last];
    if NoRoom(all, max) {
      forall i | 0 <= i < |lines| - 1 ensures NoRoomFor(lines[i], lines[i + 1], max) {
        assert NoRoomFor(all[i], all[i + 1], max);
      }
      if lines != [] { assert NoRoomFor(all[|lines| - 1], all[|lines| - 1 + 1], max); }
    }
  }

  /** Only the cells of the last line matter, and of them the first. */
  lemma NoRoomSame(lines: seq<Text>, last: Text, last': Text, max: nat)
    requires NoRoom(lines + [last], max) && Cells(last, PLAIN) <= Cells(last', PLAIN)
    ensures NoRoom(lines + [last'], max)
  {
    hide NoRoom, Cells;
    NoRoomSnoc(lines, last, max);
    NoRoomSnoc(lines, last', max);
  }

  lemma BreakCode(read: Text, from: Style, lines: seq<Text>, line: Text, w: nat, style: Style, max: nat, code: Item)
    requires Breaking(read, from, lines, line, w, style, max) && !code.Glyph?
    ensures Breaking(read + [code], from, lines, line + [code], w, Advance(style, code), max)
  {
    Snoc(line, code, PLAIN);
    PiecesMore(lines, read, code, from);
    NoRoomSame(lines, line, line + [code], max);
    Snoc(read, code, from);
    AfterWellFormed([code], style);
    assert After([code], style) == Advance(style, code) by { assert [code][1..] == []; }
    NarrowConcat(read, [code], max);
    HasGlyphSnoc(read, code);
  }

  lemma BreakGlyph(read: Text, from: Style, lines: seq<Text>, line: Text, w: nat, style: Style, max: nat, glyph: Item)
    requires Breaking(read, from, lines, line, w, style, max) && glyph.Glyph?
    ensures
      if w + glyph.width > max
      then Breaking(read + [glyph], from, lines + [line + LineEndReset(style)], ActiveCodes(style) + [glyph], glyph.width, style, max)
      else Breaking(read + [glyph], from, lines, line + [glyph], w + glyph.width, style, max)
  {
    hide Cells, AllCells, After, WellFormed, Width, Narrow, HasGlyph, NoRoom, AllFit, ActiveCodes, LineEndReset, PiecesEndAs;
    Snoc(read, glyph, from);
    NarrowGlyph(read, glyph, max);
    HasGlyphSnoc(read, glyph);
    var c := Cell(glyph.ch, glyph.width, style);
    if w + glyph.width > max {
      var ended := line + LineEndReset(style);
      LineEndResetInvisible(line, PLAIN, style);
      LineEndsAs(line, ended, style);
      PiecesSnoc(lines, ended, read, from);
      PiecesMore(lines + [ended], read, glyph, from);
      AllCellsSnoc(lines, ended);
      ActiveCodesReplay(style);
      Snoc(ActiveCodes(style), glyph, PLAIN);
      NoRoomSame(lines, line, ended, max);
      NoRoomSnoc(lines + [ended], ActiveCodes(style) + [glyph], max);
      AllFitSnoc(lines, ended, max);
      assert [] + [c] == [c];
    } else {
      Snoc(line, glyph, PLAIN);
      PiecesMore(lines, read, glyph, from);
      NoRoomSame(lines, line, line + [glyph], max);
      Assoc(AllCells(lines), Cells(line, PLAIN), [c]);
    }
  }

  lemma NarrowGlyph(t: Text, glyph: Item, max: nat)
    requires glyph.Glyph?
    ensures Narrow(t + [glyph], max) <==> Narrow(t, max) && 1 <= glyph.width <= max
  {
    NarrowConcat(t, [glyph], max);
    assert Narrow([glyph], max) ==> 1 <= [glyph][0].width <= max;
  }

  lemma AllFitSnoc(lines: seq<Text>, line: Text, max: nat)
    ensures AllFit(lines + [line], max) <==> AllFit(lines, max) && Width(line) <= max
  {
    hide Width;
    var all := lines + [line];
    assert all[|lines|] == line && forall k | 0 <= k < |lines| :: all[k] == lines[k];
  }

  /** `breakLongWord`, whose segments are the items of the word. */
  method BreakLongWord(word: Text, width: nat, tracker: AnsiCodeTracker) returns (lines: seq<Text>)
    requires WellFormed(tracker.State())
    modifies tracker
    ensures tracker.State() == After(word, old(tracker.State())) && WellFormed(tracker.State())
    ensures lines != [] && After(lines[|lines| - 1], PLAIN) == tracker.State()
    ensures AllCells(lines) == Cells(word, old(tracker.State()))
    ensures NoRoom(lines, width)
    ensures PiecesEndAs(lines[..|lines| - 1], word, old(tracker.State()))
    ensures Narrow(word, width) ==> AllFit(lines, width) && (HasGlyph(word) ==> Width(lines[|lines| - 1]) > 0)
  {
    hide *;
    ghost var from := tracker.State();
    lines := [];
    var currentLine := tracker.GetActiveCodes();
    var currentWidth: nat := 0;
    var i := 0;
    ghost var style := from;
    BreakStart(word, from, width);
    while i < |word|
      invariant 0 <= i <= |word|
      invariant tracker.State() == style && Breaking(word[..i], from, lines, currentLine, currentWidth, style, width)
    {
      assert word[..i + 1] == word[..i] + [word[i]];
      if !word[i].Glyph? {
        BreakCode(word[..i], from, lines, currentLine, currentWidth, style, width, word[i]);
        currentLine := currentLine + [word[i]];
        tracker.ProcessItem(word[i]);
        style := Advance(style, word[i]);
      } else {
        BreakGlyph(word[..i], from, lines, currentLine, currentWidth, style, width, word[i]);
        if currentWidth + word[i].width > width {
          var lineEndReset := tracker.GetLineEndReset();
          lines := lines + [currentLine + lineEndReset];
          currentLine := tracker.GetActiveCodes();
          currentWidth := 0;
        }
        currentLine := currentLine + [word[i]];
        currentWidth := currentWidth + word[i].width;
      }
      i := i + 1;
    }
    assert word[..i] == word;
    BreakEnd(word, from, lines, currentLine, currentWidth, style, width);
    if currentLine != [] {
      lines := lines + [currentLine];
    }
    if lines == [] {
      lines := [[]];
    }
  }

  lemma BreakStart(word: Text, from: Style, max: nat)
    requires WellFormed(from)
    ensures Breaking(word[..0], from, [], ActiveCodes(from), 0, from, max)
  {
    ActiveCodesReplay(from);
  }

  lemma BreakEnd(word: Text, from: Style, lines: seq<Text>, line: Text, w: nat, style: Style, max: nat)
    requires Breaking(word, from, lines, line, w, style, max)
    ensures var broken := if line != [] then lines + [line] else [[]];
      && (line == [] ==> lines == [])
      && broken != [] && After(broken[|broken| - 1], PLAIN) == style == After(word, from) && WellFormed(style)
      && AllCells(broken) == Cells(word, from)
      && NoRoom(broken, max) && PiecesEndAs(broken[..|broken| - 1], word, from)
      && (Narrow(word, max) ==> AllFit(broken, max) && (HasGlyph(word) ==> Width(broken[|broken| - 1]) > 0))
  {
    hide EndsAs;
    AllCellsSnoc(lines, line);
    AllCellsSingle(line);
    assert (lines + [line])[..|lines|] == lines;
    assert [] + Cells(line, PLAIN) == Cells(line, PLAIN);
  }

  // ---- Wrapping one line ----

  /** The state of the wrapping loop after the tokens that make up `read`; `all` is the whole line. */
  ghost predicate Wrapping(text: Text, read: Text, wrapped: seq<Text>, line: Text, w: nat, style: Style, max: nat) {
    && read <= text && Grows(Cells(text, PLAIN), read, line)
    && Ended(wrapped, text, |Cells(read, PLAIN)| - |Cells(line, PLAIN)|, max)
    && After(line, PLAIN) == style == After(read, PLAIN)
    && WellFormed(style)
    && w == Width(line)
    && (line == [] ==> EndsPlain(wrapped))
  }

  ghost predicate EndsPlain(lines: seq<Text>) {
    lines != [] ==> After(lines[|lines| - 1], PLAIN) == PLAIN
  }

  /** What has been read ends in the cells of the line under construction. */
  ghost predicate Grows(all: seq<Cell>, read: Text, line: Text) {
    && At(all, 0, Cells(read, PLAIN))
    && At(all, |Cells(read, PLAIN)| - |Cells(line, PLAIN)|, Cells(line, PLAIN))
  }

  /** The token comes next, and is a run. */
  ghost predicate Follows(text: Text, read: Text, token: Text) {
    var cells := Cells(token, After(read, PLAIN));
    && read + token <= text
    && At(Cells(text, PLAIN), 0, Cells(read, PLAIN) + cells)
    && IsRun(Cells(text, PLAIN), |Cells(read, PLAIN)|, |Cells(read, PLAIN)| + |cells|)
  }

  /** The same between lines: everything read so far is in `wrapped`. */
  ghost predicate AtBreak(text: Text, read: Text, wrapped: seq<Text>, style: Style, max: nat) {
    && read <= text && At(Cells(text, PLAIN), 0, Cells(read, PLAIN))
    && Ended(wrapped, text, |Cells(read, PLAIN)|, max)
    && style == After(read, PLAIN)
    && WellFormed(style)
  }

  /** Between the lines of the text, for all lines so far. */
  ghost predicate Closed(read: Text, wrapped: seq<Text>, style: Style) {
    && Cut(wrapped, Cells(read, PLAIN))
    && style == After(read, PLAIN)
    && WellFormed(style)
  }

  lemma WrappingFacts(text: Text, read: Text, wrapped: seq<Text>, line: Text, w: nat, style: Style, max: nat)
    requires Wrapping(text, read, wrapped, line, w, style, max)
    ensures |Cells(line, PLAIN)| <= |Cells(read, PLAIN)| <= |Cells(text, PLAIN)|
    ensures read <= text && Grows(Cells(text, PLAIN), read, line) && Ended(wrapped, text, |Cells(read, PLAIN)| - |Cells(line, PLAIN)|, max)
    ensures After(line, PLAIN) == style == After(read, PLAIN) && WellFormed(style) && w == Width(line)
    ensures line == [] ==> AtBreak(text, read, wrapped, style, max) && EndsPlain(wrapped) && style == PLAIN
  {
    hide Ended, After, Width, WellFormed;
    NoCells();
  }

  lemma BreakFacts(text: Text, read: Text, wrapped: seq<Text>, style: Style, max: nat)
    requires AtBreak(text, read, wrapped, style, max)
    ensures read <= text && |Cells(read, PLAIN)| <= |Cells(text, PLAIN)| && Ended(wrapped, text, |Cells(read, PLAIN)|, max)
    ensures style == After(read, PLAIN) && WellFormed(style)
  {
    hide Ended, Cells, After, WellFormed;
  }

  lemma FollowsFacts(text: Text, read: Text, token: Text)
    requires Follows(text, read, token)
    ensures var n, cells := |Cells(read, PLAIN)|, Cells(token, After(read, PLAIN));
      && Cells(read + token, PLAIN) == Cells(read, PLAIN) + cells && n + |cells| <= |Cells(text, PLAIN)|
      && At(Cells(text, PLAIN), 0, Cells(read + token, PLAIN)) && At(Cells(text, PLAIN), n, cells)
      && IsRun(Cells(text, PLAIN), n, n + |cells|)
      && After(read + token, PLAIN) == After(token, After(read, PLAIN)) && read + token <= text
  {
    hide Cells, After, IsRun;
    var all := Cells(text, PLAIN);
    Concat(read, token, PLAIN);
    AtConcat(all, 0, Cells(read, PLAIN), Cells(token, After(read, PLAIN)));
  }

  lemma WrappingIs(text: Text, read: Text, wrapped: seq<Text>, line: Text, style: Style, max: nat, q: nat)
    requires read <= text && Grows(Cells(text, PLAIN), read, line)
    requires q + |Cells(line, PLAIN)| == |Cells(read, PLAIN)| && q <= |Cells(text, PLAIN)| && Ended(wrapped, text, q, max)
    requires After(line, PLAIN) == style == After(read, PLAIN) && WellFormed(style)
    requires line == [] ==> EndsPlain(wrapped)
    ensures Wrapping(text, read, wrapped, line, Width(line), style, max)
  {
    hide Ended, Cells, After, Width, WellFormed, At;
  }

  /** The last cells that have been read are those of the line. */
  lemma GrowsTail(all: seq<Cell>, read: Text, before: seq<Cell>, line: Text)
    requires At(all, 0, Cells(read, PLAIN)) && Cells(read, PLAIN) == before + Cells(line, PLAIN)
    ensures Grows(all, read, line)
  {
    hide Cells, At;
    AtConcat(all, 0, before, Cells(line, PLAIN));
  }

  ghost predicate TrimmedFit(lines: seq<Text>, max: nat) {
    forall k | 0 <= k < |lines| :: Width(TrimEnd(lines[k])) <= max
  }

  /** What keeps the width bound. The line under construction may be too wide only if it is
      all blanks, which `trimEnd` will remove. */
  ghost predicate Bounded(next: seq<Text>, wrapped: seq<Text>, line: Text, w: nat, max: nat) {
    && TrimmedFit(wrapped, max)
    && (w <= max || IsWhitespace(line))
    && (w == 0 && line != [] && next != [] ==> IsToken(next[0], false))
  }

  /** A break before a token that does not fit, or behind one of spaces. */
  lemma TokenBreaks(text: Text, read: Text, wrapped: seq<Text>, line: Text, w: nat, style: Style, token: Text, max: nat)
    requires Wrapping(text, read, wrapped, line, w, style, max) && Follows(text, read, token) && w + Width(token) > max
    ensures var n, m, c := |Cells(read, PLAIN)|, |Cells(line, PLAIN)|, |Cells(token, style)|;
      && m <= n && n + c <= |Cells(text, PLAIN)|
      && BreakAt(Cells(text, PLAIN), n - m, n, max)
      && (IsWhitespace(token) ==> BreakAt(Cells(text, PLAIN), n - m, n + c, max))
  {
    hide Wrapping, Ended, BreakAt, CellsWidth, Cells, Width, WellFormed, After, Follows, AtBreak, IsRun, IsWhitespace, IsSpace;
    var all := Cells(text, PLAIN);
    WrappingFacts(text, read, wrapped, line, w, style, max);
    FollowsFacts(text, read, token);
    var n, m, cells := |Cells(read, PLAIN)|, |Cells(line, PLAIN)|, Cells(token, style);
    WidthOfCells(line, PLAIN);
    WidthOfCells(token, style);
    RunBreaks(all, n - m, n, n + |cells|, max);
    if IsWhitespace(token) { EndsBlank(all, n, token, style); }
  }

  lemma EndsBlank(all: seq<Cell>, n: nat, token: Text, style: Style)
    requires IsWhitespace(token) && At(all, n, Cells(token, style)) && IsRun(all, n, n + |Cells(token, style)|)
    ensures n < n + |Cells(token, style)| <= |all| && IsSpace(all[n + |Cells(token, style)| - 1])
  {
    hide Cells, IsSpace;
    var cells := Cells(token, style);
    TokenCells(token, style, true);
    assert all[n + |cells| - 1] == all[n..n + |cells|][|cells| - 1] && cells[|cells| - 1] in cells;
  }

  lemma RunNotEmpty(all: seq<Cell>, a: nat, b: nat)
    requires IsRun(all, a, b)
    ensures a < b <= |all|
  {
  }

  lemma RunBreaks(all: seq<Cell>, q: nat, a: nat, b: nat, max: nat)
    requires q <= a && IsRun(all, a, b) && CellsWidth(all[q..a]) + CellsWidth(all[a..b]) > max
    ensures BreakAt(all, q, a, max)
    ensures IsSpace(all[b - 1]) ==> BreakAt(all, q, b, max)
  {
    hide CellsWidth, IsSpace, RunEnd, RunStart;
    RunEnds(all, a, b, a);
    JoinSlices(all, q, a, b);
    CellsWidthConcat(all[q..a], all[a..b]);
  }

  /** The line is ended and a new one begins with the active codes. */
  lemma WrapBreak(text: Text, read: Text, wrapped: seq<Text>, line: Text, w: nat, style: Style, max: nat, ended: Text)
    requires Wrapping(text, read, wrapped, line, w, style, max)
    requires |Cells(line, PLAIN)| <= |Cells(read, PLAIN)| <= |Cells(text, PLAIN)|
    requires BreakAt(Cells(text, PLAIN), |Cells(read, PLAIN)| - |Cells(line, PLAIN)|, |Cells(read, PLAIN)|, max)
    requires ended == TrimEnd(line) + LineEndReset(style) || ended == line + LineEndReset(style)
    requires ended != [] || w > 0
    ensures AtBreak(text, read, wrapped + [ended], style, max)
    ensures Wrapping(text, read, wrapped + [ended], ActiveCodes(style), 0, style, max)
  {
    hide Ended, BreakAt, Cells, After, Width, WellFormed, Wrapping, At, LineAt, Begins, TrimEnd, LineEndReset, EndsAs, LineOf;
    var all := Cells(text, PLAIN);
    WrappingFacts(text, read, wrapped, line, w, style, max);
    var n, m := |Cells(read, PLAIN)|, |Cells(line, PLAIN)|;
    EndedBegins(line, style, ended);
    LineEndsAs(line, ended, style);
    BrokenBehind(ended, text, read, n);
    LineIsAt(ended, all, n - m, Cells(line, PLAIN));
    if w > 0 { WideHasCells(line); }
    IsLineOf(ended, text, n - m, n, max);
    EndedSnoc(wrapped, ended, text, n - m, n, max);
    NewLine(text, read, wrapped, ended, style, max);
  }

  lemma WideHasCells(line: Text)
    requires Width(line) > 0
    ensures Cells(line, PLAIN) != []
  {
    WidthOfCells(line, PLAIN);
  }

  lemma BrokenBehind(ended: Text, text: Text, read: Text, n: nat)
    requires read <= text && |Cells(read, PLAIN)| == n && After(ended, PLAIN) == NotUnderlined(After(read, PLAIN))
    ensures EndsAs(ended, text, PLAIN, n)
  {
    hide Cells, After;
    assert read == text[..|read|];
  }

  /** The next line begins with the active codes. */
  lemma NewLine(text: Text, read: Text, wrapped: seq<Text>, ended: Text, style: Style, max: nat)
    requires read <= text && At(Cells(text, PLAIN), 0, Cells(read, PLAIN)) && style == After(read, PLAIN) && WellFormed(style)
    requires |Cells(read, PLAIN)| <= |Cells(text, PLAIN)| && Ended(wrapped + [ended], text, |Cells(read, PLAIN)|, max)
    requires After(ended, PLAIN) == NotUnderlined(style)
    ensures Wrapping(text, read, wrapped + [ended], ActiveCodes(style), 0, style, max)
  {
    hide Ended, Cells, After, Width, WellFormed, Wrapping, At, ActiveCodes;
    ActiveCodesReplay(style);
    GrowsTail(Cells(text, PLAIN), read, Cells(read, PLAIN), ActiveCodes(style));
    if ActiveCodes(style) == [] { NoCells(); }
    WrappingIs(text, read, wrapped + [ended], ActiveCodes(style), style, max, |Cells(read, PLAIN)|);
  }

  lemma EndedBegins(line: Text, style: Style, ended: Text)
    requires ended == TrimEnd(line) + LineEndReset(style) || ended == line + LineEndReset(style)
    ensures Begins(ended, Cells(line, PLAIN))
  {
    LineEndResetInvisible(if ended == line + LineEndReset(style) then line else TrimEnd(line), PLAIN, style);
    LineBegins(line, ended);
  }

  /** The line and the token behind it. */
  lemma LineAndToken(text: Text, read: Text, line: Text, token: Text)
    requires Grows(Cells(text, PLAIN), read, line) && Follows(text, read, token)
    ensures At(Cells(text, PLAIN), |Cells(read, PLAIN)| - |Cells(line, PLAIN)|, Cells(line, PLAIN) + Cells(token, After(read, PLAIN)))
  {
    hide At, Cells, After, Follows;
    var all := Cells(text, PLAIN);
    FollowsFacts(text, read, token);
    AtConcat(all, |Cells(read, PLAIN)| - |Cells(line, PLAIN)|, Cells(line, PLAIN), Cells(token, After(read, PLAIN)));
  }

  lemma WrapAppend(text: Text, read: Text, wrapped: seq<Text>, line: Text, w: nat, style: Style, max: nat, token: Text)
    requires Wrapping(text, read, wrapped, line, w, style, max) && Follows(text, read, token)
    ensures Wrapping(text, read + token, wrapped, line + token, w + Width(token), After(token, style), max)
  {
    hide Ended, Cells, After, Width, WellFormed, Wrapping, At, Follows, AtBreak;
    var all := Cells(text, PLAIN);
    WrappingFacts(text, read, wrapped, line, w, style, max);
    FollowsFacts(text, read, token);
    LineAndToken(text, read, line, token);
    Concat(line, token, PLAIN);
    AfterWellFormed(token, style);
    var n, m := |Cells(read, PLAIN)|, |Cells(line, PLAIN)|;
    assert Grows(all, read + token, line + token);
    WrappingIs(text, read + token, wrapped, line + token, After(token, style), max, n - m);
  }

  /** Blanks that do not fit end the line, and are lost. */
  lemma WrapDrop(text: Text, read: Text, wrapped: seq<Text>, line: Text, w: nat, style: Style, max: nat, ended: Text, token: Text)
    requires Wrapping(text, read, wrapped, line, w, style, max) && Follows(text, read, token) && IsWhitespace(token)
    requires |Cells(line, PLAIN)| <= |Cells(read, PLAIN)| && |Cells(read, PLAIN)| + |Cells(token, style)| <= |Cells(text, PLAIN)|
    requires BreakAt(Cells(text, PLAIN), |Cells(read, PLAIN)| - |Cells(line, PLAIN)|, |Cells(read, PLAIN)| + |Cells(token, style)|, max)
    requires ended == TrimEnd(line) + LineEndReset(style)
    ensures After(token, style) == style
    ensures Wrapping(text, read + token, wrapped + [ended], ActiveCodes(style), 0, style, max)
  {
    hide Ended, BreakAt, Cells, After, Width, WellFormed, TrimEnd, IsWhitespace, LineEndReset, Wrapping;
    hide At, LineAt, LineOf, Follows, AtBreak, EndsAs, IsRun, AllBlank, Begins, ActiveCodes;
    WrappingFacts(text, read, wrapped, line, w, style, max);
    FollowsFacts(text, read, token);
    DropLine(text, read, line, style, ended, token);
    LineEndsAs(line, ended, style);
    var n, m, c := |Cells(read, PLAIN)|, |Cells(line, PLAIN)|, |Cells(token, style)|;
    BlankCells(token, style);
    BrokenBehind(ended, text, read + token, n + c);
    RunNotEmpty(Cells(text, PLAIN), n, n + c);
    IsLineOf(ended, text, n - m, n + c, max);
    LineEnded(text, read + token, wrapped, ended, style, n - m, max);
  }

  lemma LineEnded(text: Text, read: Text, wrapped: seq<Text>, ended: Text, style: Style, q: nat, max: nat)
    requires read <= text && At(Cells(text, PLAIN), 0, Cells(read, PLAIN)) && style == After(read, PLAIN) && WellFormed(style)
    requires q <= |Cells(read, PLAIN)| <= |Cells(text, PLAIN)| && Ended(wrapped, text, q, max)
    requires LineOf(ended, text, q, |Cells(read, PLAIN)|, max) && BreakAt(Cells(text, PLAIN), q, |Cells(read, PLAIN)|, max)
    requires After(ended, PLAIN) == NotUnderlined(style)
    ensures Wrapping(text, read, wrapped + [ended], ActiveCodes(style), 0, style, max)
  {
    hide Ended, BreakAt, Cells, After, WellFormed, Wrapping, At, LineOf;
    EndedSnoc(wrapped, ended, text, q, |Cells(read, PLAIN)|, max);
    NewLine(text, read, wrapped, ended, style, max);
  }

  lemma DropLine(text: Text, read: Text, line: Text, style: Style, ended: Text, token: Text)
    requires Grows(Cells(text, PLAIN), read, line) && Follows(text, read, token) && IsWhitespace(token)
    requires style == After(read, PLAIN) && ended == TrimEnd(line) + LineEndReset(style)
    ensures LineAt(ended, Cells(text, PLAIN), |Cells(read, PLAIN)| - |Cells(line, PLAIN)|, |Cells(read, PLAIN)| + |Cells(token, style)|)
  {
    hide Cells, AllBlank, Begins, After, TrimEnd, IsWhitespace, LineEndReset, At, LineAt, Follows;
    LineAndToken(text, read, line, token);
    BlankCells(token, style);
    EndedBegins(line, style, ended);
    BeginsBlanks(ended, Cells(line, PLAIN), Cells(token, style));
    var cells := Cells(line, PLAIN) + Cells(token, style);
    LineIsAt(ended, Cells(text, PLAIN), |Cells(read, PLAIN)| - |Cells(line, PLAIN)|, cells);
  }

  lemma {:induction false} BlankCells(t: Text, s: Style)
    requires IsWhitespace(t)
    ensures AllBlank(Cells(t, s)) && After(t, s) == s
  {
    if t != [] { BlankCells(t[1..], s); }
  }

  lemma WrapBroken(text: Text, read: Text, wrapped: seq<Text>, style: Style, token: Text, broken: seq<Text>, max: nat)
    requires AtBreak(text, read, wrapped, style, max) && Follows(text, read, token) && Width(token) > max
    requires broken != [] && AllCells(broken) == Cells(token, style) && NoRoom(broken, max)
    requires After(broken[|broken| - 1], PLAIN) == After(token, style)
    requires PiecesEndAs(broken[..|broken| - 1], token, style)
    ensures var line := broken[|broken| - 1];
      Wrapping(text, read + token, wrapped + broken[..|broken| - 1], line, Width(line), After(token, style), max)
  {
    hide AllCells, Cells, After, Ended, IsRun, NoRoom, Width, CellsWidth, WellFormed, Wrapping, Grows, AtBreak, At, Follows, PiecesEndAs;
    var all := Cells(text, PLAIN);
    BreakFacts(text, read, wrapped, style, max);
    FollowsFacts(text, read, token);
    var init, line := broken[..|broken| - 1], broken[|broken| - 1];
    var n, cells := |Cells(read, PLAIN)|, Cells(token, style);
    assert init + [line] == broken;
    AllCellsSnoc(init, line);
    AfterWellFormed(token, style);
    WidthOfCells(token, style);
    RunNotEmpty(all, n, n + |cells|);
    PiecesEnd(text, read, token, n, wrapped, broken, |broken| - 1, max);
    Assoc(Cells(read, PLAIN), AllCells(init), Cells(line, PLAIN));
    GrowsTail(all, read + token, Cells(read, PLAIN) + AllCells(init), line);
    LastPiece(broken, cells, max);
    WrappingIs(text, read + token, wrapped + init, line, After(token, style), max, n + |AllCells(init)|);
  }

  lemma LastPiece(broken: seq<Text>, cells: seq<Cell>, max: nat)
    requires broken != [] && AllCells(broken) == cells != [] && NoRoom(broken, max)
    ensures broken[|broken| - 1] != []
  {
    if |broken| == 1 {
      NoPieces();
    } else {
      assert NoRoomFor(broken[|broken| - 2], broken[|broken| - 2 + 1], max);
    }
  }

  /** The pieces of a word that is too wide are cut out of it, and their breaks are necessary. */
  lemma {:induction false} PiecesEnd(text: Text, read: Text, token: Text, n: nat, wrapped: seq<Text>, broken: seq<Text>, j: nat, max: nat)
    requires n <= |Cells(text, PLAIN)| && Ended(wrapped, text, n, max) && j < |broken| && NoRoom(broken, max)
    requires Follows(text, read, token) && n == |Cells(read, PLAIN)|
    requires AllCells(broken) == Cells(token, After(read, PLAIN)) && CellsWidth(AllCells(broken)) > max
    requires PiecesEndAs(broken[..|broken| - 1], token, After(read, PLAIN))
    ensures n + |AllCells(broken[..j])| <= |Cells(text, PLAIN)| && Ended(wrapped + broken[..j], text, n + |AllCells(broken[..j])|, max)
  {
    hide Ended, BreakAt, IsRun, NoRoom, AllCells, LineAt, CellsWidth, At, Cells, After, Follows, EndsAs, PiecesEndAs, HasReason, LineOf;
    var all := Cells(text, PLAIN);
    if j == 0 {
      NoPieces();
      assert broken[..0] == [] && wrapped + [] == wrapped;
    } else {
      PiecesEnd(text, read, token, n, wrapped, broken, j - 1, max);
      FollowsFacts(text, read, token);
      PieceBreaks(all, n, broken, AllCells(broken), j, max);
      var a, b := n + |AllCells(broken[..j - 1])|, n + |AllCells(broken[..j])|;
      PieceEndsAs(text, read, token, broken, j);
      IsLineOf(broken[j - 1], text, a, b, max);
      EndedSnoc(wrapped + broken[..j - 1], broken[j - 1], text, a, b, max);
      TakeSnoc(broken, j - 1);
      Assoc(wrapped, broken[..j - 1], [broken[j - 1]]);
    }
  }

  lemma PieceEndsAs(text: Text, read: Text, token: Text, broken: seq<Text>, j: nat)
    requires 0 < j < |broken| && read + token <= text
    requires PiecesEndAs(broken[..|broken| - 1], token, After(read, PLAIN))
    ensures EndsAs(broken[j - 1], text, PLAIN, |Cells(read, PLAIN)| + |AllCells(broken[..j])|)
  {
    hide AllCells, Cells, After;
    var style, pieces := After(read, PLAIN), broken[..|broken| - 1];
    assert pieces[j - 1] == broken[j - 1] && pieces[..j - 1 + 1] == broken[..j];
    assert EndsAs(pieces[j - 1], token, style, |AllCells(pieces[..j - 1 + 1])|);
    hide PiecesEndAs;
    var m :| 0 <= m <= |token| && |Cells(token[..m], style)| == |AllCells(broken[..j])|
      && After(broken[j - 1], PLAIN) == NotUnderlined(After(token[..m], style));
    Concat(read, token[..m], PLAIN);
    PrefixOf(text, read, token, m);
  }

  lemma PrefixOf(text: Text, read: Text, token: Text, m: nat)
    requires read + token <= text && m <= |token|
    ensures |read| + m <= |text| && text[..|read| + m] == read + token[..m]
  {
    assert text[..|read| + m] == (read + token)[..|read| + m];
  }

  lemma NoPieces()
    ensures AllCells([]) == []
  {
  }

  lemma PieceBreaks(all: seq<Cell>, n: nat, broken: seq<Text>, cells: seq<Cell>, j: nat, max: nat)
    requires 0 < j < |broken| && NoRoom(broken, max) && n <= |all|
    requires cells == AllCells(broken) && CellsWidth(cells) > max
    requires IsRun(all, n, n + |cells|) && At(all, n, cells)
    ensures var a, b := n + |AllCells(broken[..j - 1])|, n + |AllCells(broken[..j])|;
      a <= b <= |all| && LineAt(broken[j - 1], all, a, b) && BreakAt(all, a, b, max) && HasReason(broken[j - 1], all, a, b, max)
  {
    hide AllCells, Cells, CellsWidth, IsSpace, RunEnd, RunStart, LineAt;
    var piece, next := Cells(broken[j - 1], PLAIN), Cells(broken[j], PLAIN);
    var before, rest := AllCells(broken[..j - 1]), AllCells(broken[j + 1..]);
    PiecesAt(broken, j);
    assert NoRoomFor(broken[j - 1], broken[j - 1 + 1], max);
    hide NoRoom;
    WidthOfCells(broken[j - 1], PLAIN);
    AtConcat(all, n, before + piece, next + rest);
    AtConcat(all, n, before, piece);
    FirstWidth(next, rest);
    AtHead(all, n + |before + piece|, next + rest);
    NoCells();
    RunEnds(all, n, n + |cells|, n + |before| + |piece|);
    RunStarts(all, n, n + |cells|, n + |before| + |piece|);
    hide IsRun;
    assert Begins(broken[j - 1], piece);
    LineIsAt(broken[j - 1], all, n + |before|, piece);
  }

  lemma AtHead(all: seq<Cell>, b: int, cells: seq<Cell>)
    requires At(all, b, cells) && cells != []
    ensures 0 <= b < |all| && all[b] == cells[0]
  {
    assert all[b] == all[b..b + |cells|][0];
  }

  lemma FirstWidth(cells: seq<Cell>, rest: seq<Cell>)
    requires cells != []
    ensures CellsWidth(cells + rest) >= cells[0].width
  {
  }

  lemma PiecesAt(broken: seq<Text>, j: nat)
    requires 0 < j < |broken|
    ensures AllCells(broken) ==
      AllCells(broken[..j - 1]) + Cells(broken[j - 1], PLAIN) + (Cells(broken[j], PLAIN) + AllCells(broken[j + 1..]))
    ensures AllCells(broken[..j]) == AllCells(broken[..j - 1]) + Cells(broken[j - 1], PLAIN)
  {
    hide AllCells, Cells;
    AllCellsSnoc(broken[..j - 1], broken[j - 1]);
    AllCellsSnoc(broken[..j], broken[j]);
    AllCellsConcat(broken[..j + 1], broken[j + 1..]);
    TakeSnoc(broken, j - 1);
    TakeSnoc(broken, j);
    Assoc(AllCells(broken[..j]), Cells(broken[j], PLAIN), AllCells(broken[j + 1..]));
  }

  lemma TrimmedFitSnoc(lines: seq<Text>, line: Text, max: nat)
    requires TrimmedFit(lines, max) && (Width(line) <= max || IsWhitespace(line))
    ensures TrimmedFit(lines + [line], max)
  {
    TrimEndFacts(line, PLAIN);
  }

  lemma TrimmedFitConcat(a: seq<Text>, b: seq<Text>, max: nat)
    requires TrimmedFit(a, max) && AllFit(b, max)
    ensures TrimmedFit(a + b, max)
  {
    forall k | 0 <= k < |a + b| ensures Width(TrimEnd((a + b)[k])) <= max {
      TrimEndFacts((a + b)[k], PLAIN);
      if k < |a| { assert (a + b)[k] == a[k]; } else { assert (a + b)[k] == b[k - |a|]; }
    }
  }

  /** An ended line fits: either it did before, or it was all blanks in a plain style. */
  lemma EndedFits(wrapped: seq<Text>, line: Text, w: nat, style: Style, ended: Text, max: nat)
    requires TrimmedFit(wrapped, max) && w == Width(line) && style == After(line, PLAIN)
    requires w <= max || IsWhitespace(line)
    requires ended == TrimEnd(line) + LineEndReset(style) || ended == line + LineEndReset(style)
    ensures TrimmedFit(wrapped + [ended], max)
  {
    TrimEndFacts(line, PLAIN);
    if IsWhitespace(line) {
      BlankCells(line, PLAIN);
      assert ended == TrimEnd(line) || ended == line;
      assert IsWhitespace(ended);
    } else {
      LineEndResetInvisible(TrimEnd(line), PLAIN, style);
      LineEndResetInvisible(line, PLAIN, style);
    }
    TrimmedFitSnoc(wrapped, ended, max);
  }

  lemma {:induction false} NarrowFlatten(tokens: seq<Text>, k: nat, max: nat)
    requires k < |tokens| && Narrow(Flatten(tokens), max)
    ensures Narrow(tokens[k], max)
  {
    var init, last := tokens[..|tokens| - 1], tokens[|tokens| - 1];
    NarrowConcat(Flatten(init), last, max);
    if k < |init| {
      NarrowFlatten(init, k, max);
      assert init[k] == tokens[k];
    }
  }

  lemma TokenFacts(tokens: seq<Text>, k: nat, max: nat)
    requires Alternate(tokens) && k < |tokens| && Narrow(Flatten(tokens), max)
    ensures Narrow(tokens[k], max) && HasGlyph(tokens[k]) && Width(tokens[k]) > 0
    ensures IsWhitespace(tokens[k]) ==> !IsToken(tokens[k], false)
    ensures IsWhitespace(tokens[k]) && k + 1 < |tokens| ==> IsToken(tokens[k + 1], false)
  {
    NarrowFlatten(tokens, k, max);
    assert HasGlyph(tokens[k]);
    var g :| 0 <= g < |tokens[k]| && tokens[k][g].Glyph?;
    GlyphCell(tokens[k], PLAIN, g);
    if IsWhitespace(tokens[k]) {
      assert tokens[k][g] == SPACE;
      if k + 1 < |tokens| {
        assert IsToken(tokens[k + 1], true) != IsToken(tokens[k + 1 - 1], true);
      }
    }
  }

  lemma BoundedAppend(tokens: seq<Text>, k: nat, wrapped: seq<Text>, line: Text, w: nat, max: nat)
    requires Alternate(tokens) && k < |tokens| && Narrow(Flatten(tokens), max)
    requires Bounded(tokens[k..], wrapped, line, w, max)
    requires w + Width(tokens[k]) <= max || w == 0
    requires Width(tokens[k]) <= max || IsWhitespace(tokens[k])
    ensures Bounded(tokens[k + 1..], wrapped, line + tokens[k], w + Width(tokens[k]), max)
  {
    TokenFacts(tokens, k, max);
    assert tokens[k..][0] == tokens[k];
    if w + Width(tokens[k]) > max {
      assert line == [];
      assert line + tokens[k] == tokens[k];
    }
  }

  lemma BoundedBroken(next: seq<Text>, wrapped: seq<Text>, broken: seq<Text>, max: nat)
    requires TrimmedFit(wrapped, max) && broken != [] && AllFit(broken, max)
    requires Width(broken[|broken| - 1]) > 0
    ensures Bounded(next, wrapped + broken[..|broken| - 1], broken[|broken| - 1], Width(broken[|broken| - 1]), max)
  {
    TrimmedFitConcat(wrapped, broken[..|broken| - 1], max);
  }

  lemma BoundedBreak(tokens: seq<Text>, k: nat, wrapped: seq<Text>, style: Style, max: nat)
    requires Alternate(tokens) && k < |tokens| && Narrow(Flatten(tokens), max)
    requires TrimmedFit(wrapped, max)
    requires Width(tokens[k]) <= max || IsWhitespace(tokens[k])
    ensures IsWhitespace(tokens[k]) ==> Bounded(tokens[k + 1..], wrapped, ActiveCodes(style), 0, max)
    ensures !IsWhitespace(tokens[k]) ==>
      Bounded(tokens[k + 1..], wrapped, ActiveCodes(style) + tokens[k], Width(tokens[k]), max)
  {
    TokenFacts(tokens, k, max);
  }

  lemma BoundedFits(next: seq<Text>, wrapped: seq<Text>, line: Text, w: nat, max: nat)
    requires Bounded(next, wrapped, line, w, max)
    ensures TrimmedFit(wrapped, max) && (w <= max || IsWhitespace(line))
  {
  }

  /** The lines are trimmed at the very end. */
  lemma WrapEnd(read: Text, wrapped: seq<Text>, line: Text, w: nat, style: Style, lines: seq<Text>, max: nat)
    requires Wrapping(read, read, wrapped, line, w, style, max)
    requires lines == if line != [] then wrapped + [line] else wrapped
    ensures Filled(if lines != [] then TrimAll(lines) else [[]], read, max)
  {
    hide Ended, LineAt, Cells, Wrapping, AtBreak, Begins, BreakAt, Grows;
    var all := Cells(read, PLAIN);
    var p := |all| - |Cells(line, PLAIN)|;
    WrappingFacts(read, read, wrapped, line, w, style, max);
    if line != [] {
      LineGrown(all, read, line);
      assert (wrapped + [line])[..|wrapped|] == wrapped;
      assert EndedBut(lines, read, p, max);
      FilledTrims(lines, read, max);
    } else if wrapped == [] {
      BreakFacts(read, read, wrapped, style, max);
      NothingEnded(read, |all|, max);
      NothingBegins();
      FilledOne([], read, max);
    } else {
      BreakFacts(read, read, wrapped, style, max);
      var q := EndedLast(wrapped, read, |all|, max);
      assert EndedBut(wrapped, read, q, max);
      FilledTrims(lines, read, max);
    }
  }

  lemma LineGrown(all: seq<Cell>, read: Text, line: Text)
    requires Grows(all, read, line)
    ensures LineAt(line, all, |Cells(read, PLAIN)| - |Cells(line, PLAIN)|, |Cells(read, PLAIN)|)
  {
    hide At, LineAt, Cells;
    assert Begins(line, Cells(line, PLAIN));
    LineIsAt(line, all, |Cells(read, PLAIN)| - |Cells(line, PLAIN)|, Cells(line, PLAIN));
  }

  lemma NothingEnded(text: Text, p: nat, max: nat)
    requires p <= |Cells(text, PLAIN)| && Ended([], text, p, max)
    ensures p == 0
  {
  }

  lemma NothingBegins()
    ensures Begins([], [])
  {
  }

  lemma NoCells()
    ensures Cells([], PLAIN) == [] && After([], PLAIN) == PLAIN
  {
  }

  lemma EndFits(wrapped: seq<Text>, line: Text, w: nat, lines: seq<Text>, max: nat)
    requires lines == if line != [] then wrapped + [line] else wrapped
    requires w == Width(line) && Bounded([], wrapped, line, w, max)
    ensures AllFit(if lines != [] then TrimAll(lines) else [[]], max)
  {
    TrimmedFitSnoc(wrapped, line, max);
    TrimAllAt(lines);
  }

  /** One pass of the loop in `wrapSingleLine`, for token `k`. */
  method WrapToken(ghost tokens: seq<Text>, ghost k: nat, token: Text, width: nat,
                   tracker: AnsiCodeTracker, wrapped0: seq<Text>, line0: Text, w0: nat)
    returns (wrapped: seq<Text>, line: Text, w: nat)
    requires Alternate(tokens) && k < |tokens| && token == tokens[k]
    requires Wrapping(Flatten(tokens), Flatten(tokens[..k]), wrapped0, line0, w0, tracker.State(), width)
    modifies tracker
    ensures Wrapping(Flatten(tokens), Flatten(tokens[..k + 1]), wrapped, line, w, tracker.State(), width)
    ensures Narrow(Flatten(tokens), width) && Bounded(tokens[k..], wrapped0, line0, w0, width)
        ==> Bounded(tokens[k + 1..], wrapped, line, w, width)
  {
    hide *;
    wrapped, line, w := wrapped0, line0, w0;
    ghost var narrow := Narrow(Flatten(tokens), width) && Bounded(tokens[k..], wrapped0, line0, w0, width);
    ghost var text, read := Flatten(tokens), Flatten(tokens[..k]);
    ghost var style := tracker.State();
    var tokenVisibleLength := Width(token);
    var isWhitespace := IsWhitespace(token);
    WrappingFacts(text, read, wrapped, line, w, style, width);
    TokenRead(tokens, k);
    if narrow {
      TokenFacts(tokens, k, width);
      BoundedFits(tokens[k..], wrapped, line, w, width);
    }
    if tokenVisibleLength > width && !isWhitespace {
      if line != [] {
        var lineEndReset := tracker.GetLineEndReset();
        TokenBreaks(text, read, wrapped, line, w, style, token, width);
        WrapBreak(text, read, wrapped, line, w, style, width, line + lineEndReset);
        if narrow { EndedFits(wrapped, line, w, style, line + lineEndReset, width); }
        wrapped := wrapped + [line + lineEndReset];
      }
      var broken := BreakLongWord(token, width, tracker);
      WrapBroken(text, read, wrapped, style, token, broken, width);
      if narrow { BoundedBroken(tokens[k + 1..], wrapped, broken, width); }
      wrapped := wrapped + broken[..|broken| - 1];
      line := broken[|broken| - 1];
      w := Width(line);
      return;
    }
    if w + tokenVisibleLength > width && w > 0 {
      var lineEndReset := tracker.GetLineEndReset();
      var lineToWrap := TrimEnd(line) + lineEndReset;
      TokenBreaks(text, read, wrapped, line, w, style, token, width);
      WrapBreak(text, read, wrapped, line, w, style, width, lineToWrap);
      if narrow {
        EndedFits(wrapped, line, w, style, lineToWrap, width);
        BoundedBreak(tokens, k, wrapped + [lineToWrap], style, width);
      }
      if isWhitespace {
        WrapDrop(text, read, wrapped, line, w, style, width, lineToWrap, token);
        wrapped := wrapped + [lineToWrap];
        line := tracker.GetActiveCodes();
        w := 0;
      } else {
        WrapAppend(text, read, wrapped + [lineToWrap], ActiveCodes(style), 0, style, width, token);
        wrapped := wrapped + [lineToWrap];
        line := tracker.GetActiveCodes();
        line := line + token;
        w := tokenVisibleLength;
      }
    } else {
      WrapAppend(text, read, wrapped, line, w, style, width, token);
      if narrow { BoundedAppend(tokens, k, wrapped, line, w, width); }
      line := line + token;
      w := w + tokenVisibleLength;
    }
    tracker.UpdateFromText(token);
  }

  lemma TokenRead(tokens: seq<Text>, k: nat)
    requires Alternate(tokens) && k < |tokens|
    ensures var text, read, token := Flatten(tokens), Flatten(tokens[..k]), tokens[k];
      && Flatten(tokens[..k + 1]) == read + token && Follows(text, read, token)
  {
    hide Alternate, IsToken, Cells, Flatten, After, IsRun, At;
    TokenIsRun(tokens, k);
    FlattenSnoc(tokens[..k], tokens[k]);
    FlattenConcat(tokens[..k + 1], tokens[k + 1..]);
    TakeSnoc(tokens, k);
  }

  /** `wrapSingleLine`. The lines are cut out of the line, only blanks are lost at the cuts, and every
      break is necessary; and when no glyph is invisible, the lines keep to the width. */
  method WrapSingleLine(line: Text, width: nat) returns (lines: seq<Text>)
    ensures Filled(lines, line, width)
    ensures Narrow(line, width) ==> AllFit(lines, width)
    ensures Width(line) <= width ==> lines == [line]
    ensures Width(line) > width ==> forall i | 0 <= i < |lines| :: Trimmed(lines[i])
  {
    hide *;
    SingleLine(line, width);
    if line == [] {
      return [line];
    }
    if Width(line) <= width {
      return [line];
    }
    var wrapped: seq<Text> := [];
    var tracker := new AnsiCodeTracker();
    var tokens := SplitIntoTokens(line);
    var currentLine: Text := [];
    var currentVisibleLength: nat := 0;
    ghost var narrow := Narrow(line, width);
    WrapSingleStart(line, tokens, width);
    var k := 0;
    while k < |tokens|
      invariant 0 <= k <= |tokens|
      invariant Wrapping(line, Flatten(tokens[..k]), wrapped, currentLine, currentVisibleLength, tracker.State(), width)
      invariant narrow ==> Bounded(tokens[k..], wrapped, currentLine, currentVisibleLength, width)
    {
      wrapped, currentLine, currentVisibleLength :=
        WrapToken(tokens, k, tokens[k], width, tracker, wrapped, currentLine, currentVisibleLength);
      k := k + 1;
    }
    assert tokens[..k] == tokens && tokens[k..] == [];
    lines := wrapped;
    if currentLine != [] {
      lines := wrapped + [currentLine];
    }
    WrapEnd(line, wrapped, currentLine, currentVisibleLength, tracker.State(), lines, width);
    WrappingFacts(line, line, wrapped, currentLine, currentVisibleLength, tracker.State(), width);
    if narrow { EndFits(wrapped, currentLine, currentVisibleLength, lines, width); }
    TrimAllTrims(lines);
    NothingTrimmed();
    lines := if lines != [] then TrimAll(lines) else [[]];
  }

  lemma NothingTrimmed()
    ensures Trimmed([])
  {
  }

  lemma SingleLine(line: Text, width: nat)
    ensures Filled([line], line, width)
    ensures Width(line) <= width ==> AllFit([line], width)
    ensures line == [] ==> Width(line) <= width
    ensures Width(line) > width ==> HasGlyph(line)
  {
    FilledOne(line, line, width);
    if Width(line) > width { WideHasGlyph(line); }
  }

  lemma WrapSingleStart(text: Text, tokens: seq<Text>, width: nat)
    ensures Wrapping(text, Flatten(tokens[..0]), [], [], 0, PLAIN, width)
    ensures Bounded(tokens[0..], [], [], 0, width)
  {
  }

  lemma {:induction false} WideHasGlyph(t: Text)
    requires Width(t) > 0
    ensures HasGlyph(t)
  {
    if t[0].Glyph? {
    } else {
      WideHasGlyph(t[1..]);
      var g :| 0 <= g < |t[1..]| && t[1..][g].Glyph?;
      assert t[g + 1].Glyph?;
    }
  }

  // ---- Wrapping a text of several lines ----

  /** `split("\n")` */
  function SplitLines(t: Text): (lines: seq<Text>)
    ensures lines != []
  {
    if t == [] then [[]]
    else
      var init := SplitLines(t[..|t| - 1]);
      if t[|t| - 1] == NEWLINE then init + [[]]
      else init[..|init| - 1] + [init[|init| - 1] + [t[|t| - 1]]]
  }

  function Join(lines: seq<Text>): Text
    requires lines != []
  {
    if |lines| == 1 then lines[0] else Join(lines[..|lines| - 1]) + [NEWLINE] + lines[|lines| - 1]
  }

  lemma JoinNewline(lines: seq<Text>)
    requires lines != []
    ensures Join(lines + [[]]) == Join(lines) + [NEWLINE]
  {
    assert (lines + [[]])[..|lines|] == lines;
  }

  lemma JoinItem(front: seq<Text>, last: Text, item: Item)
    ensures Join(front + [last + [item]]) == Join(front + [last]) + [item]
  {
    assert (front + [last + [item]])[..|front|] == front && (front + [last])[..|front|] == front;
    if front != [] {
      assert Join(front) + [NEWLINE] + (last + [item]) == Join(front) + [NEWLINE] + last + [item];
    }
  }

  lemma {:induction false} JoinSplit(t: Text)
    ensures Join(SplitLines(t)) == t
  {
    hide Join, SplitLines;
    if t == [] {
      NothingSplit();
    } else {
      var before, item := t[..|t| - 1], t[|t| - 1];
      JoinSplit(before);
      SplitNext(before, item);
      assert t == before + [item];
      var lines := SplitLines(before);
      JoinNewline(lines);
      assert lines == lines[..|lines| - 1] + [lines[|lines| - 1]];
      JoinItem(lines[..|lines| - 1], lines[|lines| - 1], item);
    }
  }

  lemma NothingSplit()
    ensures SplitLines([]) == [[]] && Join([[]]) == []
  {
  }

  lemma SplitNext(t: Text, item: Item)
    ensures var lines := SplitLines(t);
      SplitLines(t + [item]) ==
        if item == NEWLINE then lines + [[]] else lines[..|lines| - 1] + [lines[|lines| - 1] + [item]]
  {
    assert (t + [item])[..|t|] == t;
  }

  lemma {:induction false} SplitItem(t: Text, k: nat, i: nat)
    requires k < |SplitLines(t)| && i < |SplitLines(t)[k]|
    ensures SplitLines(t)[k][i] in t && SplitLines(t)[k][i] != NEWLINE
  {
    if t != [] {
      var init, last := SplitLines(t[..|t| - 1]), t[|t| - 1];
      if k < |init| && i < |init[k]| {
        SplitItem(t[..|t| - 1], k, i);
        assert SplitLines(t)[k][i] == init[k][i];
      } else {
        assert SplitLines(t)[k][i] == last;
      }
    }
  }

  lemma LinesNarrow(t: Text, k: nat, width: nat, prefix: Text, style: Style)
    requires k < |SplitLines(t)| && width >= 1 && PositiveWidths(t) && WordsFit(t, width)
    requires prefix == [] || prefix == ActiveCodes(style)
    ensures Narrow(prefix + SplitLines(t)[k], width)
  {
    var line := SplitLines(t)[k];
    forall i | 0 <= i < |line| && line[i].Glyph? ensures 1 <= line[i].width <= width {
      SplitItem(t, k, i);
      var j :| 0 <= j < |t| && t[j] == line[i];
    }
    NarrowConcat(prefix, line, width);
  }

  lemma LineWrapped(read: Text, result: seq<Text>, style: Style, line: Text, wrapped: seq<Text>)
    requires Closed(read, result, style) && result != []
    requires Cut(wrapped, Cells(ActiveCodes(style) + line, PLAIN))
    ensures Closed(read + [NEWLINE] + line, result + wrapped, After(line, style))
  {
    hide Cut;
    var nl := Cell(NEWLINE.ch, NEWLINE.width, style);
    Snoc(read, NEWLINE, PLAIN);
    Concat(read + [NEWLINE], line, PLAIN);
    ActiveCodesReplay(style);
    Concat(ActiveCodes(style), line, PLAIN);
    assert [] + Cells(line, style) == Cells(line, style);
    AfterWellFormed(line, style);
    CutBlanks(result, Cells(read, PLAIN), [nl]);
    CutConcat(result, Cells(read, PLAIN) + [nl], wrapped, Cells(line, style));
  }

  lemma AllFitConcat(a: seq<Text>, b: seq<Text>, max: nat)
    requires AllFit(a, max) && AllFit(b, max)
    ensures AllFit(a + b, max)
  {
  }

  /** An input line behind the codes that replay the style before it. */
  function Prefixed(inputLines: seq<Text>, k: nat): Text
    requires k < |inputLines|
  {
    (if k == 0 then [] else ActiveCodes(After(Join(inputLines[..k]), PLAIN))) + inputLines[k]
  }

  /** Input lines that fit. */
  function Fitted(inputLines: seq<Text>, k: nat): seq<Text>
    requires k <= |inputLines|
  {
    if k == 0 then [] else Fitted(inputLines, k - 1) + [Prefixed(inputLines, k - 1)]
  }

  /** Each of the first `k` input lines has been wrapped with necessary breaks only. */
  ghost predicate FilledLines(lines: seq<Text>, inputLines: seq<Text>, k: nat, width: nat)
    requires k <= |inputLines|
    decreases k
  {
    if k == 0 then lines == []
    else exists m | 0 <= m <= |lines| ::
      FilledLines(lines[..m], inputLines, k - 1, width) && Filled(lines[m..], Prefixed(inputLines, k - 1), width)
  }

  lemma FilledNext(lines: seq<Text>, inputLines: seq<Text>, k: nat, wrapped: seq<Text>, width: nat)
    requires k < |inputLines| && FilledLines(lines, inputLines, k, width)
    requires Filled(wrapped, Prefixed(inputLines, k), width)
    ensures FilledLines(lines + wrapped, inputLines, k + 1, width)
  {
    hide Filled, Prefixed;
    assert (lines + wrapped)[..|lines|] == lines && (lines + wrapped)[|lines|..] == wrapped;
  }

  /** `wrapTextWithAnsi`. The lines are cut out of the text, each glyph in its own style, and only
      blanks at the cuts are lost; every break within a line of the text is necessary, and lines that
      fit come back as they are; and when no glyph is invisible, the lines keep to the width exactly
      when no single word glyph is too wide for it. */
  method WrapTextWithAnsi(text: Text, width: nat) returns (lines: seq<Text>)
    ensures lines != []
    ensures Cut(lines, Cells(text, PLAIN))
    ensures FilledLines(lines, SplitLines(text), |SplitLines(text)|, width)
    ensures AllFit(SplitLines(text), width) ==> lines == Fitted(SplitLines(text), |SplitLines(text)|)
    ensures width >= 1 && PositiveWidths(text) ==> (AllFit(lines, width) <==> WordsFit(text, width))
  {
    hide *;
    WrapStart(text, SplitLines(text), width);
    if text == [] {
      return [[]];
    }
    var inputLines := SplitLines(text);
    var tracker := new AnsiCodeTracker();
    lines := [];
    var k := 0;
    ghost var style := tracker.State();
    while k < |inputLines|
      invariant 0 <= k <= |inputLines| && inputLines == SplitLines(text)
      invariant tracker.State() == style && WrappedTo(text, inputLines, k, lines, style, width)
    {
      var prefix: Text := [];
      if lines != [] {
        prefix := tracker.GetActiveCodes();
      }
      var wrapped := WrapSingleLine(prefix + inputLines[k], width);
      tracker.UpdateFromText(inputLines[k]);
      LineDone(text, inputLines, k, lines, style, prefix, wrapped, width);
      lines, style, k := lines + wrapped, After(inputLines[k], style), k + 1;
    }
    AllDone(text, inputLines, k, lines, style, width);
  }

  /** The state of the loop over the input lines. */
  ghost predicate WrappedTo(text: Text, inputLines: seq<Text>, k: nat, lines: seq<Text>, style: Style, width: nat)
    requires k <= |inputLines|
  {
    && (lines == [] <==> k == 0)
    && (k == 0 ==> style == PLAIN)
    && (k > 0 ==> Closed(Join(inputLines[..k]), lines, style))
    && FilledLines(lines, inputLines, k, width)
    && (width >= 1 && PositiveWidths(text) && WordsFit(text, width) ==> AllFit(lines, width))
    && (AllFit(inputLines, width) ==> lines == Fitted(inputLines, k))
  }

  lemma WrapStart(text: Text, inputLines: seq<Text>, width: nat)
    ensures WrappedTo(text, inputLines, 0, [], PLAIN, width)
    ensures text == [] ==> Cut([[]], Cells(text, PLAIN)) && AllFit([[]], width) && WordsFit(text, width)
    ensures text == [] ==> SplitLines(text) == [[]] && Fitted([[]], 1) == [[]] && FilledLines([[]], [[]], 1, width)
  {
    AllCellsSingle([]);
    CutAll([[]]);
    if text == [] {
      NothingBegins();
      NoCells();
      FilledOne([], [], width);
      var none: seq<Text> := [];
      assert [[]][..0] == none && Prefixed([[]], 0) == [];
      FilledNext(none, [[]], 0, [[]], width);
      assert none + [[]] == [[]];
    }
  }

  lemma LineDone(text: Text, inputLines: seq<Text>, k: nat, lines: seq<Text>, style: Style, prefix: Text,
                 wrapped: seq<Text>, width: nat)
    requires inputLines == SplitLines(text) && k < |inputLines|
    requires WrappedTo(text, inputLines, k, lines, style, width)
    requires prefix == if lines != [] then ActiveCodes(style) else []
    requires Filled(wrapped, prefix + inputLines[k], width)
    requires Narrow(prefix + inputLines[k], width) ==> AllFit(wrapped, width)
    requires Width(prefix + inputLines[k]) <= width ==> wrapped == [prefix + inputLines[k]]
    ensures WrappedTo(text, inputLines, k + 1, lines + wrapped, After(inputLines[k], style), width)
  {
    hide Closed, AllFit, Fitted, PositiveWidths, WordsFit, FilledLines, Cut, Prefixed;
    assert wrapped != [];
    IsPrefixed(text, inputLines, k, lines, style, prefix, width);
    hide Filled;
    FilledCuts(wrapped, prefix + inputLines[k], width);
    LineCut(text, inputLines, k, lines, style, prefix, wrapped, width);
    LineFits(text, inputLines, k, lines, style, prefix, wrapped, width);
    FilledNext(lines, inputLines, k, wrapped, width);
  }

  lemma IsPrefixed(text: Text, inputLines: seq<Text>, k: nat, lines: seq<Text>, style: Style, prefix: Text, width: nat)
    requires k < |inputLines| && WrappedTo(text, inputLines, k, lines, style, width)
    requires prefix == if lines != [] then ActiveCodes(style) else []
    ensures prefix + inputLines[k] == Prefixed(inputLines, k)
  {
  }

  lemma LineCut(text: Text, inputLines: seq<Text>, k: nat, lines: seq<Text>, style: Style, prefix: Text,
                wrapped: seq<Text>, width: nat)
    requires inputLines == SplitLines(text) && k < |inputLines|
    requires WrappedTo(text, inputLines, k, lines, style, width)
    requires prefix == if lines != [] then ActiveCodes(style) else []
    requires Cut(wrapped, Cells(prefix + inputLines[k], PLAIN))
    ensures Closed(Join(inputLines[..k + 1]), lines + wrapped, After(inputLines[k], style))
  {
    hide Cut, AllFit, Fitted, PositiveWidths, WordsFit, Cells, FilledLines, After, WellFormed, Join, ActiveCodes;
    JoinNext(inputLines, k);
    if k == 0 {
      assert [] + inputLines[0] == inputLines[0] && lines + wrapped == wrapped;
      AfterWellFormed(inputLines[0], PLAIN);
    } else {
      LineWrapped(Join(inputLines[..k]), lines, style, inputLines[k], wrapped);
    }
  }

  lemma JoinNext(lines: seq<Text>, k: nat)
    requires k < |lines|
    ensures Join(lines[..k + 1]) == if k == 0 then lines[0] else Join(lines[..k]) + [NEWLINE] + lines[k]
  {
    assert lines[..k + 1][..k] == lines[..k];
  }

  lemma LineFits(text: Text, inputLines: seq<Text>, k: nat, lines: seq<Text>, style: Style, prefix: Text,
                 wrapped: seq<Text>, width: nat)
    requires inputLines == SplitLines(text) && k < |inputLines|
    requires WrappedTo(text, inputLines, k, lines, style, width)
    requires prefix == if lines != [] then ActiveCodes(style) else []
    requires Narrow(prefix + inputLines[k], width) ==> AllFit(wrapped, width)
    requires Width(prefix + inputLines[k]) <= width ==> wrapped == [prefix + inputLines[k]]
    ensures width >= 1 && PositiveWidths(text) && WordsFit(text, width) ==> AllFit(lines + wrapped, width)
    ensures AllFit(inputLines, width) ==> lines + wrapped == Fitted(inputLines, k + 1)
  {
    hide Cut, Cells, FilledLines;
    IsPrefixed(text, inputLines, k, lines, style, prefix, width);
    Concat(prefix, inputLines[k], PLAIN);
    if k > 0 { ActiveCodesReplay(style); } else { assert Width([]) == 0; }
    if width >= 1 && PositiveWidths(text) && WordsFit(text, width) {
      LinesNarrow(text, k, width, prefix, style);
      AllFitConcat(lines, wrapped, width);
    }
  }

  lemma AllDone(text: Text, inputLines: seq<Text>, k: nat, lines: seq<Text>, style: Style, width: nat)
    requires inputLines == SplitLines(text) && k == |inputLines|
    requires WrappedTo(text, inputLines, k, lines, style, width)
    ensures lines != [] && Cut(lines, Cells(text, PLAIN))
    ensures FilledLines(lines, inputLines, |inputLines|, width)
    ensures AllFit(inputLines, width) ==> lines == Fitted(inputLines, |inputLines|)
    ensures width >= 1 && PositiveWidths(text) ==> (AllFit(lines, width) <==> WordsFit(text, width))
  {
    assert inputLines[..k] == inputLines;
    JoinSplit(text);
    if AllFit(lines, width) { FittingWords(text, lines, width); }
  }

  lemma FittingWords(text: Text, lines: seq<Text>, width: nat)
    requires Cut(lines, Cells(text, PLAIN)) && AllFit(lines, width)
    ensures WordsFit(text, width)
  {
    hide Cut;
    CutThins(lines, Cells(text, PLAIN));
    forall i | 0 <= i < |text| && text[i].Glyph? && text[i] != NEWLINE && text[i] != SPACE
      ensures text[i].width <= width
    {
      if text[i].width > width { TooWideGlyph(text, lines, width, i); }
    }
  }

  /** In particular wrapping loses, repeats and reorders no glyph other than blanks. */
  lemma WrappedContent(lines: seq<Text>, text: Text)
    requires Cut(lines, Cells(text, PLAIN))
    ensures Solid(AllCells(lines)) == Solid(Cells(text, PLAIN))
  {
    CutThins(lines, Cells(text, PLAIN));
    ThinKeepsSolid(AllCells(lines), Cells(text, PLAIN));
  }
}
