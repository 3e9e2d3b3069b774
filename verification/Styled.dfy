/**
 Styled terminal text: a string as the sequence of items that the escape-sequence scanner
 finds in it, the meaning of SGR parameters (ECMA-48 section 8.3.117), and the tracker
 that replays the active attributes at the start of a line.
 */
module Styled {
  import opened Basics

  /** One item of a styled string. `Sgr` carries the parameters between `ESC [` and `m`,
      split at the semicolons; `Control` is any other zero-width escape sequence. */
  datatype Item = Sgr(params: seq<string>) | Control(text: string) | Glyph(ch: string, width: nat)

  type Text = seq<Item>

  const SPACE := Glyph(" ", 1)
  const NEWLINE := Glyph("\n", 0)

  /** `SEGMENT_RESET`: SGR 0 and the end of a hyperlink. */
  const SEGMENT_RESET: Text := [Sgr(["0"]), Control("\U{1b}]8;;\U{07}")]

  /** The colour a tracker stores: none, a direct code such as 31, or the parameters of an
      extended colour such as `38;5;240`. */
  datatype Color = Default | Direct(code: nat) | Extended(params: seq<string>)

  /** The attributes are the SGR codes that switch them on. */
  datatype Style = Style(attributes: set<int>, fg: Color, bg: Color)

  const BOLD := 1
  const DIM := 2
  const ITALIC := 3
  const UNDERLINE := 4
  const BLINK := 5
  const INVERSE := 7
  const HIDDEN := 8
  const STRIKETHROUGH := 9

  predicate IsAttribute(code: int) { 1 <= code <= 9 && code != 6 }

  const PLAIN := Style({}, Default, Default)

  /** A glyph as it appears on the terminal: with the rendition in force when it was written. */
  datatype Cell = Cell(ch: string, width: nat, style: Style)

  // ---- Meaning of SGR parameters ----

  predicate IsForeground(code: int) { 30 <= code <= 37 || 90 <= code <= 97 }

  predicate IsBackground(code: int) { 40 <= code <= 47 || 100 <= code <= 107 }

  /** The effect of one code that is not part of an extended colour. Code 21 switches bold
      off, 22 bold and dim; 23 to 29 switch off the attribute 20 below. */
  function ApplyCode(s: Style, code: int): Style {
    if code == 0 then PLAIN
    else if IsAttribute(code) then s.(attributes := s.attributes + {code})
    else if code == 22 then s.(attributes := s.attributes - {BOLD, DIM})
    else if IsAttribute(code - 20) then s.(attributes := s.attributes - {code - 20})
    else if code == 39 then s.(fg := Default)
    else if code == 49 then s.(bg := Default)
    else if IsForeground(code) then s.(fg := Direct(code))
    else if IsBackground(code) then s.(bg := Direct(code))
    else s
  }

  /** What a code does to each attribute and to the colours. */
  lemma SgrCode(s: Style, code: int)
    ensures var r := ApplyCode(s, code);
      && (forall a: int | 1 <= a <= 9 && a != 6 :: a in r.attributes <==>
            code == a || (a in s.attributes && code != 0 && code != a + 20 && !(a == 1 && code == 22)))
      && r.fg == (if code == 0 || code == 39 then Default
                  else if 30 <= code <= 37 || 90 <= code <= 97 then Direct(code) else s.fg)
      && r.bg == (if code == 0 || code == 49 then Default
                  else if 40 <= code <= 47 || 100 <= code <= 107 then Direct(code) else s.bg)
  {
  }

  function SetColor(s: Style, code: int, params: seq<string>): Style {
    if code == 38 then s.(fg := Extended(params)) else s.(bg := Extended(params))
  }

  /** How many parameters the extended colour at the head of `p` takes; 0 if there is none. */
  function ColorLength(p: seq<string>): (n: nat)
    ensures n <= |p|
  {
    if p == [] || (ParseInt(p[0]) != 38 && ParseInt(p[0]) != 48) then 0
    else if |p| >= 3 && p[1] == "5" then 3
    else if |p| >= 5 && p[1] == "2" then 5
    else 0
  }

  function ApplyParams(s: Style, p: seq<string>): Style
    decreases |p|
  {
    if p == [] then s
    else if ColorLength(p) > 0 then
      ApplyParams(SetColor(s, ParseInt(p[0]), p[..ColorLength(p)]), p[ColorLength(p)..])
    else ApplyParams(ApplyCode(s, ParseInt(p[0])), p[1..])
  }

  /** The rendition after one SGR sequence. */
  function Process(s: Style, p: seq<string>): Style {
    if p == [""] || p == ["0"] then PLAIN else ApplyParams(s, p)
  }

  function Advance(s: Style, item: Item): Style {
    if item.Sgr? then Process(s, item.params) else s
  }

  /** The rendition in force after reading `t` from `s`. */
  function After(t: Text, s: Style): Style {
    if t == [] then s else After(t[1..], Advance(s, t[0]))
  }

  /** The meaning of a styled string: its glyphs, each with the rendition it is drawn in. */
  function Cells(t: Text, s: Style): seq<Cell> {
    if t == [] then []
    else if t[0].Glyph? then [Cell(t[0].ch, t[0].width, s)] + Cells(t[1..], s)
    else Cells(t[1..], Advance(s, t[0]))
  }

  /** `visibleWidth` */
  function Width(t: Text): nat {
    if t == [] then 0 else (if t[0].Glyph? then t[0].width else 0) + Width(t[1..])
  }

  lemma {:induction false} Concat(a: Text, b: Text, s: Style)
    ensures After(a + b, s) == After(b, After(a, s))
    ensures Cells(a + b, s) == Cells(a, s) + Cells(b, After(a, s))
    ensures Width(a + b) == Width(a) + Width(b)
  {
    if a == [] {
      assert a + b == b;
    } else {
      assert (a + b)[1..] == a[1..] + b;
      Concat(a[1..], b, Advance(s, a[0]));
    }
  }

  lemma Snoc(a: Text, item: Item, s: Style)
    ensures After(a + [item], s) == Advance(After(a, s), item)
    ensures Cells(a + [item], s) ==
            Cells(a, s) + if item.Glyph? then [Cell(item.ch, item.width, After(a, s))] else []
    ensures Width(a + [item]) == Width(a) + if item.Glyph? then item.width else 0
  {
    Concat(a, [item], s);
    assert [item][1..] == [];
  }

  // ---- The styles a tracker can be in ----

  /** The colours that SGR parameters can select. */
  predicate IsColor(color: Color, background: bool) {
    match color
    case Default => true
    case Direct(code) => if background then IsBackground(code) else IsForeground(code)
    case Extended(params) =>
      && params != []
      && ColorLength(params) == |params|
      && ParseInt(params[0]) == if background then 48 else 38
  }

  predicate WellFormed(s: Style) {
    && (forall code | code in s.attributes :: IsAttribute(code))
    && IsColor(s.fg, false)
    && IsColor(s.bg, true)
  }

  lemma ApplyCodeWellFormed(s: Style, code: int)
    requires WellFormed(s)
    ensures WellFormed(ApplyCode(s, code))
  {
  }

  lemma {:induction false} ApplyParamsWellFormed(s: Style, p: seq<string>)
    requires WellFormed(s)
    ensures WellFormed(ApplyParams(s, p))
    decreases |p|
  {
    hide ApplyCode;
    if p == [] {
    } else if ColorLength(p) > 0 {
      var params := p[..ColorLength(p)];
      assert ColorLength(params) == |params|;
      ApplyParamsWellFormed(SetColor(s, ParseInt(p[0]), params), p[ColorLength(p)..]);
    } else {
      ApplyCodeWellFormed(s, ParseInt(p[0]));
      ApplyParamsWellFormed(ApplyCode(s, ParseInt(p[0])), p[1..]);
    }
  }

  lemma {:induction false} AfterWellFormed(t: Text, s: Style)
    requires WellFormed(s)
    ensures WellFormed(After(t, s))
  {
    if t != [] {
      if t[0].Sgr? { ApplyParamsWellFormed(s, t[0].params); }
      AfterWellFormed(t[1..], Advance(s, t[0]));
    }
  }

  // ---- Replaying a style ----

  function Flag(s: Style, code: int): seq<string>
    requires IsAttribute(code)
  {
    if code in s.attributes then [Decimal(code)] else []
  }

  function ColorParams(color: Color): seq<string> {
    match color
    case Default => []
    case Direct(code) => [Decimal(code)]
    case Extended(params) => params
  }

  /** The order in which `getActiveCodes` lists the attributes. */
  const ATTRIBUTES := [BOLD, DIM, ITALIC, UNDERLINE, BLINK, INVERSE, HIDDEN, STRIKETHROUGH]

  function Flags(s: Style, k: nat): seq<string>
    requires k <= |ATTRIBUTES|
  {
    if k == 0 then [] else Flags(s, k - 1) + Flag(s, ATTRIBUTES[k - 1])
  }

  /** The parameters that `getActiveCodes` joins. */
  function ActiveParams(s: Style): seq<string> {
    Flags(s, |ATTRIBUTES|) + ColorParams(s.fg) + ColorParams(s.bg)
  }

  function ActiveCodes(s: Style): Text {
    if ActiveParams(s) == [] then [] else [Sgr(ActiveParams(s))]
  }

  lemma ReplayFlag(s: Style, from: Style, code: int, rest: seq<string>)
    requires IsAttribute(code)
    ensures ApplyParams(from, Flag(s, code) + rest)
            == ApplyParams(from.(attributes := from.attributes + s.attributes * {code}), rest)
  {
    if code in s.attributes {
      DecimalRoundTrip(code);
      assert ([Decimal(code)] + rest)[1..] == rest;
      assert s.attributes * {code} == {code};
    } else {
      assert [] + rest == rest && from.attributes + s.attributes * {code} == from.attributes;
    }
  }

  lemma ReplayExtended(s: Style, code: int, params: seq<string>, rest: seq<string>)
    requires params != [] && ColorLength(params) == |params| && ParseInt(params[0]) == code
    ensures ApplyParams(s, params + rest) == ApplyParams(SetColor(s, code, params), rest)
  {
    hide ParseInt;
    var p := params + rest;
    assert p[0] == params[0] && p[..|params|] == params && p[|params|..] == rest;
    assert ColorLength(p) == |params|;
  }

  lemma ReplayDirect(s: Style, code: nat, rest: seq<string>)
    requires IsForeground(code) || IsBackground(code)
    ensures ApplyParams(s, [Decimal(code)] + rest) == ApplyParams(ApplyCode(s, code), rest)
  {
    hide ParseInt, Decimal, ApplyCode;
    DecimalRoundTrip(code);
    var p := [Decimal(code)] + rest;
    assert p[0] == Decimal(code) && p[1..] == rest && ColorLength(p) == 0;
  }

  lemma ReplayColor(s: Style, color: Color, background: bool, rest: seq<string>)
    requires IsColor(color, background)
    requires (if background then s.bg else s.fg) == Default
    ensures ApplyParams(s, ColorParams(color) + rest)
            == ApplyParams(if background then s.(bg := color) else s.(fg := color), rest)
  {
    hide ApplyParams, ColorLength, ParseInt, Decimal;
    match color {
      case Default => assert [] + rest == rest;
      case Direct(code) => ReplayDirect(s, code, rest);
      case Extended(params) => ReplayExtended(s, if background then 48 else 38, params, rest);
    }
  }

  function Listed(k: nat): set<int>
    requires k <= |ATTRIBUTES|
  {
    set i | 0 <= i < k :: ATTRIBUTES[i]
  }

  lemma {:induction false} ReplayFlags(s: Style, k: nat, rest: seq<string>)
    requires k <= |ATTRIBUTES|
    ensures ApplyParams(PLAIN, Flags(s, k) + rest)
            == ApplyParams(Style(s.attributes * Listed(k), Default, Default), rest)
  {
    hide ApplyParams;
    if k == 0 {
      assert [] + rest == rest;
      assert s.attributes * Listed(0) == {};
    } else {
      var from := Style(s.attributes * Listed(k - 1), Default, Default);
      var code := ATTRIBUTES[k - 1];
      assert Flags(s, k) + rest == Flags(s, k - 1) + (Flag(s, code) + rest);
      ReplayFlags(s, k - 1, Flag(s, code) + rest);
      ReplayFlag(s, from, code, rest);
      assert Listed(k) == Listed(k - 1) + {code};
      assert s.attributes * Listed(k) == from.attributes + s.attributes * {code};
    }
  }

  lemma ReplayParams(s: Style)
    requires WellFormed(s)
    ensures ApplyParams(PLAIN, ActiveParams(s)) == s
  {
    hide Flags, Flag;
    var flags := Style(s.attributes, Default, Default);
    var bg := ColorParams(s.bg) + [];
    assert ActiveParams(s) == Flags(s, |ATTRIBUTES|) + (ColorParams(s.fg) + bg);
    ReplayFlags(s, |ATTRIBUTES|, ColorParams(s.fg) + bg);
    assert s.attributes * Listed(|ATTRIBUTES|) == s.attributes by {
      forall code | code in s.attributes ensures code in Listed(|ATTRIBUTES|) {
        assert ATTRIBUTES[if code < 6 then code - 1 else code - 2] == code;
      }
    }
    ReplayColor(flags, s.fg, false, bg);
    ReplayColor(flags.(fg := s.fg), s.bg, true, []);
  }

  /** A fresh tracker fed the active codes of a style reaches that style. */
  lemma ActiveCodesReplay(s: Style)
    requires WellFormed(s)
    ensures After(ActiveCodes(s), PLAIN) == s
    ensures Cells(ActiveCodes(s), PLAIN) == [] && Width(ActiveCodes(s)) == 0
  {
    ReplayParams(s);
    NotReset(s);
    if ActiveParams(s) != [] {
      assert ActiveCodes(s)[1..] == [];
    }
  }

  lemma {:induction false} FlagsAreCodes(s: Style, k: nat)
    requires k <= |ATTRIBUTES|
    ensures forall i | 0 <= i < |Flags(s, k)| :: ParseInt(Flags(s, k)[i]) > 0
  {
    if k > 0 {
      FlagsAreCodes(s, k - 1);
      DecimalRoundTrip(ATTRIBUTES[k - 1]);
    }
  }

  lemma NotReset(s: Style)
    requires WellFormed(s)
    ensures ActiveParams(s) != [""] && ActiveParams(s) != ["0"]
  {
    hide Flags, Decimal;
    ValueSnoc("", '0');
    assert "" + ['0'] == "0";
    FlagsAreCodes(s, |ATTRIBUTES|);
    if s.fg.Direct? { DecimalRoundTrip(s.fg.code); }
    if s.bg.Direct? { DecimalRoundTrip(s.bg.code); }
    var p := ActiveParams(s);
    if p != [] {
      assert p[0] == if Flags(s, |ATTRIBUTES|) != [] then Flags(s, |ATTRIBUTES|)[0]
                     else if s.fg != Default then ColorParams(s.fg)[0] else ColorParams(s.bg)[0];
      assert ParseInt(p[0]) > 0;
    }
  }

  function LineEndReset(s: Style): Text {
    if UNDERLINE in s.attributes then [Sgr(["24"])] else []
  }

  // ---- The tracker ----

  /** One step through the parameters: a code with the parameters of its colour, or a code alone. */
  lemma NextParam(s: Style, parts: seq<string>, i: nat)
    requires i < |parts|
    ensures var code := ParseInt(parts[i]);
      ApplyParams(s, parts[i..]) ==
        if (code == 38 || code == 48) && i + 2 < |parts| && parts[i + 1] == "5" then
          ApplyParams(SetColor(s, code, parts[i..i + 3]), parts[i + 3..])
        else if (code == 38 || code == 48) && i + 4 < |parts| && parts[i + 1] == "2" then
          ApplyParams(SetColor(s, code, parts[i..i + 5]), parts[i + 5..])
        else ApplyParams(ApplyCode(s, code), parts[i + 1..])
  {
    hide ApplyCode, ParseInt, SetColor;
    var rest := parts[i..];
    assert rest[0] == parts[i] && rest[1..] == parts[i + 1..];
    if i + 2 < |parts| { assert rest[1] == parts[i + 1] && rest[..3] == parts[i..i + 3] && rest[3..] == parts[i + 3..]; }
    if i + 4 < |parts| { assert rest[..5] == parts[i..i + 5] && rest[5..] == parts[i + 5..]; }
  }

  lemma NoParams(s: Style)
    ensures ApplyParams(s, []) == s
  {
  }

  /** `AnsiCodeTracker`: the attributes are separate mutable fields. */
  class AnsiCodeTracker {
    var bold: bool
    var dim: bool
    var italic: bool
    var underline: bool
    var blink: bool
    var inverse: bool
    var hidden: bool
    var strikethrough: bool
    var fgColor: Color
    var bgColor: Color

    function IsOn(code: int): bool
      reads this
    {
      (code == BOLD && bold) || (code == DIM && dim) || (code == ITALIC && italic) ||
      (code == UNDERLINE && underline) || (code == BLINK && blink) || (code == INVERSE && inverse) ||
      (code == HIDDEN && hidden) || (code == STRIKETHROUGH && strikethrough)
    }

    function State(): Style
      reads this
    {
      Style((set code | 1 <= code <= 9 && IsOn(code)), fgColor, bgColor)
    }

    constructor ()
      ensures State() == PLAIN
    {
      bold, dim, italic, underline := false, false, false, false;
      blink, inverse, hidden, strikethrough := false, false, false, false;
      fgColor, bgColor := Default, Default;
    }

    method Clear()
      modifies this
      ensures State() == PLAIN
    {
      bold, dim, italic, underline := false, false, false, false;
      blink, inverse, hidden, strikethrough := false, false, false, false;
      fgColor, bgColor := Default, Default;
    }

    /** The attribute named by a code is switched on, or off. */
    method Switch(code: int, on: bool)
      requires IsAttribute(code)
      modifies this
      ensures State() == old(State()).(attributes :=
        if on then old(State()).attributes + {code} else old(State()).attributes - {code})
    {
      if code == BOLD { bold := on; }
      else if code == DIM { dim := on; }
      else if code == ITALIC { italic := on; }
      else if code == UNDERLINE { underline := on; }
      else if code == BLINK { blink := on; }
      else if code == INVERSE { inverse := on; }
      else if code == HIDDEN { hidden := on; }
      else { strikethrough := on; }
    }

    /** One code outside an extended colour. */
    method ProcessCode(code: int)
      modifies this
      ensures State() == ApplyCode(old(State()), code)
    {
      if code == 0 { Clear(); }
      else if IsAttribute(code) { Switch(code, true); }
      else if code == 22 { bold, dim := false, false; }
      else if IsAttribute(code - 20) { Switch(code - 20, false); }
      else if code == 39 { fgColor := Default; }
      else if code == 49 { bgColor := Default; }
      else if IsForeground(code) { fgColor := Direct(code); }
      else if IsBackground(code) { bgColor := Direct(code); }
    }

    method SetExtended(code: int, params: seq<string>)
      modifies this
      ensures State() == SetColor(old(State()), code, params)
    {
      if code == 38 { fgColor := Extended(params); } else { bgColor := Extended(params); }
      assert State().attributes == old(State()).attributes;
    }

    method ProcessItem(item: Item)
      modifies this
      ensures State() == Advance(old(State()), item)
    {
      hide ApplyCode, ParseInt, ApplyParams, ColorLength, SetColor;
      if !item.Sgr? { return; }
      var parts := item.params;
      if parts == [""] || parts == ["0"] {
        Clear();
        return;
      }
      var i := 0;
      assert parts[0..] == parts;
      while i < |parts|
        invariant 0 <= i <= |parts|
        invariant ApplyParams(State(), parts[i..]) == ApplyParams(old(State()), parts)
      {
        NextParam(State(), parts, i);
        var code := ParseInt(parts[i]);
        if (code == 38 || code == 48) && i + 2 < |parts| && parts[i + 1] == "5" {
          SetExtended(code, parts[i..i + 3]);
          i := i + 3;
        } else if (code == 38 || code == 48) && i + 4 < |parts| && parts[i + 1] == "2" {
          SetExtended(code, parts[i..i + 5]);
          i := i + 5;
        } else {
          ProcessCode(code);
          i := i + 1;
        }
      }
      assert parts[i..] == [];
      NoParams(State());
    }

    /** `getActiveCodes` */
    method GetActiveCodes() returns (codes: Text)
      ensures codes == ActiveCodes(State())
    {
      var params: seq<string> := [];
      for k := 0 to |ATTRIBUTES|
        invariant params == Flags(State(), k)
      {
        if IsOn(ATTRIBUTES[k]) { params := params + [Decimal(ATTRIBUTES[k])]; }
      }
      params := params + ColorParams(fgColor) + ColorParams(bgColor);
      codes := if params == [] then [] else [Sgr(params)];
    }

    /** `getLineEndReset`: only underline is switched off at a line end. */
    method GetLineEndReset() returns (codes: Text)
      ensures codes == LineEndReset(State())
    {
      codes := if underline then [Sgr(["24"])] else [];
    }

    /** `updateTrackerFromText` */
    method UpdateFromText(text: Text)
      modifies this
      ensures State() == After(text, old(State()))
    {
      var i := 0;
      while i < |text|
        invariant 0 <= i <= |text|
        invariant After(text[i..], State()) == After(text, old(State()))
      {
        assert text[i..][0] == text[i] && text[i..][1..] == text[i + 1..];
        ProcessItem(text[i]);
        i := i + 1;
      }
    }
  }
}
