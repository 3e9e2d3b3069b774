/**
 The terminal that the renderer writes to: a scrollback, a screen of `height` rows, a cursor
 and the current rendition. Control functions follow ECMA-48: cursor up and down (sections
 8.3.22 and 8.3.19) stop at the edge of the screen and never scroll, a parameter of 0 means
 1, and erasing (section 8.3.41) leaves the cursor where it is.
 */
module Terminals {
  import opened Basics
  import opened Styled

  /** A column of a row: the first column of a glyph, a further column of a wide glyph, or
      nothing. A row lists its columns up to the last one in use, so `[]` is a blank row. */
  datatype Column = Head(cell: Cell) | Tail | Empty(style: Style)

  type Row = seq<Column>

  datatype Command =
    | CarriageReturn
    | LineFeed
    | Up(n: nat)
    | Down(n: nat)
    | ToColumn(n: nat)
    | EraseLine
    | EraseAll           // erase the display, home, erase the scrollback
    | Print(item: Item)
    | Synchronized(on: bool)

  /** `rows` is the scrollback followed by the screen; `row` counts from the first of them.
      `clamped` records whether a relative move was ever cut short by the edge of the screen. */
  datatype Screen = Screen(width: nat, height: nat, rows: seq<Row>, row: nat, col: nat, pen: Style, clamped: bool) {

    predicate Valid() {
      1 <= width && 1 <= height <= |rows| && |rows| - height <= row < |rows| && col <= width
    }

    /** The first row of the screen. */
    function Top(): nat
      requires Valid()
    {
      |rows| - height
    }
  }

  function Blanks(n: nat, c: Column): Row { seq(n, _ => c) }

  /** An erased row takes the background of the current rendition. */
  function Erased(s: Screen): Row {
    if s.pen == PLAIN then [] else Blanks(s.width, Empty(s.pen))
  }

  function Columns(ch: string, width: nat, pen: Style): Row {
    if width == 0 then [] else [Head(Cell(ch, width, pen))] + Blanks(width - 1, Tail)
  }

  function Overwrite(row: Row, col: nat, columns: Row): Row {
    var padded := row + Blanks(Max(0, col - |row|), Empty(PLAIN));
    padded[..col] + columns + if col + |columns| <= |row| then row[col + |columns|..] else []
  }

  function Feed(s: Screen): Screen
    requires s.Valid()
  {
    if s.row + 1 < |s.rows| then s.(row := s.row + 1)
    else s.(row := s.row + 1, rows := s.rows + [Erased(s)])
  }

  /** A glyph that does not fit before the right edge goes to the next row. */
  function Put(s: Screen, ch: string, width: nat): (r: Screen)
    requires s.Valid()
    ensures r.Valid()
  {
    var at := if s.col + width > s.width then Feed(s.(col := 0)) else s;
    at.(rows := at.rows[at.row := Overwrite(at.rows[at.row], at.col, Columns(ch, width, at.pen))],
        col := Min(at.col + width, at.width))
  }

  function Step(c: Command, s: Screen): (r: Screen)
    requires s.Valid()
    ensures r.Valid()
  {
    match c
    case CarriageReturn => s.(col := 0)
    case LineFeed => Feed(s)
    case Up(n) =>
      var to := s.row - Max(n, 1);
      if to < s.Top() then s.(row := s.Top(), clamped := true) else s.(row := to)
    case Down(n) =>
      var to := s.row + Max(n, 1);
      if to >= |s.rows| then s.(row := |s.rows| - 1, clamped := true) else s.(row := to)
    case ToColumn(n) => s.(col := Min(Max(n, 1), s.width) - 1)
    case EraseLine => s.(rows := s.rows[s.row := Erased(s)])
    case EraseAll => s.(rows := seq(s.height, _ => Erased(s)), row := 0, col := 0)
    case Print(item) => if item.Glyph? then Put(s, item.ch, item.width) else s.(pen := Advance(s.pen, item))
    case Synchronized(_) => s
  }

  function Exec(cs: seq<Command>, s: Screen): (r: Screen)
    requires s.Valid()
    ensures r.Valid()
  {
    if cs == [] then s else Exec(cs[1..], Step(cs[0], s))
  }

  lemma {:induction false} ExecConcat(a: seq<Command>, b: seq<Command>, s: Screen)
    requires s.Valid()
    ensures Exec(a + b, s) == Exec(b, Exec(a, s))
  {
    if a == [] {
      assert a + b == b;
    } else {
      assert (a + b)[1..] == a[1..] + b;
      ExecConcat(a[1..], b, Step(a[0], s));
    }
  }

  lemma ExecOne(c: Command, s: Screen)
    requires s.Valid()
    ensures Exec([c], s) == Step(c, s)
  {
    assert [c][1..] == [];
    assert Exec([c][1..], Step(c, s)) == Step(c, s);
  }

  lemma ExecTwo(c: Command, d: Command, s: Screen)
    requires s.Valid()
    ensures Exec([c, d], s) == Step(d, Step(c, s))
  {
    assert [c, d][1..] == [d];
    ExecOne(d, Step(c, s));
  }

  /** A move that was cut short once stays on record. */
  lemma {:induction false} ClampedStays(cs: seq<Command>, s: Screen)
    requires s.Valid() && s.clamped
    ensures Exec(cs, s).clamped
  {
    if cs != [] { ClampedStays(cs[1..], Step(cs[0], s)); }
  }

  /** What a line looks like in a row of its own. */
  function Paint(t: Text, pen: Style): Row {
    if t == [] then []
    else if t[0].Glyph? then Columns(t[0].ch, t[0].width, pen) + Paint(t[1..], pen)
    else Paint(t[1..], Advance(pen, t[0]))
  }

  function Prints(t: Text): seq<Command> { seq(|t|, i requires 0 <= i < |t| => Print(t[i])) }

  lemma {:induction false} PaintWidth(t: Text, pen: Style)
    ensures |Paint(t, pen)| == Width(t)
  {
    if t != [] { PaintWidth(t[1..], Advance(pen, t[0])); }
  }

  lemma OverwriteEnd(row: Row, columns: Row)
    ensures Overwrite(row, |row|, columns) == row + columns
  {
    assert row + Blanks(0, Empty(PLAIN)) == row;
    assert row[..|row|] == row;
    assert (row + columns) + [] == row + columns;
  }

  /** Printing a text that fits after the end of its row appends its picture to the row. */
  lemma {:induction false} PrintText(t: Text, s: Screen)
    requires s.Valid() && |s.rows[s.row]| == s.col && s.col + Width(t) <= s.width
    ensures var r := Exec(Prints(t), s);
      r == s.(rows := s.rows[s.row := s.rows[s.row] + Paint(t, s.pen)], col := s.col + Width(t), pen := After(t, s.pen))
  {
    var row := s.rows[s.row];
    if t == [] {
      assert row + [] == row;
    } else {
      assert Prints(t)[0] == Print(t[0]) && Prints(t)[1..] == Prints(t[1..]);
      var next := Step(Print(t[0]), s);
      PrintItem(t[0], s);
      hide Step, Columns;
      PrintText(t[1..], next);
      if t[0].Glyph? { Assoc(row, Columns(t[0].ch, t[0].width, s.pen), Paint(t[1..], s.pen)); }
    }
  }

  lemma PrintItem(item: Item, s: Screen)
    requires s.Valid() && |s.rows[s.row]| == s.col && (item.Glyph? ==> s.col + item.width <= s.width)
    ensures var next := Step(Print(item), s);
      next == if item.Glyph?
        then s.(rows := s.rows[s.row := s.rows[s.row] + Columns(item.ch, item.width, s.pen)], col := s.col + item.width)
        else s.(pen := Advance(s.pen, item))
    ensures item.Glyph? ==> |Columns(item.ch, item.width, s.pen)| == item.width
  {
    if item.Glyph? { OverwriteEnd(s.rows[s.row], Columns(item.ch, item.width, s.pen)); }
  }

  class Terminal {
    var screen: Screen

    constructor (s: Screen)
      ensures screen == s
    {
      screen := s;
    }

    method Write(buffer: seq<Command>)
      requires screen.Valid()
      modifies this
      ensures screen.Valid() && screen == Exec(buffer, old(screen))
    {
      var i := 0;
      while i < |buffer|
        invariant 0 <= i <= |buffer| && screen.Valid()
        invariant Exec(buffer[i..], screen) == Exec(buffer, old(screen))
      {
        screen := Step(buffer[i], screen);
        i := i + 1;
      }
    }
  }
}
