/**
 What the differential renderer needs to know about frames and the terminal: what the terminal
 shows, what each group of commands does to it, which lines differ, how lines are prepared, and
 what the renderer believes between two renders.
 */
module Frames {
  import opened Basics
  import opened Styled
  import opened Terminals

  // ---- What the terminal shows ----

  /** `\x1b_pi:c\x07` */
  const CURSOR_MARKER := Control("\U{1b}_pi:c\U{07}")

  /** A line as the renderer writes it: not empty, within the width, ending in a plain style. */
  predicate IsLine(line: Text, width: int) {
    line != [] && After(line, PLAIN) == PLAIN && Width(line) <= width
  }

  ghost predicate AllLines(lines: seq<Text>, width: int) {
    forall i | 0 <= i < |lines| :: IsLine(lines[i], width)
  }

  function RowOf(lines: seq<Text>, k: int): Row {
    if 0 <= k < |lines| then Paint(lines[k], PLAIN) else []
  }

  /** Below `history`, the rows show the lines and then nothing. */
  ghost predicate Shows(s: Screen, history: seq<Row>, lines: seq<Text>) {
    && |history| + |lines| <= |s.rows|
    && s.rows[..|history|] == history
    && forall j {:trigger s.rows[j]} | |history| <= j < |s.rows| :: s.rows[j] == RowOf(lines, j - |history|)
  }

  /** The rendition is plain and no move was ever cut short. */
  predicate Ready(s: Screen) {
    s.Valid() && s.pen == PLAIN && !s.clamped
  }

  predicate SameSize(s: Screen, r: Screen) {
    s.width == r.width && s.height == r.height
  }

  // ---- Commands and what they do to the picture ----

  function Move(delta: int): seq<Command> {
    if delta > 0 then [Down(delta)] else if delta < 0 then [Up(-delta)] else []
  }

  lemma MoveRow(s: Screen, delta: int)
    requires Ready(s)
    ensures var r := Exec(Move(delta), s);
      if s.Top() <= s.row + delta < |s.rows| then r == s.(row := s.row + delta) else r.clamped
  {
    if delta > 0 { ExecOne(Down(delta), s); } else if delta < 0 { ExecOne(Up(-delta), s); }
  }

  const LINE_END := [CarriageReturn, LineFeed]

  lemma FeedLine(s: Screen, history: seq<Row>, lines: seq<Text>)
    requires Ready(s) && Shows(s, history, lines)
    ensures var r := Exec(LINE_END, s);
      && Ready(r) && SameSize(s, r) && Shows(r, history, lines)
      && r.row == s.row + 1 && r.col == 0
      && |r.rows| == Max(|s.rows|, s.row + 2)
  {
    ExecTwo(CarriageReturn, LineFeed, s);
  }

  /** Line `k` is replaced, or added. */
  function Replace(lines: seq<Text>, k: nat, line: Text): seq<Text>
    requires k <= |lines|
  {
    if k < |lines| then lines[k := line] else lines + [line]
  }

  lemma PrintLine(s: Screen, history: seq<Row>, lines: seq<Text>, k: nat, line: Text)
    requires Ready(s) && Shows(s, history, lines) && k <= |lines|
    requires s.row == |history| + k && s.col == 0 && s.rows[s.row] == [] && IsLine(line, s.width)
    ensures var r := Exec(Prints(line), s);
      && Ready(r) && SameSize(s, r) && Shows(r, history, Replace(lines, k, line))
      && r.row == s.row && |r.rows| == |s.rows|
  {
    PrintText(line, s);
    assert [] + Paint(line, PLAIN) == Paint(line, PLAIN);
    var r := Exec(Prints(line), s);
    assert r.rows[..|history|] == history;
  }

  lemma EraseRow(s: Screen, history: seq<Row>, lines: seq<Text>, k: nat)
    requires Ready(s) && Shows(s, history, lines) && s.row == |history| + k
    ensures var r := Step(EraseLine, s);
      && Ready(r) && SameSize(s, r) && r.row == s.row && r.col == s.col && |r.rows| == |s.rows|
      && r.rows[r.row] == []
      && Shows(r, history, if k < |lines| then lines[k := []] else lines)
  {
    var r := Step(EraseLine, s);
    assert r.rows[..|history|] == history;
  }

  lemma RewriteLine(s: Screen, history: seq<Row>, lines: seq<Text>, k: nat, line: Text)
    requires Ready(s) && Shows(s, history, lines) && k <= |lines|
    requires s.row == |history| + k && s.col == 0 && IsLine(line, s.width)
    ensures var r := Exec([EraseLine] + Prints(line), s);
      && Ready(r) && SameSize(s, r) && Shows(r, history, Replace(lines, k, line))
      && r.row == s.row && |r.rows| == |s.rows|
  {
    EraseRow(s, history, lines, k);
    ExecConcat([EraseLine], Prints(line), s);
    ExecOne(EraseLine, s);
    var erased := if k < |lines| then lines[k := []] else lines;
    PrintLine(Step(EraseLine, s), history, erased, k, line);
    assert Replace(erased, k, line) == Replace(lines, k, line);
  }

  /** The cursor rests on line `row` of the lines shown. */
  ghost predicate Landed(s: Screen, history: seq<Row>, lines: seq<Text>, row: nat) {
    && Ready(s) && Shows(s, history, lines)
    && s.row == |history| + row && row <= Max(|lines| - 1, 0)
    && (lines == [] ==> s.col == 0)
  }

  /** A relative move and then one to a column, whatever the rows show. */
  lemma MoveCursor(s: Screen, delta: int, col: nat)
    requires Ready(s)
    ensures var r := Exec(Move(delta) + [ToColumn(col + 1)], s);
      && SameSize(s, r) && r.rows == s.rows
      && if s.Top() <= s.row + delta < |s.rows| then r == s.(row := s.row + delta, col := Min(col, s.width - 1)) else r.clamped
  {
    ExecConcat(Move(delta), [ToColumn(col + 1)], s);
    MoveRow(s, delta);
    var moved := Exec(Move(delta), s);
    SameGrid(Move(delta), s);
    ExecOne(ToColumn(col + 1), moved);
  }

  /** Moving from one line to another works exactly when the other is on the screen. */
  lemma PlaceCursor(s: Screen, history: seq<Row>, lines: seq<Text>, from: nat, to: nat, col: nat)
    requires Landed(s, history, lines, from) && to < |lines|
    ensures var r := Exec(Move(to - from) + [ToColumn(col + 1)], s);
      && SameSize(s, r) && r.rows == s.rows
      && (if |history| + to >= s.Top() then Landed(r, history, lines, to) && r.col == Min(col, s.width - 1) else r.clamped)
  {
    MoveCursor(s, to - from, col);
  }

  predicate IsMove(c: Command) {
    c.Up? || c.Down? || c.ToColumn? || c.CarriageReturn? || c.Synchronized?
  }

  lemma {:induction false} SameGrid(cs: seq<Command>, s: Screen)
    requires s.Valid() && forall i | 0 <= i < |cs| :: IsMove(cs[i])
    ensures var r := Exec(cs, s); r.rows == s.rows && SameSize(s, r) && r.pen == s.pen
  {
    if cs != [] { SameGrid(cs[1..], Step(cs[0], s)); }
  }

  // ---- Painting all lines ----

  /** The state of the painting loop after `i` lines, begun on screen `from`. */
  ghost predicate Painting(s: Screen, from: Screen, history: seq<Row>, lines: seq<Text>, i: nat)
    requires i <= |lines|
  {
    && Ready(s) && SameSize(s, from) && Shows(s, history, lines[..i])
    && s.row == |history| + Max(0, i - 1)
    && (i == 0 ==> s.col == 0)
    && |s.rows| == Max(|from.rows|, |history| + i)
  }

  function PaintCommands(lines: seq<Text>, i: nat): seq<Command>
    requires i < |lines|
  {
    (if i > 0 then LINE_END else []) + Prints(lines[i])
  }

  lemma PaintStart(s: Screen, history: seq<Row>, lines: seq<Text>)
    requires Landed(s, history, [], 0)
    ensures Painting(s, s, history, lines, 0)
  {
  }

  lemma PaintNext(s: Screen, from: Screen, history: seq<Row>, lines: seq<Text>, i: nat)
    requires i < |lines| && Painting(s, from, history, lines, i) && IsLine(lines[i], from.width)
    ensures Painting(Exec(PaintCommands(lines, i), s), from, history, lines, i + 1)
  {
    var feed := if i > 0 then LINE_END else [];
    ExecConcat(feed, Prints(lines[i]), s);
    if i > 0 { FeedLine(s, history, lines[..i]); }
    var fed := Exec(feed, s);
    assert fed.rows[fed.row] == [];
    PrintLine(fed, history, lines[..i], i, lines[i]);
    assert Replace(lines[..i], i, lines[i]) == lines[..i + 1];
  }

  lemma ClearedScreen(s: Screen)
    requires Ready(s)
    ensures var r := Exec([EraseAll], s); Landed(r, [], [], 0) && SameSize(s, r) && |r.rows| == r.height
  {
    ExecOne(EraseAll, s);
  }

  // ---- Patching the changed lines ----

  /** The lines on the terminal once the new ones are written up to `i`. */
  function Patched(prev: seq<Text>, new_: seq<Text>, i: nat): seq<Text>
    requires i <= |new_|
  {
    new_[..i] + if i < |prev| then prev[i..] else []
  }

  /** The state of the patching loop, begun on screen `from` at line `first`, before line `i`. */
  ghost predicate Patching(s: Screen, from: Screen, history: seq<Row>, prev: seq<Text>, new_: seq<Text>, first: nat, i: nat)
    requires i <= |new_|
  {
    && Ready(s) && SameSize(s, from) && Shows(s, history, Patched(prev, new_, i))
    && first <= i && s.row == |history| + (if i == first then first else i - 1)
    && (i == first ==> s.col == 0)
    && |s.rows| == Max(|from.rows|, |history| + Max(i, first + 1))
  }

  function PatchCommands(new_: seq<Text>, first: nat, i: nat): seq<Command>
    requires i < |new_|
  {
    (if i > first then LINE_END else []) + ([EraseLine] + Prints(new_[i]))
  }

  /** Going to the first changed line: directly, or by a line feed from the last old line. */
  function GoTo(first: nat, append: bool, row: nat): seq<Command> {
    Move((if append then first - 1 else first) - row) + if append then LINE_END else [CarriageReturn]
  }

  lemma PatchStart(s: Screen, history: seq<Row>, prev: seq<Text>, new_: seq<Text>, first: nat, append: bool, row: nat)
    requires Landed(s, history, prev, row) && first < |new_|
    requires first <= |prev| && prev[..first] == new_[..first]
    requires append <==> first == |prev|
    requires prev != [] && first >= s.Top() - |history|
    ensures Patching(Exec(GoTo(first, append, row), s), s, history, prev, new_, first, first)
  {
    var target := if append then first - 1 else first;
    ExecConcat(Move(target - row), if append then LINE_END else [CarriageReturn], s);
    MoveRow(s, target - row);
    var moved := s.(row := |history| + target);
    assert Exec(Move(target - row), s) == moved;
    assert Patched(prev, new_, first) == prev;
    if append {
      FeedLine(moved, history, prev);
    } else {
      ExecOne(CarriageReturn, moved);
    }
  }

  lemma PatchNext(s: Screen, from: Screen, history: seq<Row>, prev: seq<Text>, new_: seq<Text>, first: nat, i: nat)
    requires i < |new_| && Patching(s, from, history, prev, new_, first, i) && IsLine(new_[i], from.width)
    ensures Patching(Exec(PatchCommands(new_, first, i), s), from, history, prev, new_, first, i + 1)
  {
    var lines := Patched(prev, new_, i);
    var feed := if i > first then LINE_END else [];
    ExecConcat(feed, [EraseLine] + Prints(new_[i]), s);
    if i > first { FeedLine(s, history, lines); }
    var fed := Exec(feed, s);
    RewriteLine(fed, history, lines, i, new_[i]);
    assert Replace(lines, i, new_[i]) == Patched(prev, new_, i + 1);
  }

  // ---- Clearing lines that are gone ----

  /** The old lines with `c` of them blanked from `start` on. */
  function Cleared(prev: seq<Text>, start: nat, c: nat): seq<Text>
    requires start <= |prev|
  {
    seq(|prev|, i requires 0 <= i < |prev| => if start <= i < start + c then [] else prev[i])
  }

  lemma ClearedShows(s: Screen, history: seq<Row>, prev: seq<Text>, start: nat, c: nat)
    requires start <= |prev| && start + c >= |prev| && Shows(s, history, Cleared(prev, start, c))
    ensures Shows(s, history, prev[..start])
  {
    forall j {:trigger s.rows[j]} | |history| <= j < |s.rows|
      ensures s.rows[j] == RowOf(prev[..start], j - |history|)
    {
      assert s.rows[j] == RowOf(Cleared(prev, start, c), j - |history|);
    }
  }

  lemma EraseCleared(s: Screen, history: seq<Row>, prev: seq<Text>, start: nat, c: nat)
    requires start <= |prev| && Ready(s) && Shows(s, history, Cleared(prev, start, c)) && s.row == |history| + start + c
    ensures var r := Step(EraseLine, s);
      && Ready(r) && SameSize(s, r) && r.row == s.row && r.col == s.col && |r.rows| == |s.rows|
      && Shows(r, history, Cleared(prev, start, c + 1))
  {
    var lines := Cleared(prev, start, c);
    EraseRow(s, history, lines, start + c);
    assert Cleared(prev, start, c + 1) == if start + c < |lines| then lines[start + c := []] else lines;
  }

  /** The clearing loop of the patching path: line feed and erase. */
  ghost predicate Clearing(s: Screen, from: Screen, history: seq<Row>, prev: seq<Text>, start: nat, c: nat)
    requires start <= |prev|
  {
    && Ready(s) && SameSize(s, from) && |s.rows| == |from.rows|
    && Shows(s, history, Cleared(prev, start, c))
    && s.row == |history| + start - 1 + c
  }

  lemma ClearNext(s: Screen, from: Screen, history: seq<Row>, prev: seq<Text>, start: nat, c: nat)
    requires 0 < start && start + c < |prev| && Clearing(s, from, history, prev, start, c)
    ensures Clearing(Exec(LINE_END + [EraseLine], s), from, history, prev, start, c + 1)
  {
    ExecConcat(LINE_END, [EraseLine], s);
    FeedLine(s, history, Cleared(prev, start, c));
    var fed := Exec(LINE_END, s);
    ExecOne(EraseLine, fed);
    EraseCleared(fed, history, prev, start, c);
  }

  /** The clearing loop of the path for deleted lines, which moves down without scrolling: the
      cursor should be on line `start + c`, and a move was cut short iff there is no such row. */
  ghost predicate Erasing(s: Screen, from: Screen, history: seq<Row>, prev: seq<Text>, start: nat, c: nat)
    requires start <= |prev|
  {
    && s.Valid() && SameSize(s, from) && |s.rows| == |from.rows|
    && (s.clamped <==> |history| + start + c >= |from.rows|)
    && (!s.clamped ==>
      Ready(s) && Shows(s, history, Cleared(prev, start, c)) && s.row == |history| + start + c)
  }

  lemma EraseStart(s: Screen, history: seq<Row>, prev: seq<Text>, start: nat, row: nat)
    requires Landed(s, history, prev, row) && 0 < start <= |prev|
    requires start - 1 >= s.Top() - |history|
    ensures Erasing(Exec(Move(start - 1 - row) + [CarriageReturn] + [Down(1)], s), s, history, prev, start, 0)
  {
    ExecConcat(Move(start - 1 - row) + [CarriageReturn], [Down(1)], s);
    ExecConcat(Move(start - 1 - row), [CarriageReturn], s);
    MoveRow(s, start - 1 - row);
    var moved := s.(row := |history| + start - 1);
    ExecOne(CarriageReturn, moved);
    ExecOne(Down(1), moved.(col := 0));
    assert Cleared(prev, start, 0) == prev;
  }

  lemma EraseNext(s: Screen, from: Screen, history: seq<Row>, prev: seq<Text>, start: nat, c: nat)
    requires start <= |prev| && Erasing(s, from, history, prev, start, c)
    ensures var r := Exec([CarriageReturn, EraseLine], s);
      && r.Valid() && SameSize(r, from) && |r.rows| == |from.rows|
      && r.clamped == s.clamped
      && (!r.clamped ==> Ready(r) && Shows(r, history, Cleared(prev, start, c + 1)) && r.row == s.row && r.col == 0)
    ensures Erasing(Exec([CarriageReturn, EraseLine] + [Down(1)], s), from, history, prev, start, c + 1)
  {
    ExecTwo(CarriageReturn, EraseLine, s);
    ExecConcat([CarriageReturn, EraseLine], [Down(1)], s);
    var erased := Exec([CarriageReturn, EraseLine], s);
    ExecOne(Down(1), erased);
    if !s.clamped {
      EraseCleared(s.(col := 0), history, prev, start, c);
    }
  }

  // ---- Comparing the old and the new lines ----

  /** The lines at `i` differ, counting a missing line as different. */
  predicate DiffersAt(prev: seq<Text>, new_: seq<Text>, i: nat) {
    i >= |prev| || i >= |new_| || prev[i] != new_[i]
  }

  /** `first` and `last` are the first and the last difference. */
  ghost predicate Changes(prev: seq<Text>, new_: seq<Text>, first: int, last: int) {
    && 0 <= first <= last < Max(|prev|, |new_|)
    && DiffersAt(prev, new_, first) && DiffersAt(prev, new_, last)
    && first <= |prev| && first <= |new_| && prev[..first] == new_[..first]
    && (forall j | last < j < |prev| && j < |new_| :: prev[j] == new_[j])
    && (|new_| > |prev| ==> last == |new_| - 1)
    && (|new_| < |prev| ==> last == |prev| - 1)
  }

  ghost predicate NoEmptyText(lines: seq<Text>) {
    forall i | 0 <= i < |lines| :: lines[i] != []
  }

  method FindChanges(prev: seq<Text>, new_: seq<Text>) returns (first: int, last: int)
    requires NoEmptyText(prev) && NoEmptyText(new_)
    ensures first == -1 ==> prev == new_
    ensures first != -1 ==> Changes(prev, new_, first, last)
  {
    first, last := -1, -1;
    var maxLines := Max(|new_|, |prev|);
    var i := 0;
    while i < maxLines
      invariant 0 <= i <= maxLines && -1 <= first <= last < i
      invariant i > |new_| ==> last == i - 1
      invariant first == -1 ==> i <= |prev| && i <= |new_| && prev[..i] == new_[..i]
      invariant first != -1 ==> first <= |prev| && first <= |new_| && prev[..first] == new_[..first]
      invariant first != -1 ==> DiffersAt(prev, new_, first) && DiffersAt(prev, new_, last)
      invariant forall j | last < j < i :: j < |prev| && j < |new_| && prev[j] == new_[j]
    {
      var oldLine := if i < |prev| then prev[i] else [];
      var newLine := if i < |new_| then new_[i] else [];
      if oldLine != newLine {
        if first == -1 {
          first := i;
        }
        last := i;
      }
      i := i + 1;
    }
    var appendedLines := |new_| > |prev|;
    if appendedLines {
      if first == -1 {
        first := |prev|;
      }
      last := |new_| - 1;
    }
  }

  lemma PatchedNew(prev: seq<Text>, new_: seq<Text>, first: int, last: int)
    requires Changes(prev, new_, first, last) && first < |new_|
    ensures |new_| >= |prev| ==> last < |new_| && Patched(prev, new_, last + 1) == new_
    ensures |new_| < |prev| ==>
      Patched(prev, new_, |new_|)[..|new_|] == new_ && |Patched(prev, new_, |new_|)| == |prev|
  {
  }

  // ---- Preparing the lines ----

  datatype Position = NoMarker | At(row: nat, col: nat)

  function IndexOf(t: Text, item: Item): (i: nat)
    requires item in t
    ensures i < |t| && t[i] == item && item !in t[..i]
  {
    if t[0] == item then 0 else
      assert forall j | 0 < j < |t| :: t[j] == t[1..][j - 1];
      var rest := IndexOf(t[1..], item);
      assert t[..rest + 1] == [t[0]] + t[1..][..rest];
      rest + 1
  }

  /** The marker nearest the bottom among the lines from `top` to before `k`. */
  function ScanUp(lines: seq<Text>, k: nat, top: nat): Position
    requires k <= |lines|
  {
    if k <= top then NoMarker
    else if CURSOR_MARKER in lines[k - 1] then At(k - 1, Width(lines[k - 1][..IndexOf(lines[k - 1], CURSOR_MARKER)]))
    else ScanUp(lines, k - 1, top)
  }

  function FindMarker(lines: seq<Text>, height: nat): Position {
    ScanUp(lines, |lines|, Max(0, |lines| - height))
  }

  function RemoveMarker(line: Text): Text
    requires CURSOR_MARKER in line
  {
    line[..IndexOf(line, CURSOR_MARKER)] + line[IndexOf(line, CURSOR_MARKER) + 1..]
  }

  function Strip(lines: seq<Text>, height: nat): seq<Text> {
    var pos := FindMarker(lines, height);
    if pos.At? && pos.row < |lines| && CURSOR_MARKER in lines[pos.row]
    then lines[pos.row := RemoveMarker(lines[pos.row])]
    else lines
  }

  function AddResets(lines: seq<Text>): seq<Text> {
    seq(|lines|, i requires 0 <= i < |lines| => lines[i] + SEGMENT_RESET)
  }

  function Prepared(lines: seq<Text>, height: nat): seq<Text> {
    AddResets(Strip(lines, height))
  }

  /** The marker is sought in the last `height` lines only, from the bottom up. */
  lemma {:induction false} ScanFinds(lines: seq<Text>, k: nat, top: nat)
    requires k <= |lines|
    ensures var pos := ScanUp(lines, k, top);
      match pos
      case NoMarker => forall i | top <= i < k :: CURSOR_MARKER !in lines[i]
      case At(row, col) =>
        && top <= row < k && CURSOR_MARKER in lines[row]
        && col == Width(lines[row][..IndexOf(lines[row], CURSOR_MARKER)])
        && forall i | row < i < k :: CURSOR_MARKER !in lines[i]
  {
    if k > top && CURSOR_MARKER !in lines[k - 1] { ScanFinds(lines, k - 1, top); }
  }

  /** The last `height` lines hold the marker nowhere below line `k`, and there first at index `i`. */
  ghost predicate Marks(lines: seq<Text>, height: nat, k: nat, i: nat) {
    && |lines| - height <= k < |lines| && i < |lines[k]|
    && lines[k][i] == CURSOR_MARKER && CURSOR_MARKER !in lines[k][..i]
    && forall j | k < j < |lines| :: CURSOR_MARKER !in lines[j]
  }

  /** What is found is the marker nearest the bottom, in the column behind all that is painted before it. */
  lemma MarkerFound(lines: seq<Text>, height: nat)
    ensures var pos := FindMarker(lines, height);
      && (pos.NoMarker? <==> forall j | Max(0, |lines| - height) <= j < |lines| :: CURSOR_MARKER !in lines[j])
      && (pos.At? ==> exists i :: Marks(lines, height, pos.row, i))
    ensures forall k: nat, i: nat | Marks(lines, height, k, i) ::
      && FindMarker(lines, height) == At(k, |Paint(lines[k][..i], PLAIN)|)
      && Strip(lines, height) == lines[k := lines[k][..i] + lines[k][i + 1..]]
  {
    var pos := FindMarker(lines, height);
    ScanFinds(lines, |lines|, Max(0, |lines| - height));
    if pos.At? { assert Marks(lines, height, pos.row, IndexOf(lines[pos.row], CURSOR_MARKER)); }
    forall k: nat, i: nat | Marks(lines, height, k, i)
      ensures pos == At(k, |Paint(lines[k][..i], PLAIN)|)
      ensures Strip(lines, height) == lines[k := lines[k][..i] + lines[k][i + 1..]]
    {
      OnlyFirst(lines[k], i);
      PaintWidth(lines[k][..i], PLAIN);
    }
  }

  lemma {:induction false} OnlyFirst(line: Text, i: nat)
    requires i < |line| && line[i] == CURSOR_MARKER && CURSOR_MARKER !in line[..i]
    ensures CURSOR_MARKER in line && IndexOf(line, CURSOR_MARKER) == i
  {
    if i > 0 {
      assert line[0] == line[..i][0];
      assert line[1..][..i - 1] == line[..i][1..];
      OnlyFirst(line[1..], i - 1);
    }
  }

  lemma {:induction false} PaintConcat(a: Text, b: Text, pen: Style)
    ensures Paint(a + b, pen) == Paint(a, pen) + Paint(b, After(a, pen))
  {
    if a == [] {
      assert a + b == b;
    } else {
      assert (a + b)[1..] == a[1..] + b;
      PaintConcat(a[1..], b, Advance(pen, a[0]));
    }
  }

  /** A zero-width sequence that is not SGR leaves no trace. */
  lemma RemoveMarkerInvisible(line: Text)
    requires CURSOR_MARKER in line
    ensures Paint(RemoveMarker(line), PLAIN) == Paint(line, PLAIN)
    ensures Width(RemoveMarker(line)) == Width(line)
  {
    var i := IndexOf(line, CURSOR_MARKER);
    var a, b := line[..i], line[i + 1..];
    assert line == a + ([CURSOR_MARKER] + b);
    PaintConcat(a, [CURSOR_MARKER] + b, PLAIN);
    PaintConcat(a, b, PLAIN);
    assert ([CURSOR_MARKER] + b)[1..] == b;
    Concat(a, [CURSOR_MARKER] + b, PLAIN);
    Concat(a, b, PLAIN);
  }

  /** A finished line looks like the line it was made from and ends in a plain style. */
  lemma ResetLine(line: Text, width: int)
    requires Width(line) <= width
    ensures IsLine(line + SEGMENT_RESET, width)
    ensures Paint(line + SEGMENT_RESET, PLAIN) == Paint(line, PLAIN)
  {
    Concat(line, SEGMENT_RESET, PLAIN);
    PaintConcat(line, SEGMENT_RESET, PLAIN);
    var rest := SEGMENT_RESET[1..];
    assert rest[1..] == [] && rest[0].Control?;
    var s := After(line, PLAIN);
    assert Advance(s, SEGMENT_RESET[0]) == PLAIN;
    assert After(rest, PLAIN) == After(rest[1..], PLAIN) == PLAIN;
    assert Paint(rest, PLAIN) == Paint(rest[1..], PLAIN) == [];
    assert Width(rest) == Width(rest[1..]) == 0;
    assert Paint(line, PLAIN) + [] == Paint(line, PLAIN);
  }

  ghost predicate Fits(lines: seq<Text>, width: int) {
    forall i | 0 <= i < |lines| :: Width(lines[i]) <= width
  }

  /** Preparing the lines changes nothing that can be seen. */
  lemma PreparedLooksTheSame(lines: seq<Text>, height: nat, width: int)
    requires Fits(lines, width)
    ensures |Prepared(lines, height)| == |lines|
    ensures AllLines(Prepared(lines, height), width)
    ensures forall i | 0 <= i < |lines| :: Paint(Prepared(lines, height)[i], PLAIN) == Paint(lines[i], PLAIN)
    ensures FindMarker(lines, height).At? ==>
      Max(0, |lines| - height) <= FindMarker(lines, height).row < |lines|
  {
    ScanFinds(lines, |lines|, Max(0, |lines| - height));
    var stripped := Strip(lines, height);
    forall i | 0 <= i < |lines|
      ensures IsLine(Prepared(lines, height)[i], width)
      ensures Paint(Prepared(lines, height)[i], PLAIN) == Paint(lines[i], PLAIN)
    {
      if stripped[i] != lines[i] { RemoveMarkerInvisible(lines[i]); }
      ResetLine(stripped[i], width);
    }
  }

  /** `extractCursorPosition`, which strips the marker from the array it is given. */
  method ExtractCursorPosition(lines: array<Text>, height: nat) returns (pos: Position)
    modifies lines
    ensures pos == FindMarker(old(lines[..]), height)
    ensures lines[..] == Strip(old(lines[..]), height)
    ensures pos.NoMarker? <==> forall j | Max(0, lines.Length - height) <= j < lines.Length :: CURSOR_MARKER !in old(lines[j])
    ensures forall k: nat, i: nat | Marks(old(lines[..]), height, k, i) ::
      && pos == At(k, |Paint(old(lines[k])[..i], PLAIN)|)
      && lines[..] == old(lines[..])[k := old(lines[k])[..i] + old(lines[k])[i + 1..]]
  {
    hide Marks, Paint;
    ghost var was := lines[..];
    MarkerFound(was, height);
    assert forall j | 0 <= j < |was| :: was[j] == lines[j];
    var viewportTop := Max(0, lines.Length - height);
    var row := lines.Length - 1;
    while row >= viewportTop
      invariant viewportTop - 1 <= row < lines.Length && lines[..] == was
      invariant ScanUp(was, |was|, viewportTop) == ScanUp(was, row + 1, viewportTop)
    {
      var line := lines[row];
      assert was[row] == line;
      if CURSOR_MARKER in line {
        var markerIndex := IndexOf(line, CURSOR_MARKER);
        var col := Width(line[..markerIndex]);
        lines[row] := line[..markerIndex] + line[markerIndex + 1..];
        return At(row, col);
      }
      row := row - 1;
    }
    return NoMarker;
  }

  /** `applyLineResets`, for lines that are not images. */
  method ApplyLineResets(lines: array<Text>)
    modifies lines
    ensures lines[..] == AddResets(old(lines[..]))
  {
    var i := 0;
    while i < lines.Length
      invariant 0 <= i <= lines.Length
      invariant forall k | 0 <= k < i :: lines[k] == old(lines[k]) + SEGMENT_RESET
      invariant forall k | i <= k < lines.Length :: lines[k] == old(lines[k])
    {
      lines[i] := lines[i] + SEGMENT_RESET;
      i := i + 1;
    }
  }

  // ---- The state between renders ----

  /** The fields of `TUI` that describe what it believes to be on the terminal. */
  datatype Tracked = Tracked(
    lines: seq<Text>, width: int, height: int,
    hardwareCursorRow: nat, maxLinesRendered: nat, viewportTop: nat)

  function ViewportTop(s: Screen, history: seq<Row>): nat
    requires s.Valid()
  {
    Max(0, s.Top() - |history|)
  }

  /** The terminal shows what the renderer believes. */
  ghost predicate Synced(t: Tracked, s: Screen, history: seq<Row>) {
    && Landed(s, history, t.lines, t.hardwareCursorRow)
    && AllLines(t.lines, s.width)
    && t.width == s.width && t.height == s.height
    && t.viewportTop == ViewportTop(s, history)
  }

  /** The renderer has some lines on record for a terminal of this size, whatever that really shows. */
  ghost predicate Recorded(t: Tracked, s: Screen) {
    && t.lines != [] && t.hardwareCursorRow < |t.lines| && AllLines(t.lines, s.width)
    && t.width == s.width && t.height == s.height
  }

  lemma IsRecorded(t: Tracked, s: Screen, history: seq<Row>)
    requires Synced(t, s, history) && t.lines != []
    ensures Recorded(t, s) && Ready(s)
  {
  }

  /** Before the first render: the screen is blank from the row of the cursor on. */
  ghost predicate Fresh(t: Tracked, s: Screen, history: seq<Row>) {
    t == Tracked([], 0, 0, 0, 0, 0) && Landed(s, history, [], 0)
  }

  /** After a resize or a forced render the contents may be anything, but the next render
      will see that the size differs from the one on record. */
  ghost predicate Stale(t: Tracked, s: Screen) {
    Ready(s) && SizeDiffers(t, s.width, s.height)
  }

  predicate SizeDiffers(t: Tracked, width: int, height: int) {
    (t.width != 0 && t.width != width) || (t.height != 0 && t.height != height)
  }

  ghost predicate Consistent(t: Tracked, s: Screen, history: seq<Row>) {
    Synced(t, s, history) || Fresh(t, s, history) || Stale(t, s)
  }

  /** What every render keeps when `clearOnShrink` is on and there are no overlays. */
  predicate Tight(t: Tracked) {
    t.maxLinesRendered == |t.lines| && (t.height > 0 ==> t.viewportTop == Max(0, |t.lines| - t.height))
  }

  // ---- What a render leaves on record ----

  /** Some line above the tracked top would change, or no line would be left below it. */
  predicate ChangesAbove(t: Tracked, new_: seq<Text>) {
    var top := t.viewportTop;
    top > 0 && !(top <= |t.lines| && top < |new_| && t.lines[..top] == new_[..top])
  }

  /** When a render clears the terminal before it paints: after a change of the size, when the lines
      have become fewer, or when a patch cannot reach what changes. */
  predicate Clears(t: Tracked, new_: seq<Text>, width: int, height: int, overlays: bool, clearOnShrink: bool) {
    SizeDiffers(t, width, height) ||
    (t.lines != [] && ((clearOnShrink && !overlays && |new_| < t.maxLinesRendered) || ChangesAbove(t, new_)))
  }

  /** When it paints all lines at all, instead of a patch. */
  predicate Repaints(t: Tracked, new_: seq<Text>, width: int, height: int, overlays: bool, clearOnShrink: bool) {
    t.lines == [] || Clears(t, new_, width, height, overlays, clearOnShrink)
  }

  /** The record after a render, but for the cursor. */
  function NextRecord(t: Tracked, new_: seq<Text>, width: int, height: int, overlays: bool, clearOnShrink: bool): Tracked {
    var clears := Clears(t, new_, width, height, overlays, clearOnShrink);
    var repaints := Repaints(t, new_, width, height, overlays, clearOnShrink);
    Tracked(new_, width, height, 0,
      if clears then |new_| else if !repaints && new_ <= t.lines then t.maxLinesRendered else Max(t.maxLinesRendered, |new_|),
      Max(if repaints then 0 else t.viewportTop, |new_| - height))
  }

  lemma CursorDoesNotMatter(t: Tracked, new_: seq<Text>, width: int, height: int, overlays: bool, clearOnShrink: bool)
    ensures NextRecord(Record(t), new_, width, height, overlays, clearOnShrink) == NextRecord(t, new_, width, height, overlays, clearOnShrink)
    ensures Repaints(Record(t), new_, width, height, overlays, clearOnShrink) == Repaints(t, new_, width, height, overlays, clearOnShrink)
    ensures t.lines == [] ==> Repaints(t, new_, width, height, overlays, clearOnShrink)
  {
  }

  /** A patch scrolls exactly if there are more lines than fit below the tracked top. */
  lemma PatchTop(s: Screen, history: seq<Row>, prev: nat, lines: seq<Text>, row: nat, top: nat)
    requires Landed(s, history, lines, row) && lines != []
    requires prev <= top + s.height && (|lines| > prev ==> row == |lines| - 1)
    ensures Max(top, row - s.height + 1) == Max(top, |lines| - s.height)
  {
  }

  lemma DeletedTop(was: Tracked, before: Screen, mid: Screen, history: seq<Row>, n: nat)
    requires before.Valid() && mid.Valid() && SameSize(before, mid) && |before.rows| == |mid.rows|
    requires was.viewportTop == ViewportTop(before, history)
    requires n < |was.lines| <= was.viewportTop + before.height
    ensures was.viewportTop == ViewportTop(mid, history) == Max(was.viewportTop, n - 1 - mid.height + 1) == Max(was.viewportTop, n - mid.height)
  {
  }

  /** The record without the cursor. */
  function Record(t: Tracked): Tracked { t.(hardwareCursorRow := 0) }

  lemma NextRecordIs(t: Tracked, new_: seq<Text>, width: int, height: int, overlays: bool, clearOnShrink: bool)
    requires !SizeDiffers(t, width, height) && t.lines != []
    requires clearOnShrink && !overlays ==> |new_| >= t.maxLinesRendered
    ensures Repaints(t, new_, width, height, overlays, clearOnShrink) <==> ChangesAbove(t, new_)
    ensures Clears(t, new_, width, height, overlays, clearOnShrink) <==> ChangesAbove(t, new_)
    ensures NextRecord(t, new_, width, height, overlays, clearOnShrink) == Tracked(new_, width, height, 0,
      if ChangesAbove(t, new_) then |new_|
      else if new_ <= t.lines then t.maxLinesRendered else Max(t.maxLinesRendered, |new_|),
      Max(if ChangesAbove(t, new_) then 0 else t.viewportTop, |new_| - height))
  {
  }

  /** All lines are painted exactly if none are on record, the width or the height differs from the one on
      record, they have become fewer with `clearOnShrink` and no overlays, or something above the tracked
      top changes: no line is left below it, or a line above it is new or different. */
  lemma RepaintsWhen(t: Tracked, new_: seq<Text>, width: int, height: int, overlays: bool, clearOnShrink: bool)
    ensures Repaints(t, new_, width, height, overlays, clearOnShrink) <==>
      || t.lines == []
      || (t.width != 0 && t.width != width) || (t.height != 0 && t.height != height)
      || (clearOnShrink && !overlays && |new_| < t.maxLinesRendered)
      || (t.viewportTop > 0 && |new_| <= t.viewportTop)
      || exists i | 0 <= i < t.viewportTop && i < |new_| :: i >= |t.lines| || t.lines[i] != new_[i]
  {
    var top := t.viewportTop;
    if top <= |t.lines| && top < |new_| && t.lines[..top] == new_[..top] {
      forall i | 0 <= i < top ensures t.lines[i] == new_[i] {
        assert t.lines[..top][i] == new_[..top][i];
      }
    } else if |t.lines| < top < |new_| {
      assert new_[..top][|t.lines|] == new_[|t.lines|];
    }
  }

  /** The paths that paint all lines before any comparison. */
  lemma RepaintRecord(t: Tracked, new_: seq<Text>, width: int, height: int, overlays: bool, clearOnShrink: bool)
    ensures t.lines == [] && !SizeDiffers(t, width, height) ==>
      && Repaints(t, new_, width, height, overlays, clearOnShrink) && !Clears(t, new_, width, height, overlays, clearOnShrink)
      && NextRecord(t, new_, width, height, overlays, clearOnShrink) ==
         Tracked(new_, width, height, 0, Max(t.maxLinesRendered, |new_|), Max(0, |new_| - height))
    ensures SizeDiffers(t, width, height) || (t.lines != [] && clearOnShrink && !overlays && |new_| < t.maxLinesRendered) ==>
      && Repaints(t, new_, width, height, overlays, clearOnShrink) && Clears(t, new_, width, height, overlays, clearOnShrink)
      && NextRecord(t, new_, width, height, overlays, clearOnShrink) ==
         Tracked(new_, width, height, 0, |new_|, Max(0, |new_| - height))
  {
  }

  /** With `clearOnShrink` and no overlays every patch stays in the tight regime, and can reach the marker. */
  lemma StaysTight(was: Tracked, t: Tracked, pos: Position, height: nat)
    requires Tight(was) && was.height == height > 0 && |t.lines| >= |was.lines|
    requires t.height == height && t.viewportTop == Max(was.viewportTop, |t.lines| - height)
    requires t.maxLinesRendered == if t.lines <= was.lines then was.maxLinesRendered else Max(was.maxLinesRendered, |t.lines|)
    ensures Tight(t)
    ensures pos.At? && pos.row >= Max(0, |t.lines| - height) ==> pos.row >= was.viewportTop
  {
    if t.lines <= was.lines { assert |t.lines| == |was.lines|; }
  }

  lemma SameRecord(t: Tracked, height: int)
    requires t.viewportTop >= |t.lines| - height
    ensures t.viewportTop < |t.lines| ==> !ChangesAbove(t, t.lines)
    ensures Max(t.viewportTop, |t.lines| - height) == t.viewportTop
  {
  }

  /** Whether the first difference can be reached decides whether something above the top changes. */
  lemma ReachesIff(t: Tracked, new_: seq<Text>, first: nat, last: nat)
    requires Changes(t.lines, new_, first, last) && t.viewportTop < |t.lines|
    ensures first >= |new_| ==> (ChangesAbove(t, new_) <==> Max(0, |new_| - 1) < t.viewportTop)
    ensures first < |new_| ==> (ChangesAbove(t, new_) <==> first < t.viewportTop)
    ensures first >= |new_| ==> new_ < t.lines
    ensures first < |new_| ==> !(new_ <= t.lines)
  {
    var prev, top := t.lines, t.viewportTop;
    if first < |new_| {
      if top <= first {
        assert prev[..top] == prev[..first][..top] == new_[..first][..top] == new_[..top];
      }
    } else if top < |new_| {
      assert prev[..top] == prev[..first][..top] == new_[..top];
    }
  }

  /** The whole terminal, scrollback and screen: the history, the lines, and blank rows. */
  lemma SyncedRows(t: Tracked, s: Screen, history: seq<Row>)
    requires Synced(t, s, history)
    ensures |history| + |t.lines| <= |s.rows|
    ensures s.rows == history + seq(|t.lines|, i requires 0 <= i < |t.lines| => Paint(t.lines[i], PLAIN))
                      + seq(|s.rows| - |history| - |t.lines|, _ => [])
    ensures |t.lines| <= s.Top() - |history| + s.height
  {
    var all := history + seq(|t.lines|, i requires 0 <= i < |t.lines| => Paint(t.lines[i], PLAIN))
               + seq(|s.rows| - |history| - |t.lines|, _ => []);
    forall j | 0 <= j < |s.rows| ensures s.rows[j] == all[j] {
      if j < |history| { assert s.rows[j] == s.rows[..|history|][j]; }
    }
  }

  /** In the tight regime, once nothing precedes the lines, scrollback and screen are exactly
      what clearing and painting all the lines would leave. */
  lemma TightRows(t: Tracked, s: Screen, lines: seq<Text>, r: Screen)
    requires Synced(t, s, []) && Tight(t)
    requires lines == t.lines && Painting(r, r.(rows := seq(r.height, _ => [])), [], lines, |lines|) && SameSize(s, r)
    ensures s.rows == r.rows
  {
    assert lines[..|lines|] == lines;
    assert |s.rows| == Max(s.height, |lines|) == |r.rows|;
    forall j | 0 <= j < |s.rows| ensures s.rows[j] == r.rows[j] {
      assert s.rows[j] == RowOf(lines, j - 0) && r.rows[j] == RowOf(lines, j - 0);
    }
  }

  // ---- Lemmas that close the render paths ----

  lemma SyncCommand(s: Screen, on: bool)
    requires s.Valid()
    ensures Exec([Synchronized(on)], s) == s
  {
    ExecOne(Synchronized(on), s);
  }

  /** All lines painted: the cursor is on the last one. */
  lemma PaintEnd(s: Screen, from: Screen, history: seq<Row>, lines: seq<Text>)
    requires Painting(s, from, history, lines, |lines|) && from.Valid()
    requires |from.rows| - from.height <= |history|
    ensures SameSize(s, from) && Landed(s, history, lines, Max(0, |lines| - 1))
    ensures ViewportTop(s, history) == Max(0, Max(s.height, |lines|) - s.height)
  {
    assert lines[..|lines|] == lines;
  }

  /** The changed lines are written and nothing is left to clear. */
  lemma PatchEnd(s: Screen, from: Screen, history: seq<Row>, prev: seq<Text>, new_: seq<Text>, first: nat, last: nat)
    requires Changes(prev, new_, first, last) && first < |new_| && |new_| >= |prev|
    requires from.Valid() && last < |new_| && Patching(s, from, history, prev, new_, first, last + 1)
    requires |history| + |prev| <= |from.rows|
    ensures SameSize(from, s) && Landed(s, history, new_, last)
    ensures ViewportTop(s, history) == Max(ViewportTop(from, history), last - from.height + 1)
  {
    PatchedNew(prev, new_, first, last);
  }

  lemma ClearStart(s: Screen, from: Screen, history: seq<Row>, prev: seq<Text>, new_: seq<Text>, first: nat)
    requires first < |new_| < |prev| && from.Valid() && Patching(s, from, history, prev, new_, first, |new_|)
    requires |history| + |prev| <= |from.rows|
    ensures Clearing(s, from, history, Patched(prev, new_, |new_|), |new_|, 0)
  {
    assert Cleared(Patched(prev, new_, |new_|), |new_|, 0) == Patched(prev, new_, |new_|);
  }

  lemma ClearEnd(s: Screen, from: Screen, history: seq<Row>, prev: seq<Text>, new_: seq<Text>, row: nat)
    requires 0 < |new_| < |prev| && from.Valid()
    requires Clearing(s, from, history, Patched(prev, new_, |new_|), |new_|, |prev| - |new_|)
    requires Landed(from, history, prev, row) && |new_| - 1 >= from.Top() - |history|
    ensures var r := Exec([Up(|prev| - |new_|)], s);
      && Landed(r, history, new_, |new_| - 1) && SameSize(from, r) && |r.rows| == |from.rows|
      && ViewportTop(r, history) == Max(ViewportTop(from, history), |new_| - 1 - from.height + 1)
  {
    var lines := Patched(prev, new_, |new_|);
    ClearedShows(s, history, lines, |new_|, |prev| - |new_|);
    assert lines[..|new_|] == new_;
    MoveRow(s, -(|prev| - |new_|));
    assert Move(-(|prev| - |new_|)) == [Up(|prev| - |new_|)];
  }

  /** The old lines from `start` on are blank, if no move was cut short; back up again. */
  lemma EraseEnd(s: Screen, from: Screen, history: seq<Row>, prev: seq<Text>, start: nat, c: nat, row: nat)
    requires 0 < start <= |prev| && start + c >= |prev| && c > 0
    requires Landed(from, history, prev, row) && start - 1 >= from.Top() - |history|
    requires s.Valid() && SameSize(s, from) && |s.rows| == |from.rows|
    requires s.clamped <==> |history| + start + c - 1 >= |from.rows|
    requires !s.clamped ==> Ready(s) && Shows(s, history, Cleared(prev, start, c)) && s.row == |history| + start + c - 1 && s.col == 0
    ensures var r := Exec([Up(c)], s);
      && r.Valid() && SameSize(r, from) && |r.rows| == |from.rows|
      && (r.clamped <==> |history| + start + c > |from.rows|)
      && (!r.clamped ==>
        Ready(r) && Shows(r, history, prev[..start]) && r.row == |history| + start - 1 && r.col == 0)
  {
    if s.clamped {
      ClampedStays([Up(c)], s);
      SameGrid([Up(c)], s);
    } else {
      ClearedShows(s, history, prev, start, c);
      MoveRow(s, 0 - c);
      assert Move(0 - c) == [Up(c)];
    }
  }

  method PrepareLines(rendered: seq<Text>, height: nat) returns (newLines: seq<Text>, cursorPos: Position)
    ensures newLines == Prepared(rendered, height) && cursorPos == FindMarker(rendered, height)
  {
    var lines := new Text[|rendered|](i requires 0 <= i < |rendered| => rendered[i]);
    assert lines[..] == rendered;
    cursorPos := ExtractCursorPosition(lines, height);
    ApplyLineResets(lines);
    newLines := lines[..];
  }

  lemma LinesNotEmpty(lines: seq<Text>, width: int)
    requires AllLines(lines, width)
    ensures NoEmptyText(lines)
  {
  }

  lemma SyncedFacts(t: Tracked, s: Screen, history: seq<Row>)
    requires Synced(t, s, history)
    ensures Landed(s, history, t.lines, t.hardwareCursorRow) && Ready(s) && s.Valid()
    ensures AllLines(t.lines, s.width) && t.width == s.width && t.height == s.height
    ensures t.viewportTop == ViewportTop(s, history) && t.viewportTop >= s.Top() - |history|
    ensures |t.lines| <= t.viewportTop + s.height && t.hardwareCursorRow <= Max(|t.lines| - 1, 0)
    ensures t.lines != [] ==> t.viewportTop < |t.lines|
  {
  }

  /** If all the differences lie beyond the new lines, those are a prefix of the old ones. */
  lemma DeletedFacts(prev: seq<Text>, new_: seq<Text>, first: int, last: int)
    requires Changes(prev, new_, first, last)
    ensures first >= 0 && last >= 0
    ensures first >= |new_| ==> |new_| < |prev| && prev[..|new_|] == new_
  {
  }

  /** The cursor marker could be reached iff it was not above the screen. */
  lemma PlacedEnd(was: Tracked, mid: Screen, row: nat, t: Tracked, s: Screen, history: seq<Row>, pos: Position)
    requires mid.Valid() && s.Valid() && SameSize(mid, s) && s.rows == mid.rows
    requires t.lines != [] && Landed(mid, history, t.lines, row)
    requires AllLines(t.lines, s.width) && t.width == s.width && t.height == s.height
    requires t.viewportTop == ViewportTop(mid, history) == Max(was.viewportTop, row - s.height + 1)
    requires pos.At? ==> Max(0, |t.lines| - s.height) <= pos.row < |t.lines|
    requires t.hardwareCursorRow == if pos.At? then pos.row else row
    requires pos.NoMarker? ==> s == mid
    requires pos.At? ==>
      if |history| + pos.row < mid.Top() then s.clamped else Landed(s, history, t.lines, t.hardwareCursorRow)
    ensures Synced(t, s, history) <==> (pos.At? ==> pos.row >= was.viewportTop)
  {
  }

  /** A render that finds no difference moves the cursor at most: afterwards the terminal is in step
      exactly if it was so before and the marker can be reached. */
  lemma UnchangedEnd(was: Tracked, before: Screen, s: Screen, history: seq<Row>, pos: Position)
    requires Recorded(was, before) && Ready(before) && s.Valid()
    requires pos.At? ==> pos.row < |was.lines|
    requires pos.NoMarker? ==> s == before
    requires pos.At? ==>
      var to := before.row + pos.row - was.hardwareCursorRow;
      && SameSize(before, s) && s.rows == before.rows
      && if before.Top() <= to < |before.rows| then s == before.(row := to, col := s.col) else s.clamped
    ensures Synced(was.(hardwareCursorRow := if pos.At? then pos.row else was.hardwareCursorRow), s, history) <==>
      Synced(was, before, history) && (pos.At? ==> pos.row >= was.viewportTop)
  {
    hide IsLine;
    if pos.At? && !s.clamped {
      assert Shows(s, history, was.lines) <==> Shows(before, history, was.lines);
    }
  }

  lemma EmptyEnd(was: Tracked, t: Tracked, s: Screen, history: seq<Row>)
    requires t.lines == [] && t.hardwareCursorRow == 0 && s.Valid() && t.width == s.width && t.height == s.height
    requires t.viewportTop == ViewportTop(s, history)
    ensures Synced(t, s, history) <==> Landed(s, history, [], 0)
  {
  }

  /** What the invariant gives a render to work with. */
  lemma ConsistentFacts(t: Tracked, s: Screen, history: seq<Row>)
    requires Consistent(t, s, history)
    ensures Ready(s) && s.Valid()
    ensures t.lines == [] && (t.width == 0 || t.width == s.width) && (t.height == 0 || t.height == s.height) ==>
      Landed(s, history, [], 0)
    ensures t.lines != [] && (t.width == 0 || t.width == s.width) && (t.height == 0 || t.height == s.height) ==>
      Synced(t, s, history)
    ensures (t.width == 0 || t.width == s.width) && (t.height == 0 || t.height == s.height) ==> !Stale(t, s)
  {
  }

  /** Why the branches above cannot happen: the old lines end within the screen, and a missing
      line counts as changed. */
  lemma ChangesFacts(prev: seq<Text>, new_: seq<Text>, first: nat, last: nat, s: Screen, history: seq<Row>)
    requires Changes(prev, new_, first, last) && first < |new_| && prev != [] && s.Valid()
    requires |history| + |prev| <= |s.rows|
    ensures first <= |prev| && first <= last && prev[..first] == new_[..first]
    ensures first - (if first == |prev| then 1 else 0) <= ViewportTop(s, history) + s.height - 1
    ensures |prev| > |new_| ==> last == |prev| - 1
    ensures |prev| <= |new_| ==> last < |new_|
    ensures |prev| < |new_| ==> last == |new_| - 1
    ensures ViewportTop(s, history) >= s.Top() - |history|
  {
  }

  lemma EraseLast(s: Screen, from: Screen, history: seq<Row>, prev: seq<Text>, start: nat, c: nat)
    requires start <= |prev| && Erasing(s, from, history, prev, start, c)
    ensures s.clamped <==> |history| + start + c >= |from.rows|
    ensures !s.clamped ==> s.row == |history| + start + c
  {
  }

  lemma DeletedEnd(s: Screen, from: Screen, history: seq<Row>, prev: seq<Text>, n: nat)
    requires n < |prev| && s.Valid() && from.Valid() && |history| + |prev| <= |from.rows|
    requires var start := Max(0, n - 1) + 1;
      && (s.clamped <==> |history| + start + (|prev| - n) > |from.rows|)
      && (!s.clamped ==>
        Ready(s) && Shows(s, history, prev[..start]) && s.row == |history| + start - 1 && s.col == 0)
    requires |s.rows| == |from.rows|
    ensures n > 0 ==> Landed(s, history, prev[..n], n - 1)
    ensures n == 0 ==> (Landed(s, history, [], 0) <==> Width(prev[0]) == 0 && |history| + |prev| < |from.rows|)
  {
    if n == 0 && !s.clamped {
      PaintWidth(prev[0], PLAIN);
      assert s.rows[|history|] == RowOf(prev[..1], |history| - |history|) == Paint(prev[0], PLAIN);
      if Shows(s, history, []) {
        assert s.rows[|history|] == RowOf([], |history| - |history|);
      }
      if Width(prev[0]) == 0 {
        forall j {:trigger s.rows[j]} | |history| <= j < |s.rows| ensures s.rows[j] == RowOf([], j - |history|) {
          assert s.rows[j] == RowOf(prev[..1], j - |history|);
        }
      }
    }
  }

  lemma ReadyValid(s: Screen)
    requires Ready(s)
    ensures s.Valid()
    ensures 1 <= s.width && 1 <= s.height <= |s.rows| && |s.rows| - s.height <= s.row < |s.rows| && s.col <= s.width
  {
  }

  lemma LandedFacts(s: Screen, history: seq<Row>, lines: seq<Text>, row: nat)
    requires Landed(s, history, lines, row)
    ensures Ready(s) && s.Valid() && SameSize(s, s)
    ensures |s.rows| - s.height <= |history| + row && |history| + |lines| <= |s.rows|
  {
  }

  lemma InRange(row: nat, col: nat, total: nat)
    requires row < total
    ensures Max(0, Min(row, total - 1)) == row && Max(0, col) == col
  {
  }

  lemma LineAt(lines: seq<Text>, width: int, i: nat)
    requires AllLines(lines, width) && i < |lines|
    ensures IsLine(lines[i], width)
  {
  }

  /** The first exception does arise: four lines on a screen of two rows, one of them deleted
      since, leave the tracked top at line 2, while the marker is sought from line 1 on. */
  lemma MarkerAboveScreen()
    ensures var blank := SEGMENT_RESET;
      var t := Tracked([blank, blank, blank], 1, 2, 2, 4, 2);
      var s := Screen(1, 2, [[], [], [], []], 2, 0, PLAIN, false);
      var marker := FindMarker([[], [CURSOR_MARKER], []], 2);
      Synced(t, s, []) && marker == At(1, 0) && marker.row < t.viewportTop
  {
    var blank := SEGMENT_RESET;
    var lines := [blank, blank, blank];
    var s := Screen(1, 2, [[], [], [], []], 2, 0, PLAIN, false);
    ResetLine([], 1);
    assert [] + SEGMENT_RESET == SEGMENT_RESET;
    assert forall i | 0 <= i < 3 :: lines[i] == blank;
    assert Paint([], PLAIN) == [];
    forall j {:trigger s.rows[j]} | 0 <= j < 4 ensures s.rows[j] == RowOf(lines, j - 0) {}
    assert Shows(s, [], lines);
    var frame: seq<Text> := [[], [CURSOR_MARKER], []];
    assert CURSOR_MARKER !in frame[2] && CURSOR_MARKER in frame[1] && IndexOf(frame[1], CURSOR_MARKER) == 0;
    assert frame[1][..0] == [];
    assert ScanUp(frame, 3, 1) == ScanUp(frame, 2, 1) == At(1, 0);
  }

  /** The second exception does arise, too: one visible line fills a screen of one row. */
  lemma EmptyFrameAfterLine()
    ensures var line := [Glyph("x", 1)] + SEGMENT_RESET;
      var s := Screen(1, 1, [Paint(line, PLAIN)], 0, 1, PLAIN, false);
      Synced(Tracked([line], 1, 1, 0, 1, 0), s, []) && Width(line) != 0
  {
    var x := [Glyph("x", 1)];
    var line := x + SEGMENT_RESET;
    var s := Screen(1, 1, [Paint(line, PLAIN)], 0, 1, PLAIN, false);
    assert x[1..] == [];
    assert Width(x) == 1;
    ResetLine(x, 1);
    Concat(x, SEGMENT_RESET, PLAIN);
    forall j {:trigger s.rows[j]} | 0 <= j < 1 ensures s.rows[j] == RowOf([line], j - 0) {}
    assert Shows(s, [], [line]);
  }

  /** A resize that leads back to the recorded size goes unnoticed, and the picture may be gone: a state
      that a render without changes does not repair. */
  lemma ResizeBackUnnoticed(history: seq<Row>)
    ensures var line := [Glyph("x", 1)] + SEGMENT_RESET;
      var t := Tracked([line], 1, 1, 0, 1, 0);
      var s := Screen(1, 1, [Paint(line, PLAIN)], 0, 1, PLAIN, false);
      var blank := Screen(1, 1, [[]], 0, 0, PLAIN, false);
      && Synced(t, s, []) && SameSize(s, blank) && Ready(blank)
      && Recorded(t, blank) && !Consistent(t, blank, history)
  {
    EmptyFrameAfterLine();
    var line := [Glyph("x", 1)] + SEGMENT_RESET;
    var blank := Screen(1, 1, [[]], 0, 0, PLAIN, false);
    assert line[0] == Glyph("x", 1);
    assert Paint(line, PLAIN) != [];
    assert blank.rows[0] == [] != RowOf([line], 0 - 0);
  }

  lemma RenderedIsConsistent(t: Tracked, s: Screen, history: seq<Row>)
    requires Synced(t, s, history)
    ensures Consistent(t, s, history) && t.width == s.width && t.height == s.height
  {
  }
}
