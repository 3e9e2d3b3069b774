/**
 The three buffers that the renderer writes: painting all lines, rewriting the changed ones, and
 clearing deleted ones. Each is proved by what the terminal makes of it.
 */
module RenderBuffers {
  import opened Basics
  import opened Styled
  import opened Terminals
  import opened Frames

  /** The output of `fullRender`. */
  method PaintBuffer(clear: bool, newLines: seq<Text>, ghost start: Screen, ghost history: seq<Row>)
    returns (buffer: seq<Command>)
    requires Ready(start) && AllLines(newLines, start.width)
    requires !clear ==> Landed(start, history, [], 0)
    ensures var above := if clear then [] else history;
      var s := Exec(buffer, start);
      && SameSize(start, s) && Landed(s, above, newLines, Max(0, |newLines| - 1))
      && ViewportTop(s, above) == Max(0, Max(s.height, |newLines|) - s.height)
  {
    hide Exec, Ready, Landed, Painting, AllLines, IsLine, ViewportTop, PaintCommands;
    ReadyValid(start);
    SyncCommand(start, true);
    buffer := [Synchronized(true)];
    ghost var s, above := start, history;
    if clear {
      ClearedScreen(s);
      ExecConcat(buffer, [EraseAll], start);
      s, above := Exec([EraseAll], s), [];
      buffer := buffer + [EraseAll];
    }
    ghost var from := s;
    LandedFacts(from, above, [], 0);
    PaintStart(from, above, newLines);
    var i := 0;
    while i < |newLines|
      invariant 0 <= i <= |newLines|
      invariant s.Valid() && s == Exec(buffer, start)
      invariant Painting(s, from, above, newLines, i)
    {
      LineAt(newLines, start.width, i);
      PaintNext(s, from, above, newLines, i);
      ExecConcat(buffer, PaintCommands(newLines, i), start);
      s := Exec(PaintCommands(newLines, i), s);
      buffer := buffer + PaintCommands(newLines, i);
      i := i + 1;
    }
    PaintEnd(s, from, above, newLines);
    ExecConcat(buffer, [Synchronized(false)], start);
    SyncCommand(s, false);
    buffer := buffer + [Synchronized(false)];
  }

  /** The output for lines that changed, from the first changed line on. */
  method ChangedBuffer(prev: seq<Text>, newLines: seq<Text>, firstChanged: nat, lastChanged: nat,
                       hardwareCursorRow: nat, viewportTop: nat, height: nat, ghost start: Screen, ghost history: seq<Row>)
    returns (buffer: seq<Command>, finalCursorRow: nat)
    requires Landed(start, history, prev, hardwareCursorRow) && AllLines(newLines, start.width)
    requires height == start.height && viewportTop == ViewportTop(start, history)
    requires prev != [] && Changes(prev, newLines, firstChanged, lastChanged)
    requires viewportTop <= firstChanged < |newLines|
    ensures var s := Exec(buffer, start);
      && SameSize(start, s) && Landed(s, history, newLines, finalCursorRow)
      && ViewportTop(s, history) == Max(viewportTop, finalCursorRow - height + 1)
    ensures |newLines| > |prev| ==> finalCursorRow == |newLines| - 1
  {
    hide Exec, Ready, Landed, Patching, Clearing, AllLines, IsLine, ViewportTop, PatchCommands, GoTo, Changes, Patched;
    LandedFacts(start, history, prev, hardwareCursorRow);
    SyncCommand(start, true);
    var appendStart := |newLines| > |prev| && firstChanged == |prev| && firstChanged > 0;
    ChangesFacts(prev, newLines, firstChanged, lastChanged, start, history);
    buffer := [Synchronized(true)];
    var prevViewportBottom := viewportTop + height - 1;
    var moveTargetRow := if appendStart then firstChanged - 1 else firstChanged;
    if moveTargetRow > prevViewportBottom {
      // Scrolling ahead to a first change below the screen: this cannot happen.
      assert false;
    }
    PatchStart(start, history, prev, newLines, firstChanged, appendStart, hardwareCursorRow);
    ExecConcat(buffer, GoTo(firstChanged, appendStart, hardwareCursorRow), start);
    buffer := buffer + GoTo(firstChanged, appendStart, hardwareCursorRow);
    ghost var s := Exec(buffer, start);
    var renderEnd: nat := Min(lastChanged, |newLines| - 1);
    var i := firstChanged;
    while i <= renderEnd
      invariant firstChanged <= i <= renderEnd + 1
      invariant s.Valid() && s == Exec(buffer, start)
      invariant Patching(s, start, history, prev, newLines, firstChanged, i)
    {
      LineAt(newLines, start.width, i);
      PatchNext(s, start, history, prev, newLines, firstChanged, i);
      ExecConcat(buffer, PatchCommands(newLines, firstChanged, i), start);
      s := Exec(PatchCommands(newLines, firstChanged, i), s);
      buffer := buffer + PatchCommands(newLines, firstChanged, i);
      i := i + 1;
    }
    finalCursorRow := renderEnd;
    if |prev| > |newLines| {
      if renderEnd < |newLines| - 1 {
        // Stopping before the last new line although lines were removed: this cannot happen.
        assert false;
      }
      ClearStart(s, start, history, prev, newLines, firstChanged);
      ghost var lines := Patched(prev, newLines, |newLines|);
      PatchedNew(prev, newLines, firstChanged, lastChanged);
      var extraLines := |prev| - |newLines|;
      var j := |newLines|;
      while j < |prev|
        invariant |newLines| <= j <= |prev|
        invariant s.Valid() && s == Exec(buffer, start)
        invariant Clearing(s, start, history, lines, |newLines|, j - |newLines|)
      {
        ClearNext(s, start, history, lines, |newLines|, j - |newLines|);
        ExecConcat(buffer, LINE_END + [EraseLine], start);
        s := Exec(LINE_END + [EraseLine], s);
        buffer := buffer + (LINE_END + [EraseLine]);
        j := j + 1;
      }
      ClearEnd(s, start, history, prev, newLines, hardwareCursorRow);
      ExecConcat(buffer, [Up(extraLines)], start);
      s := Exec([Up(extraLines)], s);
      buffer := buffer + [Up(extraLines)];
    } else {
      PatchEnd(s, start, history, prev, newLines, firstChanged, lastChanged);
    }
    ExecConcat(buffer, [Synchronized(false)], start);
    SyncCommand(s, false);
    buffer := buffer + [Synchronized(false)];
  }

  /** The output when only lines at the end are gone. */
  method DeletedBuffer(prev: seq<Text>, n: nat, hardwareCursorRow: nat, ghost start: Screen, ghost history: seq<Row>)
    returns (buffer: seq<Command>)
    requires Landed(start, history, prev, hardwareCursorRow) && n < |prev|
    requires Max(0, n - 1) >= start.Top() - |history|
    ensures var s := Exec(buffer, start);
      && SameSize(start, s) && |s.rows| == |start.rows|
      && (n > 0 ==> Landed(s, history, prev[..n], n - 1))
      && (n == 0 ==> (Landed(s, history, [], 0) <==> Width(prev[0]) == 0 && |history| + |prev| < |start.rows|))
  {
    hide Exec, Ready, Landed, Erasing, Cleared, Shows;
    LandedFacts(start, history, prev, hardwareCursorRow);
    SyncCommand(start, true);
    var targetRow: nat := Max(0, n - 1);
    var extraLines := |prev| - n;
    var goTo := Move(targetRow - hardwareCursorRow) + [CarriageReturn] + [Down(1)];
    buffer := [Synchronized(true)];
    EraseStart(start, history, prev, targetRow + 1, hardwareCursorRow);
    ExecConcat(buffer, goTo, start);
    buffer := buffer + goTo;
    ghost var s := Exec(goTo, start);
    var erase := [CarriageReturn, EraseLine];
    var i := 0;
    while i < extraLines - 1
      invariant 0 <= i <= extraLines - 1
      invariant s.Valid() && s == Exec(buffer, start)
      invariant Erasing(s, start, history, prev, targetRow + 1, i)
    {
      EraseNext(s, start, history, prev, targetRow + 1, i);
      ExecConcat(buffer, erase + [Down(1)], start);
      s := Exec(erase + [Down(1)], s);
      buffer := buffer + (erase + [Down(1)]);
      i := i + 1;
    }
    EraseNext(s, start, history, prev, targetRow + 1, i);
    EraseLast(s, start, history, prev, targetRow + 1, i);
    ExecConcat(buffer, erase, start);
    s := Exec(erase, s);
    buffer := buffer + erase;
    EraseEnd(s, start, history, prev, targetRow + 1, extraLines, hardwareCursorRow);
    ExecConcat(buffer, [Up(extraLines)], start);
    s := Exec([Up(extraLines)], s);
    buffer := buffer + [Up(extraLines)];
    ExecConcat(buffer, [Synchronized(false)], start);
    SyncCommand(s, false);
    buffer := buffer + [Synchronized(false)];
    DeletedEnd(s, start, history, prev, n);
  }
}
