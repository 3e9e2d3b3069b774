/**
 The differential renderer (`TUI.doRender`). It remembers the lines it wrote last, patches
 the terminal to show the new ones, and falls back to clearing and repainting. The theorem is
 that every patch leaves the terminal as a repaint would: the lines in order, blank rows below
 them, and the cursor where the renderer believes it is.
 */
module Renderer {
  import opened Basics
  import opened Styled
  import opened Terminals
  import opened Frames
  import opened RenderBuffers

  // ---- The renderer ----

  /** Which way a render went. */
  datatype Path = Skipped | Repainted | Unchanged | Deleted | Changed

  /** The cursor goes where it is asked for, unless the terminal had to stop it at the edge. */
  predicate Placed(cursorPos: Position, hardwareCursorRow: nat, s: Screen) {
    cursorPos.At? ==>
      hardwareCursorRow == cursorPos.row && (!s.clamped ==> s.col == Min(cursorPos.col, s.width - 1))
  }

  /** If one of the lines that fit the screen holds the marker, the cursor stands right behind what is
      painted before the first one in the lowest such line. */
  ghost predicate BehindMarker(frame: seq<Text>, hardwareCursorRow: nat, s: Screen) {
    forall k: nat, i: nat | Marks(frame, s.height, k, i) ::
      && hardwareCursorRow == k
      && (!s.clamped ==> s.col == Min(|Paint(frame[k][..i], PLAIN)|, s.width - 1))
  }

  lemma PlacedBehindMarker(frame: seq<Text>, height: nat)
    ensures forall row: nat, s: Screen | s.height == height && Placed(FindMarker(frame, height), row, s) ::
      BehindMarker(frame, row, s)
  {
    hide Marks, FindMarker, Strip, Paint;
    MarkerFound(frame, height);
  }

  class Tui {
    const terminal: Terminal
    var previousLines: seq<Text>
    var previousWidth: int
    var previousHeight: int
    var cursorRow: nat
    var hardwareCursorRow: nat
    var maxLinesRendered: nat
    var previousViewportTop: nat
    var fullRedrawCount: nat
    var clearOnShrink: bool
    var stopped: bool
    ghost var history: seq<Row>  // the rows above the first line

    function State(): Tracked
      reads this
    {
      Tracked(previousLines, previousWidth, previousHeight, hardwareCursorRow, maxLinesRendered, previousViewportTop)
    }

    ghost predicate Valid()
      reads this, terminal
    {
      Consistent(State(), terminal.screen, history)
    }

    /** The first line will be where the cursor is, wherever that is on the screen. */
    constructor (terminal: Terminal, clearOnShrink: bool)
      requires Ready(terminal.screen) && terminal.screen.col == 0
      requires forall j | terminal.screen.row <= j < |terminal.screen.rows| :: terminal.screen.rows[j] == []
      ensures this.terminal == terminal && this.clearOnShrink == clearOnShrink && !stopped
      ensures Valid() && Tight(State())
      ensures history == terminal.screen.rows[..terminal.screen.row]
    {
      this.terminal := terminal;
      previousLines, previousWidth, previousHeight := [], 0, 0;
      cursorRow, hardwareCursorRow, maxLinesRendered, previousViewportTop := 0, 0, 0, 0;
      fullRedrawCount, stopped := 0, false;
      this.clearOnShrink := clearOnShrink;
      history := terminal.screen.rows[..terminal.screen.row];
    }

    /** `requestRender(true)`, up to the render it schedules. */
    method ForceRender()
      requires Ready(terminal.screen)
      modifies this
      ensures Valid() && Tight(State()) && history == old(history)
      ensures State() == Tracked([], -1, -1, 0, 0, 0)
      ensures clearOnShrink == old(clearOnShrink) && stopped == old(stopped)
    {
      previousLines, previousWidth, previousHeight := [], -1, -1;
      cursorRow, hardwareCursorRow, maxLinesRendered, previousViewportTop := 0, 0, 0, 0;
      assert Ready(terminal.screen);
    }

    /** `positionHardwareCursor`: a marker row above the screen cannot be reached. */
    method PositionHardwareCursor(cursorPos: Position, totalLines: nat, ghost lines: seq<Text>)
      requires totalLines == |lines| && (cursorPos.At? ==> cursorPos.row < totalLines)
      requires terminal.screen.Valid() && (totalLines > 0 ==> Ready(terminal.screen))
      modifies this`hardwareCursorRow, terminal
      ensures terminal.screen.Valid() && SameSize(old(terminal.screen), terminal.screen)
      ensures terminal.screen.rows == old(terminal.screen.rows)
      ensures hardwareCursorRow == if cursorPos.At? then cursorPos.row else old(hardwareCursorRow)
      ensures cursorPos.NoMarker? ==> terminal.screen == old(terminal.screen)
      ensures cursorPos.At? && old(Landed(terminal.screen, history, lines, hardwareCursorRow)) ==>
        if |history| + cursorPos.row < old(terminal.screen).Top()
        then terminal.screen.clamped
        else Landed(terminal.screen, history, lines, hardwareCursorRow)
      ensures cursorPos.At? ==>
        var s := old(terminal.screen);
        var to := s.row + cursorPos.row - old(hardwareCursorRow);
        if s.Top() <= to < |s.rows| then terminal.screen == s.(row := to, col := Min(cursorPos.col, s.width - 1))
        else terminal.screen.clamped
      ensures Placed(cursorPos, hardwareCursorRow, terminal.screen)
    {
      hide Exec, Ready, Landed, Shows, Move;
      if cursorPos.NoMarker? || totalLines <= 0 {
        return;
      }
      var targetRow := Max(0, Min(cursorPos.row, totalLines - 1));
      var targetCol := Max(0, cursorPos.col);
      InRange(cursorPos.row, cursorPos.col, totalLines);
      var rowDelta := targetRow - hardwareCursorRow;
      var buffer := Move(rowDelta) + [ToColumn(targetCol + 1)];
      MoveCursor(terminal.screen, rowDelta, targetCol);
      if Landed(terminal.screen, history, lines, hardwareCursorRow) {
        PlaceCursor(terminal.screen, history, lines, hardwareCursorRow, targetRow, targetCol);
      }
      terminal.Write(buffer);
      hardwareCursorRow := targetRow;
    }

    /** How painting and every patch ends: with the cursor, and the record. */
    method EndRender(newLines: seq<Text>, cursorPos: Position, ghost was: Tracked)
      requires terminal.screen.Valid() && AllLines(newLines, terminal.screen.width)
      requires if newLines != [] then Landed(terminal.screen, history, newLines, hardwareCursorRow) else hardwareCursorRow == 0
      requires previousViewportTop == ViewportTop(terminal.screen, history)
      requires previousViewportTop == Max(was.viewportTop, hardwareCursorRow - terminal.screen.height + 1)
      requires cursorPos.At? ==> Max(0, |newLines| - terminal.screen.height) <= cursorPos.row < |newLines|
      modifies this`hardwareCursorRow, this`previousLines, this`previousWidth, this`previousHeight, terminal
      ensures terminal.screen.Valid() && SameSize(old(terminal.screen), terminal.screen)
      ensures Record(State()) == old(Record(State())).(
        lines := newLines, width := terminal.screen.width, height := terminal.screen.height)
      ensures Placed(cursorPos, hardwareCursorRow, terminal.screen)
      ensures newLines != [] ==>
        (Synced(State(), terminal.screen, history) <==> (cursorPos.At? ==> cursorPos.row >= was.viewportTop))
      ensures newLines == [] ==> (Synced(State(), terminal.screen, history) <==> old(Landed(terminal.screen, history, [], 0)))
    {
      hide Exec, Ready, Landed, Shows, AllLines, Synced, ViewportTop, IsLine;
      ghost var mid, row := terminal.screen, hardwareCursorRow;
      if newLines != [] { LandedFacts(mid, history, newLines, row); }
      PositionHardwareCursor(cursorPos, |newLines|, newLines);
      previousLines := newLines;
      previousWidth := terminal.screen.width;
      previousHeight := terminal.screen.height;
      if newLines != [] {
        PlacedEnd(was, mid, row, State(), terminal.screen, history, cursorPos);
      } else {
        EmptyEnd(was, State(), mid, history);
      }
    }

    /** The local function `fullRender`. */
    method FullRender(clear: bool, newLines: seq<Text>, cursorPos: Position)
      requires Ready(terminal.screen) && AllLines(newLines, terminal.screen.width)
      requires !clear ==> Landed(terminal.screen, history, [], 0)
      requires cursorPos.At? ==> Max(0, |newLines| - terminal.screen.height) <= cursorPos.row < |newLines|
      modifies this, terminal
      ensures terminal.screen.Valid() && SameSize(old(terminal.screen), terminal.screen)
      ensures Synced(State(), terminal.screen, history)
      ensures Placed(cursorPos, hardwareCursorRow, terminal.screen)
      ensures cursorRow == Max(0, |newLines| - 1)
      ensures previousLines == newLines && fullRedrawCount == old(fullRedrawCount) + 1
      ensures history == if clear then [] else old(history)
      ensures Tight(State()) || !clear
      ensures Record(State()) == Tracked(newLines, terminal.screen.width, terminal.screen.height, 0,
        if clear then |newLines| else Max(old(maxLinesRendered), |newLines|), Max(0, |newLines| - terminal.screen.height))
      ensures clearOnShrink == old(clearOnShrink) && stopped == old(stopped)
    {
      hide Exec, Ready, Landed, AllLines, Synced, ViewportTop, IsLine, Shows;
      var width, height := terminal.screen.width, terminal.screen.height;
      ReadyValid(terminal.screen);
      fullRedrawCount := fullRedrawCount + 1;
      var buffer := PaintBuffer(clear, newLines, terminal.screen, history);
      if clear {
        history := [];
      }
      terminal.Write(buffer);
      cursorRow := Max(0, |newLines| - 1);
      hardwareCursorRow := cursorRow;
      maxLinesRendered := if clear then |newLines| else Max(maxLinesRendered, |newLines|);
      var bufferLength := Max(height, |newLines|);
      previousViewportTop := Max(0, bufferLength - height);
      EndRender(newLines, cursorPos, Tracked([], 0, 0, 0, 0, 0));
    }

    /** No line is different, and only the cursor may have to move. The terminal need not show what is on
        record: then it does not afterwards, either. */
    method RenderUnchanged(newLines: seq<Text>, cursorPos: Position)
      requires Recorded(State(), terminal.screen) && Ready(terminal.screen) && newLines == previousLines
      requires cursorPos.At? ==> Max(0, |newLines| - terminal.screen.height) <= cursorPos.row < |newLines|
      modifies this, terminal
      ensures terminal.screen.Valid() && SameSize(old(terminal.screen), terminal.screen)
      ensures terminal.screen.rows == old(terminal.screen.rows) && history == old(history)
      ensures clearOnShrink == old(clearOnShrink) && stopped == old(stopped) && fullRedrawCount == old(fullRedrawCount)
      ensures Placed(cursorPos, hardwareCursorRow, terminal.screen)
      ensures cursorRow == old(cursorRow)
      ensures Record(State()) == old(Record(State()))
      ensures Synced(State(), terminal.screen, history) <==>
        old(Synced(State(), terminal.screen, history)) && (cursorPos.At? ==> cursorPos.row >= previousViewportTop)
    {
      hide Exec, Ready, Landed, Synced, AllLines;
      ghost var was, before := State(), terminal.screen;
      ReadyValid(before);
      PositionHardwareCursor(cursorPos, |newLines|, newLines);
      previousHeight := terminal.screen.height;
      UnchangedEnd(was, before, terminal.screen, history, cursorPos);
    }

    /** All the differences are in deleted lines. */
    method RenderDeleted(newLines: seq<Text>, cursorPos: Position) returns (path: Path)
      requires Synced(State(), terminal.screen, history) && AllLines(newLines, terminal.screen.width)
      requires |newLines| < |previousLines| && previousLines[..|newLines|] == newLines
      requires cursorPos.At? ==> Max(0, |newLines| - terminal.screen.height) <= cursorPos.row < |newLines|
      modifies this, terminal
      ensures terminal.screen.Valid() && SameSize(old(terminal.screen), terminal.screen)
      ensures clearOnShrink == old(clearOnShrink) && stopped == old(stopped)
      ensures Placed(cursorPos, hardwareCursorRow, terminal.screen)
      ensures cursorRow == Max(0, |newLines| - 1)
      ensures previousLines == newLines && (path.Repainted? || path.Deleted?)
      ensures path.Repainted? <==> Max(0, |newLines| - 1) < old(previousViewportTop)
      ensures fullRedrawCount == old(fullRedrawCount) + if path.Repainted? then 1 else 0
      ensures Record(State()) == Tracked(newLines, terminal.screen.width, terminal.screen.height, 0,
        if path.Repainted? then |newLines| else old(maxLinesRendered),
        Max(if path.Repainted? then 0 else old(previousViewportTop), |newLines| - terminal.screen.height))
      ensures path.Repainted? ==> Synced(State(), terminal.screen, history) && Tight(State())
      ensures history == if path.Repainted? then [] else old(history)
      ensures path.Deleted? && newLines != [] ==>
        (Synced(State(), terminal.screen, history) <==> (cursorPos.At? ==> cursorPos.row >= old(previousViewportTop)))
      ensures path.Deleted? && newLines == [] ==>
        (Synced(State(), terminal.screen, history) <==>
          Width(old(previousLines)[0]) == 0 && |history| + |old(previousLines)| < |old(terminal.screen.rows)|)
    {
      hide Exec, Ready, Landed, Shows, AllLines, Synced, ViewportTop, Tight, IsLine;
      ghost var was, before := State(), terminal.screen;
      var height := terminal.screen.height;
      SyncedFacts(was, before, history);
      var targetRow := Max(0, |newLines| - 1);
      if targetRow < previousViewportTop {
        FullRender(true, newLines, cursorPos);
        return Repainted;
      }
      var extraLines := |previousLines| - |newLines|;
      if extraLines > height {
        // More lines gone than rows on the screen: the guard above has caught that.
        assert false;
      }
      var buffer := DeletedBuffer(previousLines, |newLines|, hardwareCursorRow, before, history);
      terminal.Write(buffer);
      cursorRow := targetRow;
      hardwareCursorRow := targetRow;
      DeletedTop(was, before, terminal.screen, history, |newLines|);
      EndRender(newLines, cursorPos, was);
      return Deleted;
    }

    /** Some line that is still there changed. */
    method RenderChanged(newLines: seq<Text>, cursorPos: Position, firstChanged: nat, lastChanged: nat) returns (path: Path)
      requires Synced(State(), terminal.screen, history) && previousLines != []
      requires AllLines(newLines, terminal.screen.width)
      requires Changes(previousLines, newLines, firstChanged, lastChanged) && firstChanged < |newLines|
      requires cursorPos.At? ==> Max(0, |newLines| - terminal.screen.height) <= cursorPos.row < |newLines|
      modifies this, terminal
      ensures terminal.screen.Valid() && SameSize(old(terminal.screen), terminal.screen)
      ensures clearOnShrink == old(clearOnShrink) && stopped == old(stopped)
      ensures Placed(cursorPos, hardwareCursorRow, terminal.screen)
      ensures cursorRow == Max(0, |newLines| - 1)
      ensures previousLines == newLines && (path.Repainted? || path.Changed?)
      ensures path.Repainted? <==> firstChanged < old(previousViewportTop)
      ensures fullRedrawCount == old(fullRedrawCount) + if path.Repainted? then 1 else 0
      ensures Record(State()) == Tracked(newLines, terminal.screen.width, terminal.screen.height, 0,
        if path.Repainted? then |newLines| else Max(old(maxLinesRendered), |newLines|),
        Max(if path.Repainted? then 0 else old(previousViewportTop), |newLines| - terminal.screen.height))
      ensures path.Repainted? ==> Synced(State(), terminal.screen, history) && Tight(State())
      ensures history == if path.Repainted? then [] else old(history)
      ensures path.Changed? ==>
        (Synced(State(), terminal.screen, history) <==> (cursorPos.At? ==> cursorPos.row >= old(previousViewportTop)))
    {
      hide Exec, Ready, Landed, Shows, AllLines, Synced, ViewportTop, Changes, DiffersAt, Tight, IsLine;
      ghost var was, before := State(), terminal.screen;
      var height: int := terminal.screen.height;
      SyncedFacts(was, before, history);
      if firstChanged < previousViewportTop {
        FullRender(true, newLines, cursorPos);
        return Repainted;
      }
      var buffer, finalCursorRow := ChangedBuffer(previousLines, newLines, firstChanged, lastChanged,
                                                  hardwareCursorRow, previousViewportTop, height, before, history);
      terminal.Write(buffer);
      cursorRow := Max(0, |newLines| - 1);
      hardwareCursorRow := finalCursorRow;
      maxLinesRendered := Max(maxLinesRendered, |newLines|);
      PatchTop(terminal.screen, history, |previousLines|, newLines, finalCursorRow, was.viewportTop);
      LandedFacts(terminal.screen, history, newLines, finalCursorRow);
      previousViewportTop := Max(previousViewportTop, finalCursorRow - height + 1);
      EndRender(newLines, cursorPos, was);
      return Changed;
    }

    /** The part of `doRender` that compares the lines, for a terminal in step. */
    method RenderDifference(newLines: seq<Text>, cursorPos: Position, overlays: bool) returns (path: Path)
      requires Synced(State(), terminal.screen, history) && previousLines != []
      requires AllLines(newLines, terminal.screen.width)
      requires cursorPos.At? ==> Max(0, |newLines| - terminal.screen.height) <= cursorPos.row < |newLines|
      requires clearOnShrink && !overlays ==> |newLines| >= maxLinesRendered
      modifies this, terminal
      ensures path.Repainted? <==> old(ChangesAbove(State(), newLines))
      ensures !path.Repainted? ==> (path.Unchanged? <==> newLines == old(previousLines))
      ensures !path.Repainted? ==> (path.Deleted? <==> newLines < old(previousLines))
      ensures fullRedrawCount == old(fullRedrawCount) + if path.Repainted? then 1 else 0
      ensures Record(State()) ==
        NextRecord(old(State()), newLines, terminal.screen.width, terminal.screen.height, overlays, clearOnShrink)
      ensures terminal.screen.Valid() && SameSize(old(terminal.screen), terminal.screen)
      ensures clearOnShrink == old(clearOnShrink) && stopped == old(stopped)
      ensures Placed(cursorPos, hardwareCursorRow, terminal.screen)
      ensures cursorRow == if path.Unchanged? then old(cursorRow) else Max(0, |newLines| - 1)
      ensures previousLines == newLines && !path.Skipped?
      ensures path.Repainted? ==> Synced(State(), terminal.screen, history) && Tight(State())
      ensures history == if path.Repainted? then [] else old(history)
      ensures !path.Repainted? && newLines != [] ==>
        (Synced(State(), terminal.screen, history) <==> (cursorPos.At? ==> cursorPos.row >= old(previousViewportTop)))
      ensures !path.Repainted? && newLines == [] ==>
        (Synced(State(), terminal.screen, history) <==>
          Width(old(previousLines)[0]) == 0 && |history| + |old(previousLines)| < |old(terminal.screen.rows)|)
    {
      hide Exec, Ready, Landed, Shows, AllLines, Synced, Changes, NoEmptyText, NextRecord, Repaints, Clears, ChangesAbove, Recorded, DiffersAt;
      ghost var was, before := State(), terminal.screen;
      SyncedFacts(was, before, history);
      NextRecordIs(was, newLines, before.width, before.height, overlays, clearOnShrink);
      SameRecord(was, before.height);
      LinesNotEmpty(previousLines, before.width);
      LinesNotEmpty(newLines, before.width);
      var firstChanged, lastChanged := FindChanges(previousLines, newLines);
      if firstChanged == -1 {
        IsRecorded(was, before, history);
        RenderUnchanged(newLines, cursorPos);
        return Unchanged;
      }
      DeletedFacts(previousLines, newLines, firstChanged, lastChanged);
      ReachesIff(was, newLines, firstChanged, lastChanged);
      if firstChanged >= |newLines| {
        path := RenderDeleted(newLines, cursorPos);
      } else {
        path := RenderChanged(newLines, cursorPos, firstChanged, lastChanged);
      }
    }

    /** `doRender`. Whichever way it goes, the terminal ends up showing the new lines with the
        cursor where it is believed to be, with two exceptions, given exactly: a cursor marker
        above the screen, and the deletion of all the lines. */
    method DoRender(rendered: seq<Text>, overlays: bool) returns (path: Path)
      requires Valid() && Fits(rendered, terminal.screen.width)
      modifies this, terminal
      ensures terminal.screen.Valid() && SameSize(old(terminal.screen), terminal.screen)
      ensures clearOnShrink == old(clearOnShrink) && stopped == old(stopped)
      ensures path.Skipped? <==> stopped
      ensures path.Skipped? ==> State() == old(State()) && terminal.screen == old(terminal.screen) && history == old(history)
      ensures !path.Skipped? ==> previousLines == Prepared(rendered, terminal.screen.height)
      ensures var w, h, lines := terminal.screen.width, terminal.screen.height, Prepared(rendered, terminal.screen.height);
        && (path.Repainted? <==> !stopped && Repaints(old(State()), lines, w, h, overlays, clearOnShrink))
        && (path.Unchanged? || path.Deleted? || path.Changed? ==>
              (path.Unchanged? <==> lines == old(previousLines)) && (path.Deleted? <==> lines < old(previousLines)))
        && fullRedrawCount == old(fullRedrawCount) + (if path.Repainted? then 1 else 0)
        && (!path.Skipped? ==> Record(State()) == NextRecord(old(State()), lines, w, h, overlays, clearOnShrink))
        && (path.Repainted? ==>
              history == if Clears(old(State()), lines, w, h, overlays, clearOnShrink) then [] else old(history))
      ensures !path.Skipped? ==> cursorRow == if path.Unchanged? then old(cursorRow) else Max(0, |previousLines| - 1)
      ensures !path.Skipped? ==> BehindMarker(rendered, hardwareCursorRow, terminal.screen)
      ensures path.Repainted? ==> Synced(State(), terminal.screen, history)
      ensures !path.Skipped? && !path.Repainted? ==> history == old(history) && old(Synced(State(), terminal.screen, history))
      ensures !path.Skipped? && !path.Repainted? && rendered != [] ==>
        var marker := FindMarker(rendered, terminal.screen.height);
        (Synced(State(), terminal.screen, history) <==> (marker.At? ==> marker.row >= old(previousViewportTop)))
      ensures !path.Skipped? && !path.Repainted? && rendered == [] ==>
        && old(previousLines) != []
        && (Synced(State(), terminal.screen, history) <==>
            && Width(old(previousLines)[0]) == 0
            && |history| + |old(previousLines)| < |old(terminal.screen.rows)|)
      ensures old(Stale(State(), terminal.screen)) && !stopped ==> path.Repainted? && history == []
      ensures !overlays && clearOnShrink && !stopped && old(Tight(State())) ==>
        Synced(State(), terminal.screen, history) && Tight(State())
    {
      hide Exec, Ready, Landed, Shows, AllLines, Fits, Synced, Fresh, Stale, Consistent, Prepared, FindMarker;
      hide NextRecord, Repaints, Clears, ChangesAbove, BehindMarker;
      ConsistentFacts(State(), terminal.screen, history);
      if stopped {
        return Skipped;
      }
      PreparedLooksTheSame(rendered, terminal.screen.height, terminal.screen.width);
      PlacedBehindMarker(rendered, terminal.screen.height);
      var width, height := terminal.screen.width, terminal.screen.height;
      var widthChanged := previousWidth != 0 && previousWidth != width;
      var heightChanged := previousHeight != 0 && previousHeight != height;

      var newLines, cursorPos := PrepareLines(rendered, height);
      ghost var was := State();
      RepaintRecord(was, newLines, width, height, overlays, clearOnShrink);

      // First render
      if |previousLines| == 0 && !widthChanged && !heightChanged {
        FullRender(false, newLines, cursorPos);
        return Repainted;
      }
      if widthChanged {
        FullRender(true, newLines, cursorPos);
        return Repainted;
      }
      if heightChanged {
        FullRender(true, newLines, cursorPos);
        return Repainted;
      }
      // Content shrunk below the working area
      if clearOnShrink && |newLines| < maxLinesRendered && !overlays {
        FullRender(true, newLines, cursorPos);
        return Repainted;
      }
      path := RenderDifference(newLines, cursorPos, overlays);
      NextRecordIs(was, newLines, width, height, overlays, clearOnShrink);
      if !overlays && clearOnShrink && Tight(was) && !path.Repainted? {
        StaysTight(was, State(), cursorPos, height);
      }
    }
  }

  // ---- Whole runs ----

  /** What can happen between two renders, and a render. */
  datatype Event = Render(frame: seq<Text>, overlays: bool) | Resize(screen: Screen) | Force

  /** Nothing is on the screen from the cursor on. */
  ghost predicate Untouched(s: Screen) {
    s.Valid() && s.col == 0 && forall j | s.row <= j < |s.rows| :: s.rows[j] == []
  }

  /** Frames keep to the width they are rendered for, and a resize gives a size other than the one last
      rendered; before the first render it leaves the rows from the cursor on blank. `tw`, `th` are the
      size on record, `w`, `h` the real one. */
  ghost predicate Allowed(events: seq<Event>, tw: int, th: int, w: int, h: int)
    decreases |events|
  {
    events == [] ||
    match events[0]
    case Render(frame, _) => Fits(frame, w) && Allowed(events[1..], w, h, w, h)
    case Resize(s) =>
      && Ready(s)
      && (if tw == 0 || th == 0 then tw == th == 0 && Untouched(s) else s.width != tw || s.height != th)
      && Allowed(events[1..], tw, th, s.width, s.height)
    case Force => Allowed(events[1..], -1, -1, w, h)
  }

  /** With `clearOnShrink` on and no overlays there are no exceptions: through every run of
      renders, resizes and forced renders, each render leaves the terminal in step. */
  method RunTight(tui: Tui, events: seq<Event>)
    requires tui.Valid() && Tight(tui.State()) && tui.clearOnShrink && !tui.stopped
    requires Allowed(events, tui.previousWidth, tui.previousHeight, tui.terminal.screen.width, tui.terminal.screen.height)
    requires forall i | 0 <= i < |events| && events[i].Render? :: !events[i].overlays
    modifies tui, tui.terminal
    ensures tui.Valid() && Tight(tui.State())
    ensures events != [] && events[|events| - 1].Render? ==>
      && Synced(tui.State(), tui.terminal.screen, tui.history)
      && tui.previousLines == Prepared(events[|events| - 1].frame, tui.terminal.screen.height)
  {
    hide Ready, Fits, Synced, Fresh, Consistent, Prepared, Tight;
    var i := 0;
    while i < |events|
      invariant 0 <= i <= |events|
      invariant tui.Valid() && Tight(tui.State()) && tui.clearOnShrink && !tui.stopped
      invariant Allowed(events[i..], tui.previousWidth, tui.previousHeight, tui.terminal.screen.width, tui.terminal.screen.height)
      invariant i > 0 && events[i - 1].Render? ==>
        && Synced(tui.State(), tui.terminal.screen, tui.history)
        && tui.previousLines == Prepared(events[i - 1].frame, tui.terminal.screen.height)
    {
      assert events[i..][0] == events[i] && events[i..][1..] == events[i + 1..];
      match events[i] {
        case Render(frame, overlays) =>
          var path := tui.DoRender(frame, overlays);
          RenderedIsConsistent(tui.State(), tui.terminal.screen, tui.history);
        case Resize(s) =>
          ResizedIsConsistent(tui.State(), tui.terminal.screen, s, tui.history);
          if tui.previousWidth == 0 {
            tui.history := s.rows[..s.row];
          }
          tui.terminal.screen := s;
        case Force =>
          ConsistentFacts(tui.State(), tui.terminal.screen, tui.history);
          tui.ForceRender();
      }
      i := i + 1;
    }
  }

  /** What decides the way that renders take: the record, but for the cursor, and the terminal's size. */
  datatype Known = Known(record: Tracked, width: nat, height: nat, clearOnShrink: bool)

  function KnownOf(tui: Tui): Known
    reads tui, tui.terminal
  {
    Known(Record(tui.State()), tui.terminal.screen.width, tui.terminal.screen.height, tui.clearOnShrink)
  }

  function Later(k: Known, e: Event): Known {
    match e
    case Render(frame, overlays) =>
      k.(record := NextRecord(k.record, Prepared(frame, k.height), k.width, k.height, overlays, k.clearOnShrink))
    case Resize(s) => k.(width := s.width, height := s.height)
    case Force => k.(record := Tracked([], -1, -1, 0, 0, 0))
  }

  function LaterAll(k: Known, events: seq<Event>): Known {
    if events == [] then k else Later(LaterAll(k, events[..|events| - 1]), events[|events| - 1])
  }

  /** A frame that has to be patched in but cannot be: it is empty, or its marker is above the tracked top. */
  predicate Spoils(k: Known, e: Event) {
    && e.Render?
    && !Repaints(k.record, Prepared(e.frame, k.height), k.width, k.height, e.overlays, k.clearOnShrink)
    && (e.frame == [] || AboveTop(k, e.frame))
  }

  predicate AboveTop(k: Known, frame: seq<Text>) {
    FindMarker(frame, k.height).At? && FindMarker(frame, k.height).row < k.record.viewportTop
  }

  lemma LaterNext(k: Known, events: seq<Event>, i: nat)
    requires i < |events|
    ensures LaterAll(k, events[..i + 1]) == Later(LaterAll(k, events[..i]), events[i])
  {
    assert events[..i + 1][..i] == events[..i];
  }

  /** In general a run stays in step up to the first event that spoils it, which the events before it
      decide. `was` and `screen` are what that render started from. */
  method Run(tui: Tui, events: seq<Event>) returns (done: nat, ghost was: Tracked, ghost screen: Screen)
    requires tui.Valid() && !tui.stopped
    requires Allowed(events, tui.previousWidth, tui.previousHeight, tui.terminal.screen.width, tui.terminal.screen.height)
    modifies tui, tui.terminal
    ensures done <= |events|
    ensures var k := old(KnownOf(tui));
      && (forall i | 0 <= i < done :: !Spoils(LaterAll(k, events[..i]), events[i]))
      && (done < |events| ==> Spoils(LaterAll(k, events[..done]), events[done]))
    ensures done == |events| ==> tui.Valid() && KnownOf(tui) == LaterAll(old(KnownOf(tui)), events)
    ensures done == |events| && events != [] && events[|events| - 1].Render? ==>
      && Synced(tui.State(), tui.terminal.screen, tui.history)
      && tui.previousLines == Prepared(events[|events| - 1].frame, tui.terminal.screen.height)
    ensures done < |events| ==>
      && Record(was) == LaterAll(old(KnownOf(tui)), events[..done]).record
      && Synced(was, screen, tui.history) && was.lines != []
      && (Synced(tui.State(), tui.terminal.screen, tui.history) <==>
            events[done].frame == [] && Width(was.lines[0]) == 0 && |tui.history| + |was.lines| < |screen.rows|)
  {
    hide Ready, Fits, Synced, Fresh, Consistent, Prepared, FindMarker, NextRecord, Repaints, LaterAll, SizeDiffers;
    var i := 0;
    ghost var k := KnownOf(tui);
    was, screen := tui.State(), tui.terminal.screen;
    assert events[..0] == [];
    NothingLater(k);
    while i < |events|
      invariant 0 <= i <= |events|
      invariant tui.Valid() && !tui.stopped
      invariant Allowed(events[i..], tui.previousWidth, tui.previousHeight, tui.terminal.screen.width, tui.terminal.screen.height)
      invariant KnownOf(tui) == LaterAll(k, events[..i])
      invariant forall j | 0 <= j < i :: !Spoils(LaterAll(k, events[..j]), events[j])
      invariant i > 0 && events[i - 1].Render? ==>
        && Synced(tui.State(), tui.terminal.screen, tui.history)
        && tui.previousLines == Prepared(events[i - 1].frame, tui.terminal.screen.height)
    {
      assert events[i..][0] == events[i] && events[i..][1..] == events[i + 1..];
      LaterNext(k, events, i);
      match events[i] {
        case Render(frame, overlays) =>
          was, screen := tui.State(), tui.terminal.screen;
          var known := KnownOf(tui);
          CursorDoesNotMatter(was, Prepared(frame, screen.height), screen.width, screen.height, overlays, tui.clearOnShrink);
          var path := tui.DoRender(frame, overlays);
          if Spoils(known, events[i]) {
            return i, was, screen;
          }
          RenderedIsConsistent(tui.State(), tui.terminal.screen, tui.history);
        case Resize(s) =>
          ResizedIsConsistent(tui.State(), tui.terminal.screen, s, tui.history);
          if tui.previousWidth == 0 {
            tui.history := s.rows[..s.row];
          }
          tui.terminal.screen := s;
        case Force =>
          ConsistentFacts(tui.State(), tui.terminal.screen, tui.history);
          tui.ForceRender();
      }
      i := i + 1;
    }
    assert events[..i] == events;
    return i, was, screen;
  }

  lemma NothingLater(k: Known)
    ensures LaterAll(k, []) == k
  {
  }

  /** After a resize the renderer knows that it has to clear, or has not rendered yet. */
  lemma ResizedIsConsistent(t: Tracked, old_: Screen, s: Screen, history: seq<Row>)
    requires Consistent(t, old_, history) && Ready(s)
    requires if t.width == 0 || t.height == 0 then t.width == t.height == 0 && Untouched(s)
      else s.width != t.width || s.height != t.height
    ensures Consistent(t, s, if t.width == 0 then s.rows[..s.row] else history)
    ensures t.width == 0 ==> Tight(t)
  {
  }
}
