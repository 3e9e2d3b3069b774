# Verification model

This project models the parts of the repository where a mistake is hardest to see, and proves what
they promise. Each module follows one component:

- **Terminal UI.** `Styled` gives styled strings their meaning: a string is the sequence of items
  that the escape-sequence scanner finds, its meaning the glyphs with the SGR state (ECMA-48 section
  8.3.117) they are drawn in; `AnsiCodeTracker` is a class. `Wrap`, `Truncate`, `Overlay` and
  `Splicing` are word wrapping, truncation, column slicing and overlay splicing. `Terminals` is a
  terminal with scrollback (ECMA-48 sections 8.3.19, 8.3.22, 8.3.41), `Frames`, `RenderBuffers` and
  `Renderer` the differential renderer on top of it. `StdinBuffers` is the input tokenizer, and
  `StdinForms` says by position where each kind of escape sequence ends.
- **Agent.** `AgentLoops` and `AgentRuns` are the loop protocol, with the model, the tools and the
  user as arbitrary data, and `AgentFlows` says what a run comes to and what laws that obeys; `Agents`
  is the event-sourced agent with its queues; `EventStreams` is the queue between a producer and one
  consumer.
- **Message streams.** `MessageStream` is a reader of event streams that is independent of all
  producers. `GoogleBlocks` and `GoogleStreams` are the Google part-to-block machine and its retry
  loops, `Faux` the delta emitter, `Proxies` the client that rebuilds a message from stripped events, and
  `ProxyLaws` says what it makes of any text and any events.
- **Bulk sender.** `BulkStaging` is the arithmetic of one start, `BulkDispatch` the message table
  under any number of dispatcher ticks, starts and crashes, one SQL statement at a time, and
  `DispatchLaws` says in rows and milliseconds what each check of a tick or a start decides.

`Basics` holds optional values, bounds and numbers as text.

Where a law does not hold of the code on all inputs, the model keeps the code as it is and states
exactly when the law holds:

- A render that patches leaves the cursor wrong when the marker is found above the tracked viewport
  top, and misses a line when all lines are deleted (`Renderer.Tui.DoRender`,
  `Frames.MarkerAboveScreen`, `Frames.EmptyFrameAfterLine`).
- Three branches of `doRender` can never run for a renderer in step, outside Termux: tui.ts:990-994,
  1031-1042 and 1099-1103.
- A resize that leads back to the recorded size is not seen. If the contents are gone, a render without
  changes leaves the terminal out of step; one that clears repairs it (`Frames.ResizeBackUnnoticed`,
  `Renderer.Tui.RenderUnchanged`, `Renderer.Tui.FullRender`).
- The events of the input tokenizer depend on the chunks when a token is completed inside a
  paste-start marker (`StdinBuffers.ChunkIndependence`, `StdinBuffers.EscapeBeforePaste`).
- A slice that does not start at column 0 may put escape sequences in the wrong order
  (`Overlay.SliceShows`, `Overlay.SliceSwapsStyles`).
- A response stream with two starts leaves stale partials in the context
  (`AgentRuns.TranscriptAgreesIff`, `AgentRuns.TwoStartsDisagree`).
- In parallel mode results come out with the immediate outcomes first, which differs from the plain
  source order that the comment at frontend/packages/agent/src/types.ts:33 describes; the model
  follows the code (`AgentLoops.ExecuteParallel`).
- A made-up tool-call id can meet one that the model sent before (`GoogleBlocks.IdsDistinctIff`,
  `GoogleBlocks.ProvidedIdClashes`).
- Arguments that count as false come back as an empty object, and a last line without a newline is
  lost (`Proxies.RoundTrip`, `Proxies.UnendedLineLost`).
- The pacing and cooldown checks of the dispatcher look at when messages were created, not at when
  they were sent (`BulkDispatch.GapLooksAtCreation`), and two starts at the same number can queue it
  twice (`BulkDispatch.NoDuplicatesIff`, `BulkDispatch.TwoStartsDuplicate`).

## Model

| member | source | states |
|---|---|---|
| `Renderer.Tui.DoRender` | frontend/packages/tui/src/tui.ts:845-1161 | Whichever of the paths runs, afterwards scrollback and screen hold the history, the new lines and blank rows, the cursor is on the row that `hardwareCursorRow` names, and no relative move was clamped. This holds after a clearing or first paint always, and after a patch if and only if the cursor marker, if there is one, is not above the tracked viewport top (for an empty frame: if and only if the first old line was blank to look at and a row was left below the old lines). After a resize or a forced render the clearing repaint runs. With `clearOnShrink` and no overlays there is no exception. All lines are painted if and only if none are on record, the size differs from the one on record, they have become fewer with `clearOnShrink` and no overlays, or something above the tracked top would change; otherwise they are patched. The whole record after the render, but for the cursor, is determined, `fullRedrawCount` counts the paints, and what was above the first line is dropped by a clearing paint and kept by any other render. If one of the lines that fit the screen holds the marker, the cursor goes to the lowest such line, and, if no move was clamped, to the column right behind what is painted before the first marker in it |
| `Renderer.RunTight` | frontend/packages/tui/src/tui.ts:845-1161 | Over every run of renders, resizes and forced renders with `clearOnShrink` on and no overlays, every render ends in step and keeps `maxLinesRendered` equal to the number of lines and the viewport top equal to max(0, n - height) |
| `Renderer.Run` | frontend/packages/tui/src/tui.ts:845-1161 | Over every run in general, each render ends in step up to the first event that spoils it: a frame that has to be patched in and is empty or has its marker above the tracked top. Which event that is, if any, follows from the events alone. That render is out of step, but for an empty frame after a blank line with a row to spare |
| `Renderer.Tui.constructor` | frontend/packages/tui/src/tui.ts:845-899 | A renderer may start with the cursor on any row of the screen, as long as the rows from there on are blank; what is above becomes history |
| `Renderer.Tui.FullRender` | frontend/packages/tui/src/tui.ts:875-899 | Painting everything, after clearing or not, puts the terminal in step, when it clears whatever the terminal showed; and it fixes the viewport top and the high-water mark |
| `Renderer.Tui.RenderUnchanged` | frontend/packages/tui/src/tui.ts:965-971 | When no line has changed, nothing is painted, and afterwards the terminal is in step if and only if it was before and the marker is not above the tracked top; so contents that are gone stay so |
| `Renderer.Tui.RenderDifference` | frontend/packages/tui/src/tui.ts:941-1161 | The comparing part of a render repaints exactly if something above the tracked top would change, does nothing exactly if the lines are the same, and else clears what was deleted exactly if the new lines are a proper prefix; each with the exact condition under which it ends in step |
| `Renderer.Tui.RenderDeleted` | frontend/packages/tui/src/tui.ts:973-1015 | Deleted lines at the end: in step exactly under the stated condition, with the branch for more deleted lines than rows proved dead |
| `Renderer.Tui.RenderChanged` | frontend/packages/tui/src/tui.ts:1018-1161 | Changed and appended lines: in step exactly when the marker is not above the tracked top |
| `RenderBuffers.PaintBuffer` | frontend/packages/tui/src/tui.ts:875-899 | The bytes of a full paint, run on the terminal, show the lines below the history (or from the top after a clear) with the cursor on the last one |
| `RenderBuffers.ChangedBuffer` | frontend/packages/tui/src/tui.ts:1026-1112 | The bytes of a patch leave the terminal showing the new lines where it showed the old ones, with the cursor on the returned row and the viewport moved as far as the returned row demands |
| `RenderBuffers.DeletedBuffer` | frontend/packages/tui/src/tui.ts:974-1009 | The bytes for deleted lines leave the remaining lines and blank rows; with no line left they do so if and only if the first old line was blank and a spare row existed |
| `Frames.FindChanges` | frontend/packages/tui/src/tui.ts:941-963 | The indices are those of the first and the last difference; no index means the lists are equal |
| `Frames.RepaintsWhen` | frontend/packages/tui/src/tui.ts:901-939 | All lines are painted exactly if none are on record, the width or the height differs from the one on record, they have become fewer with `clearOnShrink` and no overlays, no line is left below the tracked top, or a line above it is new or different |
| `Renderer.Tui.PositionHardwareCursor` | frontend/packages/tui/src/tui.ts:1168-1199 | The cursor moves by the difference of the rows and to the column of the marker, whatever the rows show, and the move is clamped exactly if it would leave the screen; so it reaches the marker if that is on the screen |
| `Renderer.Tui.ForceRender` | frontend/packages/tui/src/tui.ts:461-471 | A forced render resets the record so that the next render clears and repaints, whatever the terminal shows |
| `Frames.ExtractCursorPosition` | frontend/packages/tui/src/tui.ts:825-843 | Of the last `height` lines the lowest that holds the marker gives the row, and the number of columns painted before its first marker the column; that marker, and nothing else, is taken out of the array in place. There is no position exactly if none of these lines holds a marker |
| `Frames.MarkerFound` | frontend/packages/tui/src/tui.ts:825-843 | The position looked for, in the terms of the lines: the same for every line `k` and index `i` with a marker, none before it in the line and none below |
| `Frames.ApplyLineResets` | frontend/packages/tui/src/tui.ts:755-764 | Appends the reset to every line of the array in place |
| `Frames.PreparedLooksTheSame` | frontend/packages/tui/src/tui.ts:755-764 | Stripping the marker and appending resets changes no visible column, and makes every line non-empty and plain at its end |
| `Frames.SyncedRows` | frontend/packages/tui/src/tui.ts:845-1161 | Being in step means: all rows of scrollback and screen are the history, the painted lines and blank rows, and the lines fit between real top and bottom |
| `Frames.TightRows` | frontend/packages/tui/src/tui.ts:935-939 | With `clearOnShrink` the rows of a terminal in step are exactly those that clearing and repainting would leave |
| `Frames.MarkerAboveScreen` | frontend/packages/tui/src/tui.ts:825-843 | The exception is real: there is a state in step, and a frame whose marker is sought, and found, above the tracked viewport top |
| `Frames.EmptyFrameAfterLine` | frontend/packages/tui/src/tui.ts:974-1009 | The other exception is real: a state in step whose first line is visible and fills the screen |
| `Frames.ResizeBackUnnoticed` | frontend/packages/tui/src/tui.ts:845-939 | A resize that leads back to the recorded size can leave a state that is neither in step nor seen as resized |
| `Terminals.PrintText` | frontend/packages/tui/src/tui.ts:875-899 | Printing a styled text that fits paints exactly its cells on a blank row and moves the cursor by its width |
| `Styled.AnsiCodeTracker.ProcessItem` | frontend/packages/tui/src/utils.ts:315-437 | The tracker with its separate fields implements the meaning of SGR parameters, including extended colours |
| `Styled.SgrCode` | frontend/packages/tui/src/utils.ts:315-437 | What one code does, attribute by attribute and colour by colour: 22 switches bold and dim off, 21 and 23 to 29 the attribute 20 below, 39 and 49 the colours, 0 everything |
| `Styled.AnsiCodeTracker.GetActiveCodes` | frontend/packages/tui/src/utils.ts:457-485 | The emitted codes are those of the state, in the fixed order |
| `Styled.ActiveCodesReplay` | frontend/packages/tui/src/utils.ts:457-485 | A plain terminal fed the active codes of any state that a tracker can be in reaches that state |
| `Styled.AfterWellFormed` | frontend/packages/tui/src/utils.ts:315-437 | Every sequence of SGR codes keeps the tracker among the states that can be replayed |
| `Wrap.SplitIntoTokens` | frontend/packages/tui/src/utils.ts:520-566 | The tokens rejoin to the line, and alternate between blank and solid |
| `Wrap.BreakLongWord` | frontend/packages/tui/src/utils.ts:696-763 | The lines show exactly the glyphs of the word in the styles they had; the glyph after each break did not fit any more; each line but the last ends in the style that the word has at the break, without underline, and the last in the style of the word; each line fits if every glyph does |
| `Wrap.LineEndResetStyle` | frontend/packages/tui/src/utils.ts:494-498 | What is appended at a break switches the underline off and nothing else, and it is empty exactly if none is on |
| `Wrap.WrapSingleLine` | frontend/packages/tui/src/utils.ts:601-678 | The lines are cut out of the line in order, every glyph in its own style, and only blanks behind a line are lost. Every break is necessary: the word that follows, or the spaces before it, did not fit any more, and only a word wider than a line is broken inside. Before every break the line ends in the style that the text has there, but without underline; the last line ends in the style of the text. No empty line is made in between, unless the glyph that follows is wider than a line. A line that fits comes back as it is, and one that does not gives lines without spaces at their ends; each fits if every glyph does |
| `Wrap.WrapTextWithAnsi` | frontend/packages/tui/src/utils.ts:579-599 | Read each from a plain state, the lines are cut out of the text in order, every glyph in its own style, and only blanks at the cuts are lost; every break within an input line is necessary, and there the line ends in the style that the text has, but without underline; if all input lines fit they come back as they are, behind the codes that replay the style; with positive glyph widths the lines keep to the width if and only if every single word glyph does |
| `Wrap.WrappedContent` | frontend/packages/tui/src/utils.ts:579-599 | Wrapping loses, repeats and reorders no glyph other than a space or newline |
| `Wrap.TooWideGlyph` | frontend/packages/tui/src/utils.ts:696-763 | A glyph wider than the width must overflow some line, whatever the layout |
| `Truncate.TruncateToWidth` | frontend/packages/tui/src/utils.ts:795-931 | Never wider than asked, exactly as wide with padding, fitting text unchanged; otherwise the longest prefix of glyphs that fits beside the ellipsis, or the clipped ellipsis alone |
| `Truncate.TruncateFragment` | frontend/packages/tui/src/utils.ts:50-128 | Keeps the longest prefix of glyphs that fits |
| `Truncate.Scan` | frontend/packages/tui/src/utils.ts:829-930 | The general scanning path meets the same specification |
| `Truncate.TruncationUnique` | frontend/packages/tui/src/utils.ts:816-930 | The specification determines the result, so the printable-ASCII path, the scanning path and the wide-ellipsis path agree |
| `Truncate.TruncatedCells` | frontend/packages/tui/src/utils.ts:130-148 | What is seen: the kept glyphs in their own styles, the ellipsis in its own, then blanks |
| `Truncate.TruncatedWidth` | frontend/packages/tui/src/utils.ts:795-931 | The width bound, and equality with padding, follow from the specification |
| `Overlay.SliceWithWidth` | frontend/packages/tui/src/utils.ts:942-990 | The result is a contiguous run of items from the first glyph that starts in the range to the last that does (and, if strict, ends in it), with the width of its glyphs, behind the escape sequences collected before |
| `Overlay.SliceShows` | frontend/packages/tui/src/utils.ts:942-990 | A slice shows the glyphs of its range, in the styles they have in the line if and only if the sequences before the start column and those between it and the first kept glyph may change places |
| `Overlay.SliceSwapsStyles` | frontend/packages/tui/src/utils.ts:957-963 | They do change places: a glyph that is green in the line comes out red in the slice |
| `Overlay.SliceFromStart` | frontend/packages/tui/src/utils.ts:942-990 | A slice from column 0 is a prefix of the line |
| `Overlay.StrictSliceWidth` | frontend/packages/tui/src/utils.ts:942-990 | A strict slice is never wider than asked |
| `Splicing.ExtractSegments` | frontend/packages/tui/src/utils.ts:997-1068 | The part before is the line up to its last glyph that starts before the overlay; the part after is a contiguous stretch behind the codes that replay the style there |
| `Splicing.CompositeLineAt` | frontend/packages/tui/src/tui.ts:767-815 | The line is composed of the three parts padded to their columns, and cut if it is too wide; it never exceeds the total width |
| `Splicing.CompositeExact` | frontend/packages/tui/src/tui.ts:767-815 | With one-column glyphs the line is exactly as wide as the terminal; every column under the overlay shows the overlay in its own style or a space, every other column the base line in its own style or a space |
| `Splicing.ComposeShows` | frontend/packages/tui/src/tui.ts:767-815 | For glyphs of any width, the composed line before the cut is at least as wide as the terminal and shows the three parts in their own styles |
| `StdinBuffers.ExtractCompleteSequences` | frontend/packages/tui/src/stdin-buffer.ts:184-224 | The scanner computes the tokens and the remainder, which are given by position below |
| `StdinBuffers.TokensRejoin` | frontend/packages/tui/src/stdin-buffer.ts:184-224 | Tokens and remainder rejoin to the buffer |
| `StdinBuffers.TokensAreTokens` | frontend/packages/tui/src/stdin-buffer.ts:184-224 | Every token is a single character or the shortest prefix that the test for complete sequences accepts, and the remainder is a sequence still waiting for its end |
| `StdinForms.TokenCloses` | frontend/packages/tui/src/stdin-buffer.ts:29-169 | Where the first token of an input that begins with an escape ends: `ESC O` after 3 characters, `ESC [ M` after 6, any other `ESC [` at the first character from `@` to `~`, but `ESC [ <` where it first reads digits; digits; digits and `M` or `m`, `ESC ]` at the first BEL or `ESC \`, `ESC P` and `ESC _` at the first `ESC \`, and any other escape after 2 characters |
| `StdinForms.TokensClose` | frontend/packages/tui/src/stdin-buffer.ts:184-224 | Every token is one character that is no escape, or a sequence that ends exactly there; and the remainder is one that ends nowhere yet |
| `StdinForms.ClosesPrefix` | frontend/packages/tui/src/stdin-buffer.ts:184-224 | Where a sequence ends does not depend on what follows |
| `StdinForms.ReadPlain` | frontend/packages/tui/src/stdin-buffer.ts:255-341 | A read without a paste marker emits single characters and whole sequences only, which with what stays buffered are what was read |
| `StdinForms.ReadPaste` | frontend/packages/tui/src/stdin-buffer.ts:266-321 | A paste in one read is one event with exactly what stands between the markers |
| `StdinBuffers.TokensResume` | frontend/packages/tui/src/stdin-buffer.ts:184-224 | Tokenizing may stop anywhere and resume from the remainder |
| `StdinBuffers.StdinBuffer.Process` | frontend/packages/tui/src/stdin-buffer.ts:255-341 | One call appends the events of the specification and moves to its state, whose tokens end where `StdinForms` says |
| `StdinBuffers.StdinBuffer.Timeout` | frontend/packages/tui/src/stdin-buffer.ts:343-367 | A flush emits what is buffered, if anything |
| `StdinBuffers.ChunkIndependence` | frontend/packages/tui/src/stdin-buffer.ts:255-341 | From the start, the events and the final state are the same for every cut of the input into non-empty chunks if and only if no token is completed inside a paste-start marker |
| `StdinBuffers.EscapeBeforePaste` | frontend/packages/tui/src/stdin-buffer.ts:266-321 | It does fail: an Escape key just before a paste is such an input |
| `StdinBuffers.ChunksDoNotMatter` | frontend/packages/tui/src/stdin-buffer.ts:255-341 | The same from any state, also inside a paste |
| `StdinBuffers.BoundaryIsClean` | frontend/packages/tui/src/stdin-buffer.ts:255-341 | A marker at a token boundary is safe |
| `StdinBuffers.TextConserved` | frontend/packages/tui/src/stdin-buffer.ts:255-341 | The input can be read off events and state if and only if every paste-start marker outside a paste stands at a token boundary |
| `StdinBuffers.PasteConserved` | frontend/packages/tui/src/stdin-buffer.ts:255-341 | The same for input that starts inside a paste |
| `StdinBuffers.TimeoutsLoseNothing` | frontend/packages/tui/src/stdin-buffer.ts:255-367 | Without pastes, any interleaving of chunks and flushes emits every character once and in order |
| `AgentLoops.StreamAssistantResponse` | frontend/packages/agent/src/agent-loop.ts:238-331 | The events tell every event of the stream from its first start on, a start as the start of a message and a delta as an update, and then the end of the final message. They keep to the lifecycle grammar, and the context gains exactly the final message, if and only if the stream has at most one start; otherwise stale partials stay, as many as counted |
| `AgentLoops.ExecuteSequential` | frontend/packages/agent/src/agent-loop.ts:350-388 | Results in the order of the calls, and the events of one call after the other, each started and ended once |
| `AgentLoops.CallTold` | frontend/packages/agent/src/agent-loop.ts:604-631 | The events of a call: its start, its updates, its end with the outcome, and the message with the result |
| `AgentLoops.ExecuteParallel` | frontend/packages/agent/src/agent-loop.ts:390-438 | For every interleaving of progress, completions and awaiting, the batch is finished exactly if the interleaving is long enough for the calls that are executed; then the results are the immediate outcomes followed by the executed ones, each in source order, and before that a prefix of them; every call is started once, in order, reports its progress until it has completed, and is ended once, as its result says; and the events keep to the grammar |
| `AgentLoops.FinishesOnceCompleted` | frontend/packages/agent/src/agent-loop.ts:425-438 | A batch cannot be finished before every execution has completed, and it is finished when after that the awaiting loop has moved on three times for each, whatever happens in between |
| `AgentLoops.SameResults` | frontend/packages/agent/src/agent-loop.ts:390-438 | Sequential and parallel order hold the same results |
| `AgentLoops.FollowCall` | frontend/packages/agent/src/agent-loop.ts:604-631 | The events of one call, from start to result message, lead back to where the turn was in the grammar |
| `AgentFlows.BothOrdersAnswer` | frontend/packages/agent/src/agent-loop.ts:350-438 | In either mode there is exactly one result for every call |
| `AgentFlows.FinalTells` | frontend/packages/agent/src/agent.ts:407-432 | Nothing queued is lost, repeated or reordered: the messages are the prompts and, turn by turn, what went in, the response and its results; taken followed by left over is what was queued before and during the run; and what goes in obeys the law below |
| `AgentFlows.NextIsLawful` | frontend/packages/agent/src/agent-loop.ts:165-231 | Before each response goes in what the steering queue gives by its mode. Only after a response without calls, and when every steering message that had come was in, it is what the queue of follow-ups gives |
| `AgentFlows.LawfulUnique` | frontend/packages/agent/src/agent-loop.ts:165-231 | What goes in before each response is determined by this law |
| `AgentFlows.OneEnding` | frontend/packages/agent/src/agent-loop.ts:155-232 | What a run is given decides after how many turns it stops, and whether it is finished or waits for the model or for tools |
| `AgentFlows.StopsEmpty` | frontend/packages/agent/src/agent-loop.ts:194-232 | Nothing is pending when a run stops; one that finishes without a failure has had no calls last, and leaves only steering that came after the last poll |
| `AgentFlows.FinalPaired` | frontend/packages/agent/src/agent-loop.ts:194-216 | Every response is followed by exactly its results, a failed one by none; only the last one may lack them while its tools are awaited |
| `AgentFlows.StaleIff` | frontend/packages/agent/src/agent-loop.ts:278-283 | No stale partial is left behind if and only if no stream has more than one start |
| `AgentRuns.RunTurn` | frontend/packages/agent/src/agent-loop.ts:170-216 | One turn keeps the grammar and the transcript, and tells exactly its response and the results of its calls in the order of the mode; it stops if the response failed, and then ends with the response and a turn end without results, is stuck exactly if the interleaving does not finish its calls, and else goes on |
| `AgentRuns.RunLoop` | frontend/packages/agent/src/agent-loop.ts:155-232 | Every run, finished or waiting for a model or a tool, comes to what its flow says: messages, queues, stale partials, the number of turns and the ending; and it keeps the grammar and the transcript, also when it stops on an error or abort, which ends the events at once |
| `AgentRuns.RunAgentLoop` | frontend/packages/agent/src/agent-loop.ts:95-118 | The same from the prompts, the first arrivals and the first steering poll on, which may be skipped |
| `AgentRuns.RunAgentLoopContinue` | frontend/packages/agent/src/agent-loop.ts:120-143 | Refuses exactly an empty context and one that ends in an assistant message, and otherwise runs as above without prompts |
| `AgentRuns.RunsAgree` | frontend/packages/agent/src/agent-loop.ts:155-232 | Two runs of the same input agree on messages, queues, number of turns and ending |
| `AgentRuns.TranscriptAgreesIff` | frontend/packages/agent/src/agent-loop.ts:155-232 | The transcript read off the events equals the loop context at every turn end and at the end, where `turn_end` carries the last response with its results and `agent_end` all new messages, and the events keep to the grammar, if and only if no stream that was used had more than one start |
| `AgentRuns.WaitingAgrees` | frontend/packages/agent/src/agent-loop.ts:155-232 | A run that waits keeps to the grammar and agrees as well, if no stream had more than one start |
| `AgentRuns.TwoStartsDisagree` | frontend/packages/agent/src/agent-loop.ts:278-283 | It does fail in every finished run whose first stream starts twice |
| `AgentRuns.QueuesConserved` | frontend/packages/agent/src/agent.ts:407-432 | The laws of the queues for every run, finished or waiting, stated over what it was given, its messages and what is left in its queues; the messages are those of the events, but for results of tools that are awaited |
| `AgentRuns.ResponsesAnswered` | frontend/packages/agent/src/agent-loop.ts:194-216 | Every response is followed by exactly its results, but for the last one of a run that waits for its tools |
| `AgentRuns.FinishedRun` | frontend/packages/agent/src/agent-loop.ts:194-232 | A run is finished because the last response ended in an error or was aborted, or because it had no calls and the queues gave nothing any more |
| `AgentRuns.FailureEndsRun` | frontend/packages/agent/src/agent-loop.ts:194-198 | A response with the stop reason error or aborted is the last one of its run, which is finished; the run ends with the end of its message, a turn end without results and the end of the agent, so that none of its calls is started |
| `AgentRuns.OthersAnswered` | frontend/packages/agent/src/agent-loop.ts:194-216 | Every other response used stands in the messages, in the order of the turns, with the results of all its calls right behind it, in the order of the mode, but for the last one of a run that waits for its tools |
| `AgentRuns.ToolsAwaited` | frontend/packages/agent/src/agent-loop.ts:390-438 | A run waits for tools only in parallel mode, when the interleaving is too short for its calls |
| `Agents.Agent.ProcessEvent` | frontend/packages/agent/src/agent.ts:491-529 | The reducer on the agent state |
| `Agents.ReducedMessages` | frontend/packages/agent/src/agent.ts:491-529 | The transcript is what it was followed by the messages ended |
| `Agents.ReducedTracks` | frontend/packages/agent/src/agent.ts:491-529 | Along a grammatical trace a message is streaming exactly while one is open, and only running calls are pending |
| `Agents.PendingIff` | frontend/packages/agent/src/agent.ts:491-529 | A tool call is pending exactly if it has started, or was pending before, and has not ended since, along any trace |
| `Agents.StreamingIs` | frontend/packages/agent/src/agent.ts:491-529 | The message streaming is that of the last event that says so: a started message, the last partial, or none after an end |
| `Agents.NothingPendingAtTurnEnd` | frontend/packages/agent/src/agent.ts:491-529 | At every `turn_end` no tool call is pending and nothing is streaming |
| `Agents.TranscriptAtTurnEnd` | frontend/packages/agent/src/agent.ts:491-529 | At every `turn_end` and at `agent_end` the event-sourced transcript is the context of the loop |
| `Agents.Agent.RunPromptMessages` | frontend/packages/agent/src/agent.ts:371-385 | A run comes to what the flow says for this agent state and these queues; the state is the reduced one, the queues are as the loop left them, and if no stream used had more than one start and it is finished, the agent is idle with the transcript of the loop |
| `Agents.Agent.Continue` | frontend/packages/agent/src/agent.ts:323-350 | After an assistant message exactly what is drained from the steering queue, or else from the follow-up queue, become the prompts, and the first steering poll is skipped in the first case only; after another message the run starts without prompts; errors exactly when there is nothing to do, and then nothing changes |
| `Agents.PendingMessageQueue.Drain` | frontend/packages/agent/src/agent.ts:112-143 | Everything, or at most the oldest message; drained followed by kept is what was queued |
| `EventStreams.EventStream.Push` | frontend/packages/ai/src/utils/event-stream.ts:20-35 | Queue and waiters are never both non-empty, delivered followed by queued values are the accepted events, and a waiting request is answered |
| `EventStreams.EventStream.End` | frontend/packages/ai/src/utils/event-stream.ts:37-47 | Closes the stream, answers the waiter and fixes the result if it is the first |
| `EventStreams.EventStream.Next` | frontend/packages/ai/src/utils/event-stream.ts:49-61 | A consumer gets the next accepted event exactly if one is queued, else learns of the end if the stream is closed, or else is counted as waiting |
| `EventStreams.AcceptedUpToFirst` | frontend/packages/ai/src/utils/event-stream.ts:20-47 | Accepted are the events pushed up to and including the first completing one, or up to the first `end` |
| `EventStreams.ClosedForGood` | frontend/packages/ai/src/utils/event-stream.ts:20-35 | Nothing is accepted after closing |
| `EventStreams.ClosedIff` | frontend/packages/ai/src/utils/event-stream.ts:20-47 | A stream is closed exactly if some `end` or some completing event has come |
| `EventStreams.FinalIsFirst` | frontend/packages/ai/src/utils/event-stream.ts:20-47 | The final result is the first one offered, by an `end` with a result or by the event that completes the open stream, and there is none as long as none is |
| `BulkStaging.Stage` | backend/hermes/skills/send-whatsapp-bulk/scripts/bulk.js:215-250 | Queued times are successive offers of base plus delay: gaps of 75 to 105 s from the base on, none past the window end, so `75000 * queued <= end - base`; every unblocked number is queued if even the longest delays fit; an unblocked number is queued exactly if it is before the window end now and at the time offered, and a refused one or one that does not fit leaves the base |
| `BulkStaging.Base` | backend/hermes/skills/send-whatsapp-bulk/scripts/bulk.js:221-224 | The base is the latest of now, the window start and the queue tail |
| `BulkStaging.PacedBounds` | backend/hermes/skills/send-whatsapp-bulk/scripts/bulk.js:230-250 | What pacing means for the first, the last and any two times |
| `BulkStaging.Normalize` | backend/hermes/skills/send-whatsapp-bulk/scripts/bulk.js:204-213 | Every valid number once, in the order of first occurrence; every invalid one reported |
| `BulkStaging.WindowMonotone` | backend/hermes/skills/send-whatsapp-bulk/scripts/bulk.js:84-90 | Windows of later instants are the same or on a later day |
| `BulkStaging.HoursOfDay` | backend/hermes/skills/send-whatsapp-bulk/scripts/bulk.js:84-90 | The hours of a window: from 9:00 to 18:00 for queueing and to 19:30 for sending, Indian time, on the day of the instant |
| `BulkStaging.RandDelayRange` | backend/hermes/skills/send-whatsapp-bulk/scripts/bulk.js:47-47 | A random delay is between 75 and 105 s |
| `BulkStaging.QueueTailIsLatest` | backend/hermes/skills/send-whatsapp-bulk/scripts/bulk.js:137-145 | The tail is at or after every pending time of the window |
| `BulkStaging.QueueTailIsPending` | backend/hermes/skills/send-whatsapp-bulk/scripts/bulk.js:137-145 | And it is one of them |
| `BulkStaging.StartKeepsSpacing` | backend/hermes/skills/send-whatsapp-bulk/scripts/bulk.js:215-250 | A start with a clock that has not gone back keeps all pending times at least 75 s apart |
| `BulkStaging.AlwaysSpaced` | backend/hermes/skills/send-whatsapp-bulk/scripts/bulk.js:137-250 | Over every sequence of starts with a clock that does not go back and removals, all pending times are at least 75 s apart |
| `BulkDispatch.DoKeeps` | backend/hermes/skills/send-whatsapp-bulk/scripts/bulk.js:122-373 | Every step of every dispatcher, start and crash, at SQL-statement granularity, keeps the invariant of ownership, counting and sparing |
| `BulkDispatch.OneOwner` | backend/hermes/skills/send-whatsapp-bulk/scripts/bulk.js:327-340 | A row is in `sending` exactly when a tick holds it, and only one does |
| `BulkDispatch.SendsAreAttempts` | backend/hermes/skills/send-whatsapp-bulk/scripts/bulk.js:353-366 | Real sends of a row equal its attempts, plus one while an answer is not written down; at most 3, at most one successful; `sent` means one success, `failed` three failures |
| `BulkDispatch.OneSendPerTick` | backend/hermes/skills/send-whatsapp-bulk/scripts/bulk.js:298-369 | At most one real send a tick, and none outside 9:00 to 19:30 |
| `BulkDispatch.TerminalForGood` | backend/hermes/skills/send-whatsapp-bulk/scripts/bulk.js:348-366 | Over any run a row keeps its number, never forgets an attempt and never leaves a final status |
| `BulkDispatch.OfflineChangesNothing` | backend/hermes/skills/send-whatsapp-bulk/scripts/bulk.js:315-320 | A tick that ends without a link has changed no row at any of its steps |
| `BulkDispatch.NoDuplicatesIff` | backend/hermes/skills/send-whatsapp-bulk/scripts/bulk.js:122-134 | Throughout a run no number has two pending messages, if and only if no start inserts a message for a number that by then has one pending |
| `BulkDispatch.OnePendingPerNumber` | backend/hermes/skills/send-whatsapp-bulk/scripts/bulk.js:122-134 | It is enough that no two starts are at the same number at a time, whatever the dispatchers do |
| `BulkDispatch.CooldownRespected` | backend/hermes/skills/send-whatsapp-bulk/scripts/bulk.js:342-351 | As long as no start doubles a number, a message is really sent only to a number without a sent message created in the last three hours, at that very moment |
| `BulkDispatch.TwoStartsDuplicate` | backend/hermes/skills/send-whatsapp-bulk/scripts/bulk.js:230-243 | Two starts side by side at the same number can queue it twice |
| `BulkDispatch.TickSends` | backend/hermes/skills/send-whatsapp-bulk/scripts/bulk.js:292-369 | The steps of one undisturbed tick send the earliest due row and record the outcome |
| `BulkDispatch.GapLooksAtCreation` | backend/hermes/skills/send-whatsapp-bulk/scripts/bulk.js:322-324 | After a send the condition of the gap check holds exactly as long as the sent message is less than 75 s old, counted from its creation |
| `BulkDispatch.NoGapBetweenSends` | backend/hermes/skills/send-whatsapp-bulk/scripts/bulk.js:322-324 | So two ticks, one after the other, can send within the same millisecond |
| `DispatchLaws.BeginsInWindow` | backend/hermes/skills/send-whatsapp-bulk/scripts/bulk.js:298-298 | A tick begins exactly from 9:00 to 19:30 |
| `DispatchLaws.PeekHoldsBack` | backend/hermes/skills/send-whatsapp-bulk/scripts/bulk.js:303-308 | If no scheduled row is due the tick changes no row and sends nothing at any later step, whatever else happens; otherwise it goes on |
| `DispatchLaws.ProbeHoldsBack` | backend/hermes/skills/send-whatsapp-bulk/scripts/bulk.js:315-320 | The same without a link |
| `DispatchLaws.GapHoldsBack` | backend/hermes/skills/send-whatsapp-bulk/scripts/bulk.js:322-324 | The same if some sent row was created less than 75 s before; if there is none, the tick goes on to claim |
| `DispatchLaws.ClaimsFirstDue` | backend/hermes/skills/send-whatsapp-bulk/scripts/bulk.js:327-340 | A row is claimed exactly if it is due, no due row was scheduled earlier and the tick has skipped fewer than 50 |
| `DispatchLaws.CooldownDecides` | backend/hermes/skills/send-whatsapp-bulk/scripts/bulk.js:342-351 | A claimed row whose number has a sent row created less than three hours before is skipped for good without a send; any other is sent |
| `DispatchLaws.RecordSettlesRow` | backend/hermes/skills/send-whatsapp-bulk/scripts/bulk.js:353-366 | After an answer the row is sent, or scheduled again 75 to 105 s later if this was not the third attempt, or failed; no other row changes and the tick is over |
| `DispatchLaws.TickSendsFirstDue` | backend/hermes/skills/send-whatsapp-bulk/scripts/bulk.js:292-369 | An undisturbed tick within the hours, with no sent row younger than 75 s, sends the first row due if its number is not in its cooldown, and writes down what came of it |
| `DispatchLaws.SentWhenDue` | backend/hermes/skills/send-whatsapp-bulk/scripts/bulk.js:292-369 | Over every run, what is really sent is a row in `sending` that had come due, within the hours for sending |
| `DispatchLaws.StartInserts` | backend/hermes/skills/send-whatsapp-bulk/scripts/bulk.js:122-134 | An undisturbed start inserts a message exactly if none for its number is scheduled or being sent and none sent was created less than three hours before |
| `DispatchLaws.NumbersWaitOnce` | backend/hermes/skills/send-whatsapp-bulk/scripts/bulk.js:122-134 | Over every run no number has two messages scheduled or being sent, as long as no two starts are at one number at a time |
| `DispatchLaws.CooldownKept` | backend/hermes/skills/send-whatsapp-bulk/scripts/bulk.js:342-351 | Over every run whatever is really sent goes to a number without a sent row created in the last three hours, as long as no start doubles a number |
| `MessageStream.OneStartFirst` | frontend/packages/ai/src/providers/google-gemini-cli.ts:477-482 | In a well-bracketed stream there is one `start`, before everything else |
| `GoogleBlocks.PartBracketed` | frontend/packages/ai/src/providers/google-vertex.ts:109-217 | Every part keeps the events well-bracketed: blocks one after the other under the next index, and deltas that add up to the block |
| `GoogleBlocks.PartAlternating` | frontend/packages/ai/src/providers/google-vertex.ts:109-217 | Adjacent text and thinking blocks are never of the same type |
| `GoogleBlocks.PartLettersKept` | frontend/packages/ai/src/providers/google-vertex.ts:109-217 | The blocks say exactly what the parts said, character by character, as thinking exactly if the part is a thought, and call by call |
| `GoogleBlocks.PartsKept` | frontend/packages/ai/src/providers/google-vertex.ts:109-217 | The three together, for every sequence of parts |
| `GoogleBlocks.IdsDistinctIff` | frontend/packages/ai/src/providers/google-vertex.ts:191-197 | The ids of the calls are distinct if and only if no made-up id was already there when it was made up |
| `GoogleBlocks.CallIs` | frontend/packages/ai/src/providers/google-vertex.ts:191-197 | A call comes out with its name and arguments, an empty object if they are missing or null, and the id it came with, unless that is missing or taken; then its id is made up of its name, the time and the next counter |
| `GoogleBlocks.ProvidedIdClashes` | frontend/packages/ai/src/providers/google-vertex.ts:191-197 | They do meet when the model sends the id that is made up next |
| `GoogleBlocks.ForeignIdsDistinct` | frontend/packages/ai/src/providers/google-vertex.ts:191-197 | They are distinct if the provided ids do not have the form of a made-up one |
| `GoogleBlocks.GeneratedDiffer` | frontend/packages/ai/src/providers/google-vertex.ts:195-195 | Made-up ids with different counters differ |
| `GoogleStreams.PartStream.TakePart` | frontend/packages/ai/src/providers/google-vertex.ts:109-217 | The imperative machine implements the specification |
| `GoogleStreams.PartStream.StreamResponse` | frontend/packages/ai/src/providers/google-gemini-cli.ts:500-735 | The chunks up to a fault, or all of them and the end of the last block; tells whether anything was said, and sets the stop reason |
| `GoogleStreams.PartStream.StreamVertex` | frontend/packages/ai/src/providers/google-vertex.ts:100-292 | For every stream of chunks with or without fault or abort: events well-bracketed and ended by `done` or `error`, which read as the message, whose blocks say what the parts said and alternate |
| `GoogleStreams.PartStream.StreamGemini` | frontend/packages/ai/src/providers/google-gemini-cli.ts:738-791 | The same across the retries of empty streams, for the attempt that decides, with one `start` |
| `GoogleStreams.SilentParts` | frontend/packages/ai/src/providers/google-gemini-cli.ts:766-776 | An attempt that says nothing leaves no trace |
| `GoogleStreams.DecidingIs` | frontend/packages/ai/src/providers/google-gemini-cli.ts:738-776 | There are at most three attempts; each before the deciding one said nothing, and only the third may say nothing and decide |
| `GoogleStreams.SilentIff` | frontend/packages/ai/src/providers/google-gemini-cli.ts:738-776 | An attempt says nothing exactly if it has no fault and none of its parts has a text or a call |
| `GoogleStreams.StopReasonIs` | frontend/packages/ai/src/providers/google-vertex.ts:219-224 | The stop reason is that of the last chunk that gives one, or tool use if a call had come by then |
| `GoogleStreams.ReasonIs` | frontend/packages/ai/src/providers/google-gemini-cli.ts:778-800 | How a stream ends: with the fault, or aborted if the signal says so at the end, or failed if nothing was said or the stop reason is a failure, or else done with the stop reason |
| `Faux.SplitStringByTokenSize` | frontend/packages/ai/src/providers/faux.ts:241-251 | The chunks rejoin to the text; all but the last have the drawn size, which determines how many there are |
| `Faux.StreamWithDeltas` | frontend/packages/ai/src/providers/faux.ts:296-389 | For any message and token sizes, also for one that ends in error or aborted, the events read as the message with no block cut off if the signal says at no look that the request is aborted, and only then; otherwise they read as the blocks before the look that is the first to say so |
| `Proxies.ProxyStream.ProcessProxyEvent` | frontend/packages/agent/src/proxy.ts:211-340 | One event updates the message and yields an event, nothing or a failure, as specified |
| `Proxies.ProxyStream.Stream` | frontend/packages/agent/src/proxy.ts:156-198 | For any cut of the text into reads, the message and the events are those of the complete lines of the text up to the first failure, or up to the first look at which the request is aborted |
| `Proxies.LinesJoin` | frontend/packages/agent/src/proxy.ts:164-166 | The line buffer remembers all that matters of the text before |
| `Proxies.ReplayTracks` | frontend/packages/agent/src/proxy.ts:211-340 | Rebuilding from stripped events follows the independent reader block by block |
| `Proxies.RoundTrip` | frontend/packages/agent/src/proxy.ts:156-340 | Any finished well-bracketed stream, also one that ends in error or aborted, stripped, sent and read in any pieces, gives exactly the blocks back, with a block that the error has cut off as far as it had come; and the consumer gets the same events if and only if no call has arguments that count as false |
| `Proxies.UnendedLineLost` | frontend/packages/agent/src/proxy.ts:164-186 | An event whose line is not ended by a newline is lost |
| `ProxyLaws.LinesAre` | frontend/packages/agent/src/proxy.ts:164-166 | The complete lines and the rest are the text cut at its newlines |
| `ProxyLaws.PayloadIs` | frontend/packages/agent/src/proxy.ts:168-171 | A line carries something exactly if it begins with `data: ` and is not blank behind that; then it is what stands there from the first to the last character that is not white space |
| `ProxyLaws.LinesLead` | frontend/packages/agent/src/proxy.ts:168-198 | The client gives up exactly if some line carries something that is no event or the events carried do not fit; otherwise it is where these events lead |
| `ProxyLaws.GivesUpIff` | frontend/packages/agent/src/proxy.ts:211-340 | Over any sequence of events, well-bracketed or not, the client gives up exactly if some event does not fit those before it: a delta or end of prose whose block was not last begun as prose of that kind, or a delta of a call whose block was not last begun as a call |
| `ProxyLaws.SlotsAre` | frontend/packages/agent/src/proxy.ts:211-340 | As long as it has not, it has exactly the blocks that were begun, each as it was last begun, with what its deltas have said since |
| `ProxyLaws.OneMore` | frontend/packages/agent/src/proxy.ts:211-340 | The consumer gets every event that fits as it is, an end of prose with what the deltas said, and nothing for the end of a call that was not begun |

## Left out

- Renderer.RunTight: a resize must give a size other than the one last rendered, because the code cannot see a resize there and back, and if the contents are gone the law is false (`Frames.ResizeBackUnnoticed`, `Renderer.Tui.RenderUnchanged`); before the first render any size will do if the rows from the cursor on stay blank.
- Renderer.Run: the same premise on resizes.
- Renderer.Tui.DoRender: assumes lines within the width, as frontend/packages/tui/README.md:139 demands of components; the crash on a wider line, image lines, Termux height changes and debug logging are not modelled.
- Terminals.PrintText: glyphs of width 0 leave no mark on the grid.
- Wrap.WrapTextWithAnsi: the width bound is stated for glyphs of positive width; the only blanks are the space and the newline.
- Overlay.SliceWithWidth: columns are natural numbers; a tab has the width it is given, although the widths that `graphemeWidth` and `visibleWidth` give it differ.
- Splicing.CompositeExact: column exactness is stated for glyphs of one column; for others the bound on the width and the composition of the parts are proved.
- Truncate.TruncateToWidth: the two scanning loops of the source, with and without escape sequences, are one loop over items.
- Agents.Agent.RunPromptMessages: listeners, hooks that throw, `handleRunFailure` and the guard against a second run at a time are not modelled; arrivals during a run are part of its script.
- AgentRuns.RunLoop: a tool of a sequential batch that never completes is not modelled; messages arrive at two moments of a turn, before and after its steering poll; injected messages are user and custom messages; `transformContext`, `convertToLlm` and API keys are not modelled.
- EventStreams.EventStream.Next: one consumer, so at most one request waits.
- StdinBuffers.StdinBuffer.Process: strings only; the conversion of a single high byte of a Buffer is left out, and the timer is a call of `Timeout`.
- BulkStaging.AlwaysSpaced: retries pick times of their own and are not starts, so they are not part of the statement.
- BulkDispatch.DoKeeps: of rows that are due together the earliest is claimed, ties arbitrarily; the counter of disconnected ticks, the message texts and the send ids are not modelled.
- BulkDispatch.CooldownRespected: needs that no start doubles a number; for two starts at the same number it is not promised.
- GoogleStreams.PartStream.StreamGemini: fetching, delays and error texts are one fault; usage figures, response ids and thought signatures are not modelled.
- Proxies.RoundTrip: JSON printing and parsing are functions of which only the inverse laws are assumed; signatures, usage and error messages are not modelled.
- Proxies.ProxyStream.ProcessProxyEvent: events of a type the client does not know, which it passes over, are not modelled.
- Proxies.ProxyStream.Stream: reads are texts; the byte decoder is not part of this model.
- Faux.StreamWithDeltas: timing of chunks is left out; the abort signal may say anything at each look.
- Grapheme segmentation, emoji and East Asian width tables and the width cache: glyph widths are given.
- OSC and hyperlink state, terminal images, and the layout and focus of overlays.
- Authentication, headers, network retries and TypeBox validation.
- `wa.js`, the web backend, the Slack bot, command lines, configuration and the web UI: plumbing.
- Key tables, kill ring, undo stack, fuzzy matching and phone normalization: easy members.
