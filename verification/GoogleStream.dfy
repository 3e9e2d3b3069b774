/**
 The streaming loops of the Google providers over the part-to-block machine: one response
 (`streamResponse`), the whole Vertex stream and the Gemini CLI's retries of empty streams.
 */
module GoogleStreams {
  import opened Basics
  import opened MessageStream
  import opened GoogleBlocks

  // ---- One response ----

  /** How many items come before the first fault. */
  function Intact(items: seq<Item>): (k: nat)
    ensures k <= |items| && (k < |items| ==> items[k].Fault?)
    ensures forall i | 0 <= i < k :: items[i].Chunk?
  {
    if items == [] || items[0].Fault? then 0 else 1 + Intact(items[1..])
  }

  /** All parts, up to the first fault. */
  function PartsOf(items: seq<Item>): seq<Part> {
    if items == [] then []
    else PartsOf(items[..|items| - 1]) + if items[|items| - 1].Chunk? then items[|items| - 1].parts else []
  }

  predicate HasCalls(content: seq<Block>) { exists i | 0 <= i < |content| :: content[i].ToolCall? }

  /** The reason after the chunks: the last one given, but tool use as soon as there is a call. */
  function StopReason(stringify: Json -> string, m: Machine, reason: Reason, items: seq<Item>): Reason
    requires Valid(m)
  {
    if items == [] then reason
    else
      var last := items[|items| - 1];
      if last.Fault? || last.finish.None? then StopReason(stringify, m, reason, items[..|items| - 1])
      else if HasCalls(TakeParts(stringify, m, PartsOf(items)).content) then ToolUse
      else last.finish.value
  }

  predicate Says(part: Part) { part.text.Some? || part.call.Some? }

  predicate SaysAny(parts: seq<Part>) { exists i | 0 <= i < |parts| :: Says(parts[i]) }

  lemma {:induction false} TakePartsJoin(stringify: Json -> string, m: Machine, a: seq<Part>, b: seq<Part>)
    requires Valid(m)
    ensures TakeParts(stringify, m, a + b) == TakeParts(stringify, TakeParts(stringify, m, a), b)
  {
    if b == [] {
      assert a + b == a;
    } else {
      assert (a + b)[..|a + b| - 1] == a + b[..|b| - 1];
      TakePartsJoin(stringify, m, a, b[..|b| - 1]);
    }
  }

  /** Parts that say nothing change nothing. */
  lemma {:induction false} SilentParts(stringify: Json -> string, m: Machine, parts: seq<Part>)
    requires Valid(m) && !SaysAny(parts)
    ensures TakeParts(stringify, m, parts) == m
  {
    if parts != [] {
      assert !SaysAny(parts[..|parts| - 1]) && !Says(parts[|parts| - 1]);
      SilentParts(stringify, m, parts[..|parts| - 1]);
    }
  }

  /** Once a part says something the message has started. */
  lemma {:induction false} SayingStarts(stringify: Json -> string, m: Machine, parts: seq<Part>)
    requires Valid(m) && (m.open ==> m.started)
    ensures var m' := TakeParts(stringify, m, parts); m'.open || m.started || SaysAny(parts) ==> m'.started
  {
    if parts != [] {
      var init, last := parts[..|parts| - 1], parts[|parts| - 1];
      SayingStarts(stringify, m, init);
      PartStarts(stringify, TakeParts(stringify, m, init), last);
      hide GoogleBlocks.TakePart, Valid;
      if SaysAny(parts) && !Says(last) {
        var i :| 0 <= i < |parts| && Says(parts[i]);
        assert init[i] == parts[i];
      }
    }
  }

  lemma PartStarts(stringify: Json -> string, m: Machine, part: Part)
    requires Valid(m) && (m.open ==> m.started)
    ensures var m' := GoogleBlocks.TakePart(stringify, m, part); m'.open || m.started || Says(part) ==> m'.started
  {
    if part.text.Some? {
      assert GoogleBlocks.TakeText(m, KindOf(part), part.text.value).started;
    }
    hide GoogleBlocks.TakeText;
  }

  lemma PartsOfSnoc(items: seq<Item>, k: nat)
    requires k < |items|
    ensures PartsOf(items[..k + 1]) == PartsOf(items[..k]) + if items[k].Chunk? then items[k].parts else []
  {
    assert items[..k + 1][..k] == items[..k];
  }

  /** How a message ends: `done` after a complete response with a good reason, `error` otherwise. */
  ghost predicate Ends(stringify: Json -> string, content: seq<Block>, events: seq<Event>, reason: Reason) {
    var r := Read(stringify, events);
    && r.Finished? && r.reason == reason
    && (!IsFailure(reason) ==> r.content == content && NoTwins(content))
    && (IsFailure(reason) ==> r.content == content || (content != [] && r.content == content[..|content| - 1]))
  }

  /** What is left of `Keeps` when the last block has ended. */
  ghost predicate Kept(stringify: Json -> string, m: Machine, letters: seq<Letter>) {
    Bracketed(stringify, m) && NoTwins(m.content) && Letters(m.content) == letters
  }

  lemma CloseKept(stringify: Json -> string, m: Machine, letters: seq<Letter>)
    requires Valid(m) && Keeps(stringify, m, letters)
    ensures Kept(stringify, m, letters) && Kept(stringify, CloseBlock(m), letters)
    ensures !CloseBlock(m).open && CloseBlock(m).started == m.started && CloseBlock(m).content == m.content
  {
    CloseBracketed(stringify, m);
  }

  lemma FailedEnds(stringify: Json -> string, m: Machine, letters: seq<Letter>, reason: Reason)
    requires Kept(stringify, m, letters) && IsFailure(reason)
    ensures Ends(stringify, m.content, m.events + [Error(reason)], reason) && Letters(m.content) == letters
  {
    ReadSnoc(stringify, m.events, Error(reason));
  }

  lemma DoneEnds(stringify: Json -> string, m: Machine, letters: seq<Letter>, reason: Reason)
    requires Kept(stringify, m, letters) && m.started && !m.open && !IsFailure(reason)
    ensures Ends(stringify, m.content, m.events + [Done(reason)], reason) && Letters(m.content) == letters
  {
    ReadSnoc(stringify, m.events, Done(reason));
  }

  class PartStream {
    var content: seq<Block>
    var currentBlock: Option<Kind>
    var events: seq<Event>
    var started: bool
    var toolCallCounter: nat
    var stopReason: Reason

    function State(): Machine
      reads this
    {
      Machine(content, currentBlock.Some?, events, started, toolCallCounter)
    }

    predicate Ok()
      reads this
    {
      Valid(State()) && (currentBlock.Some? ==> content[|content| - 1].kind == currentBlock.value)
    }

    constructor (counter: nat)
      ensures Ok() && State() == Machine([], false, [], false, counter) && stopReason == Stop
    {
      content, currentBlock, events, started, toolCallCounter, stopReason := [], None, [], false, counter, Stop;
    }

    /** `ensureStarted` */
    method EnsureStarted()
      modifies this
      ensures State() == GoogleBlocks.EnsureStarted(old(State()))
      ensures currentBlock == old(currentBlock) && stopReason == old(stopReason)
    {
      if !started {
        events := events + [Start];
        started := true;
      }
    }

    /** The end events before another kind of block, before a call and at the end of a response. */
    method EndBlock()
      requires Ok()
      modifies this`events, this`currentBlock
      ensures Ok() && State() == CloseBlock(old(State()))
    {
      if currentBlock.Some? {
        var n := |content| - 1;
        events := events + [End(currentBlock.value, n, content[n].text)];
        currentBlock := None;
      }
    }

    /** The current block becomes one of this kind. */
    method BeginBlock(kind: Kind)
      requires Ok()
      modifies this
      ensures Ok() && currentBlock == Some(kind) && State() == OpenBlock(old(State()), kind) && stopReason == old(stopReason)
    {
      if currentBlock != Some(kind) {
        EndBlock();
        content := content + [Prose(kind, "")];
        currentBlock := Some(kind);
        EnsureStarted();
        events := events + [Begin(kind, |content| - 1)];
      }
    }

    method TakeText(kind: Kind, text: string)
      requires Ok()
      modifies this
      ensures Ok() && State() == GoogleBlocks.TakeText(old(State()), kind, text) && stopReason == old(stopReason)
    {
      hide OpenBlock, CloseBlock, GoogleBlocks.EnsureStarted;
      BeginBlock(kind);
      var n := |content| - 1;
      content := content[..n] + [Prose(kind, content[n].text + text)];
      events := events + [Delta(kind, n, text)];
    }

    method TakeCall(stringify: Json -> string, call: FunctionCall)
      requires Ok()
      modifies this
      ensures Ok() && State() == GoogleBlocks.TakeCall(stringify, old(State()), call) && stopReason == old(stopReason)
    {
      hide HasId, GeneratedId;
      EndBlock();
      var id := call.id;
      var needsNewId := call.id == "" || HasId(content, call.id);
      if needsNewId {
        toolCallCounter := toolCallCounter + 1;
        id := GeneratedId(call, toolCallCounter);
      }
      var args := if call.arguments.Some? && !call.arguments.value.Null? then call.arguments.value else Object([]);
      var toolCall := ToolCall(id, if call.name.Some? then call.name.value else "", args);
      assert toolCall == CallBlock(old(State()), call);
      content := content + [toolCall];
      EnsureStarted();
      var n := |content| - 1;
      events := events + [ToolBegin(n, id, toolCall.name), ToolDelta(n, stringify(args)), ToolEnd(n, toolCall)];
    }

    method TakePart(stringify: Json -> string, part: Part)
      requires Ok()
      modifies this
      ensures Ok() && State() == GoogleBlocks.TakePart(stringify, old(State()), part) && stopReason == old(stopReason)
    {
      hide GoogleBlocks.TakeText, GoogleBlocks.TakeCall;
      if part.text.Some? { TakeText(KindOf(part), part.text.value); }
      if part.call.Some? { TakeCall(stringify, part.call.value); }
    }

    /** All parts of one chunk; tells whether one of them says something. */
    method TakeChunk(stringify: Json -> string, parts: seq<Part>) returns (said: bool)
      requires Ok()
      modifies this
      ensures Ok() && State() == TakeParts(stringify, old(State()), parts) && stopReason == old(stopReason)
      ensures said == SaysAny(parts)
    {
      hide GoogleBlocks.TakePart;
      said := false;
      var i := 0;
      while i < |parts|
        invariant 0 <= i <= |parts| && Ok() && stopReason == old(stopReason)
        invariant State() == TakeParts(stringify, old(State()), parts[..i])
        invariant said == SaysAny(parts[..i])
      {
        assert parts[..i + 1][..i] == parts[..i];
        TakePart(stringify, parts[i]);
        said := said || Says(parts[i]);
        i := i + 1;
      }
      assert parts[..i] == parts;
    }

    method TakeFinish(finish: Option<Reason>)
      modifies this`stopReason
      ensures stopReason == if finish.None? then old(stopReason) else if HasCalls(content) then ToolUse else finish.value
    {
      if finish.Some? {
        stopReason := finish.value;
        if HasCalls(content) { stopReason := ToolUse; }
      }
    }

    /** `streamResponse`: the chunks up to a fault, or all of them and the end of the last block. */
    method StreamResponse(stringify: Json -> string, items: seq<Item>) returns (hasContent: bool, fault: Option<bool>)
      requires Ok() && currentBlock.None?
      modifies this
      ensures Ok()
      ensures var k := Intact(items);
        var m := TakeParts(stringify, old(State()), PartsOf(items[..k]));
        && State() == (if k < |items| then m else CloseBlock(m))
        && fault == (if k < |items| then Some(items[k].aborted) else None)
        && hasContent == SaysAny(PartsOf(items[..k]))
        && stopReason == StopReason(stringify, old(State()), old(stopReason), items[..k])
    {
      hide TakeParts, PartsOf, StopReason, SaysAny, HasCalls, Valid, Intact;
      hasContent, fault := false, None;
      ghost var m := State();
      ResponseStart(stringify, m, stopReason, items);
      var i := 0;
      while i < |items|
        invariant 0 <= i <= Intact(items) <= |items| && Ok()
        invariant State() == TakeParts(stringify, m, PartsOf(items[..i]))
        invariant hasContent == SaysAny(PartsOf(items[..i]))
        invariant stopReason == StopReason(stringify, m, old(stopReason), items[..i])
      {
        IntactNext(items, i);
        if items[i].Fault? {
          fault := Some(items[i].aborted);
          return;
        }
        ResponseNext(stringify, m, old(stopReason), items, i);
        var said := TakeChunk(stringify, items[i].parts);
        TakeFinish(items[i].finish);
        hasContent := hasContent || said;
        i := i + 1;
      }
      EndBlock();
    }

    /** `streamGoogleVertex`. The request may fail before there is a stream. */
    method StreamVertex(stringify: Json -> string, refused: Option<bool>, items: seq<Item>, abortedAtEnd: bool)
      requires Ok() && State() == Initial(toolCallCounter) && stopReason == Stop
      modifies this
      ensures refused.Some? ==> content == [] && events == [Error(Failure(refused.value))]
      ensures refused.None? ==> content == TakeParts(stringify, Opened(old(toolCallCounter)), PartsOf(items[..Intact(items)])).content
      ensures refused.None? ==> Result(stringify, content, events, items, abortedAtEnd, true,
        StopReason(stringify, Opened(old(toolCallCounter)), Stop, items[..Intact(items)]))
    {
      hide TakeParts, PartsOf, StopReason, SaysAny, Intact, Result, Keeps, CloseBlock;
      if refused.Some? {
        events := events + [Error(Failure(refused.value))];
        return;
      }
      ghost var m := Opened(toolCallCounter);
      EnsureStarted();
      assert [] + [Start] == [Start];
      var hasContent, fault := StreamResponse(stringify, items);
      ResponseKept(stringify, m, items);
      ResponseResult(stringify, TakeParts(stringify, m, PartsOf(items[..Intact(items)])), items, abortedAtEnd, true, stopReason);
      events := events + [LastEvent(EndReason(fault, abortedAtEnd, stopReason))];
    }

    /** `resetOutput` */
    method ResetOutput()
      modifies this
      ensures content == [] && !started && stopReason == Stop
      ensures events == old(events) && currentBlock == old(currentBlock) && toolCallCounter == old(toolCallCounter)
    {
      content, stopReason, started := [], Stop, false;
    }

    /** The retries of empty streams. An attempt whose request fails is one with a fault at once. */
    method StreamGemini(stringify: Json -> string, attempts: nat -> seq<Item>, abortedAtEnd: bool)
      requires Ok() && State() == Initial(toolCallCounter) && stopReason == Stop
      modifies this
      ensures var items := attempts(Deciding(attempts, 0));
        && content == TakeParts(stringify, Initial(old(toolCallCounter)), PartsOf(items[..Intact(items)])).content
        && Result(stringify, content, events, items, abortedAtEnd, SaysAny(PartsOf(items[..Intact(items)])),
          StopReason(stringify, Initial(old(toolCallCounter)), Stop, items[..Intact(items)]))
    {
      hide TakeParts, PartsOf, StopReason, SaysAny, Intact, Result, Keeps, CloseBlock, Silent, Deciding;
      var receivedContent, fault, emptyAttempt := false, None, 0;
      ghost var m := State();
      var items := attempts(0);
      while emptyAttempt <= MAX_EMPTY_STREAM_RETRIES
        invariant 0 <= emptyAttempt <= MAX_EMPTY_STREAM_RETRIES
        invariant Ok() && State() == m && stopReason == Stop && !receivedContent && fault.None?
        invariant Deciding(attempts, 0) == Deciding(attempts, emptyAttempt)
        decreases MAX_EMPTY_STREAM_RETRIES - emptyAttempt
      {
        items := attempts(emptyAttempt);
        DecidingNext(attempts, emptyAttempt);
        ResponseKept(stringify, m, items);
        SilentIs(stringify, m, items);
        var streamed;
        streamed, fault := StreamResponse(stringify, items);
        if fault.Some? { break; }
        if streamed {
          receivedContent := true;
          break;
        }
        if emptyAttempt == MAX_EMPTY_STREAM_RETRIES { break; }
        ResetOutput();
        emptyAttempt := emptyAttempt + 1;
      }
      ResponseResult(stringify, TakeParts(stringify, m, PartsOf(items[..Intact(items)])), items, abortedAtEnd,
        SaysAny(PartsOf(items[..Intact(items)])), stopReason);
      var reason := if fault.Some? || receivedContent then EndReason(fault, abortedAtEnd, stopReason) else Failure(abortedAtEnd);
      events := events + [LastEvent(reason)];
    }
  }

  /** A response without a fault in which nothing is said. */
  ghost predicate Silent(items: seq<Item>) { Intact(items) == |items| && !SaysAny(PartsOf(items)) }

  /** The attempt that decides: the first that is not silent, or the last one. */
  ghost function Deciding(attempts: nat -> seq<Item>, from: nat): nat
    decreases MAX_EMPTY_STREAM_RETRIES - from
  {
    if from >= MAX_EMPTY_STREAM_RETRIES || !Silent(attempts(from)) then from else Deciding(attempts, from + 1)
  }

  /** There are at most three attempts, and all but the last of them said nothing. */
  lemma {:induction false} DecidingIs(attempts: nat -> seq<Item>, from: nat)
    requires from <= 2
    ensures var k := Deciding(attempts, from);
      from <= k <= 2 && (forall j | from <= j < k :: Silent(attempts(j))) && (k < 2 ==> !Silent(attempts(k)))
    decreases 2 - from
  {
    hide Silent;
    if from < 2 && Silent(attempts(from)) { DecidingIs(attempts, from + 1); }
  }

  ghost predicate SaysNothing(item: Item) {
    item.Chunk? && forall j | 0 <= j < |item.parts| :: item.parts[j].text.None? && item.parts[j].call.None?
  }

  lemma {:induction false} SilentIff(items: seq<Item>)
    ensures Silent(items) <==> forall i | 0 <= i < |items| :: SaysNothing(items[i])
  {
    if Intact(items) == |items| {
      SaidIff(items);
    } else {
      assert !SaysNothing(items[Intact(items)]);
    }
  }

  lemma {:induction false} SaidIff(items: seq<Item>)
    requires forall i | 0 <= i < |items| :: items[i].Chunk?
    ensures SaysAny(PartsOf(items)) <==> exists i | 0 <= i < |items| :: !SaysNothing(items[i])
  {
    if items != [] {
      var init, last := items[..|items| - 1], items[|items| - 1];
      assert forall i | 0 <= i < |init| :: init[i] == items[i];
      SaidIff(init);
      SaysAnyJoin(PartsOf(init), last.parts);
      OneSaid(last);
    }
  }

  lemma OneSaid(item: Item)
    requires item.Chunk?
    ensures SaysAny(item.parts) <==> !SaysNothing(item)
  {
    if !SaysNothing(item) {
      var j :| 0 <= j < |item.parts| && !(item.parts[j].text.None? && item.parts[j].call.None?);
      assert Says(item.parts[j]);
    }
  }

  lemma {:induction false} CallsMade(stringify: Json -> string, m: Machine, parts: seq<Part>)
    requires Valid(m)
    ensures HasCalls(TakeParts(stringify, m, parts).content) <==>
      HasCalls(m.content) || exists i | 0 <= i < |parts| :: parts[i].call.Some?
  {
    if parts != [] {
      var init, last := parts[..|parts| - 1], parts[|parts| - 1];
      assert forall i | 0 <= i < |init| :: init[i] == parts[i];
      CallsMade(stringify, m, init);
      PartCalls(stringify, TakeParts(stringify, m, init), last);
      hide GoogleBlocks.TakePart, HasCalls, Valid;
    }
  }

  lemma PartCalls(stringify: Json -> string, m: Machine, part: Part)
    requires Valid(m)
    ensures HasCalls(GoogleBlocks.TakePart(stringify, m, part).content) <==> HasCalls(m.content) || part.call.Some?
  {
    hide GoogleBlocks.TakeText, GoogleBlocks.TakeCall, HasCalls, CallBlock;
    if part.text.Some? {
      var kind, text := KindOf(part), part.text.value;
      TextContent(m, kind, text);
      ProseIsNoCall(Before(m, kind), Prose(kind, SaidBefore(m, kind)));
      ProseIsNoCall(Before(m, kind), Prose(kind, SaidBefore(m, kind) + text));
    }
    if part.call.Some? {
      var m' := AfterText(m, part);
      CallContent(stringify, m', part.call.value);
      CallIsCall(m', part.call.value);
    }
  }

  lemma ProseIsNoCall(content: seq<Block>, b: Block)
    requires b.Prose?
    ensures HasCalls(content + [b]) == HasCalls(content)
  {
    var all := content + [b];
    assert forall i | 0 <= i < |content| :: all[i] == content[i];
    assert all[|content|] == b;
  }

  lemma CallIsCall(m: Machine, call: FunctionCall)
    ensures HasCalls(m.content + [CallBlock(m, call)])
  {
    var all := m.content + [CallBlock(m, call)];
    assert all[|m.content|].ToolCall?;
  }

  ghost predicate Calls(item: Item) {
    item.Chunk? && exists j | 0 <= j < |item.parts| :: item.parts[j].call.Some?
  }

  lemma {:induction false} CallsIn(items: seq<Item>)
    ensures (exists i | 0 <= i < |items| :: Calls(items[i])) <==>
      exists j | 0 <= j < |PartsOf(items)| :: PartsOf(items)[j].call.Some?
  {
    if items != [] {
      var init, last := items[..|items| - 1], items[|items| - 1];
      assert forall i | 0 <= i < |init| :: init[i] == items[i];
      CallsIn(init);
      var before, parts := PartsOf(init), if last.Chunk? then last.parts else [];
      var all := PartsOf(items);
      assert all == before + parts;
      assert forall j | 0 <= j < |before| :: all[j] == before[j];
      assert forall j | 0 <= j < |parts| :: all[|before| + j] == parts[j];
      assert Calls(items[|init|]) || !Calls(items[|init|]);
      if Calls(last) {
        var j :| 0 <= j < |parts| && parts[j].call.Some?;
        assert all[|before| + j].call.Some?;
      }
    }
  }

  /** The reason is that of the last chunk `k` that gives one, or tool use if there was a call by then. */
  lemma {:induction false} StopReasonIs(stringify: Json -> string, m: Machine, reason: Reason, items: seq<Item>, k: int)
    requires Valid(m) && !HasCalls(m.content) && -1 <= k < |items|
    requires k >= 0 ==> items[k].Chunk? && items[k].finish.Some?
    requires forall i | k < i < |items| :: items[i].Chunk? ==> items[i].finish.None?
    ensures StopReason(stringify, m, reason, items) ==
      if k < 0 then reason
      else if exists i | 0 <= i <= k :: Calls(items[i]) then ToolUse
      else items[k].finish.value
    decreases |items|
  {
    hide StopReason, HasCalls, Calls;
    StopReasonStep(stringify, m, reason, items);
    if items != [] {
      var init := items[..|items| - 1];
      assert forall i | 0 <= i < |init| :: init[i] == items[i];
      if k == |items| - 1 {
        assert (exists i | 0 <= i <= k :: Calls(items[i])) <==> exists i | 0 <= i < |items| :: Calls(items[i]);
      } else {
        StopReasonIs(stringify, m, reason, init, k);
        SameCalls(init, items, k);
      }
    }
  }

  lemma SameCalls(init: seq<Item>, items: seq<Item>, k: int)
    requires init <= items && k < |init|
    ensures (exists i | 0 <= i <= k :: Calls(items[i])) <==> exists i | 0 <= i <= k :: Calls(init[i])
  {
    hide Calls;
    if i :| 0 <= i <= k && Calls(items[i]) { assert Calls(init[i]); }
  }

  lemma StopReasonStep(stringify: Json -> string, m: Machine, reason: Reason, items: seq<Item>)
    requires Valid(m) && !HasCalls(m.content)
    ensures StopReason(stringify, m, reason, items) ==
      if items == [] then reason
      else if items[|items| - 1].Fault? || items[|items| - 1].finish.None? then StopReason(stringify, m, reason, items[..|items| - 1])
      else if exists i | 0 <= i < |items| :: Calls(items[i]) then ToolUse
      else items[|items| - 1].finish.value
  {
    hide TakeParts, HasCalls, Calls, PartsOf;
    CallsMade(stringify, m, PartsOf(items));
    CallsIn(items);
  }

  /** How a message ends: a fault decides, then the signal, then whether anything was said. */
  lemma ReasonIs(items: seq<Item>, abortedAtEnd: bool, begun: bool, stop: Reason)
    ensures var reason := ReasonOf(items, abortedAtEnd, begun, stop);
      && (forall k | 0 <= k < |items| && items[k].Fault? && (forall i | 0 <= i < k :: items[i].Chunk?) ::
            reason == if items[k].aborted then Aborted else Failed)
      && ((forall i | 0 <= i < |items| :: items[i].Chunk?) ==>
            reason == if abortedAtEnd then Aborted else if !begun || stop == Failed || stop == Aborted then Failed else stop)
      && LastEvent(reason) == if reason == Failed || reason == Aborted then Error(reason) else Done(reason)
  {
  }

  lemma DecidingNext(attempts: nat -> seq<Item>, from: nat)
    ensures Deciding(attempts, from) ==
      if from >= MAX_EMPTY_STREAM_RETRIES || !Silent(attempts(from)) then from else Deciding(attempts, from + 1)
  {
  }

  lemma SilentIs(stringify: Json -> string, m: Machine, items: seq<Item>)
    requires m == Initial(m.counter)
    ensures items[..|items|] == items
    ensures Silent(items) <==> FaultOf(items).None? && !SaysAny(PartsOf(items[..Intact(items)]))
    ensures Silent(items) ==> CloseBlock(TakeParts(stringify, m, PartsOf(items[..Intact(items)]))) == m
  {
    assert items[..|items|] == items;
    if Silent(items) { SilentParts(stringify, m, PartsOf(items)); }
  }

  function Initial(counter: nat): Machine { Machine([], false, [], false, counter) }

  function Opened(counter: nat): Machine { Machine([], false, [Start], true, counter) }

  function Failure(aborted: bool): Reason { if aborted then Aborted else Failed }

  /** The reason in the last event, after a response that was not empty. */
  function EndReason(fault: Option<bool>, abortedAtEnd: bool, stop: Reason): Reason {
    if fault.Some? then Failure(fault.value) else if abortedAtEnd then Aborted else if IsFailure(stop) then Failed else stop
  }

  function FaultOf(items: seq<Item>): Option<bool> {
    if Intact(items) < |items| then Some(items[Intact(items)].aborted) else None
  }

  /** The same when the response may have been empty (`begun` is false), which is an error. */
  function ReasonOf(items: seq<Item>, abortedAtEnd: bool, begun: bool, stop: Reason): Reason {
    if begun || FaultOf(items).Some? then EndReason(FaultOf(items), abortedAtEnd, stop) else Failure(abortedAtEnd)
  }

  function LastEvent(reason: Reason): Event { if IsFailure(reason) then Error(reason) else Done(reason) }

  /** What a response comes to: the blocks say what its parts said, and the events are bracketed, end
      with the right reason, and read as the blocks. */
  ghost predicate Result(stringify: Json -> string, content: seq<Block>, events: seq<Event>, items: seq<Item>,
                         abortedAtEnd: bool, begun: bool, stop: Reason) {
    && Letters(content) == PartsLetters(PartsOf(items[..Intact(items)]))
    && events != [] && events[|events| - 1] == LastEvent(ReasonOf(items, abortedAtEnd, begun, stop))
    && Ends(stringify, content, events, ReasonOf(items, abortedAtEnd, begun, stop))
  }

  lemma ResponseKept(stringify: Json -> string, m: Machine, items: seq<Item>)
    requires m == Initial(m.counter) || m == Opened(m.counter)
    ensures Valid(m)
    ensures Keeps(stringify, TakeParts(stringify, m, PartsOf(items[..Intact(items)])), PartsLetters(PartsOf(items[..Intact(items)])))
    ensures m.started || SaysAny(PartsOf(items[..Intact(items)])) ==> TakeParts(stringify, m, PartsOf(items[..Intact(items)])).started
  {
    ReadSnoc(stringify, [], Start);
    assert [] + [Start] == [Start];
    var parts := PartsOf(items[..Intact(items)]);
    PartsKept(stringify, m, parts, []);
    SayingStarts(stringify, m, parts);
    assert [] + PartsLetters(parts) == PartsLetters(parts);
  }

  /** The end of a response: `m` has taken its parts. */
  lemma ResponseResult(stringify: Json -> string, m: Machine, items: seq<Item>, abortedAtEnd: bool, begun: bool, stop: Reason)
    requires Valid(m) && Keeps(stringify, m, PartsLetters(PartsOf(items[..Intact(items)]))) && (begun ==> m.started)
    ensures var m' := if FaultOf(items).Some? then m else CloseBlock(m);
      m'.content == m.content && Result(stringify, m'.content, m'.events + [LastEvent(ReasonOf(items, abortedAtEnd, begun, stop))], items, abortedAtEnd, begun, stop)
  {
    hide Keeps, Kept, PartsLetters, PartsOf, Intact, CloseBlock, Valid, Ends, Letters, ReasonOf, FaultOf, IsFailure, LastEvent, Result;
    var letters := PartsLetters(PartsOf(items[..Intact(items)]));
    var reason := ReasonOf(items, abortedAtEnd, begun, stop);
    CloseKept(stringify, m, letters);
    GoodReason(items, abortedAtEnd, begun, stop);
    var m' := if FaultOf(items).Some? then m else CloseBlock(m);
    LastEventEnds(stringify, m', letters, reason);
    Concludes(stringify, m'.content, m'.events, items, abortedAtEnd, begun, stop);
  }

  lemma GoodReason(items: seq<Item>, abortedAtEnd: bool, begun: bool, stop: Reason)
    ensures !IsFailure(ReasonOf(items, abortedAtEnd, begun, stop)) ==> begun && FaultOf(items).None?
  {
    hide Intact;
  }

  lemma Concludes(stringify: Json -> string, content: seq<Block>, events: seq<Event>, items: seq<Item>,
                  abortedAtEnd: bool, begun: bool, stop: Reason)
    requires Letters(content) == PartsLetters(PartsOf(items[..Intact(items)]))
    requires var reason := ReasonOf(items, abortedAtEnd, begun, stop);
      Ends(stringify, content, events + [LastEvent(reason)], reason)
    ensures Result(stringify, content, events + [LastEvent(ReasonOf(items, abortedAtEnd, begun, stop))], items, abortedAtEnd, begun, stop)
  {
    hide Letters, PartsLetters, PartsOf, Intact, Ends, LastEvent, ReasonOf;
  }

  lemma LastEventEnds(stringify: Json -> string, m: Machine, letters: seq<Letter>, reason: Reason)
    requires Kept(stringify, m, letters) && (!IsFailure(reason) ==> m.started && !m.open)
    ensures Ends(stringify, m.content, m.events + [LastEvent(reason)], reason) && Letters(m.content) == letters
  {
    hide Kept, Ends;
    if IsFailure(reason) {
      FailedEnds(stringify, m, letters, reason);
    } else {
      DoneEnds(stringify, m, letters, reason);
    }
  }

  lemma IntactNext(items: seq<Item>, i: nat)
    requires i <= Intact(items) && i < |items|
    ensures i == Intact(items) <==> items[i].Fault?
  {
    if i > 0 { IntactNext(items[1..], i - 1); }
  }

  lemma ResponseStart(stringify: Json -> string, m: Machine, reason: Reason, items: seq<Item>)
    requires Valid(m)
    ensures TakeParts(stringify, m, PartsOf(items[..0])) == m && !SaysAny(PartsOf(items[..0]))
    ensures StopReason(stringify, m, reason, items[..0]) == reason
    ensures 0 <= Intact(items) <= |items|
  {
  }

  lemma ResponseNext(stringify: Json -> string, m: Machine, reason: Reason, items: seq<Item>, i: nat)
    requires Valid(m) && i < |items| && items[i].Chunk?
    ensures var a, parts := PartsOf(items[..i]), items[i].parts;
      var m' := TakeParts(stringify, m, PartsOf(items[..i + 1]));
      && m' == TakeParts(stringify, TakeParts(stringify, m, a), parts)
      && SaysAny(PartsOf(items[..i + 1])) == (SaysAny(a) || SaysAny(parts))
      && StopReason(stringify, m, reason, items[..i + 1]) ==
        (if items[i].finish.None? then StopReason(stringify, m, reason, items[..i])
         else if HasCalls(m'.content) then ToolUse else items[i].finish.value)
  {
    hide TakeParts, PartsOf, SaysAny, HasCalls;
    PartsOfSnoc(items, i);
    TakePartsJoin(stringify, m, PartsOf(items[..i]), items[i].parts);
    SaysAnyJoin(PartsOf(items[..i]), items[i].parts);
    assert items[..i + 1][..i] == items[..i];
  }

  lemma SaysAnyJoin(a: seq<Part>, b: seq<Part>)
    ensures SaysAny(a + b) == (SaysAny(a) || SaysAny(b))
  {
    var all := a + b;
    assert forall i | 0 <= i < |a| :: all[i] == a[i];
    assert forall i | 0 <= i < |b| :: all[|a| + i] == b[i];
    if SaysAny(b) {
      var i :| 0 <= i < |b| && Says(b[i]);
      assert Says(all[|a| + i]);
    }
    if SaysAny(a) {
      var i :| 0 <= i < |a| && Says(a[i]);
      assert Says(all[i]);
    }
  }
}
