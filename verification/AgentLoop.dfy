/**
 The agent loop protocol (`agent-loop.ts`): turns of injected messages, one streamed assistant
 response and its tool calls, repeated while there is something to do. What the model, the
 tools and the user do is given as data, so that every finite run, also one that is still
 waiting, is an input of `RunLoop`.
 */
module AgentLoops {

  // ---- Messages and events ----

  /** What a caller can put into the transcript: user messages and custom messages. */
  datatype Input = Input(role: string, text: string)

  datatype ToolCall = ToolCall(id: string, name: string, args: string)

  datatype StopReason = Stop | Length | ToolUse | Error | Aborted

  /** An assistant message; its other content plays no part in the protocol. */
  datatype Response = Response(text: string, calls: seq<ToolCall>, stop: StopReason) {
    predicate Failed() { stop.Error? || stop.Aborted? }
  }

  datatype Message =
    | Injected(input: Input)
    | Assistant(response: Response)
    | ToolResult(callId: string, name: string, result: string, isError: bool)

  /** Loop events. `TurnEnd` and `AgentEnd` also carry the loop's own context at that moment,
      which is what the transcript built from the events is compared with. */
  datatype Event =
    | AgentStart
    | AgentEnd(messages: seq<Message>, context: seq<Message>)
    | TurnStart
    | TurnEnd(response: Response, results: seq<Message>, context: seq<Message>)
    | MessageStart(message: Message)
    | MessageUpdate(partial: Response)
    | MessageEnd(message: Message)
    | ToolStart(id: string)
    | ToolUpdate(id: string)
    | ToolEnd(id: string, isError: bool)

  // ---- The lifecycle grammar ----

  datatype Open = Nothing | Answer | Other(message: Message)

  /** Where a trace stands; `Wrong` once it has left the grammar. `running` counts the tool
      calls that have started and not ended. */
  datatype Phase =
    | Idle
    | Between
    | Turn(open: Open, responded: bool, running: multiset<string>)
    | Over
    | Wrong

  function Next(p: Phase, e: Event): Phase {
    match e
    case AgentStart => if p.Idle? then Between else Wrong
    case TurnStart => if p.Between? then Turn(Nothing, false, multiset{}) else Wrong
    case MessageStart(m) =>
      if !p.Turn? || !p.open.Nothing? then Wrong
      else if m.Assistant? then if p.responded then Wrong else p.(open := Answer)
      else if m.ToolResult? == p.responded then p.(open := Other(m))
      else Wrong
    case MessageUpdate(_) => if p.Turn? && p.open.Answer? then p else Wrong
    case MessageEnd(m) =>
      if p.Turn? && p.open == Other(m) then p.(open := Nothing)
      else if p.Turn? && p.open.Answer? && m.Assistant? then p.(open := Nothing, responded := true)
      else Wrong
    case ToolStart(id) =>
      if p.Turn? && p.open.Nothing? && p.responded then p.(running := p.running + multiset{id}) else Wrong
    case ToolUpdate(id) => if p.Turn? && id in p.running then p else Wrong
    case ToolEnd(id, _) =>
      if p.Turn? && p.open.Nothing? && id in p.running then p.(running := p.running - multiset{id}) else Wrong
    case TurnEnd(_, _, _) =>
      if p.Turn? && p.open.Nothing? && p.responded && p.running == multiset{} then Between else Wrong
    case AgentEnd(_, _) => if p.Between? then Over else Wrong
  }

  function Follow(p: Phase, es: seq<Event>): Phase
    decreases |es|
  {
    if es == [] then p else Follow(Next(p, es[0]), es[1..])
  }

  lemma {:induction false} FollowConcat(p: Phase, a: seq<Event>, b: seq<Event>)
    ensures Follow(p, a + b) == Follow(Follow(p, a), b)
    decreases |a|
  {
    if a == [] {
      assert a + b == b;
    } else {
      assert (a + b)[1..] == a[1..] + b;
      FollowConcat(Next(p, a[0]), a[1..], b);
    }
  }

  lemma FollowSnoc(p: Phase, a: seq<Event>, e: Event)
    ensures Follow(p, a + [e]) == Next(Follow(p, a), e)
  {
    FollowConcat(p, a, [e]);
    assert [e][1..] == [];
  }

  lemma {:induction false} WrongStays(es: seq<Event>)
    ensures Follow(Wrong, es) == Wrong
  {
    if es != [] { WrongStays(es[1..]); }
  }

  /** The messages that `message_end` events add to a transcript. */
  function Ended(es: seq<Event>): seq<Message> {
    if es == [] then []
    else Ended(es[..|es| - 1]) + if es[|es| - 1].MessageEnd? then [es[|es| - 1].message] else []
  }

  lemma EndedSnoc(es: seq<Event>, e: Event)
    ensures Ended(es + [e]) == Ended(es) + if e.MessageEnd? then [e.message] else []
  {
    assert (es + [e])[..|es|] == es;
  }

  lemma {:induction false} EndedConcat(a: seq<Event>, b: seq<Event>)
    ensures Ended(a + b) == Ended(a) + Ended(b)
  {
    if b == [] {
      assert a + b == a;
    } else {
      var init, last := b[..|b| - 1], b[|b| - 1];
      assert a + b == (a + init) + [last];
      EndedConcat(a, init);
      EndedSnoc(a + init, last);
      EndedSnoc(init, last);
      assert b == init + [last];
    }
  }

  /** Events that end neither a turn nor the run. */
  ghost predicate Inside(es: seq<Event>) {
    forall i | 0 <= i < |es| :: !es[i].TurnEnd? && !es[i].AgentEnd?
  }

  // ---- Streaming one response ----

  datatype StreamEvent = Start(partial: Response) | Delta(partial: Response) | Finish

  /** What a stream function gives: events, and the final message. */
  datatype Stream = Stream(events: seq<StreamEvent>, result: Response)

  /** The `start` events before the stream is finished. */
  function Starts(es: seq<StreamEvent>): nat {
    if es == [] || es[0].Finish? then 0 else (if es[0].Start? then 1 else 0) + Starts(es[1..])
  }

  /** The stream is finished at `end`, and its first start is at `first`; if there is none, `first` is `end`. */
  ghost predicate Streamed(es: seq<StreamEvent>, first: nat, end: nat) {
    && first <= end <= |es|
    && (forall j | 0 <= j < end :: !es[j].Finish?) && (end < |es| ==> es[end].Finish?)
    && (forall j | 0 <= j < first :: !es[j].Start?) && (first < end ==> es[first].Start?)
  }

  /** A start begins a message, and a delta updates it. */
  ghost predicate TellsOf(e: Event, from: StreamEvent) {
    match from
    case Start(partial) => e == MessageStart(Assistant(partial))
    case Delta(partial) => e == MessageUpdate(partial)
    case Finish => false
  }

  /** From its first start on, the events tell every event of the stream, and then the final message. */
  ghost predicate Tell(stream: Stream, first: nat, end: nat, events: seq<Event>)
    requires first <= end <= |stream.events|
  {
    var final := Assistant(stream.result);
    if first == end then events == [MessageStart(final), MessageEnd(final)]
    else
      && |events| == end - first + 1 && events[end - first] == MessageEnd(final)
      && forall j | 0 <= j < end - first :: TellsOf(events[j], stream.events[first + j])
  }

  /** The same in the middle of the stream. */
  ghost predicate Telling(es: seq<StreamEvent>, first: nat, i: nat, added: bool, events: seq<Event>)
    requires i <= |es|
  {
    && first <= i && |events| == i - first && (added <==> first < i)
    && (forall j | 0 <= j < i :: !es[j].Finish?)
    && (forall j | 0 <= j < first :: !es[j].Start?) && (first < i ==> es[first].Start?)
    && forall j | 0 <= j < i - first :: TellsOf(events[j], es[first + j])
  }

  lemma TellingNext(es: seq<StreamEvent>, first: nat, i: nat, added: bool, events: seq<Event>)
    requires i < |es| && !es[i].Finish? && Telling(es, first, i, added, events)
    ensures if !added && es[i].Delta? then Telling(es, i + 1, i + 1, false, events)
      else forall e | TellsOf(e, es[i]) :: Telling(es, first, i + 1, true, events + [e])
  {
  }

  lemma TellingEnds(stream: Stream, first: nat, i: nat, added: bool, events: seq<Event>)
    requires i <= |stream.events| && Telling(stream.events, first, i, added, events)
    requires i < |stream.events| ==> stream.events[i].Finish?
    ensures Streamed(stream.events, first, i)
    ensures var final := Assistant(stream.result);
      Tell(stream, first, i, (if added then events else events + [MessageStart(final)]) + [MessageEnd(final)])
  {
  }

  /** `streamAssistantResponse`. A stream with more than one start leaves stale partials in the
      context and breaks the grammar; every other stream adds exactly the final message. */
  method StreamAssistantResponse(context: seq<Message>, stream: Stream)
    returns (newContext: seq<Message>, events: seq<Event>, final: Response)
    ensures final == stream.result && Ended(events) == [Assistant(final)] && Inside(events)
    ensures events != [] && events[|events| - 1] == MessageEnd(Assistant(final))
    ensures exists first: nat, end: nat :: Streamed(stream.events, first, end) && Tell(stream, first, end, events)
    ensures |newContext| == |context| + if Starts(stream.events) > 1 then Starts(stream.events) else 1
    ensures Starts(stream.events) <= 1 ==> newContext == context + [Assistant(final)]
    ensures forall p: Phase | p.Turn? && p.open.Nothing? && !p.responded ::
      Follow(p, events) == if Starts(stream.events) <= 1 then p.(responded := true) else Wrong
  {
    hide Follow, Ended, Next, Streaming, Telling, Streamed, Tell;
    StreamStart(context, stream);
    newContext, events, final := context, [], stream.result;
    var addedPartial := false;
    var i := 0;
    ghost var first := 0;
    while i < |stream.events| && !stream.events[i].Finish?
      invariant 0 <= i <= |stream.events|
      invariant Streaming(context, stream, i, newContext, events, addedPartial)
      invariant Telling(stream.events, first, i, addedPartial, events)
    {
      StreamNext(context, stream, i, newContext, events, addedPartial);
      TellingNext(stream.events, first, i, addedPartial, events);
      if !addedPartial && stream.events[i].Delta? { first := i + 1; }
      match stream.events[i] {
        case Start(partial) =>
          newContext := newContext + [Assistant(partial)];
          addedPartial := true;
          events := events + [MessageStart(Assistant(partial))];
        case Delta(partial) =>
          if addedPartial {
            newContext := newContext[|newContext| - 1 := Assistant(partial)];
            events := events + [MessageUpdate(partial)];
          }
        case Finish =>
      }
      i := i + 1;
    }
    StreamEnd(context, stream, i, newContext, events, addedPartial);
    TellingEnds(stream, first, i, addedPartial, events);
    if addedPartial {
      newContext := newContext[|newContext| - 1 := Assistant(final)];
    } else {
      newContext := newContext + [Assistant(final)];
      events := events + [MessageStart(Assistant(final))];
    }
    events := events + [MessageEnd(Assistant(final))];
  }

  /** The state of the loop over the stream's events: `n` partials were added so far. */
  ghost predicate Streaming(context: seq<Message>, stream: Stream, i: nat, newContext: seq<Message>, events: seq<Event>, added: bool)
    requires i <= |stream.events|
  {
    var n := |newContext| - |context|;
    && n >= 0 && newContext[..|context|] == context
    && n + Starts(stream.events[i..]) == Starts(stream.events)
    && (added <==> n > 0)
    && Ended(events) == [] && Inside(events)
    && forall p: Phase | p.Turn? && p.open.Nothing? && !p.responded ::
         Follow(p, events) == if n == 0 then p else if n == 1 then p.(open := Answer) else Wrong
  }

  lemma StreamStart(context: seq<Message>, stream: Stream)
    ensures Streaming(context, stream, 0, context, [], false) && Telling(stream.events, 0, 0, false, [])
  {
    assert stream.events[0..] == stream.events;
  }

  lemma StreamNext(context: seq<Message>, stream: Stream, i: nat, newContext: seq<Message>, events: seq<Event>, added: bool)
    requires i < |stream.events| && !stream.events[i].Finish?
    requires Streaming(context, stream, i, newContext, events, added)
    ensures match stream.events[i]
      case Start(partial) =>
        Streaming(context, stream, i + 1, newContext + [Assistant(partial)], events + [MessageStart(Assistant(partial))], true)
      case Delta(partial) =>
        if added then
          && newContext != []
          && Streaming(context, stream, i + 1, newContext[|newContext| - 1 := Assistant(partial)],
                       events + [MessageUpdate(partial)], true)
        else Streaming(context, stream, i + 1, newContext, events, false)
      case Finish => true
  {
    hide Follow, Ended;
    assert stream.events[i..][0] == stream.events[i] && stream.events[i..][1..] == stream.events[i + 1..];
    var e := match stream.events[i]
      case Start(partial) => MessageStart(Assistant(partial))
      case Delta(partial) => MessageUpdate(partial)
      case Finish => AgentStart;
    EndedSnoc(events, e);
    forall p: Phase | p.Turn? && p.open.Nothing? && !p.responded
      ensures Follow(p, events + [e]) == Next(Follow(p, events), e)
    {
      FollowSnoc(p, events, e);
    }
  }

  lemma StreamEnd(context: seq<Message>, stream: Stream, i: nat, newContext: seq<Message>, events: seq<Event>, added: bool)
    requires i <= |stream.events| && Streaming(context, stream, i, newContext, events, added)
    requires i < |stream.events| ==> stream.events[i].Finish?
    ensures added ==> newContext != []
    ensures var final := stream.result;
      var n := Starts(stream.events);
      var newContext' := if added then newContext[|newContext| - 1 := Assistant(final)] else newContext + [Assistant(final)];
      var events' := (if added then events else events + [MessageStart(Assistant(final))]) + [MessageEnd(Assistant(final))];
      && Ended(events') == [Assistant(final)] && Inside(events')
      && |newContext'| == |context| + (if n > 1 then n else 1)
      && (n <= 1 ==> newContext' == context + [Assistant(final)])
      && forall p: Phase | p.Turn? && p.open.Nothing? && !p.responded ::
           Follow(p, events') == if n <= 1 then p.(responded := true) else Wrong
  {
    hide Follow, Ended;
    var m := Assistant(stream.result);
    assert Starts(stream.events[i..]) == 0;
    var begun := if added then events else events + [MessageStart(m)];
    EndedSnoc(events, MessageStart(m));
    EndedSnoc(begun, MessageEnd(m));
    forall p: Phase | p.Turn? && p.open.Nothing? && !p.responded
      ensures Follow(p, begun + [MessageEnd(m)]) == if Starts(stream.events) <= 1 then p.(responded := true) else Wrong
    {
      FollowSnoc(p, events, MessageStart(m));
      FollowSnoc(p, begun, MessageEnd(m));
    }
  }

  // ---- Tool calls ----

  /** What becomes of a call: settled before it runs (not found, invalid, blocked), or executed,
      with some progress updates. The result is the one after the hooks. */
  datatype Outcome =
    | Immediate(result: string, isError: bool)
    | Executed(updates: nat, result: string, isError: bool)

  /** The outcome of each call of a message, by its position. */
  type Outcomes = nat -> Outcome

  function ResultFor(call: ToolCall, o: Outcome): Message {
    ToolResult(call.id, call.name, o.result, o.isError)
  }

  /** The results of the first `k` calls, in the order of the calls. */
  function InSourceOrder(calls: seq<ToolCall>, outcome: Outcomes, k: nat): seq<Message>
    requires k <= |calls|
  {
    if k == 0 then [] else InSourceOrder(calls, outcome, k - 1) + [ResultFor(calls[k - 1], outcome(k - 1))]
  }

  /** Those of them that were settled before running, or those that were executed. */
  function Selected(calls: seq<ToolCall>, outcome: Outcomes, immediate: bool, k: nat): seq<Message>
    requires k <= |calls|
  {
    if k == 0 then []
    else
      var last := if outcome(k - 1).Immediate? == immediate then [ResultFor(calls[k - 1], outcome(k - 1))] else [];
      Selected(calls, outcome, immediate, k - 1) + last
  }

  function InParallelOrder(calls: seq<ToolCall>, outcome: Outcomes): seq<Message> {
    Selected(calls, outcome, true, |calls|) + Selected(calls, outcome, false, |calls|)
  }

  lemma OrdersNext(calls: seq<ToolCall>, outcome: Outcomes, k: nat)
    requires k < |calls|
    ensures var r := [ResultFor(calls[k], outcome(k))];
      var one, two := Selected(calls, outcome, true, k), Selected(calls, outcome, false, k);
      && InSourceOrder(calls, outcome, k + 1) == InSourceOrder(calls, outcome, k) + r
      && Selected(calls, outcome, true, k + 1) == (if outcome(k).Immediate? then one + r else one)
      && Selected(calls, outcome, false, k + 1) == (if outcome(k).Immediate? then two else two + r)
  {
  }

  /** `one` and `two` hold together what `all` holds. */
  ghost predicate Divides<T>(all: seq<T>, one: seq<T>, two: seq<T>) {
    multiset(all) == multiset(one) + multiset(two)
  }

  /** Both orders hold the same results, one for every call. */
  lemma {:induction false} SameResults(calls: seq<ToolCall>, outcome: Outcomes, k: nat)
    requires k <= |calls|
    ensures Divides(InSourceOrder(calls, outcome, k), Selected(calls, outcome, true, k), Selected(calls, outcome, false, k))
    ensures |InSourceOrder(calls, outcome, k)| == k
  {
    hide InSourceOrder, Selected, ResultFor, Divides;
    if k == 0 {
      NoOrder(calls, outcome);
    } else {
      SameResults(calls, outcome, k - 1);
      OrdersNext(calls, outcome, k - 1);
      DividesSnoc(InSourceOrder(calls, outcome, k - 1), Selected(calls, outcome, true, k - 1),
        Selected(calls, outcome, false, k - 1), ResultFor(calls[k - 1], outcome(k - 1)));
    }
  }

  lemma NoOrder(calls: seq<ToolCall>, outcome: Outcomes)
    ensures InSourceOrder(calls, outcome, 0) == []
    ensures Divides(InSourceOrder(calls, outcome, 0), Selected(calls, outcome, true, 0), Selected(calls, outcome, false, 0))
  {
  }

  lemma MultisetSnoc<T>(s: seq<T>, x: T)
    ensures multiset(s + [x]) == multiset(s) + multiset{x}
  {
  }

  lemma DividesSnoc<T>(all: seq<T>, one: seq<T>, two: seq<T>, x: T)
    requires Divides(all, one, two)
    ensures Divides(all + [x], one + [x], two) && Divides(all + [x], one, two + [x])
  {
    MultisetSnoc(all, x);
    MultisetSnoc(one, x);
    MultisetSnoc(two, x);
  }

  lemma {:induction false} SourceOrderAt(calls: seq<ToolCall>, outcome: Outcomes, k: nat, i: nat)
    requires i < k <= |calls|
    ensures |InSourceOrder(calls, outcome, k)| == k
    ensures InSourceOrder(calls, outcome, k)[i] == ResultFor(calls[i], outcome(i))
  {
    SameResults(calls, outcome, k - 1);
    if i < k - 1 { SourceOrderAt(calls, outcome, k - 1, i); }
  }

  /** In a turn, with the response complete and no message in progress. */
  predicate CallsTools(p: Phase) { p.Turn? && p.open.Nothing? && p.responded }

  /** `emitToolCallOutcome` */
  function OutcomeEvents(call: ToolCall, o: Outcome): seq<Event> {
    [ToolEnd(call.id, o.isError), MessageStart(ResultFor(call, o)), MessageEnd(ResultFor(call, o))]
  }

  function Updates(id: string, n: nat): seq<Event> { seq(n, _ => ToolUpdate(id)) }

  lemma {:induction false} FollowUpdates(p: Phase, id: string, n: nat)
    requires p.Turn? && id in p.running
    ensures Follow(p, Updates(id, n)) == p && Ended(Updates(id, n)) == []
  {
    if n > 0 {
      assert Updates(id, n) == Updates(id, n - 1) + [ToolUpdate(id)];
      FollowUpdates(p, id, n - 1);
      FollowSnoc(p, Updates(id, n - 1), ToolUpdate(id));
      EndedSnoc(Updates(id, n - 1), ToolUpdate(id));
    }
  }

  /** Three events, one after the other. */
  lemma FollowThree(p: Phase, a: Event, b: Event, c: Event)
    ensures Follow(p, [a, b, c]) == Next(Next(Next(p, a), b), c)
    ensures Ended([a, b, c]) == Ended([a, b]) + (if c.MessageEnd? then [c.message] else [])
    ensures Ended([a, b]) == (if a.MessageEnd? then [a.message] else []) + (if b.MessageEnd? then [b.message] else [])
  {
    hide Next, Follow, Ended;
    FollowSnoc(p, [], a);
    FollowSnoc(p, [a], b);
    FollowSnoc(p, [a, b], c);
    EndedSnoc([], a);
    EndedSnoc([a], b);
    EndedSnoc([a, b], c);
    FollowNone(p);
    EndedNone();
    assert [] + [a] == [a] && [a] + [b] == [a, b] && [a, b] + [c] == [a, b, c];
  }

  lemma FollowNone(p: Phase)
    ensures Follow(p, []) == p
  {
  }

  lemma FollowOutcome(p: Phase, call: ToolCall, o: Outcome)
    requires CallsTools(p) && call.id in p.running
    ensures Follow(p, OutcomeEvents(call, o)) == p.(running := p.running - multiset{call.id})
    ensures Ended(OutcomeEvents(call, o)) == [ResultFor(call, o)]
  {
    hide Follow, Ended, Next;
    var r := ResultFor(call, o);
    FollowThree(p, ToolEnd(call.id, o.isError), MessageStart(r), MessageEnd(r));
    NextToolEnd(p, call.id, o.isError);
    NextResult(p.(running := p.running - multiset{call.id}), r);
  }

  lemma NextToolEnd(p: Phase, id: string, isError: bool)
    requires CallsTools(p) && id in p.running
    ensures Next(p, ToolEnd(id, isError)) == p.(running := p.running - multiset{id})
  {
  }

  lemma NextResult(p: Phase, r: Message)
    requires CallsTools(p) && r.ToolResult?
    ensures Next(Next(p, MessageStart(r)), MessageEnd(r)) == p
  {
  }

  function CallEvents(call: ToolCall, o: Outcome): seq<Event> {
    [ToolStart(call.id)] + ((if o.Executed? then Updates(call.id, o.updates) else []) + OutcomeEvents(call, o))
  }

  /** A call starts, reports its progress, ends, and is answered. */
  lemma CallTold(call: ToolCall, o: Outcome)
    ensures var es, n := CallEvents(call, o), if o.Executed? then o.updates else 0;
      var r := ToolResult(call.id, call.name, o.result, o.isError);
      && |es| == n + 4 && es[0] == ToolStart(call.id)
      && (forall j | 0 < j <= n :: es[j] == ToolUpdate(call.id))
      && es[n + 1..] == [ToolEnd(call.id, o.isError), MessageStart(r), MessageEnd(r)]
  {
  }

  /** The events of the first `k` calls, one call after the other. */
  function EventsInOrder(calls: seq<ToolCall>, outcome: Outcomes, k: nat): seq<Event>
    requires k <= |calls|
  {
    if k == 0 then [] else EventsInOrder(calls, outcome, k - 1) + CallEvents(calls[k - 1], outcome(k - 1))
  }

  /** One call from start to result leaves the phase as it was. */
  lemma FollowCall(p: Phase, call: ToolCall, o: Outcome)
    requires CallsTools(p)
    ensures Follow(p, CallEvents(call, o)) == p && Ended(CallEvents(call, o)) == [ResultFor(call, o)]
  {
    hide Ended;
    var started := p.(running := p.running + multiset{call.id});
    var updates := if o.Executed? then Updates(call.id, o.updates) else [];
    var done := OutcomeEvents(call, o);
    FollowConcat(p, [ToolStart(call.id)], updates + done);
    FollowSnoc(p, [], ToolStart(call.id));
    assert [] + [ToolStart(call.id)] == [ToolStart(call.id)];
    FollowConcat(started, updates, done);
    FollowUpdates(started, call.id, |updates|);
    assert updates == Updates(call.id, |updates|);
    FollowOutcome(started, call, o);
    assert started.running - multiset{call.id} == p.running;
    EndedConcat([ToolStart(call.id)], updates + done);
    EndedConcat(updates, done);
    EndedSnoc([], ToolStart(call.id));
    EndedNone();
  }

  lemma EndedNone()
    ensures Ended([]) == []
  {
  }

  /** Results and events of a batch so far: the results are the messages ended, and the phase is
      `running` calls on from where it was. */
  ghost predicate BatchSoFar(results: seq<Message>, events: seq<Event>, running: multiset<string>) {
    && Ended(events) == results && Inside(events)
    && forall p: Phase | CallsTools(p) && p.running == multiset{} :: Follow(p, events) == p.(running := running)
  }

  lemma BatchStart()
    ensures BatchSoFar([], [], multiset{})
  {
  }

  lemma BatchAdd(results: seq<Message>, events: seq<Event>, running: multiset<string>, call: ToolCall, o: Outcome)
    requires BatchSoFar(results, events, running)
    ensures BatchSoFar(results + [ResultFor(call, o)], events + CallEvents(call, o), running)
    ensures BatchSoFar(results, events + [ToolStart(call.id)], running + multiset{call.id})
  {
    hide Ended, Follow, CallEvents, ResultFor, Inside;
    EndedConcat(events, CallEvents(call, o));
    EndedSnoc(events, ToolStart(call.id));
    CallInside(events, call, o);
    forall p: Phase | CallsTools(p) && p.running == multiset{}
      ensures Follow(p, events + CallEvents(call, o)) == p.(running := running)
      ensures Follow(p, events + [ToolStart(call.id)]) == p.(running := running + multiset{call.id})
    {
      FollowConcat(p, events, CallEvents(call, o));
      FollowCall(p.(running := running), call, o);
      FollowSnoc(p, events, ToolStart(call.id));
    }
    FollowCall(Turn(Nothing, true, running), call, o);
  }

  lemma CallInside(events: seq<Event>, call: ToolCall, o: Outcome)
    requires Inside(events)
    ensures Inside(events + CallEvents(call, o)) && Inside(events + [ToolStart(call.id)])
  {
    hide ResultFor;
    var es := CallEvents(call, o);
    assert Inside(es);
    hide CallEvents, OutcomeEvents, Updates;
    assert forall i | 0 <= i < |es| :: (events + es)[|events| + i] == es[i];
  }

  /** `executeToolCallsSequential` */
  method ExecuteSequential(calls: seq<ToolCall>, outcome: Outcomes) returns (results: seq<Message>, events: seq<Event>)
    ensures results == InSourceOrder(calls, outcome, |calls|) && events == EventsInOrder(calls, outcome, |calls|)
    ensures |results| == |calls| && forall i | 0 <= i < |calls| :: results[i] == ResultFor(calls[i], outcome(i))
    ensures BatchSoFar(results, events, multiset{})
    ensures StartsCalls(events, calls) && EndsCalls(events, results)
  {
    hide BatchSoFar, StartsCalls, EndsCalls;
    results, events := [], [];
    BatchStart();
    CallsStart();
    assert calls[..0] == [];
    var i := 0;
    while i < |calls|
      invariant 0 <= i <= |calls|
      invariant results == InSourceOrder(calls, outcome, i) && events == EventsInOrder(calls, outcome, i)
      invariant BatchSoFar(results, events, multiset{})
      invariant StartsCalls(events, calls[..i]) && EndsCalls(events, results)
    {
      BatchAdd(results, events, multiset{}, calls[i], outcome(i));
      CallsAdd(events, calls[..i], results, calls[i], outcome(i));
      assert calls[..i] + [calls[i]] == calls[..i + 1];
      results := results + [ResultFor(calls[i], outcome(i))];
      events := events + CallEvents(calls[i], outcome(i));
      i := i + 1;
    }
    forall k | 0 <= k < |calls| ensures |results| == |calls| && results[k] == ResultFor(calls[k], outcome(k)) {
      SourceOrderAt(calls, outcome, |calls|, k);
    }
    assert calls == [] ==> results == [];
    assert calls[..i] == calls;
  }

  // ---- Which calls start and end ----

  /** The events that end a tool call, or those that start one. */
  function Only(es: seq<Event>, ends: bool): seq<Event> {
    if es == [] then []
    else
      var last := es[|es| - 1];
      Only(es[..|es| - 1], ends) + if (if ends then last.ToolEnd? else last.ToolStart?) then [last] else []
  }

  lemma OnlySnoc(es: seq<Event>, e: Event, ends: bool)
    ensures Only(es + [e], ends) == Only(es, ends) + if (if ends then e.ToolEnd? else e.ToolStart?) then [e] else []
  {
    assert (es + [e])[..|es|] == es;
  }

  lemma {:induction false} OnlyConcat(a: seq<Event>, b: seq<Event>, ends: bool)
    ensures Only(a + b, ends) == Only(a, ends) + Only(b, ends)
  {
    if b == [] {
      assert a + b == a;
    } else {
      var init, last := b[..|b| - 1], b[|b| - 1];
      assert a + b == (a + init) + [last] && b == init + [last];
      OnlyConcat(a, init, ends);
      OnlySnoc(a + init, last, ends);
      OnlySnoc(init, last, ends);
    }
  }

  lemma {:induction false} OnlyUpdates(id: string, n: nat, ends: bool)
    ensures Only(Updates(id, n), ends) == []
  {
    if n > 0 {
      assert Updates(id, n) == Updates(id, n - 1) + [ToolUpdate(id)];
      OnlyUpdates(id, n - 1, ends);
      OnlySnoc(Updates(id, n - 1), ToolUpdate(id), ends);
    }
  }

  /** Every call starts once, in the order of the calls. */
  ghost predicate StartsCalls(events: seq<Event>, calls: seq<ToolCall>) {
    var starts := Only(events, false);
    |starts| == |calls| && forall i | 0 <= i < |calls| :: starts[i] == ToolStart(calls[i].id)
  }

  /** Every call that has a result ends once, as its result says, in the order of the results. */
  ghost predicate EndsCalls(events: seq<Event>, results: seq<Message>) {
    var ends := Only(events, true);
    && |ends| == |results|
    && forall i | 0 <= i < |results| :: results[i].ToolResult? && ends[i] == ToolEnd(results[i].callId, results[i].isError)
  }

  lemma OneCall(call: ToolCall, o: Outcome)
    ensures Only(CallEvents(call, o), false) == [ToolStart(call.id)]
    ensures Only(CallEvents(call, o), true) == [ToolEnd(call.id, o.isError)]
  {
    hide Only, OutcomeEvents, Updates;
    OneCallOnly(call, o, false);
    OneCallOnly(call, o, true);
  }

  lemma OneCallOnly(call: ToolCall, o: Outcome, ends: bool)
    ensures Only(CallEvents(call, o), ends) == [if ends then ToolEnd(call.id, o.isError) else ToolStart(call.id)]
  {
    hide Only, OutcomeEvents, Updates;
    var updates := if o.Executed? then Updates(call.id, o.updates) else [];
    OnlyNone(ends);
    OnlyConcat([ToolStart(call.id)], updates + OutcomeEvents(call, o), ends);
    OnlyConcat(updates, OutcomeEvents(call, o), ends);
    if o.Executed? { OnlyUpdates(call.id, o.updates, ends); }
    OnlyOne(ToolStart(call.id), ends);
    OnlyOutcome(call, o, ends);
  }

  lemma OnlyOne(e: Event, ends: bool)
    ensures Only([e], ends) == if (if ends then e.ToolEnd? else e.ToolStart?) then [e] else []
  {
    assert [e][..0] == [];
  }

  lemma OnlyOutcome(call: ToolCall, o: Outcome, ends: bool)
    ensures Only(OutcomeEvents(call, o), ends) == if ends then [ToolEnd(call.id, o.isError)] else []
  {
    hide Only, ResultFor;
    var e, r := ToolEnd(call.id, o.isError), ResultFor(call, o);
    OnlyOne(e, ends);
    OnlySnoc([e], MessageStart(r), ends);
    OnlySnoc([e, MessageStart(r)], MessageEnd(r), ends);
    assert [e] + [MessageStart(r)] == [e, MessageStart(r)] && [e, MessageStart(r)] + [MessageEnd(r)] == OutcomeEvents(call, o);
  }

  lemma OnlyNone(ends: bool)
    ensures Only([], ends) == []
  {
  }

  /** One call more, executed to its end, or only started. */
  lemma CallsAdd(events: seq<Event>, calls: seq<ToolCall>, results: seq<Message>, call: ToolCall, o: Outcome)
    requires StartsCalls(events, calls) && EndsCalls(events, results)
    ensures StartsCalls(events + CallEvents(call, o), calls + [call])
    ensures EndsCalls(events + CallEvents(call, o), results + [ResultFor(call, o)])
    ensures StartsCalls(events + [ToolStart(call.id)], calls + [call])
    ensures EndsCalls(events + [ToolStart(call.id)], results)
  {
    hide Only, CallEvents;
    OneCall(call, o);
    OnlyConcat(events, CallEvents(call, o), false);
    OnlyConcat(events, CallEvents(call, o), true);
    OnlySnoc(events, ToolStart(call.id), false);
    OnlySnoc(events, ToolStart(call.id), true);
  }

  lemma CallsStart()
    ensures StartsCalls([], []) && EndsCalls([], [])
  {
  }

  // ---- Parallel execution ----

  datatype Prepared = Prepared(call: ToolCall, outcome: Outcome)

  /** The executions under way. Those in `done` have completed; the loop that awaits them in
      order stands at `next`, with `stage` of the three events of that call already emitted. */
  datatype Batch = Batch(done: set<nat>, next: nat, stage: nat, results: seq<Message>, events: seq<Event>)

  /** What may happen next: a running tool reports progress, a tool completes, or the awaiting
      loop emits its next event. A step that is not possible changes nothing. */
  datatype Step = Update(i: nat) | Complete(i: nat) | Proceed

  function Apply(prepared: seq<Prepared>, b: Batch, step: Step): Batch {
    match step
    case Update(i) =>
      if i < |prepared| && i !in b.done then b.(events := b.events + [ToolUpdate(prepared[i].call.id)]) else b
    case Complete(i) => if i < |prepared| then b.(done := b.done + {i}) else b
    case Proceed =>
      if b.next >= |prepared| || b.next !in b.done then b
      else
        var Prepared(call, o) := prepared[b.next];
        var r := ResultFor(call, o);
        if b.stage == 0 then b.(events := b.events + [ToolEnd(call.id, o.isError)], stage := 1)
        else if b.stage == 1 then b.(events := b.events + [MessageStart(r)], stage := 2)
        else b.(events := b.events + [MessageEnd(r)], results := b.results + [r], next := b.next + 1, stage := 0)
  }

  function IdsFrom(prepared: seq<Prepared>, k: nat): multiset<string>
    requires k <= |prepared|
    decreases |prepared| - k
  {
    if k == |prepared| then multiset{} else multiset{prepared[k].call.id} + IdsFrom(prepared, k + 1)
  }

  lemma {:induction false} IdsSnoc(prepared: seq<Prepared>, x: Prepared, k: nat)
    requires k <= |prepared|
    ensures IdsFrom(prepared + [x], k) == IdsFrom(prepared, k) + multiset{x.call.id}
    decreases |prepared| - k
  {
    if k < |prepared| { IdsSnoc(prepared, x, k + 1); }
  }

  lemma {:induction false} IdRuns(prepared: seq<Prepared>, k: nat, i: nat)
    requires k <= i < |prepared|
    ensures prepared[i].call.id in IdsFrom(prepared, k)
    decreases |prepared| - k
  {
    if k < i { IdRuns(prepared, k + 1, i); }
  }

  lemma IdsHead(prepared: seq<Prepared>, k: nat)
    requires k < |prepared|
    ensures prepared[k].call.id in IdsFrom(prepared, k)
    ensures IdsFrom(prepared, k) - multiset{prepared[k].call.id} == IdsFrom(prepared, k + 1)
  {
  }

  function ResultsUpTo(prepared: seq<Prepared>, k: nat): seq<Message>
    requires k <= |prepared|
  {
    if k == 0 then [] else ResultsUpTo(prepared, k - 1) + [ResultFor(prepared[k - 1].call, prepared[k - 1].outcome)]
  }

  lemma {:induction false} ResultsUpToPrefix(prepared: seq<Prepared>, x: Prepared, k: nat)
    requires k <= |prepared|
    ensures ResultsUpTo(prepared + [x], k) == ResultsUpTo(prepared, k)
  {
    if k > 0 { ResultsUpToPrefix(prepared, x, k - 1); }
  }

  /** Where the grammar stands in the middle of a batch. */
  function BatchPhase(prepared: seq<Prepared>, b: Batch): Phase
    requires b.next <= |prepared|
  {
    if b.next == |prepared| || b.stage == 0 then Turn(Nothing, true, IdsFrom(prepared, b.next))
    else
      var r := ResultFor(prepared[b.next].call, prepared[b.next].outcome);
      Turn(if b.stage == 1 then Nothing else Other(r), true, IdsFrom(prepared, b.next + 1))
  }

  /** The next call may have ended already before its result is told. */
  ghost predicate EndsSoFar(prepared: seq<Prepared>, b: Batch) {
    if b.next < |prepared| && b.stage > 0
    then EndsCalls(b.events, b.results + [ResultFor(prepared[b.next].call, prepared[b.next].outcome)])
    else EndsCalls(b.events, b.results)
  }

  lemma StepEnds(prepared: seq<Prepared>, b: Batch, step: Step)
    requires EndsSoFar(prepared, b) && (b.next == |prepared| ==> b.stage == 0) && b.stage <= 2
    ensures EndsSoFar(prepared, Apply(prepared, b, step))
    ensures Only(Apply(prepared, b, step).events, false) == Only(b.events, false)
  {
    hide Only;
    var events := Apply(prepared, b, step).events;
    if |events| > |b.events| {
      OnlySnoc(b.events, events[|b.events|], true);
      OnlySnoc(b.events, events[|b.events|], false);
      assert events == b.events + [events[|b.events|]];
    }
  }

  /** In every interleaving: the results are the immediate ones and then the executed ones in
      source order as far as awaited, and the events keep to the grammar. */
  ghost predicate BatchValid(prepared: seq<Prepared>, immediate: seq<Message>, b: Batch) {
    && b.next <= |prepared| && b.stage <= 2 && (b.next == |prepared| ==> b.stage == 0)
    && (forall i | 0 <= i < b.next :: i in b.done)
    && (b.stage > 0 ==> b.next in b.done)
    && b.results == immediate + ResultsUpTo(prepared, b.next)
    && Ended(b.events) == b.results && Inside(b.events) && EndsSoFar(prepared, b)
    && Follow(Turn(Nothing, true, multiset{}), b.events) == BatchPhase(prepared, b)
  }

  lemma BatchStep(prepared: seq<Prepared>, immediate: seq<Message>, b: Batch, step: Step)
    requires BatchValid(prepared, immediate, b)
    ensures BatchValid(prepared, immediate, Apply(prepared, b, step))
    ensures Only(Apply(prepared, b, step).events, false) == Only(b.events, false)
  {
    hide Follow, Ended, EndsSoFar, Only;
    StepEnds(prepared, b, step);
    match step {
      case Update(i) => BatchUpdates(prepared, immediate, b, i);
      case Complete(_) =>
      case Proceed =>
        if b.next < |prepared| && b.next in b.done {
          if b.stage < 2 { BatchEmits(prepared, immediate, b); } else { BatchFinishes(prepared, immediate, b); }
        }
    }
  }

  lemma BatchUpdates(prepared: seq<Prepared>, immediate: seq<Message>, b: Batch, i: nat)
    requires BatchValid(prepared, immediate, b)
    ensures BatchValid(prepared, immediate, Apply(prepared, b, Update(i)))
  {
    hide Follow, Ended, EndsSoFar, ResultsUpTo;
    StepEnds(prepared, b, Update(i));
    if i < |prepared| && i !in b.done {
      IdRuns(prepared, if b.stage == 0 then b.next else b.next + 1, i);
      FollowSnoc(Turn(Nothing, true, multiset{}), b.events, ToolUpdate(prepared[i].call.id));
      EndedSnoc(b.events, ToolUpdate(prepared[i].call.id));
    }
  }

  /** What the awaiting loop emits before the last event of a call. */
  function NextEmitted(prepared: seq<Prepared>, b: Batch): Event
    requires b.next < |prepared|
  {
    var Prepared(call, o) := prepared[b.next];
    if b.stage == 0 then ToolEnd(call.id, o.isError) else MessageStart(ResultFor(call, o))
  }

  lemma BatchEmits(prepared: seq<Prepared>, immediate: seq<Message>, b: Batch)
    requires BatchValid(prepared, immediate, b) && b.next < |prepared| && b.next in b.done && b.stage < 2
    ensures BatchValid(prepared, immediate, Apply(prepared, b, Proceed))
  {
    hide Follow, Ended, EndsSoFar, IdsFrom, ResultsUpTo, BatchPhase, Next, NextEmitted;
    StepEnds(prepared, b, Proceed);
    var e := NextEmitted(prepared, b);
    FollowSnoc(Turn(Nothing, true, multiset{}), b.events, e);
    EndedSnoc(b.events, e);
    EmitsNext(prepared, b);
  }

  lemma EmitsNext(prepared: seq<Prepared>, b: Batch)
    requires b.next < |prepared| && b.next in b.done && b.stage < 2
    ensures var e, b' := NextEmitted(prepared, b), Apply(prepared, b, Proceed);
      && Next(BatchPhase(prepared, b), e) == BatchPhase(prepared, b')
      && b'.events == b.events + [e] && !e.MessageEnd? && !e.TurnEnd? && !e.AgentEnd?
  {
    hide IdsFrom;
    IdsHead(prepared, b.next);
  }

  lemma BatchFinishes(prepared: seq<Prepared>, immediate: seq<Message>, b: Batch)
    requires BatchValid(prepared, immediate, b) && b.next < |prepared| && b.stage == 2
    ensures BatchValid(prepared, immediate, Apply(prepared, b, Proceed))
  {
    hide Follow, Ended, EndsSoFar;
    StepEnds(prepared, b, Proceed);
    var Prepared(call, o) := prepared[b.next];
    var r := ResultFor(call, o);
    FollowSnoc(Turn(Nothing, true, multiset{}), b.events, MessageEnd(r));
    EndedSnoc(b.events, MessageEnd(r));
    assert (immediate + ResultsUpTo(prepared, b.next)) + [r] == immediate + (ResultsUpTo(prepared, b.next) + [r]);
  }

  // ---- When a batch is finished ----

  /** How far a batch has come, without what it has emitted. */
  datatype Progress = Progress(done: set<nat>, next: nat, stage: nat)

  const NO_PROGRESS := Progress({}, 0, 0)

  /** One step of a batch of `n` executions. */
  function Advance(n: nat, p: Progress, step: Step): Progress {
    match step
    case Update(_) => p
    case Complete(i) => if i < n then p.(done := p.done + {i}) else p
    case Proceed =>
      if p.next >= n || p.next !in p.done then p
      else if p.stage < 2 then p.(stage := p.stage + 1)
      else p.(next := p.next + 1, stage := 0)
  }

  function AdvanceAll(n: nat, p: Progress, schedule: seq<Step>): Progress {
    if schedule == [] then p else Advance(n, AdvanceAll(n, p, schedule[..|schedule| - 1]), schedule[|schedule| - 1])
  }

  /** All `n` executions have been awaited, and their last events emitted. */
  predicate Finishes(n: nat, schedule: seq<Step>) { AdvanceAll(n, NO_PROGRESS, schedule).next >= n }

  /** The schedule is long enough for those calls that are executed. */
  predicate Completes(calls: seq<ToolCall>, outcome: Outcomes, schedule: seq<Step>) {
    Finishes(|Selected(calls, outcome, false, |calls|)|, schedule)
  }

  /** A batch that is finished stays so. */
  lemma {:induction false} AdvanceMore(n: nat, schedule: seq<Step>, k: nat)
    requires k <= |schedule|
    ensures AdvanceAll(n, NO_PROGRESS, schedule[..k]).next <= AdvanceAll(n, NO_PROGRESS, schedule).next
    decreases |schedule|
  {
    if k == |schedule| {
      assert schedule[..k] == schedule;
    } else {
      AdvanceMore(n, schedule[..|schedule| - 1], k);
      assert schedule[..|schedule| - 1][..k] == schedule[..k];
    }
  }

  lemma AdvanceSnoc(n: nat, p: Progress, schedule: seq<Step>, step: Step)
    ensures AdvanceAll(n, p, schedule + [step]) == Advance(n, AdvanceAll(n, p, schedule), step)
  {
    assert (schedule + [step])[..|schedule|] == schedule;
  }

  lemma {:induction false} AdvanceConcat(n: nat, p: Progress, a: seq<Step>, b: seq<Step>)
    ensures AdvanceAll(n, p, a + b) == AdvanceAll(n, AdvanceAll(n, p, a), b)
  {
    if b == [] {
      assert a + b == a;
    } else {
      var init, last := b[..|b| - 1], b[|b| - 1];
      AdvanceConcat(n, p, a, init);
      assert a + b == (a + init) + [last];
      AdvanceSnoc(n, p, a + init, last);
    }
  }

  /** What has completed was scheduled, and nothing is awaited to its end before it has completed. */
  lemma {:induction false} DoneWasScheduled(n: nat, schedule: seq<Step>)
    ensures var p := AdvanceAll(n, NO_PROGRESS, schedule);
      && p.next <= n && p.stage <= 2
      && (forall i: nat | i < p.next :: i in p.done)
      && (forall i: nat | i < n :: i in p.done <==> Complete(i) in schedule)
  {
    if schedule != [] {
      var init, last := schedule[..|schedule| - 1], schedule[|schedule| - 1];
      DoneWasScheduled(n, init);
      assert schedule == init + [last];
    }
  }

  function Proceeds(schedule: seq<Step>): nat {
    if schedule == [] then 0
    else Proceeds(schedule[..|schedule| - 1]) + if schedule[|schedule| - 1].Proceed? then 1 else 0
  }

  /** Once everything has completed, every third look at the batch ends one execution. */
  lemma {:induction false} ProceedsCount(n: nat, p: Progress, schedule: seq<Step>)
    requires p.stage <= 2 && forall i: nat | i < n :: i in p.done
    ensures var q := AdvanceAll(n, p, schedule);
      && q.stage <= 2 && (forall i: nat | i < n :: i in q.done)
      && (q.next >= n || 3 * q.next + q.stage >= 3 * p.next + p.stage + Proceeds(schedule))
  {
    if schedule != [] { ProceedsCount(n, p, schedule[..|schedule| - 1]); }
  }

  /** A batch cannot be finished before every execution has completed; and it is finished when after
      that each has been looked at three times, whatever happens in between. */
  lemma FinishesOnceCompleted(n: nat, schedule: seq<Step>, more: seq<Step>)
    ensures Finishes(n, schedule) ==> forall i: nat | i < n :: Complete(i) in schedule
    ensures (forall i: nat | i < n :: Complete(i) in schedule) && Proceeds(more) >= 3 * n ==> Finishes(n, schedule + more)
  {
    DoneWasScheduled(n, schedule);
    if (forall i: nat | i < n :: Complete(i) in schedule) && Proceeds(more) >= 3 * n {
      AdvanceConcat(n, NO_PROGRESS, schedule, more);
      ProceedsCount(n, AdvanceAll(n, NO_PROGRESS, schedule), more);
    }
  }

  function ProgressOf(b: Batch): Progress { Progress(b.done, b.next, b.stage) }

  lemma ApplyAdvances(prepared: seq<Prepared>, b: Batch, step: Step)
    requires b.stage <= 2
    ensures ProgressOf(Apply(prepared, b, step)) == Advance(|prepared|, ProgressOf(b), step)
  {
  }

  // ---- What running calls report ----

  /** The calls that are executed, of the first `k`. */
  function Executions(calls: seq<ToolCall>, outcome: Outcomes, k: nat): seq<ToolCall>
    requires k <= |calls|
  {
    if k == 0 then []
    else Executions(calls, outcome, k - 1) + if outcome(k - 1).Executed? then [calls[k - 1]] else []
  }

  function Reports(es: seq<Event>): seq<Event> {
    if es == [] then [] else Reports(es[..|es| - 1]) + if es[|es| - 1].ToolUpdate? then [es[|es| - 1]] else []
  }

  /** A call reports its progress until it has completed. */
  function Reported(run: seq<ToolCall>, schedule: seq<Step>): seq<Event> {
    if schedule == [] then []
    else
      var init, last := schedule[..|schedule| - 1], schedule[|schedule| - 1];
      Reported(run, init) +
      if last.Update? && last.i < |run| && Complete(last.i) !in init then [ToolUpdate(run[last.i].id)] else []
  }

  lemma ReportsSnoc(es: seq<Event>, e: Event)
    ensures Reports(es + [e]) == if e.ToolUpdate? then Reports(es) + [e] else Reports(es)
  {
    assert (es + [e])[..|es|] == es;
  }

  /** A call settled before it runs reports nothing. */
  lemma NoReports(es: seq<Event>, call: ToolCall, o: Outcome)
    requires o.Immediate?
    ensures Reports(es + CallEvents(call, o)) == Reports(es)
    ensures Reports(es + [ToolStart(call.id)]) == Reports(es)
  {
    hide CallEvents, Reports, ResultFor;
    var r := ResultFor(call, o);
    var one := es + [ToolStart(call.id)];
    var two := one + [ToolEnd(call.id, o.isError)];
    var three := two + [MessageStart(r)];
    ReportsSnoc(es, ToolStart(call.id));
    ReportsSnoc(one, ToolEnd(call.id, o.isError));
    ReportsSnoc(two, MessageStart(r));
    ReportsSnoc(three, MessageEnd(r));
    SettledEvents(call, o);
    Four(es, ToolStart(call.id), ToolEnd(call.id, o.isError), MessageStart(r), MessageEnd(r));
  }

  lemma SettledEvents(call: ToolCall, o: Outcome)
    requires o.Immediate?
    ensures var r := ResultFor(call, o);
      CallEvents(call, o) == [ToolStart(call.id), ToolEnd(call.id, o.isError), MessageStart(r), MessageEnd(r)]
  {
  }

  lemma Four<T>(s: seq<T>, a: T, b: T, c: T, d: T)
    ensures s + [a, b, c, d] == s + [a] + [b] + [c] + [d]
  {
  }

  /** Which calls run, and that nothing has been reported before they do. */
  ghost predicate ToRun(calls: seq<ToolCall>, outcome: Outcomes, i: nat, events: seq<Event>, runnable: seq<Prepared>)
    requires i <= |calls|
  {
    var run := Executions(calls, outcome, i);
    Reports(events) == [] && |run| == |runnable| && forall j | 0 <= j < |run| :: runnable[j].call == run[j]
  }

  lemma ToRunNext(calls: seq<ToolCall>, outcome: Outcomes, i: nat, events: seq<Event>, runnable: seq<Prepared>)
    requires i < |calls| && ToRun(calls, outcome, i, events, runnable)
    ensures if outcome(i).Immediate? then ToRun(calls, outcome, i + 1, events + CallEvents(calls[i], outcome(i)), runnable)
      else ToRun(calls, outcome, i + 1, events + [ToolStart(calls[i].id)], runnable + [Prepared(calls[i], outcome(i))])
  {
    hide CallEvents, Reports, Executions;
    ExecutionsNext(calls, outcome, i);
    if outcome(i).Immediate? {
      NoReports(events, calls[i], outcome(i));
    } else {
      ReportsSnoc(events, ToolStart(calls[i].id));
    }
  }

  lemma ExecutionsNext(calls: seq<ToolCall>, outcome: Outcomes, i: nat)
    requires i < |calls|
    ensures var run := Executions(calls, outcome, i);
      Executions(calls, outcome, i + 1) == if outcome(i).Immediate? then run else run + [calls[i]]
  {
  }

  /** The batch has reported what the schedule says so far. */
  ghost predicate Reporting(run: seq<ToolCall>, prepared: seq<Prepared>, b: Batch, schedule: seq<Step>) {
    && |run| == |prepared| && (forall j | 0 <= j < |run| :: prepared[j].call == run[j])
    && (forall i: nat | i < |run| :: i in b.done <==> Complete(i) in schedule)
    && Reports(b.events) == Reported(run, schedule)
  }

  lemma ReportingStart(calls: seq<ToolCall>, outcome: Outcomes, events: seq<Event>, results: seq<Message>, runnable: seq<Prepared>)
    requires ToRun(calls, outcome, |calls|, events, runnable)
    ensures Reporting(Executions(calls, outcome, |calls|), runnable, Batch({}, 0, 0, results, events), [])
  {
  }

  lemma ReportingNext(run: seq<ToolCall>, prepared: seq<Prepared>, b: Batch, schedule: seq<Step>, step: Step)
    requires Reporting(run, prepared, b, schedule) && (b.next < |prepared| ==> b.stage <= 2)
    ensures Reporting(run, prepared, Apply(prepared, b, step), schedule + [step])
  {
    hide Reports;
    assert (schedule + [step])[..|schedule|] == schedule;
    var events := Apply(prepared, b, step).events;
    if |events| > |b.events| {
      ReportsSnoc(b.events, events[|b.events|]);
      assert events == b.events + [events[|b.events|]];
    }
  }

  /** When all calls have completed nothing more is reported. */
  lemma {:induction false} ReportingEnds(run: seq<ToolCall>, schedule: seq<Step>, k: nat)
    requires k <= |schedule| && forall i: nat | i < |run| :: Complete(i) in schedule[..k]
    ensures Reported(run, schedule) == Reported(run, schedule[..k])
    decreases |schedule|
  {
    if k == |schedule| {
      assert schedule[..k] == schedule;
    } else {
      var init := schedule[..|schedule| - 1];
      assert init[..k] == schedule[..k];
      forall i: nat | i < |run| ensures Complete(i) in init { assert Complete(i) in init[..k]; }
      ReportingEnds(run, init, k);
    }
  }

  /** `executeToolCallsParallel`. `schedule` is the interleaving; if it ends too early the batch
      is not finished. The results do not depend on it. */
  method ExecuteParallel(calls: seq<ToolCall>, outcome: Outcomes, schedule: seq<Step>)
    returns (finished: bool, results: seq<Message>, events: seq<Event>)
    ensures finished <==> Completes(calls, outcome, schedule)
    ensures finished ==> results == InParallelOrder(calls, outcome) && BatchSoFar(results, events, multiset{})
    ensures StartsCalls(events, calls) && (finished ==> EndsCalls(events, results))
    ensures Reports(events) == Reported(Executions(calls, outcome, |calls|), schedule)
    ensures !finished ==> Ended(events) == results && results <= InParallelOrder(calls, outcome)
    ensures Inside(events)
    ensures !Follow(Turn(Nothing, true, multiset{}), events).Wrong?
  {
    hide BatchSoFar, BatchValid, InParallelOrder, Ended, Follow, Selected, AdvanceAll, ResultsUpTo, Apply, Advance, Only, EndsCalls;
    hide Reports, Reported, Executions, ToRun, Reporting;
    results, events := [], [];
    var runnable: seq<Prepared> := [];
    assert Preparing(calls, outcome, 0, results, events, runnable) by { PreparingStart(calls, outcome); }
    NothingToRun(calls, outcome);
    var i := 0;
    while i < |calls|
      invariant 0 <= i <= |calls|
      invariant Preparing(calls, outcome, i, results, events, runnable)
      invariant ToRun(calls, outcome, i, events, runnable)
    {
      ToRunNext(calls, outcome, i, events, runnable);
      PreparingNext(calls, outcome, i, results, events, runnable);
      if outcome(i).Immediate? {
        results := results + [ResultFor(calls[i], outcome(i))];
        events := events + CallEvents(calls[i], outcome(i));
      } else {
        runnable := runnable + [Prepared(calls[i], outcome(i))];
        events := events + [ToolStart(calls[i].id)];
      }
      i := i + 1;
    }
    ResultsUpToLength(runnable, |runnable|);
    ghost var n := |runnable|;
    ghost var immediate := results;
    var b := Batch({}, 0, 0, results, events);
    RunningStart(calls, outcome, results, events, runnable);
    ghost var run := Executions(calls, outcome, |calls|);
    ReportingStart(calls, outcome, events, results, runnable);
    var s := 0;
    assert schedule[..0] == [];
    NothingAdvanced(n);
    while s < |schedule| && b.next < |runnable|
      invariant 0 <= s <= |schedule|
      invariant BatchValid(runnable, immediate, b) && b.stage <= 2
      invariant Only(b.events, false) == Only(events, false)
      invariant Reporting(run, runnable, b, schedule[..s])
      invariant ProgressOf(b) == AdvanceAll(n, NO_PROGRESS, schedule[..s])
    {
      BatchStep(runnable, immediate, b, schedule[s]);
      ReportingNext(run, runnable, b, schedule[..s], schedule[s]);
      ApplyAdvances(runnable, b, schedule[s]);
      AdvanceSnoc(n, NO_PROGRESS, schedule[..s], schedule[s]);
      assert schedule[..s] + [schedule[s]] == schedule[..s + 1];
      b := Apply(runnable, b, schedule[s]);
      StageInRange(runnable, immediate, b);
      s := s + 1;
    }
    AdvanceMore(n, schedule, s);
    assert s == |schedule| ==> schedule[..s] == schedule;
    AllReported(run, runnable, immediate, b, schedule, s);
    RunningEnd(calls, outcome, immediate, runnable, b);
    finished := b.next >= |runnable|;
    results, events := b.results, b.events;
  }

  lemma NothingToRun(calls: seq<ToolCall>, outcome: Outcomes)
    ensures ToRun(calls, outcome, 0, [], [])
  {
  }

  lemma AllReported(run: seq<ToolCall>, prepared: seq<Prepared>, immediate: seq<Message>, b: Batch, schedule: seq<Step>, s: nat)
    requires s <= |schedule| && Reporting(run, prepared, b, schedule[..s]) && BatchValid(prepared, immediate, b)
    requires s == |schedule| || b.next >= |prepared|
    ensures Reports(b.events) == Reported(run, schedule)
  {
    hide Reports, Reported, Follow, Ended, EndsSoFar;
    assert s == |schedule| ==> schedule[..s] == schedule;
    if s < |schedule| { ReportingEnds(run, schedule, s); }
  }

  lemma NothingAdvanced(n: nat)
    ensures AdvanceAll(n, NO_PROGRESS, []) == NO_PROGRESS
  {
  }

  lemma StageInRange(prepared: seq<Prepared>, immediate: seq<Message>, b: Batch)
    requires BatchValid(prepared, immediate, b)
    ensures b.stage <= 2
  {
  }

  lemma {:induction false} ResultsUpToLength(prepared: seq<Prepared>, k: nat)
    requires k <= |prepared|
    ensures |ResultsUpTo(prepared, k)| == k
  {
    if k > 0 { ResultsUpToLength(prepared, k - 1); }
  }

  ghost predicate Preparing(calls: seq<ToolCall>, outcome: Outcomes, i: nat, results: seq<Message>, events: seq<Event>, runnable: seq<Prepared>)
    requires i <= |calls|
  {
    && results == Selected(calls, outcome, true, i)
    && ResultsUpTo(runnable, |runnable|) == Selected(calls, outcome, false, i)
    && BatchSoFar(results, events, IdsFrom(runnable, 0))
    && StartsCalls(events, calls[..i]) && EndsCalls(events, results)
  }

  lemma PreparingStart(calls: seq<ToolCall>, outcome: Outcomes)
    ensures Preparing(calls, outcome, 0, [], [], [])
  {
    BatchStart();
    CallsStart();
    assert calls[..0] == [];
  }

  lemma PreparingNext(calls: seq<ToolCall>, outcome: Outcomes, i: nat, results: seq<Message>, events: seq<Event>, runnable: seq<Prepared>)
    requires i < |calls| && Preparing(calls, outcome, i, results, events, runnable)
    ensures if outcome(i).Immediate?
      then Preparing(calls, outcome, i + 1, results + [ResultFor(calls[i], outcome(i))], events + CallEvents(calls[i], outcome(i)), runnable)
      else Preparing(calls, outcome, i + 1, results, events + [ToolStart(calls[i].id)], runnable + [Prepared(calls[i], outcome(i))])
  {
    hide BatchSoFar, StartsCalls, EndsCalls;
    CallsAdd(events, calls[..i], results, calls[i], outcome(i));
    assert calls[..i] + [calls[i]] == calls[..i + 1];
    BatchAdd(results, events, IdsFrom(runnable, 0), calls[i], outcome(i));
    var x := Prepared(calls[i], outcome(i));
    IdsSnoc(runnable, x, 0);
    ResultsUpToPrefix(runnable, x, |runnable|);
    assert Selected(calls, outcome, true, i) + [] == Selected(calls, outcome, true, i);
    assert Selected(calls, outcome, false, i) + [] == Selected(calls, outcome, false, i);
  }

  lemma RunningStart(calls: seq<ToolCall>, outcome: Outcomes, results: seq<Message>, events: seq<Event>, runnable: seq<Prepared>)
    requires Preparing(calls, outcome, |calls|, results, events, runnable)
    ensures StartsCalls(events, calls)
    ensures BatchValid(runnable, results, Batch({}, 0, 0, results, events))
  {
    hide Follow, Ended, EndsCalls;
    var p := Turn(Nothing, true, multiset{});
    assert CallsTools(p) && Follow(p, events) == p.(running := IdsFrom(runnable, 0));
    assert calls[..|calls|] == calls;
    assert results + [] == results;
  }

  lemma {:induction false} ResultsPrefix(prepared: seq<Prepared>, k: nat, n: nat)
    requires k <= n <= |prepared|
    ensures ResultsUpTo(prepared, k) <= ResultsUpTo(prepared, n)
  {
    if k < n { ResultsPrefix(prepared, k, n - 1); }
  }

  lemma RunningEnd(calls: seq<ToolCall>, outcome: Outcomes, immediate: seq<Message>, runnable: seq<Prepared>, b: Batch)
    requires BatchValid(runnable, immediate, b)
    requires immediate == Selected(calls, outcome, true, |calls|)
    requires ResultsUpTo(runnable, |runnable|) == Selected(calls, outcome, false, |calls|)
    ensures b.next >= |runnable| ==>
      b.results == InParallelOrder(calls, outcome) && BatchSoFar(b.results, b.events, multiset{}) && EndsCalls(b.events, b.results)
    ensures Ended(b.events) == b.results && Inside(b.events) && b.results <= InParallelOrder(calls, outcome)
    ensures !Follow(Turn(Nothing, true, multiset{}), b.events).Wrong?
  {
    hide Follow, Ended, EndsCalls;
    ResultsPrefix(runnable, b.next, |runnable|);
    if b.next >= |runnable| {
      forall p: Phase | CallsTools(p) && p.running == multiset{} ensures Follow(p, b.events) == p {
        assert p == Turn(Nothing, true, multiset{});
      }
    }
  }
}
