/**
 Whole runs of the agent loop (`runLoop`, `runAgentLoop`, `runAgentLoopContinue`). The state of
 a run is a value that the loop updates; the invariants say that the trace keeps to the
 lifecycle grammar and that the transcript read off the events is the loop's own context, and the
 run follows `AgentFlows` step by step.
 */
module AgentRuns {
  import opened Basics
  import opened AgentLoops
  import opened AgentFlows

  /** The state of a run. `stale` counts the partial messages that streams with more than one
      start have left behind in the context. */
  datatype Run = Run(
    trace: seq<Event>, context: seq<Message>, newMessages: seq<Message>, pending: seq<Input>,
    steering: Queue, followUps: Queue, stale: nat)

  // ---- Injected messages ----

  function InjectEvents(inputs: seq<Input>): seq<Event> {
    if inputs == [] then []
    else
      var m := Injected(inputs[|inputs| - 1]);
      InjectEvents(inputs[..|inputs| - 1]) + [MessageStart(m)] + [MessageEnd(m)]
  }

  lemma {:induction false} FollowInjected(inputs: seq<Input>, p: Phase)
    requires p.Turn? && p.open.Nothing? && !p.responded
    ensures Follow(p, InjectEvents(inputs)) == p
    ensures Ended(InjectEvents(inputs)) == AsMessages(inputs)
  {
    if inputs != [] {
      var init, m := inputs[..|inputs| - 1], Injected(inputs[|inputs| - 1]);
      FollowInjected(init, p);
      var es := InjectEvents(init);
      assert InjectEvents(inputs) == es + [MessageStart(m), MessageEnd(m)];
      FollowConcat(p, es, [MessageStart(m), MessageEnd(m)]);
      EndedConcat(es, [MessageStart(m), MessageEnd(m)]);
      FollowMessage(p, m);
      hide Follow, Ended, InjectEvents;
      assert AsMessages(inputs) == AsMessages(init) + [m];
    }
  }

  lemma FollowMessage(p: Phase, m: Message)
    requires p.Turn? && p.open.Nothing? && !p.responded && m.Injected?
    ensures Follow(p, [MessageStart(m), MessageEnd(m)]) == p
    ensures Ended([MessageStart(m), MessageEnd(m)]) == [m]
  {
    FollowSnoc(p, [], MessageStart(m));
    FollowSnoc(p, [MessageStart(m)], MessageEnd(m));
    EndedSnoc([], MessageStart(m));
    EndedSnoc([MessageStart(m)], MessageEnd(m));
    assert Follow(p, []) == p && Ended([]) == [];
    hide Follow, Ended;
    assert [] + [MessageStart(m)] == [MessageStart(m)];
    assert [MessageStart(m)] + [MessageEnd(m)] == [MessageStart(m), MessageEnd(m)];
  }

  // ---- The invariants of a run ----

  predicate EndsIn<T(==)>(all: seq<T>, last: seq<T>) {
    |last| <= |all| && all[|all| - |last|..] == last
  }

  lemma EndsInSnoc<T>(all: seq<T>, last: seq<T>, x: T)
    requires EndsIn(all, last)
    ensures EndsIn(all + [x], last + [x])
  {
    assert (all + [x])[|all| - |last|..] == all[|all| - |last|..] + [x];
  }

  lemma EndsInLast<T>(all: seq<T>, more: seq<T>)
    requires more != []
    ensures EndsIn(all + more, [more[|more| - 1]])
  {
  }

  /** At a turn end, and at the end, the transcript read off the events is the context; and these events
      carry the last response with its results, or all new messages. */
  ghost predicate AgreesAt(base: seq<Message>, told: seq<Message>, e: Event) {
    match e
    case TurnEnd(response, results, context) => context == base + told && EndsIn(told, [Assistant(response)] + results)
    case AgentEnd(messages, context) => context == base + told && messages == told
    case _ => true
  }

  ghost predicate Agrees(base: seq<Message>, trace: seq<Event>) {
    forall i | 0 <= i < |trace| :: AgreesAt(base, Ended(trace[..i]), trace[i])
  }

  lemma AgreesSnoc(base: seq<Message>, trace: seq<Event>, e: Event)
    ensures Agrees(base, trace + [e]) <==> Agrees(base, trace) && AgreesAt(base, Ended(trace), e)
  {
    hide AgreesAt, Ended;
    var all := trace + [e];
    assert all[..|trace|] == trace && all[|trace|] == e;
    forall i | 0 <= i < |trace| ensures all[i] == trace[i] && all[..i] == trace[..i] {}
    if Agrees(base, all) {
      forall i | 0 <= i < |trace| ensures AgreesAt(base, Ended(trace[..i]), trace[i]) {
        assert AgreesAt(base, Ended(all[..i]), all[i]);
      }
      assert AgreesAt(base, Ended(all[..|trace|]), all[|trace|]);
    }
  }

  /** Events that end neither a turn nor the run do not matter for agreement. */
  lemma {:induction false} AgreesConcat(base: seq<Message>, trace: seq<Event>, es: seq<Event>)
    requires Inside(es)
    ensures Agrees(base, trace + es) <==> Agrees(base, trace)
  {
    if es == [] {
      assert trace + es == trace;
    } else {
      var init := es[..|es| - 1];
      AgreesConcat(base, trace, init);
      AgreesSnoc(base, trace + init, es[|es| - 1]);
      hide Agrees, Ended;
      assert trace + es == (trace + init) + [es[|es| - 1]];
    }
  }

  /** The loop's context is the transcript, with the stale partials in between if there are any. */
  ghost predicate Transcript(base: seq<Message>, r: Run) {
    && r.newMessages == Ended(r.trace)
    && |r.context| == |base| + |r.newMessages| + r.stale
    && (r.stale == 0 ==> r.context == base + r.newMessages && Agrees(base, r.trace))
  }

  /** The trace stands at `p`, unless a stream with two starts has spoilt it. */
  ghost predicate Stands(r: Run, p: Phase) {
    Follow(Idle, r.trace) == if r.stale == 0 then p else Wrong
  }

  /** Between two turns, or before the response of the first one. */
  ghost predicate AtHead(base: seq<Message>, r: Run, first: bool) {
    && Transcript(base, r)
    && Stands(r, if first then Turn(Nothing, false, multiset{}) else Between)
    && (Agrees(base, r.trace) ==> r.stale == 0)
  }

  // ---- The steps of a run ----

  function Emit(r: Run, e: Event): Run { r.(trace := r.trace + [e]) }

  /** Messages arrive in the queues while the loop waits for something else. */
  function Arrive(r: Run, steers: seq<Input>, followUps: seq<Input>): Run {
    r.(steering := Enqueued(r.steering, steers), followUps := Enqueued(r.followUps, followUps))
  }

  /** `getSteeringMessages` */
  function PollSteering(r: Run): Run { r.(steering := Undrained(r.steering), pending := Drained(r.steering)) }

  /** `getFollowUpMessages` */
  function PollFollowUps(r: Run): Run { r.(followUps := Undrained(r.followUps), pending := Drained(r.followUps)) }

  function Inject(r: Run): Run {
    var msgs := AsMessages(r.pending);
    r.(trace := r.trace + InjectEvents(r.pending), context := r.context + msgs, newMessages := r.newMessages + msgs, pending := [])
  }

  /** Arrivals and polls keep the invariants. */
  lemma SameTranscript(base: seq<Message>, r: Run, r': Run, first: bool)
    requires r'.trace == r.trace && r'.context == r.context && r'.newMessages == r.newMessages && r'.stale == r.stale
    ensures AtHead(base, r, first) ==> AtHead(base, r', first)
    ensures Waiting(base, r) ==> Waiting(base, r')
  {
    hide Follow, Agrees, Ended;
  }

  lemma {:induction false} InjectEventsInside(inputs: seq<Input>)
    ensures Inside(InjectEvents(inputs))
  {
    if inputs != [] { InjectEventsInside(inputs[..|inputs| - 1]); }
  }

  /** In a turn whose response is still to come. */
  ghost predicate InTurn(base: seq<Message>, r: Run) {
    && Transcript(base, r)
    && Stands(r, Turn(Nothing, false, multiset{}))
    && (Agrees(base, r.trace) ==> r.stale == 0)
  }

  lemma TurnBegins(base: seq<Message>, r: Run, first: bool)
    requires AtHead(base, r, first)
    ensures InTurn(base, if first then r else Emit(r, TurnStart))
  {
    hide Follow, Ended, Agrees;
    FollowSnoc(Idle, r.trace, TurnStart);
    EndedSnoc(r.trace, TurnStart);
    AgreesSnoc(base, r.trace, TurnStart);
  }

  lemma InjectKeeps(base: seq<Message>, r: Run)
    requires InTurn(base, r)
    ensures InTurn(base, Inject(r))
  {
    hide Transcript, Agrees, Follow;
    InjectTranscript(base, r);
    FollowConcat(Idle, r.trace, InjectEvents(r.pending));
    FollowInjected(r.pending, Turn(Nothing, false, multiset{}));
    WrongStays(InjectEvents(r.pending));
  }

  lemma InjectTranscript(base: seq<Message>, r: Run)
    requires InTurn(base, r)
    ensures Transcript(base, Inject(r)) && Agrees(base, Inject(r).trace) == Agrees(base, r.trace)
  {
    hide Follow, Ended, Agrees, Stands;
    EndedConcat(r.trace, InjectEvents(r.pending));
    FollowInjected(r.pending, Turn(Nothing, false, multiset{}));
    InjectEventsInside(r.pending);
    AgreesConcat(base, r.trace, InjectEvents(r.pending));
    Assoc(base, r.newMessages, AsMessages(r.pending));
  }

  /** The response has been streamed; its results are still to come. */
  function Respond(r: Run, stream: Stream, newContext: seq<Message>, events: seq<Event>): Run {
    r.(trace := r.trace + events, context := newContext, newMessages := r.newMessages + [Assistant(stream.result)],
       stale := r.stale + Excess(stream))
  }

  /** A turn with its response and these results. */
  ghost predicate Responded(base: seq<Message>, r: Run, response: Response, results: seq<Message>) {
    && Transcript(base, r) && EndsIn(r.newMessages, [Assistant(response)] + results)
    && Stands(r, Turn(Nothing, true, multiset{}))
  }

  lemma RespondKeeps(base: seq<Message>, r: Run, stream: Stream, newContext: seq<Message>, events: seq<Event>)
    requires InTurn(base, r)
    requires Ended(events) == [Assistant(stream.result)] && Inside(events)
    requires |newContext| == |r.context| + if Starts(stream.events) > 1 then Starts(stream.events) else 1
    requires Starts(stream.events) <= 1 ==> newContext == r.context + [Assistant(stream.result)]
    requires forall p: Phase | p.Turn? && p.open.Nothing? && !p.responded ::
      Follow(p, events) == if Starts(stream.events) <= 1 then p.(responded := true) else Wrong
    ensures Responded(base, Respond(r, stream, newContext, events), stream.result, [])
  {
    hide Follow, Ended, Agrees, Starts;
    var m := Assistant(stream.result);
    FollowConcat(Idle, r.trace, events);
    WrongStays(events);
    EndedConcat(r.trace, events);
    AgreesConcat(base, r.trace, events);
    Assoc(base, r.newMessages, [m]);
    assert [m] + [] == [m] == (r.newMessages + [m])[|r.newMessages|..];
  }

  /** The tool results are in. */
  function AddResults(r: Run, results: seq<Message>, events: seq<Event>): Run {
    r.(trace := r.trace + events, context := r.context + results, newMessages := r.newMessages + results)
  }

  lemma ResultsKeep(base: seq<Message>, r: Run, response: Response, results: seq<Message>, events: seq<Event>)
    requires Responded(base, r, response, []) && BatchSoFar(results, events, multiset{})
    ensures Responded(base, AddResults(r, results, events), response, results)
  {
    hide Follow, Ended, Agrees, EndsIn;
    var p := Turn(Nothing, true, multiset{});
    FollowConcat(Idle, r.trace, events);
    assert CallsTools(p) && Follow(p, events) == p;
    WrongStays(events);
    EndedConcat(r.trace, events);
    AgreesConcat(base, r.trace, events);
    Assoc(base, r.newMessages, results);
    EndsInMore(r.newMessages, Assistant(response), results);
  }

  lemma EndsInMore(msgs: seq<Message>, last: Message, more: seq<Message>)
    requires EndsIn(msgs, [last] + [])
    ensures EndsIn(msgs + more, [last] + more)
  {
    assert msgs == msgs[..|msgs| - 1] + [last];
  }

  lemma TurnEnds(base: seq<Message>, r: Run, response: Response, results: seq<Message>)
    requires Responded(base, r, response, results)
    ensures AtHead(base, Emit(r, TurnEnd(response, results, r.context)), false)
  {
    hide Follow, Ended, Agrees, EndsIn;
    var e := TurnEnd(response, results, r.context);
    FollowSnoc(Idle, r.trace, e);
    EndedSnoc(r.trace, e);
    AgreesSnoc(base, r.trace, e);
  }

  /** The run is over. */
  ghost predicate AtEnd(base: seq<Message>, r: Run) {
    && Transcript(base, r)
    && Stands(r, Over)
    && r.trace != [] && r.trace[|r.trace| - 1] == AgentEnd(r.newMessages, r.context)
    && (Agrees(base, r.trace) ==> r.stale == 0)
  }

  lemma RunEnds(base: seq<Message>, r: Run)
    requires AtHead(base, r, false)
    ensures AtEnd(base, Emit(r, AgentEnd(r.newMessages, r.context)))
  {
    hide Follow, Ended, Agrees;
    var e := AgentEnd(r.newMessages, r.context);
    FollowSnoc(Idle, r.trace, e);
    EndedSnoc(r.trace, e);
    AgreesSnoc(base, r.trace, e);
  }

  /** A run that is waiting in the middle of a turn. */
  ghost predicate Waiting(base: seq<Message>, r: Run) {
    r.stale == 0 ==> !Follow(Idle, r.trace).Wrong? && Agrees(base, r.trace)
  }

  lemma WaitsForModel(base: seq<Message>, r: Run)
    requires InTurn(base, r)
    ensures Waiting(base, r) && Ended(r.trace) == r.newMessages
  {
  }

  lemma WaitsForTools(base: seq<Message>, r: Run, response: Response, events: seq<Event>)
    requires Responded(base, r, response, []) && Inside(events)
    requires !Follow(Turn(Nothing, true, multiset{}), events).Wrong?
    ensures Waiting(base, r.(trace := r.trace + events)) && Ended(r.trace + events) == r.newMessages + Ended(events)
  {
    hide Follow, Ended, Agrees;
    FollowConcat(Idle, r.trace, events);
    AgreesConcat(base, r.trace, events);
    EndedConcat(r.trace, events);
  }

  // ---- One turn ----

  /** The turn ends with the response, without a tool call. */
  ghost predicate GivenUp(r: Run, response: Response) {
    EndsIn(r.trace, [MessageEnd(Assistant(response)), TurnEnd(response, [], r.context)])
  }

  /** And so does the run. */
  ghost predicate GivenUpAtEnd(r: Run, response: Response) {
    EndsIn(r.trace, [MessageEnd(Assistant(response)), TurnEnd(response, [], r.context), AgentEnd(r.newMessages, r.context)])
  }

  lemma GivesUp(r: Run, events: seq<Event>, response: Response)
    requires events != [] && events[|events| - 1] == MessageEnd(Assistant(response))
    ensures GivenUp(r.(trace := r.trace + events + [TurnEnd(response, [], r.context)]), response)
  {
    EndsInLast(r.trace, events);
    EndsInSnoc(r.trace + events, [MessageEnd(Assistant(response))], TurnEnd(response, [], r.context));
    assert [MessageEnd(Assistant(response))] + [TurnEnd(response, [], r.context)]
      == [MessageEnd(Assistant(response)), TurnEnd(response, [], r.context)];
  }

  lemma GivesUpAtEnd(r: Run, response: Response)
    requires GivenUp(r, response)
    ensures GivenUpAtEnd(Emit(r, AgentEnd(r.newMessages, r.context)), response)
  {
    var e := AgentEnd(r.newMessages, r.context);
    EndsInSnoc(r.trace, [MessageEnd(Assistant(response)), TurnEnd(response, [], r.context)], e);
    assert [MessageEnd(Assistant(response)), TurnEnd(response, [], r.context)] + [e]
      == [MessageEnd(Assistant(response)), TurnEnd(response, [], r.context), e];
  }

  datatype Status = Stopped | Stuck | Going(toolCalls: bool)

  /** While tools are awaited, the events may be ahead of the context by some of the results. */
  ghost predicate Ahead(r: Run, results: seq<Message>) {
    r.newMessages <= Ended(r.trace) <= r.newMessages + results
  }

  /** One turn, from the response on. */
  method RunTurn(ghost base: seq<Message>, r0: Run, parallel: bool, script: Script)
    returns (r: Run, status: Status)
    requires InTurn(base, r0)
    ensures if status.Stuck? then Waiting(base, r) && Ahead(r, ResultsOf(parallel, script)) else AtHead(base, r, false)
    ensures r.newMessages == r0.newMessages + Told(parallel, script)
    ensures r.stale == r0.stale + Excess(script.stream)
    ensures r.pending == r0.pending && r.steering == r0.steering && r.followUps == r0.followUps
    ensures status.Stopped? ==> GivenUp(r, script.stream.result)
    ensures status == if Fails(script) then Stopped else if Hangs(parallel, script) then Stuck
                      else Going(script.stream.result.calls != [])
  {
    hide InTurn, Responded, AtHead, Waiting, BatchSoFar, Follow, Ended, Inside, InParallelOrder, InSourceOrder, Completes;
    hide GivenUp, Streamed, Tell, StartsCalls, EndsCalls;
    r := r0;
    var newContext, events, message := StreamAssistantResponse(r.context, script.stream);
    RespondKeeps(base, r, script.stream, newContext, events);
    r := Respond(r, script.stream, newContext, events);
    if message.Failed() {
      TurnEnds(base, r, message, []);
      GivesUp(r.(trace := r0.trace), events, message);
      r := Emit(r, TurnEnd(message, [], r.context));
      return r, Stopped;
    }
    var toolCalls := message.calls;
    var hasMoreToolCalls := |toolCalls| > 0;
    var toolResults: seq<Message> := [];
    NoCalls(parallel, script);
    if hasMoreToolCalls {
      if parallel {
        var finished, results, batch := ExecuteParallel(toolCalls, script.outcome, script.schedule);
        if !finished {
          WaitsForTools(base, r, message, batch);
          r := r.(trace := r.trace + batch);
          return r, Stuck;
        }
        ResultsKeep(base, r, message, results, batch);
        r, toolResults := AddResults(r, results, batch), results;
      } else {
        var results, batch := ExecuteSequential(toolCalls, script.outcome);
        ResultsKeep(base, r, message, results, batch);
        r, toolResults := AddResults(r, results, batch), results;
      }
    }
    Assoc(r0.newMessages, [Assistant(message)], toolResults);
    TurnEnds(base, r, message, toolResults);
    r := Emit(r, TurnEnd(message, toolResults, r.context));
    status := Going(hasMoreToolCalls);
  }

  lemma NoCalls(parallel: bool, script: Script)
    ensures script.stream.result.calls == [] ==> ResultsOf(parallel, script) == [] && !Hangs(parallel, script)
  {
  }

  // ---- The loop ----

  /** The run is where the flow is. */
  ghost predicate Shows(r: Run, f: Flow) {
    && r.newMessages == f.messages && r.pending == f.next && r.steering == f.steering && r.followUps == f.followUps
    && r.stale == f.stale
  }

  /** Another turn follows the first `used` scripts. */
  ghost predicate Reached(f: Flow, r: Run, parallel: bool, scripts: seq<Script>, used: nat) {
    && used <= |scripts| && (forall k | 0 < k <= used :: GoesOn(f, parallel, scripts, k))
    && Shows(r, PlayAll(f, parallel, scripts[..used]))
  }

  /** They have led to a turn without tool calls and an empty steering poll. */
  ghost predicate Idles(f: Flow, r: Run, parallel: bool, scripts: seq<Script>, used: nat) {
    && 0 < used <= |scripts| && (forall k | 0 < k < used :: GoesOn(f, parallel, scripts, k))
    && !Fails(scripts[used - 1]) && !Hangs(parallel, scripts[used - 1])
    && PlayAll(f, parallel, scripts[..used]).following
    && Shows(PollFollowUps(r), PlayAll(f, parallel, scripts[..used]))
  }

  /** The run stops here in this way. */
  ghost predicate Ends(f: Flow, r: Run, parallel: bool, scripts: seq<Script>, used: nat, ending: Ending) {
    && Halts(f, parallel, scripts, used, ending)
    && Shows(r, Final(f, parallel, scripts, used, ending))
    && (ending.AwaitsModel? ==> Ended(r.trace) == r.newMessages)
    && (ending.AwaitsTools? ==> Ahead(r, ResultsOf(parallel, scripts[used - 1])))
    && (ending.Finished? && Fails(scripts[used - 1]) ==> GivenUpAtEnd(r, scripts[used - 1].stream.result))
  }

  /** The start of a turn: the event, except for the first one, and the pending messages. */
  method BeginTurn(ghost base: seq<Message>, head: Run, firstTurn: bool) returns (r: Run)
    requires AtHead(base, head, firstTurn)
    ensures InTurn(base, r) && r.pending == [] && r.newMessages == head.newMessages + AsMessages(head.pending)
    ensures r.steering == head.steering && r.followUps == head.followUps && r.stale == head.stale
  {
    hide AtHead, InTurn;
    r := head;
    TurnBegins(base, r, firstTurn);
    if !firstTurn {
      r := Emit(r, TurnStart);
    }
    if |r.pending| > 0 {
      InjectKeeps(base, r);
      r := Inject(r);
    }
  }

  /** What follows a turn: the arrivals, with the steering poll between them if the run goes on. */
  method AfterTurn(ghost base: seq<Message>, ghost f: Flow, turned: Run, status: Status, parallel: bool, script: Script)
    returns (r: Run)
    requires turned.newMessages == f.messages + AsMessages(f.next) + Told(parallel, script) && turned.pending == []
    requires turned.steering == f.steering && turned.followUps == f.followUps && turned.stale == f.stale + Excess(script.stream)
    requires if status.Stuck? then Waiting(base, turned) else AtHead(base, turned, false)
    requires status == if Fails(script) then Stopped else if Hangs(parallel, script) then Stuck
                       else Going(script.stream.result.calls != [])
    ensures if status.Stuck? then Waiting(base, r) else AtHead(base, r, false)
    ensures r.trace == turned.trace && r.newMessages == turned.newMessages && r.context == turned.context
    ensures var next := Play(f, parallel, script);
      if status == Going(false) && r.pending == [] then next.following && Shows(PollFollowUps(r), next)
      else !next.following && Shows(r, next)
  {
    hide AtHead, Waiting, Told, Hangs, Excess;
    r := Arrive(turned, script.steers, script.followUps);
    if status.Going? {
      r := PollSteering(r);
    }
    r := Arrive(r, script.lateSteers, script.lateFollowUps);
    SameTranscript(base, turned, r, false);
  }

  /** Where the turn after the first `used` scripts leads. */
  lemma TurnLeads(f: Flow, parallel: bool, scripts: seq<Script>, used: nat, head: Run, r: Run)
    requires used < |scripts| && Reached(f, head, parallel, scripts, used)
    requires Shows(r, Play(PlayAll(f, parallel, scripts[..used]), parallel, scripts[used])) ||
             Shows(PollFollowUps(r), Play(PlayAll(f, parallel, scripts[..used]), parallel, scripts[used]))
    ensures var last := scripts[used];
      var next := Play(PlayAll(f, parallel, scripts[..used]), parallel, last);
      && (Shows(r, next) && Hangs(parallel, last) ==>
            Halts(f, parallel, scripts, used + 1, AwaitsTools) && Shows(r, Final(f, parallel, scripts, used + 1, AwaitsTools)))
      && (Shows(r, next) && Fails(last) ==>
            Halts(f, parallel, scripts, used + 1, Finished) && Shows(r, Final(f, parallel, scripts, used + 1, Finished)))
      && (Shows(r, next) && !next.following && !Fails(last) && !Hangs(parallel, last) ==> Reached(f, r, parallel, scripts, used + 1))
      && (Shows(PollFollowUps(r), next) && next.following && !Fails(last) && !Hangs(parallel, last) ==>
            Idles(f, r, parallel, scripts, used + 1))
  {
    PlayNext(f, parallel, scripts, used);
    hide PlayAll, Play, Hangs, Shows;
  }

  /** After the follow-up poll the run goes on, or is over. */
  lemma FollowUpsPolled(f: Flow, r: Run, parallel: bool, scripts: seq<Script>, used: nat)
    requires Idles(f, r, parallel, scripts, used)
    ensures 0 < used <= |scripts| && !Fails(scripts[used - 1])
    ensures var polled := PollFollowUps(r);
      if polled.pending != [] then Reached(f, polled, parallel, scripts, used)
      else Halts(f, parallel, scripts, used, Finished) && Shows(polled, Final(f, parallel, scripts, used, Finished))
  {
    hide PlayAll, Hangs, Fails;
  }

  lemma ModelAwaited(f: Flow, head: Run, r: Run, parallel: bool, scripts: seq<Script>)
    requires Reached(f, head, parallel, scripts, |scripts|)
    requires r.pending == [] && r.newMessages == head.newMessages + AsMessages(head.pending)
    requires r.steering == head.steering && r.followUps == head.followUps && r.stale == head.stale
    ensures Halts(f, parallel, scripts, |scripts|, AwaitsModel) && Shows(r, Final(f, parallel, scripts, |scripts|, AwaitsModel))
  {
    hide PlayAll, Hangs, Done;
  }

  /** `runLoop`. `scripts` says what happens in each turn, and `used` of them are; when they run out,
      the run is waiting for the model. */
  method RunLoop(ghost base: seq<Message>, ghost f: Flow, r0: Run, parallel: bool, scripts: seq<Script>)
    returns (r: Run, ending: Ending, used: nat)
    requires AtHead(base, r0, true) && Shows(r0, f)
    ensures Ends(f, r, parallel, scripts, used, ending)
    ensures if ending.Finished? then AtEnd(base, r) else Waiting(base, r)
  {
    hide AtHead, InTurn, AtEnd, Waiting, PlayAll, Play, Hangs, Fails, Told, Excess, Halts, Final, Idles, GoesOn, Ended, GivenUpAtEnd;
    r := r0;
    var firstTurn := true;
    used := 0;
    ReachedFirst(f, r0, parallel, scripts);
    while true
      invariant AtHead(base, r, firstTurn) && (firstTurn <==> used == 0)
      invariant Reached(f, r, parallel, scripts, used)
      decreases |scripts| - used
    {
      var hasMoreToolCalls := true;
      ghost var used0 := used;
      while hasMoreToolCalls || |r.pending| > 0
        invariant used0 <= used <= |scripts|
        invariant hasMoreToolCalls || used > used0
        invariant AtHead(base, r, firstTurn) && (firstTurn <==> used == 0)
        invariant if hasMoreToolCalls || r.pending != [] then Reached(f, r, parallel, scripts, used)
          else Idles(f, r, parallel, scripts, used)
        decreases |scripts| - used
      {
        var ready := BeginTurn(base, r, firstTurn);
        firstTurn := false;
        if used == |scripts| {
          WaitsForModel(base, ready);
          ModelAwaited(f, r, ready, parallel, scripts);
          return ready, AwaitsModel, used;
        }
        ghost var before, head := PlayAll(f, parallel, scripts[..used]), r;
        var turned, status := RunTurn(base, ready, parallel, scripts[used]);
        r := AfterTurn(base, before, turned, status, parallel, scripts[used]);
        TurnLeads(f, parallel, scripts, used, head, r);
        used := used + 1;
        if status.Stuck? {
          return r, AwaitsTools, used;
        }
        if status.Stopped? {
          RunEnds(base, r);
          GivesUpAtEnd(r, scripts[used - 1].stream.result);
          r := Emit(r, AgentEnd(r.newMessages, r.context));
          return r, Finished, used;
        }
        hasMoreToolCalls := status.toolCalls;
      }
      FollowUpsPolled(f, r, parallel, scripts, used);
      SameTranscript(base, r, PollFollowUps(r), false);
      r := PollFollowUps(r);
      if |r.pending| == 0 {
        break;
      }
    }
    RunEnds(base, r);
    r := Emit(r, AgentEnd(r.newMessages, r.context));
    ending := Finished;
  }

  lemma ReachedFirst(f: Flow, r: Run, parallel: bool, scripts: seq<Script>)
    requires Shows(r, f)
    ensures Reached(f, r, parallel, scripts, 0)
  {
  }

  // ---- Starting a run ----

  function Starting(g: Given): Run {
    Run([AgentStart, TurnStart] + InjectEvents(g.prompts), g.base + AsMessages(g.prompts), AsMessages(g.prompts), [],
        g.steering, g.followUps, 0)
  }

  lemma StartsAtHead(g: Given)
    ensures AtHead(g.base, Starting(g), true)
  {
    hide Follow, Ended, AgreesAt;
    var head := [AgentStart, TurnStart];
    var p := Turn(Nothing, false, multiset{});
    FollowSnoc(Idle, [], AgentStart);
    FollowSnoc(Idle, [AgentStart], TurnStart);
    assert [] + [AgentStart] == [AgentStart] && [AgentStart] + [TurnStart] == head;
    FollowNone(Idle);
    FollowConcat(Idle, head, InjectEvents(g.prompts));
    FollowInjected(g.prompts, p);
    EndedConcat(head, InjectEvents(g.prompts));
    EndedSnoc([], AgentStart);
    EndedSnoc([AgentStart], TurnStart);
    EndedNone();
    assert [] + AsMessages(g.prompts) == AsMessages(g.prompts);
    InjectEventsInside(g.prompts);
    AgreesConcat(g.base, head, InjectEvents(g.prompts));
    assert Agrees(g.base, head) by {
      assert AgreesAt(g.base, Ended(head[..0]), head[0]) && AgreesAt(g.base, Ended(head[..1]), head[1]) by { NothingToAgree(g.base); }
    }
  }

  lemma NothingToAgree(base: seq<Message>)
    ensures forall told :: AgreesAt(base, told, AgentStart) && AgreesAt(base, told, TurnStart)
  {
  }

  /** What becomes of an attempt to run the loop. */
  datatype Attempt = Ran(run: Run, ending: Ending, used: nat) | NoMessages | CannotContinue

  /** A run that comes to what `AgentFlows` says, and keeps the invariants. */
  ghost predicate Accounts(g: Given, outcome: Attempt, parallel: bool, scripts: seq<Script>) {
    && outcome.Ran? && outcome.used <= |scripts|
    && Ends(Begin(g), outcome.run, parallel, scripts, outcome.used, outcome.ending)
    && if outcome.ending.Finished? then AtEnd(g.base, outcome.run) else Waiting(g.base, outcome.run)
  }

  /** `runAgentLoop`, with the poll for steering messages at the start of `runLoop`, which
      `Agent.continue` may ask to skip. */
  method RunAgentLoop(g: Given, parallel: bool, scripts: seq<Script>) returns (outcome: Attempt)
    ensures Accounts(g, outcome, parallel, scripts)
  {
    hide AtHead, AtEnd, Waiting, Final, InjectEvents;
    var r := Starting(g);
    StartsAtHead(g);
    r := Arrive(r, g.steers, g.newFollowUps);
    if !g.skipInitialPoll {
      r := PollSteering(r);
    }
    SameTranscript(g.base, Starting(g), r, true);
    var ending, used;
    r, ending, used := RunLoop(g.base, Begin(g), r, parallel, scripts);
    outcome := Ran(r, ending, used);
  }

  predicate EndsInAnswer(messages: seq<Message>) { messages != [] && messages[|messages| - 1].Assistant? }

  /** `runAgentLoopContinue` refuses an empty context and one that ends in an assistant message. */
  method RunAgentLoopContinue(base: seq<Message>, steering: Queue, followUps: Queue,
                              steers: seq<Input>, newFollowUps: seq<Input>, parallel: bool, scripts: seq<Script>)
    returns (outcome: Attempt)
    ensures outcome.NoMessages? <==> base == []
    ensures outcome.CannotContinue? <==> EndsInAnswer(base)
    ensures outcome.Ran? ==> Accounts(Given(base, [], steering, followUps, false, steers, newFollowUps), outcome, parallel, scripts)
  {
    hide Accounts;
    if |base| == 0 {
      return NoMessages;
    }
    if base[|base| - 1].Assistant? {
      return CannotContinue;
    }
    outcome := RunAgentLoop(Given(base, [], steering, followUps, false, steers, newFollowUps), parallel, scripts);
    RanIfAccounts(Given(base, [], steering, followUps, false, steers, newFollowUps), outcome, parallel, scripts);
  }

  lemma RanIfAccounts(g: Given, outcome: Attempt, parallel: bool, scripts: seq<Script>)
    requires Accounts(g, outcome, parallel, scripts)
    ensures outcome.Ran? && outcome.used <= |scripts|
  {
  }

  // ---- What runs come to ----

  /** What a run is given decides its messages, what is left in the queues, and how it stops. */
  lemma RunsAgree(g: Given, a: Attempt, b: Attempt, parallel: bool, scripts: seq<Script>)
    requires Accounts(g, a, parallel, scripts) && Accounts(g, b, parallel, scripts)
    ensures a.used == b.used && a.ending == b.ending && a.run.newMessages == b.run.newMessages
    ensures a.run.steering == b.run.steering && a.run.followUps == b.run.followUps
  {
    hide PlayAll, Halts, AtEnd, Waiting, Ahead, Begin;
    OneEnding(Begin(g), parallel, scripts, a.used, a.ending, b.used, b.ending);
  }

  /** The transcript read off the events agrees with the loop's context, at every turn end and at the
      end, if and only if no stream that was used had more than one start; and only then the events
      keep to the grammar. */
  lemma TranscriptAgreesIff(g: Given, outcome: Attempt, parallel: bool, scripts: seq<Script>)
    requires Accounts(g, outcome, parallel, scripts) && outcome.ending.Finished?
    ensures var Ran(r, _, used) := outcome;
      && (Agrees(g.base, r.trace) <==> StartOnce(scripts[..used]))
      && (Follow(Idle, r.trace) == Over <==> StartOnce(scripts[..used]))
      && (StartOnce(scripts[..used]) ==> r.context == g.base + Ended(r.trace))
      && r.trace != [] && r.trace[|r.trace| - 1] == AgentEnd(Ended(r.trace), r.context)
  {
    hide StartOnce, PlayAll, Agrees, Follow, Ended, Halts;
    StaleIff(Begin(g), parallel, scripts[..outcome.used]);
  }

  /** A run that waits keeps to the grammar and agrees as well, if no stream had more than one start. */
  lemma WaitingAgrees(g: Given, outcome: Attempt, parallel: bool, scripts: seq<Script>)
    requires Accounts(g, outcome, parallel, scripts) && !outcome.ending.Finished?
    requires StartOnce(scripts[..outcome.used])
    ensures !Follow(Idle, outcome.run.trace).Wrong? && Agrees(g.base, outcome.run.trace)
  {
    hide StartOnce, PlayAll, Agrees, Follow, Ended, Halts;
    StaleIff(Begin(g), parallel, scripts[..outcome.used]);
  }

  /** Nothing that was given is lost, repeated or reordered, whether the run is over or waits. The
      messages tell the prompts and, turn by turn, what was lawfully taken from the queues, the response
      and its results. They are what the events tell, but for results of tools that are awaited. */
  lemma QueuesConserved(g: Given, outcome: Attempt, parallel: bool, scripts: seq<Script>)
    requires Accounts(g, outcome, parallel, scripts)
    ensures var Ran(r, ending, used) := outcome;
      && (exists rounds :: Tells(g, parallel, scripts[..used], rounds, ending.AwaitsModel?,
                                 r.newMessages, r.steering.items, r.followUps.items))
      && (if ending.AwaitsTools? then used > 0 && Ahead(r, ResultsOf(parallel, scripts[used - 1]))
          else r.newMessages == Ended(r.trace))
  {
    hide PlayAll, Ended, Agrees, Follow, AllRounds, Tells, Ahead, Begin, Final;
    var Ran(r, ending, used) := outcome;
    FinalTells(g, parallel, scripts, used, ending);
  }

  /** Every response is followed by its results, but for the last one of a run that waits for its tools. */
  lemma ResponsesAnswered(g: Given, outcome: Attempt, parallel: bool, scripts: seq<Script>)
    requires Accounts(g, outcome, parallel, scripts)
    ensures var msgs := outcome.run.newMessages;
      if outcome.ending.AwaitsTools? then msgs != [] && Paired(msgs[..|msgs| - 1]) else Paired(msgs)
  {
    hide Paired, Final, Halts, Begin;
    FinalPaired(g, parallel, scripts, outcome.used, outcome.ending);
  }

  /** A run is finished because a response failed, or because the last one had no calls and the queues
      gave nothing any more; steering that came after the last poll may be left. */
  lemma FinishedRun(g: Given, outcome: Attempt, parallel: bool, scripts: seq<Script>)
    requires Accounts(g, outcome, parallel, scripts) && outcome.ending.Finished?
    ensures outcome.used > 0
    ensures var Ran(r, _, used) := outcome;
      var stop := scripts[used - 1].stream.result.stop;
      stop == Error || stop == Aborted ||
      (scripts[used - 1].stream.result.calls == [] && r.followUps.items == [] && r.steering.items == scripts[used - 1].lateSteers)
  {
    hide PlayAll, Hangs, Begin, AtEnd, Final;
    StopsEmpty(Begin(g), parallel, scripts, outcome.used, Finished);
  }

  /** A response that ended in an error or was aborted is the last one of its run. None of its calls
      is started: the run ends with the response, its turn without results, and nothing else. */
  lemma FailureEndsRun(g: Given, outcome: Attempt, parallel: bool, scripts: seq<Script>, k: nat)
    requires Accounts(g, outcome, parallel, scripts) && k < outcome.used
    requires var stop := scripts[k].stream.result.stop; stop == Error || stop == Aborted
    ensures var Ran(r, ending, used) := outcome;
      var response := scripts[k].stream.result;
      && k == used - 1 && ending.Finished?
      && EndsIn(r.newMessages, [Assistant(response)])
      && EndsIn(r.trace, [MessageEnd(Assistant(response)), TurnEnd(response, [], r.context), AgentEnd(r.newMessages, r.context)])
  {
    hide PlayAll, Halts, Begin, AtEnd, Final;
    FailedIsLast(Begin(g), parallel, scripts, outcome.used, outcome.ending, k);
    assert Fails(scripts[k]);
  }

  /** Every other response stands in the messages with the results of all its calls behind it, in the order
      of the calls or, in parallel mode, those settled before running first; but for
      the last one of a run that waits for its tools; in the order of the turns, at these `places`. */
  lemma OthersAnswered(g: Given, outcome: Attempt, parallel: bool, scripts: seq<Script>) returns (places: seq<nat>)
    requires Accounts(g, outcome, parallel, scripts)
    ensures |places| == outcome.used && forall k | 0 < k < outcome.used :: places[k - 1] < places[k]
    ensures forall k | 0 <= k < outcome.used ::
      var Response(_, calls, stop) := scripts[k].stream.result;
      TurnAt(outcome.run.newMessages, places[k], scripts[k].stream.result,
        if parallel then InParallelOrder(calls, scripts[k].outcome) else InSourceOrder(calls, scripts[k].outcome, |calls|),
        stop != Error && stop != Aborted && !(k == outcome.used - 1 && outcome.ending.AwaitsTools?))
  {
    hide PlayAll, Halts, Begin, AtEnd, Final, Waiting, Place, TurnAt;
    var f := Begin(g);
    places := seq(outcome.used, k requires 0 <= k < outcome.used => Place(f, parallel, scripts, k));
    forall k | 0 <= k < outcome.used
      ensures k > 0 ==> places[k - 1] < places[k]
      ensures var Response(_, calls, stop) := scripts[k].stream.result;
        TurnAt(outcome.run.newMessages, places[k], scripts[k].stream.result,
          if parallel then InParallelOrder(calls, scripts[k].outcome) else InSourceOrder(calls, scripts[k].outcome, |calls|),
          stop != Error && stop != Aborted && !(k == outcome.used - 1 && outcome.ending.AwaitsTools?))
    {
      TurnsInPlace(f, parallel, scripts, outcome.used, outcome.ending, k);
    }
  }

  /** A run waits for tools only if they run in parallel and their schedule ends too early. */
  lemma ToolsAwaited(g: Given, outcome: Attempt, parallel: bool, scripts: seq<Script>)
    requires Accounts(g, outcome, parallel, scripts) && outcome.ending.AwaitsTools?
    ensures outcome.used > 0 && parallel
    ensures var Script(stream, outcomes, schedule, _, _, _, _) := scripts[outcome.used - 1];
      !Completes(stream.result.calls, outcomes, schedule)
  {
    hide PlayAll, GoesOn, Completes, Begin, Final;
  }

  /** Two starts in one stream do spoil a run. */
  lemma TwoStartsDisagree(g: Given, outcome: Attempt, parallel: bool, scripts: seq<Script>, partial: Response)
    requires Accounts(g, outcome, parallel, scripts) && outcome.ending.Finished?
    requires scripts != [] && scripts[0].stream.events == [Start(partial), Start(partial), StreamEvent.Finish]
    ensures !Agrees(g.base, outcome.run.trace) && Follow(Idle, outcome.run.trace) != Over
  {
    TranscriptAgreesIff(g, outcome, parallel, scripts);
    FinishedRun(g, outcome, parallel, scripts);
    var es := scripts[0].stream.events;
    assert es[1..] == [Start(partial), StreamEvent.Finish] && es[1..][1..] == [StreamEvent.Finish];
    assert Starts(es[1..][1..]) == 0 && Starts(es[1..]) == 1 && Starts(es) == 2;
    hide Accounts, Starts, Agrees, Follow, Paired;
    assert scripts[..outcome.used][0] == scripts[0];
  }
}
