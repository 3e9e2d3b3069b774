/**
 The `Agent`: it owns the transcript and the message queues, runs the loop, and reduces the
 loop's events into its state.
 */
module Agents {
  import opened AgentLoops
  import opened AgentFlows
  import opened AgentRuns

  /** The state that events are reduced into; `streaming` is the message in progress, if any. */
  datatype Reduced = Reduced(messages: seq<Message>, streaming: seq<Message>, pendingToolCalls: set<string>)

  function Reduce(s: Reduced, e: Event): Reduced {
    match e
    case MessageStart(m) => s.(streaming := [m])
    case MessageUpdate(partial) => s.(streaming := [Assistant(partial)])
    case MessageEnd(m) => s.(streaming := [], messages := s.messages + [m])
    case ToolStart(id) => s.(pendingToolCalls := s.pendingToolCalls + {id})
    case ToolEnd(id, _) => s.(pendingToolCalls := s.pendingToolCalls - {id})
    case AgentEnd(_, _) => s.(streaming := [])
    case _ => s
  }

  function ReduceAll(s: Reduced, es: seq<Event>): Reduced {
    if es == [] then s else Reduce(ReduceAll(s, es[..|es| - 1]), es[|es| - 1])
  }

  /** The transcript is what it was, followed by the messages ended. */
  lemma {:induction false} ReducedMessages(s: Reduced, es: seq<Event>)
    ensures ReduceAll(s, es).messages == s.messages + Ended(es)
  {
    if es != [] { ReducedMessages(s, es[..|es| - 1]); }
  }

  /** A call that started and has not ended since. */
  ghost predicate StartedAt(es: seq<Event>, i: nat, id: string) {
    i < |es| && es[i] == ToolStart(id) && NotEnded(es, i + 1, id)
  }

  ghost predicate NotEnded(es: seq<Event>, from: nat, id: string) {
    forall j | from <= j < |es| && es[j].ToolEnd? :: es[j].id != id
  }

  /** A call is pending exactly when it started, or was pending before, and has not ended since. */
  lemma {:induction false} PendingIff(s: Reduced, es: seq<Event>, id: string)
    ensures id in ReduceAll(s, es).pendingToolCalls <==>
      (id in s.pendingToolCalls && NotEnded(es, 0, id)) || exists i: nat :: StartedAt(es, i, id)
  {
    if es != [] {
      var init, last := es[..|es| - 1], es[|es| - 1];
      PendingIff(s, init, id);
      assert NotEnded(es, 0, id) <==> NotEnded(init, 0, id) && !(last.ToolEnd? && last.id == id);
      forall i: nat ensures StartedAt(es, i, id) <==>
        if i < |init| then StartedAt(init, i, id) && !(last.ToolEnd? && last.id == id)
        else i == |init| && last == ToolStart(id)
      {
        assert i < |init| ==> es[i] == init[i];
        assert NotEnded(es, i + 1, id) <==> NotEnded(init, i + 1, id) && (i + 1 < |es| ==> !(last.ToolEnd? && last.id == id));
      }
      assert last == ToolStart(id) ==> StartedAt(es, |init|, id);
    }
  }

  /** Events that say what is streaming now. */
  predicate SaysStreaming(e: Event) { e.MessageStart? || e.MessageUpdate? || e.MessageEnd? || e.AgentEnd? }

  /** The last one of them decides: a message that has started, the last partial, or nothing. */
  lemma {:induction false} StreamingIs(s: Reduced, es: seq<Event>, i: nat)
    requires i < |es| && SaysStreaming(es[i]) && forall j | i < j < |es| :: !SaysStreaming(es[j])
    ensures ReduceAll(s, es).streaming ==
      match es[i]
      case MessageStart(m) => [m]
      case MessageUpdate(partial) => [Assistant(partial)]
      case _ => []
    decreases |es|
  {
    if i < |es| - 1 {
      var init := es[..|es| - 1];
      assert forall j | 0 <= j < |init| :: init[j] == es[j];
      StreamingIs(s, init, i);
    }
  }

  /** Between turns nothing is streaming and no tool call is pending; within one, a message is
      streaming exactly while one is open, and only running calls are pending. */
  predicate Tracks(s: Reduced, p: Phase) {
    if p.Turn? then
      && (s.streaming == [] <==> p.open.Nothing?)
      && (forall id | id in s.pendingToolCalls :: id in p.running)
    else s.streaming == [] && s.pendingToolCalls == {}
  }

  lemma {:induction false} ReducedTracks(s: Reduced, es: seq<Event>)
    requires s.streaming == [] && s.pendingToolCalls == {}
    requires !Follow(Idle, es).Wrong?
    ensures Tracks(ReduceAll(s, es), Follow(Idle, es))
  {
    if es != [] {
      var init, e := es[..|es| - 1], es[|es| - 1];
      assert es == init + [e];
      FollowSnoc(Idle, init, e);
      hide Follow;
      ReducedTracks(s, init);
      TracksNext(ReduceAll(s, init), Follow(Idle, init), e);
      hide Tracks, Next, Reduce;
    }
  }

  lemma TracksNext(s: Reduced, p: Phase, e: Event)
    requires Tracks(s, p) && !Next(p, e).Wrong?
    ensures Tracks(Reduce(s, e), Next(p, e))
  {
  }

  /** So at every `turn_end` of a grammatical trace no tool call is pending. */
  lemma NothingPendingAtTurnEnd(s: Reduced, trace: seq<Event>, i: nat)
    requires s.streaming == [] && s.pendingToolCalls == {}
    requires !Follow(Idle, trace).Wrong? && i < |trace| && trace[i].TurnEnd?
    ensures ReduceAll(s, trace[..i]).pendingToolCalls == {} && ReduceAll(s, trace[..i]).streaming == []
  {
    var upTo := trace[..i + 1];
    assert trace == upTo + trace[i + 1..] && upTo == trace[..i] + [trace[i]];
    FollowConcat(Idle, upTo, trace[i + 1..]);
    FollowSnoc(Idle, trace[..i], trace[i]);
    WrongStays(trace[i + 1..]);
    ReducedTracks(s, trace[..i]);
  }

  /** And at every `turn_end` the agent's transcript is the loop's own context. */
  lemma TranscriptAtTurnEnd(s: Reduced, trace: seq<Event>, i: nat)
    requires Agrees(s.messages, trace) && i < |trace| && (trace[i].TurnEnd? || trace[i].AgentEnd?)
    ensures ReduceAll(s, trace[..i]).messages == trace[i].context
  {
    ReducedMessages(s, trace[..i]);
    assert AgreesAt(s.messages, Ended(trace[..i]), trace[i]);
  }

  class PendingMessageQueue {
    var mode: Mode
    var messages: seq<Input>

    constructor (mode: Mode)
      ensures this.mode == mode && messages == []
    {
      this.mode := mode;
      messages := [];
    }

    function Value(): Queue
      reads this
    {
      Queue(mode, messages)
    }

    method Enqueue(message: Input)
      modifies this
      ensures mode == old(mode) && messages == old(messages) + [message]
    {
      messages := messages + [message];
    }

    /** Either everything, or at most the oldest message. */
    method Drain() returns (drained: seq<Input>)
      modifies this
      ensures drained + messages == old(messages) && mode == old(mode)
      ensures mode.All? ==> messages == []
      ensures mode.OneAtATime? ==> |drained| <= 1
      ensures drained == [] ==> old(messages) == []
      ensures drained == Drained(old(Value())) && Value() == Undrained(old(Value()))
    {
      if mode.All? {
        drained := messages;
        messages := [];
        return;
      }
      if |messages| == 0 {
        return [];
      }
      drained := [messages[0]];
      messages := messages[1..];
    }
  }

  /** What a run meets: arrivals before the first poll, and the turns. */
  datatype Surroundings = Surroundings(steers: seq<Input>, followUps: seq<Input>, parallel: bool, scripts: seq<Script>)

  /** What `continue` starts from: after an assistant message what is drained from the queue of
      steering messages, or else from that of follow-ups, become the prompts. */
  function Continuation(messages: seq<Message>, steering: Queue, followUps: Queue, around: Surroundings): Given {
    if !EndsInAnswer(messages) then
      Given(messages, [], steering, followUps, false, around.steers, around.followUps)
    else if Drained(steering) != [] then
      Given(messages, Drained(steering), Undrained(steering), followUps, true, around.steers, around.followUps)
    else
      Given(messages, Drained(followUps), Undrained(steering), Undrained(followUps), false, around.steers, around.followUps)
  }

  class Agent {
    var messages: seq<Message>
    var streamingMessage: seq<Message>
    var pendingToolCalls: set<string>
    const steeringQueue: PendingMessageQueue
    const followUpQueue: PendingMessageQueue

    function State(): Reduced
      reads this
    {
      Reduced(messages, streamingMessage, pendingToolCalls)
    }

    predicate Idle()
      reads this
    {
      streamingMessage == [] && pendingToolCalls == {} && steeringQueue != followUpQueue
    }

    constructor (messages: seq<Message>, steeringMode: Mode, followUpMode: Mode)
      ensures Idle() && this.messages == messages && fresh(steeringQueue) && fresh(followUpQueue)
      ensures steeringQueue.Value() == Queue(steeringMode, []) && followUpQueue.Value() == Queue(followUpMode, [])
    {
      this.messages, streamingMessage, pendingToolCalls := messages, [], {};
      steeringQueue := new PendingMessageQueue(steeringMode);
      followUpQueue := new PendingMessageQueue(followUpMode);
    }

    /** The reducing part of `processEvents`. */
    method ProcessEvent(event: Event)
      modifies this
      ensures State() == Reduce(old(State()), event)
    {
      match event {
        case MessageStart(m) => streamingMessage := [m];
        case MessageUpdate(partial) => streamingMessage := [Assistant(partial)];
        case MessageEnd(m) =>
          streamingMessage := [];
          messages := messages + [m];
        case ToolStart(id) => pendingToolCalls := pendingToolCalls + {id};
        case ToolEnd(id, _) => pendingToolCalls := pendingToolCalls - {id};
        case AgentEnd(_, _) => streamingMessage := [];
        case _ =>
      }
    }

    method ProcessEvents(events: seq<Event>)
      modifies this
      ensures State() == ReduceAll(old(State()), events)
    {
      var i := 0;
      while i < |events|
        invariant 0 <= i <= |events|
        invariant State() == ReduceAll(old(State()), events[..i])
      {
        assert events[..i + 1][..i] == events[..i];
        ProcessEvent(events[i]);
        i := i + 1;
      }
      assert events[..i] == events;
    }

    /** `runPromptMessages`: the loop runs on a snapshot of the transcript, its events are
        reduced, and the run is over or still waiting. */
    method RunPromptMessages(prompts: seq<Input>, skipInitialPoll: bool, around: Surroundings) returns (outcome: Attempt)
      requires Idle()
      modifies this, steeringQueue, followUpQueue
      ensures Accounts(Given(old(messages), prompts, old(steeringQueue.Value()), old(followUpQueue.Value()), skipInitialPoll,
                             around.steers, around.followUps), outcome, around.parallel, around.scripts)
      ensures outcome.Ran? && State() == ReduceAll(old(State()), outcome.run.trace)
      ensures messages == old(messages) + Ended(outcome.run.trace)
      ensures steeringQueue.Value() == outcome.run.steering && followUpQueue.Value() == outcome.run.followUps
      ensures outcome.used <= |around.scripts|
      ensures outcome.ending.Finished? && StartOnce(around.scripts[..outcome.used]) ==> Idle() && messages == outcome.run.context
    {
      hide Accounts, ReduceAll, Ended, StartOnce;
      var g := Given(messages, prompts, steeringQueue.Value(), followUpQueue.Value(), skipInitialPoll, around.steers, around.followUps);
      outcome := RunAgentLoop(g, around.parallel, around.scripts);
      RanIfAccounts(g, outcome, around.parallel, around.scripts);
      ModesKept(g, outcome, around.parallel, around.scripts);
      ReducedMessages(State(), outcome.run.trace);
      if outcome.ending.Finished? {
        EndedIdle(g, outcome, State(), around);
      }
      ProcessEvents(outcome.run.trace);
      steeringQueue.messages := outcome.run.steering.items;
      followUpQueue.messages := outcome.run.followUps.items;
    }

    /** `continue`: after an assistant message, queued messages become the prompts. */
    method Continue(around: Surroundings) returns (outcome: Attempt)
      requires Idle()
      modifies this, steeringQueue, followUpQueue
      ensures outcome.NoMessages? <==> old(messages) == []
      ensures outcome.CannotContinue? <==>
        EndsInAnswer(old(messages)) && old(steeringQueue.messages) == [] && old(followUpQueue.messages) == []
      ensures !outcome.Ran? ==>
        && State() == old(State())
        && steeringQueue.Value() == old(steeringQueue.Value()) && followUpQueue.Value() == old(followUpQueue.Value())
      ensures outcome.Ran? ==>
        && Accounts(Continuation(old(messages), old(steeringQueue.Value()), old(followUpQueue.Value()), around),
                    outcome, around.parallel, around.scripts)
        && State() == ReduceAll(old(State()), outcome.run.trace) && messages == old(messages) + Ended(outcome.run.trace)
        && steeringQueue.Value() == outcome.run.steering && followUpQueue.Value() == outcome.run.followUps
        && outcome.used <= |around.scripts|
        && (outcome.ending.Finished? && StartOnce(around.scripts[..outcome.used]) ==> Idle() && messages == outcome.run.context)
    {
      hide Accounts, ReduceAll, Ended, StartOnce;
      if |messages| == 0 {
        return NoMessages;
      }
      if messages[|messages| - 1].Assistant? {
        var queuedSteering := steeringQueue.Drain();
        if |queuedSteering| > 0 {
          outcome := RunPromptMessages(queuedSteering, true, around);
          return;
        }
        var queuedFollowUps := followUpQueue.Drain();
        if |queuedFollowUps| > 0 {
          outcome := RunPromptMessages(queuedFollowUps, false, around);
          return;
        }
        return CannotContinue;
      }
      outcome := RunPromptMessages([], false, around);
    }
  }

  lemma ModesKept(g: Given, outcome: Attempt, parallel: bool, scripts: seq<Script>)
    requires Accounts(g, outcome, parallel, scripts)
    ensures outcome.run.steering.mode == g.steering.mode && outcome.run.followUps.mode == g.followUps.mode
  {
    hide PlayAll, Begin, Halts, AtEnd, Waiting;
    ModesStay(g, parallel, scripts[..outcome.used]);
  }

  lemma EndedIdle(g: Given, outcome: Attempt, s: Reduced, around: Surroundings)
    requires Accounts(g, outcome, around.parallel, around.scripts) && outcome.ending.Finished?
    requires s.streaming == [] && s.pendingToolCalls == {} && s.messages == g.base
    ensures outcome.used <= |around.scripts|
    ensures StartOnce(around.scripts[..outcome.used]) ==>
      var t := ReduceAll(s, outcome.run.trace);
      t.streaming == [] && t.pendingToolCalls == {} && s.messages + Ended(outcome.run.trace) == outcome.run.context
  {
    TranscriptAgreesIff(g, outcome, around.parallel, around.scripts);
    hide Accounts, StartOnce;
    if StartOnce(around.scripts[..outcome.used]) { ReducedTracks(s, outcome.run.trace); }
  }
}
