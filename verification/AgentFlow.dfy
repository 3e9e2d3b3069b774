/**
 What a run of the agent loop comes to, as a function of what it is given: which queued messages go
 in before each response, when the run stops, and what is left in the queues. The lemmas say what
 that means: nothing is lost, repeated or reordered, steering goes in at the next turn, and
 follow-ups wait until there is nothing else to do.
 */
module AgentFlows {
  import opened Basics
  import opened AgentLoops

  // ---- Queues ----

  datatype Mode = All | OneAtATime

  datatype Queue = Queue(mode: Mode, items: seq<Input>)

  function Drained(q: Queue): seq<Input> {
    if q.mode.All? || q.items == [] then q.items else q.items[..1]
  }

  function Undrained(q: Queue): Queue {
    q.(items := if q.mode.All? || q.items == [] then [] else q.items[1..])
  }

  function Enqueued(q: Queue, inputs: seq<Input>): Queue { q.(items := q.items + inputs) }

  lemma DrainSplits(q: Queue)
    ensures Drained(q) + Undrained(q).items == q.items
    ensures Drained(q) == [] <==> q.items == []
  {
  }

  function AsMessages(inputs: seq<Input>): (r: seq<Message>)
    ensures |r| == |inputs|
  {
    seq(|inputs|, i requires 0 <= i < |inputs| => Injected(inputs[i]))
  }

  // ---- One turn ----

  /** What one turn meets: the response, the outcomes of its calls and their interleaving, the
      messages that arrive before the steering poll at its end, and those that arrive after it. */
  datatype Script = Script(
    stream: Stream, outcome: Outcomes, schedule: seq<Step>,
    steers: seq<Input>, followUps: seq<Input>, lateSteers: seq<Input>, lateFollowUps: seq<Input>)

  /** The results of a script's calls, in the order of the mode. */
  function ResultsOf(parallel: bool, script: Script): seq<Message> {
    var calls := script.stream.result.calls;
    if parallel then InParallelOrder(calls, script.outcome) else InSourceOrder(calls, script.outcome, |calls|)
  }

  predicate Fails(script: Script) { script.stream.result.Failed() }

  /** The run has to wait for the tools of this script. */
  predicate Hangs(parallel: bool, script: Script) {
    && parallel && !Fails(script)
    && !Completes(script.stream.result.calls, script.outcome, script.schedule)
  }

  /** The messages of a turn behind the injected ones. A failed response has no results. */
  function Told(parallel: bool, script: Script): seq<Message> {
    [Assistant(script.stream.result)] + if Fails(script) || Hangs(parallel, script) then [] else ResultsOf(parallel, script)
  }

  /** The partial messages that a stream leaves behind. */
  function Excess(stream: Stream): nat {
    if Starts(stream.events) > 1 then Starts(stream.events) - 1 else 0
  }

  /** A run before a turn: the new messages so far, what goes in next and whether that is from the
      queue of follow-ups, the queues, and the partial messages left behind. */
  datatype Flow = Flow(
    messages: seq<Message>, next: seq<Input>, following: bool, steering: Queue, followUps: Queue, stale: nat)

  function Play(f: Flow, parallel: bool, script: Script): Flow {
    var messages := f.messages + AsMessages(f.next) + Told(parallel, script);
    var stale := f.stale + Excess(script.stream);
    var steering := Enqueued(f.steering, script.steers);
    var followUps := Enqueued(Enqueued(f.followUps, script.followUps), script.lateFollowUps);
    if Fails(script) || Hangs(parallel, script) then
      Flow(messages, [], false, Enqueued(steering, script.lateSteers), followUps, stale)
    else if script.stream.result.calls != [] || Drained(steering) != [] then
      Flow(messages, Drained(steering), false, Enqueued(Undrained(steering), script.lateSteers), followUps, stale)
    else
      Flow(messages, Drained(followUps), true, Enqueued(Undrained(steering), script.lateSteers), Undrained(followUps), stale)
  }

  function PlayAll(f: Flow, parallel: bool, scripts: seq<Script>): Flow {
    if scripts == [] then f else Play(PlayAll(f, parallel, scripts[..|scripts| - 1]), parallel, scripts[|scripts| - 1])
  }

  /** What a run starts from: the context, the prompts, the queues, and what arrives before the first
      steering poll, which may be skipped. */
  datatype Given = Given(
    base: seq<Message>, prompts: seq<Input>, steering: Queue, followUps: Queue,
    skipInitialPoll: bool, steers: seq<Input>, newFollowUps: seq<Input>)

  function Begin(g: Given): Flow {
    var steering, followUps := Enqueued(g.steering, g.steers), Enqueued(g.followUps, g.newFollowUps);
    if g.skipInitialPoll then Flow(AsMessages(g.prompts), [], false, steering, followUps, 0)
    else Flow(AsMessages(g.prompts), Drained(steering), false, Undrained(steering), followUps, 0)
  }

  lemma PlayNext(f: Flow, parallel: bool, scripts: seq<Script>, k: nat)
    requires k < |scripts|
    ensures PlayAll(f, parallel, scripts[..k + 1]) == Play(PlayAll(f, parallel, scripts[..k]), parallel, scripts[k])
  {
    assert scripts[..k + 1][..k] == scripts[..k];
  }

  // ---- When a run stops ----

  /** A run is over, or it waits for a response or for tools. */
  datatype Ending = Finished | AwaitsModel | AwaitsTools

  /** After this script, which has led to `f`, nothing is left to do. */
  predicate Done(f: Flow, script: Script) { Fails(script) || (f.following && f.next == []) }

  /** Another turn follows the first `k` scripts. */
  predicate GoesOn(f: Flow, parallel: bool, scripts: seq<Script>, k: nat)
    requires 0 < k <= |scripts|
  {
    !Hangs(parallel, scripts[k - 1]) && !Done(PlayAll(f, parallel, scripts[..k]), scripts[k - 1])
  }

  /** The run stops in this way after the first `used` scripts. */
  predicate Halts(f: Flow, parallel: bool, scripts: seq<Script>, used: nat, ending: Ending) {
    && used <= |scripts|
    && (forall k | 0 < k < used :: GoesOn(f, parallel, scripts, k))
    && match ending
       case Finished => used > 0 && !Hangs(parallel, scripts[used - 1]) && Done(PlayAll(f, parallel, scripts[..used]), scripts[used - 1])
       case AwaitsTools => used > 0 && Hangs(parallel, scripts[used - 1])
       case AwaitsModel => used == |scripts| && (used > 0 ==> GoesOn(f, parallel, scripts, used))
  }

  lemma StopsHere(f: Flow, parallel: bool, scripts: seq<Script>, used: nat, ending: Ending)
    requires Halts(f, parallel, scripts, used, ending) && used < |scripts|
    ensures used > 0 && !GoesOn(f, parallel, scripts, used)
  {
  }

  /** What a run is given decides when it stops, and how. */
  lemma OneEnding(f: Flow, parallel: bool, scripts: seq<Script>, used: nat, ending: Ending, used': nat, ending': Ending)
    requires Halts(f, parallel, scripts, used, ending) && Halts(f, parallel, scripts, used', ending')
    ensures used == used' && ending == ending'
  {
    hide PlayAll, Done, Hangs;
    if used < |scripts| { StopsHere(f, parallel, scripts, used, ending); }
    if used' < |scripts| { StopsHere(f, parallel, scripts, used', ending'); }
  }

  /** Where the run stands then; what was pending has gone in before the response awaited. */
  function Final(f: Flow, parallel: bool, scripts: seq<Script>, used: nat, ending: Ending): Flow
    requires used <= |scripts|
  {
    var last := PlayAll(f, parallel, scripts[..used]);
    if ending.AwaitsModel? then last.(messages := last.messages + AsMessages(last.next), next := []) else last
  }

  // ---- What goes in before each response ----

  /** What goes in before a response, and from which queue. */
  datatype Round = Round(inputs: seq<Input>, following: bool)

  function Rounds(f: Flow, parallel: bool, scripts: seq<Script>): seq<Round> {
    if scripts == [] then []
    else
      var before := PlayAll(f, parallel, scripts[..|scripts| - 1]);
      Rounds(f, parallel, scripts[..|scripts| - 1]) + [Round(before.next, before.following)]
  }

  /** The messages of these turns. */
  function Tale(parallel: bool, rounds: seq<Round>, scripts: seq<Script>): seq<Message>
    requires |rounds| == |scripts|
  {
    if scripts == [] then []
    else
      Tale(parallel, rounds[..|rounds| - 1], scripts[..|scripts| - 1]) +
      (AsMessages(rounds[|rounds| - 1].inputs) + Told(parallel, scripts[|scripts| - 1]))
  }

  /** What was taken from one of the queues. */
  function Taken(rounds: seq<Round>, following: bool): seq<Input> {
    if rounds == [] then []
    else
      var last := rounds[|rounds| - 1];
      Taken(rounds[..|rounds| - 1], following) + if last.following == following then last.inputs else []
  }

  function Steers(scripts: seq<Script>): seq<Input> {
    if scripts == [] then []
    else Steers(scripts[..|scripts| - 1]) + (scripts[|scripts| - 1].steers + scripts[|scripts| - 1].lateSteers)
  }

  function FollowUps(scripts: seq<Script>): seq<Input> {
    if scripts == [] then []
    else FollowUps(scripts[..|scripts| - 1]) + (scripts[|scripts| - 1].followUps + scripts[|scripts| - 1].lateFollowUps)
  }

  /** The steering messages that have come by the poll before the response of turn `k`. */
  function SteersBy(g: Given, scripts: seq<Script>, k: nat): seq<Input>
    requires k <= |scripts|
  {
    g.steering.items + g.steers + if k == 0 then [] else Steers(scripts[..k - 1]) + scripts[k - 1].steers
  }

  /** The follow-ups that have come by the time they may be polled for. */
  function FollowUpsBy(g: Given, scripts: seq<Script>, k: nat): seq<Input>
    requires k <= |scripts|
  {
    g.followUps.items + g.newFollowUps + FollowUps(scripts[..k])
  }

  /** A poll of a queue of this mode gives `polled` when `taken` of all that `came` has been taken. */
  ghost predicate Gives(mode: Mode, came: seq<Input>, taken: seq<Input>, polled: seq<Input>) {
    && taken + polled <= came
    && (mode.All? ==> taken + polled == came)
    && (mode.OneAtATime? ==> |polled| <= 1 && (polled == [] ==> taken == came))
  }

  /** The law for what goes in before the response of turn `k`. Usually it is what the steering queue
      gives. Only when the turn before had no tool calls and every steering message that had come was
      already in, it is what the queue of follow-ups gives. */
  ghost predicate RoundAt(g: Given, scripts: seq<Script>, rounds: seq<Round>, k: nat)
    requires k <= |scripts| && k < |rounds|
  {
    var Round(inputs, following) := rounds[k];
    var steered, followed := Taken(rounds[..k], false), Taken(rounds[..k], true);
    if k == 0 && g.skipInitialPoll then
      inputs == [] && !following
    else if k > 0 && scripts[k - 1].stream.result.calls == [] && steered == SteersBy(g, scripts, k) then
      following && inputs != [] && Gives(g.followUps.mode, FollowUpsBy(g, scripts, k), followed, inputs)
    else
      !following && Gives(g.steering.mode, SteersBy(g, scripts, k), steered, inputs)
  }

  ghost predicate Lawful(g: Given, scripts: seq<Script>, rounds: seq<Round>) {
    |rounds| <= |scripts| + 1 && forall k | 0 <= k < |rounds| :: RoundAt(g, scripts, rounds, k)
  }

  /** A lawful sequence of rounds is determined by what the run is given. */
  lemma {:induction false} LawfulUnique(g: Given, scripts: seq<Script>, a: seq<Round>, b: seq<Round>)
    requires Lawful(g, scripts, a) && Lawful(g, scripts, b) && |a| == |b|
    ensures a == b
  {
    if a != [] {
      var k := |a| - 1;
      LawfulPrefix(g, scripts, a, k);
      LawfulPrefix(g, scripts, b, k);
      LawfulUnique(g, scripts, a[..k], b[..k]);
      assert RoundAt(g, scripts, a, k) && RoundAt(g, scripts, b, k);
      assert a[k].following == b[k].following;
      var mode, came := if a[k].following then g.followUps.mode else g.steering.mode,
        if a[k].following then FollowUpsBy(g, scripts, k) else SteersBy(g, scripts, k);
      hide Taken, SteersBy, FollowUpsBy, Lawful;
      if !(k == 0 && g.skipInitialPoll) { GivesOne(mode, came, Taken(a[..k], a[k].following), a[k].inputs, b[k].inputs); }
      assert a == a[..k] + [a[k]] && b == b[..k] + [b[k]];
    }
  }

  lemma LawfulPrefix(g: Given, scripts: seq<Script>, rounds: seq<Round>, n: nat)
    requires Lawful(g, scripts, rounds) && n <= |rounds|
    ensures Lawful(g, scripts, rounds[..n])
  {
    forall k | 0 <= k < n ensures RoundAt(g, scripts, rounds[..n], k) {
      assert RoundAt(g, scripts, rounds, k) && rounds[..n][..k] == rounds[..k];
    }
  }

  lemma GivesOne(mode: Mode, came: seq<Input>, taken: seq<Input>, a: seq<Input>, b: seq<Input>)
    requires Gives(mode, came, taken, a) && Gives(mode, came, taken, b)
    ensures a == b
  {
    assert a == (taken + a)[|taken|..] && b == (taken + b)[|taken|..];
    if mode.OneAtATime? && a != [] {
      assert came[|taken|] == (taken + a)[|taken|] == (taken + b)[|taken|];
    }
  }

  /** Everything that came is taken, about to go in, or still queued, in this order. */
  ghost predicate Kept(g: Given, parallel: bool, scripts: seq<Script>) {
    var f, rounds := PlayAll(Begin(g), parallel, scripts), Rounds(Begin(g), parallel, scripts);
    && Taken(rounds + [Round(f.next, f.following)], false) + f.steering.items == g.steering.items + g.steers + Steers(scripts)
    && Taken(rounds + [Round(f.next, f.following)], true) + f.followUps.items == g.followUps.items + g.newFollowUps + FollowUps(scripts)
  }

  lemma TakenSnoc(rounds: seq<Round>, r: Round, following: bool)
    ensures Taken(rounds + [r], following) == Taken(rounds, following) + if r.following == following then r.inputs else []
  {
    assert (rounds + [r])[..|rounds|] == rounds;
  }

  lemma {:induction false} AllKept(g: Given, parallel: bool, scripts: seq<Script>)
    ensures Kept(g, parallel, scripts)
  {
    hide Kept;
    if scripts == [] {
      KeptAtFirst(g, parallel);
    } else {
      AllKept(g, parallel, scripts[..|scripts| - 1]);
      KeptNext(g, parallel, scripts);
    }
  }

  lemma NoTurns(f: Flow, parallel: bool)
    ensures PlayAll(f, parallel, []) == f && Rounds(f, parallel, []) == []
    ensures Steers([]) == [] && FollowUps([]) == [] && Taken([], false) == Taken([], true) == []
  {
  }

  lemma KeptAtFirst(g: Given, parallel: bool)
    ensures Kept(g, parallel, [])
  {
    hide PlayAll, Rounds, Taken, Steers, FollowUps, Drained, Undrained;
    var f := Begin(g);
    NoTurns(f, parallel);
    DrainSplits(Enqueued(g.steering, g.steers));
    TakenSnoc([], Round(f.next, f.following), false);
    TakenSnoc([], Round(f.next, f.following), true);
    var none: seq<Input> := [];
    var a, b := g.steering.items + g.steers, g.followUps.items + g.newFollowUps;
    assert a + none == a && none + a == a && b + none == b && none + b == b && none + none == none;
    assert none + f.next == f.next;
  }

  /** The definitions for one more turn. */
  lemma LastTurn(f: Flow, parallel: bool, scripts: seq<Script>)
    requires scripts != []
    ensures var init, last := scripts[..|scripts| - 1], scripts[|scripts| - 1];
      var before := PlayAll(f, parallel, init);
      && PlayAll(f, parallel, scripts) == Play(before, parallel, last)
      && Rounds(f, parallel, scripts) == Rounds(f, parallel, init) + [Round(before.next, before.following)]
      && Steers(scripts) == Steers(init) + (last.steers + last.lateSteers)
      && FollowUps(scripts) == FollowUps(init) + (last.followUps + last.lateFollowUps)
  {
    hide Play;
  }

  lemma KeptNext(g: Given, parallel: bool, scripts: seq<Script>)
    requires scripts != [] && Kept(g, parallel, scripts[..|scripts| - 1])
    ensures Kept(g, parallel, scripts)
  {
    hide Play, PlayAll, Rounds, Taken, Steers, FollowUps, Begin;
    var init, last := scripts[..|scripts| - 1], scripts[|scripts| - 1];
    LastTurn(Begin(g), parallel, scripts);
    var f := PlayAll(Begin(g), parallel, init);
    var f' := Play(f, parallel, last);
    var rounds := Rounds(Begin(g), parallel, scripts);
    TakenSnoc(rounds, Round(f'.next, f'.following), false);
    TakenSnoc(rounds, Round(f'.next, f'.following), true);
    PlayKeeps(f, parallel, last);
    Moved(Taken(rounds, false), f.steering.items, g.steering.items + g.steers, Steers(init), last.steers + last.lateSteers,
      if f'.following then [] else f'.next, f'.steering.items);
    Moved(Taken(rounds, true), f.followUps.items, g.followUps.items + g.newFollowUps, FollowUps(init),
      last.followUps + last.lateFollowUps, if f'.following then f'.next else [], f'.followUps.items);
  }

  lemma Moved(taken: seq<Input>, queued: seq<Input>, given: seq<Input>, came: seq<Input>, more: seq<Input>,
              next: seq<Input>, left: seq<Input>)
    requires taken + queued == given + came && next + left == queued + more
    ensures (taken + next) + left == given + (came + more)
  {
    Assoc(taken, next, left);
    Assoc(taken, queued, more);
    Assoc(given, came, more);
  }

  lemma PlayKeeps(f: Flow, parallel: bool, script: Script)
    ensures var f' := Play(f, parallel, script);
      && (if f'.following then [] else f'.next) + f'.steering.items == f.steering.items + (script.steers + script.lateSteers)
      && (if f'.following then f'.next else []) + f'.followUps.items == f.followUps.items + (script.followUps + script.lateFollowUps)
  {
    hide Drained, Undrained, Told, Hangs;
    var f' := Play(f, parallel, script);
    var steering := Enqueued(f.steering, script.steers);
    var followUps := Enqueued(Enqueued(f.followUps, script.followUps), script.lateFollowUps);
    DrainSplits(steering);
    DrainSplits(followUps);
    Assoc(f.steering.items, script.steers, script.lateSteers);
    Assoc(f.followUps.items, script.followUps, script.lateFollowUps);
    Assoc(Drained(steering), Undrained(steering).items, script.lateSteers);
  }

  lemma {:induction false} MessagesTold(f: Flow, parallel: bool, scripts: seq<Script>)
    ensures |Rounds(f, parallel, scripts)| == |scripts|
    ensures PlayAll(f, parallel, scripts).messages == f.messages + Tale(parallel, Rounds(f, parallel, scripts), scripts)
  {
    hide Rounds, PlayAll, Told, Tale, Hangs;
    if scripts == [] {
      NoTurns(f, parallel);
      NoTale(parallel);
      assert f.messages + [] == f.messages;
    } else {
      var init, last := scripts[..|scripts| - 1], scripts[|scripts| - 1];
      MessagesTold(f, parallel, init);
      LastTurn(f, parallel, scripts);
      var before, rounds := PlayAll(f, parallel, init), Rounds(f, parallel, init);
      TaleSnoc(parallel, rounds, init, Round(before.next, before.following), last);
      assert scripts == init + [last];
      Assoc(before.messages, AsMessages(before.next), Told(parallel, last));
      Assoc(f.messages, Tale(parallel, rounds, init), AsMessages(before.next) + Told(parallel, last));
    }
  }

  lemma NoTale(parallel: bool)
    ensures Tale(parallel, [], []) == []
  {
  }

  lemma TaleSnoc(parallel: bool, rounds: seq<Round>, scripts: seq<Script>, round: Round, script: Script)
    requires |rounds| == |scripts|
    ensures Tale(parallel, rounds + [round], scripts + [script]) ==
      Tale(parallel, rounds, scripts) + (AsMessages(round.inputs) + Told(parallel, script))
  {
    hide Told;
    assert (rounds + [round])[..|rounds|] == rounds && (scripts + [script])[..|scripts|] == scripts;
  }

  lemma {:induction false} RoundsPrefix(f: Flow, parallel: bool, scripts: seq<Script>, k: nat)
    requires k < |scripts|
    ensures |Rounds(f, parallel, scripts)| == |scripts|
    ensures Rounds(f, parallel, scripts)[..k] == Rounds(f, parallel, scripts[..k])
    ensures var before := PlayAll(f, parallel, scripts[..k]);
      Rounds(f, parallel, scripts)[k] == Round(before.next, before.following)
    decreases |scripts|
  {
    hide Rounds, PlayAll, Tale;
    var init := scripts[..|scripts| - 1];
    LastTurn(f, parallel, scripts);
    MessagesTold(f, parallel, init);
    if k < |init| {
      RoundsPrefix(f, parallel, init, k);
      assert init[..k] == scripts[..k];
    }
  }

  /** What is about to go in keeps to the law, if the run has not stopped. */
  lemma NextIsLawful(g: Given, parallel: bool, scripts: seq<Script>)
    requires scripts != [] ==> GoesOn(Begin(g), parallel, scripts, |scripts|)
    ensures var f, rounds := PlayAll(Begin(g), parallel, scripts), Rounds(Begin(g), parallel, scripts);
      |rounds| == |scripts| && RoundAt(g, scripts, rounds + [Round(f.next, f.following)], |scripts|)
  {
    hide PlayAll, Rounds, Taken, SteersBy, FollowUpsBy, Told, Steers, FollowUps, Play, Gives, Begin, Tale, Drained, Undrained;
    var f, rounds := PlayAll(Begin(g), parallel, scripts), Rounds(Begin(g), parallel, scripts);
    MessagesTold(Begin(g), parallel, scripts);
    assert (rounds + [Round(f.next, f.following)])[..|rounds|] == rounds;
    if scripts == [] {
      FirstIsLawful(g, parallel);
    } else {
      var init, last := scripts[..|scripts| - 1], scripts[|scripts| - 1];
      assert scripts[..|scripts|] == scripts;
      LastTurn(Begin(g), parallel, scripts);
      AllKept(g, parallel, init);
      var before := PlayAll(Begin(g), parallel, init);
      PollsSee(g, scripts, Taken(rounds, false), before.steering.items, Taken(rounds, true), before.followUps.items);
      ModesStay(g, parallel, init);
      PlayGives(before, parallel, last, Taken(rounds, false), Taken(rounds, true),
        SteersBy(g, scripts, |scripts|), FollowUpsBy(g, scripts, |scripts|));
    }
  }

  lemma FirstIsLawful(g: Given, parallel: bool)
    ensures var f := PlayAll(Begin(g), parallel, []);
      RoundAt(g, [], Rounds(Begin(g), parallel, []) + [Round(f.next, f.following)], 0)
  {
    hide PlayAll, Rounds, Taken, Steers, Gives, Drained, Undrained;
    NoTurns(Begin(g), parallel);
    var queued := Enqueued(g.steering, g.steers);
    DrainGives(queued, queued.items, []);
    assert [] + queued.items == queued.items && queued.items + [] == queued.items;
    var r := Round(Begin(g).next, Begin(g).following);
    assert ([] + [r])[..0] == [] && ([] + [r])[0] == r;
  }

  lemma PlayGives(f: Flow, parallel: bool, script: Script, taken: seq<Input>, followed: seq<Input>, came: seq<Input>, cameToo: seq<Input>)
    requires !Hangs(parallel, script) && !Done(Play(f, parallel, script), script)
    requires taken + (f.steering.items + script.steers) == came
    requires followed + (f.followUps.items + script.followUps + script.lateFollowUps) == cameToo
    ensures var next := Play(f, parallel, script);
      if script.stream.result.calls == [] && taken == came
      then next.following && next.next != [] && Gives(f.followUps.mode, cameToo, followed, next.next)
      else !next.following && Gives(f.steering.mode, came, taken, next.next)
  {
    hide Told, Gives;
    var queued := Enqueued(f.steering, script.steers);
    var waiting := Enqueued(Enqueued(f.followUps, script.followUps), script.lateFollowUps);
    DrainGives(queued, came, taken);
    DrainGives(waiting, cameToo, followed);
    DrainSplits(queued);
    assert taken == came <==> queued.items == [] by {
      assert |taken + queued.items| == |taken| + |queued.items| && taken + [] == taken;
    }
  }

  lemma PollsSee(g: Given, scripts: seq<Script>, taken: seq<Input>, queued: seq<Input>, followed: seq<Input>, waiting: seq<Input>)
    requires scripts != []
    requires taken + queued == g.steering.items + g.steers + Steers(scripts[..|scripts| - 1])
    requires followed + waiting == g.followUps.items + g.newFollowUps + FollowUps(scripts[..|scripts| - 1])
    ensures var last := scripts[|scripts| - 1];
      && taken + (queued + last.steers) == SteersBy(g, scripts, |scripts|)
      && followed + (waiting + last.followUps + last.lateFollowUps) == FollowUpsBy(g, scripts, |scripts|)
  {
    var init, last := scripts[..|scripts| - 1], scripts[|scripts| - 1];
    assert scripts[..|scripts|] == scripts;
    Assoc(taken, queued, last.steers);
    Assoc(g.steering.items + g.steers, Steers(init), last.steers);
    Assoc(waiting, last.followUps, last.lateFollowUps);
    Assoc(followed, waiting, last.followUps + last.lateFollowUps);
    Assoc(g.followUps.items + g.newFollowUps, FollowUps(init), last.followUps + last.lateFollowUps);
  }

  lemma DrainGives(q: Queue, came: seq<Input>, taken: seq<Input>)
    requires taken + q.items == came
    ensures Gives(q.mode, came, taken, Drained(q))
  {
    DrainSplits(q);
    Assoc(taken, Drained(q), Undrained(q).items);
    if q.items == [] { assert taken + [] == taken; }
  }

  lemma {:induction false} ModesStay(g: Given, parallel: bool, scripts: seq<Script>)
    ensures var f := PlayAll(Begin(g), parallel, scripts);
      f.steering.mode == g.steering.mode && f.followUps.mode == g.followUps.mode
  {
    if scripts != [] {
      hide Told;
      ModesStay(g, parallel, scripts[..|scripts| - 1]);
    }
  }

  /** Every queued message is accounted for, in order. These `rounds` are lawful, the messages are the
      prompts and then, turn by turn, what went in, the response and its results; and what was taken
      from a queue, followed by what is left in it, is all that was ever put in. If the model is
      awaited, the last round has gone in without a response so far. */
  ghost predicate Tells(g: Given, parallel: bool, scripts: seq<Script>, rounds: seq<Round>, awaitsModel: bool,
                        messages: seq<Message>, steering: seq<Input>, followUps: seq<Input>) {
    && Lawful(g, scripts, rounds)
    && |rounds| == |scripts| + (if awaitsModel then 1 else 0)
    && messages == AsMessages(g.prompts) + Tale(parallel, rounds[..|scripts|], scripts)
       + (if awaitsModel then AsMessages(rounds[|scripts|].inputs) else [])
    && Taken(rounds, false) + steering == g.steering.items + g.steers + Steers(scripts)
    && Taken(rounds, true) + followUps == g.followUps.items + g.newFollowUps + FollowUps(scripts)
  }

  lemma RoundsLawful(g: Given, parallel: bool, scripts: seq<Script>, k: nat)
    requires k < |scripts| && (k > 0 ==> GoesOn(Begin(g), parallel, scripts, k))
    ensures |Rounds(Begin(g), parallel, scripts)| == |scripts| && RoundAt(g, scripts, Rounds(Begin(g), parallel, scripts), k)
  {
    hide PlayAll, Rounds, Taken, Gives, Hangs, Done, Begin;
    var rounds, some := Rounds(Begin(g), parallel, scripts), scripts[..k];
    var f := PlayAll(Begin(g), parallel, some);
    RoundsPrefix(Begin(g), parallel, scripts, k);
    assert some[..k] == some;
    MessagesTold(Begin(g), parallel, some);
    NextIsLawful(g, parallel, some);
    assert (rounds[..k] + [rounds[k]])[..k] == rounds[..k];
    if k > 0 { assert some[..k - 1] == scripts[..k - 1]; }
  }

  /** What has gone in when a run stops. */
  function AllRounds(f: Flow, parallel: bool, scripts: seq<Script>, awaitsModel: bool): seq<Round> {
    var last := PlayAll(f, parallel, scripts);
    Rounds(f, parallel, scripts) + if awaitsModel then [Round(last.next, last.following)] else []
  }

  /** What a run comes to keeps to the laws of the queues. */
  lemma FinalTells(g: Given, parallel: bool, scripts: seq<Script>, used: nat, ending: Ending)
    requires Halts(Begin(g), parallel, scripts, used, ending)
    ensures var f := Final(Begin(g), parallel, scripts, used, ending);
      Tells(g, parallel, scripts[..used], AllRounds(Begin(g), parallel, scripts[..used], ending.AwaitsModel?), ending.AwaitsModel?,
        f.messages, f.steering.items, f.followUps.items)
  {
    var some, awaits := scripts[..used], ending.AwaitsModel?;
    FinalLawful(g, parallel, scripts, used, ending);
    StopsEmpty(Begin(g), parallel, scripts, used, ending);
    hide PlayAll, Rounds, Taken, Lawful, Halts, Steers, FollowUps, Tale, Begin, AllRounds;
    AllRoundsMessages(g, parallel, some, awaits);
    AllRoundsTaken(g, parallel, some, awaits);
  }

  lemma FinalLawful(g: Given, parallel: bool, scripts: seq<Script>, used: nat, ending: Ending)
    requires Halts(Begin(g), parallel, scripts, used, ending)
    ensures Lawful(g, scripts[..used], AllRounds(Begin(g), parallel, scripts[..used], ending.AwaitsModel?))
  {
    var some, awaits := scripts[..used], ending.AwaitsModel?;
    hide PlayAll, Rounds, RoundAt, Begin, AllRounds, Halts;
    AllRoundsMessages(g, parallel, some, awaits);
    var all := AllRounds(Begin(g), parallel, some, awaits);
    forall k | 0 <= k < |all| ensures RoundAt(g, some, all, k) { FinalRound(g, parallel, scripts, used, ending, k); }
  }

  lemma AllRoundsMessages(g: Given, parallel: bool, scripts: seq<Script>, awaits: bool)
    ensures var f, rounds := PlayAll(Begin(g), parallel, scripts), AllRounds(Begin(g), parallel, scripts, awaits);
      && |rounds| == |scripts| + (if awaits then 1 else 0)
      && f.messages == AsMessages(g.prompts) + Tale(parallel, rounds[..|scripts|], scripts)
      && (awaits ==> rounds[|scripts|].inputs == f.next)
  {
    hide PlayAll, Rounds, Tale, Begin;
    MessagesTold(Begin(g), parallel, scripts);
    BeginsWithPrompts(g);
    assert AllRounds(Begin(g), parallel, scripts, awaits)[..|scripts|] == Rounds(Begin(g), parallel, scripts);
  }

  lemma AllRoundsTaken(g: Given, parallel: bool, scripts: seq<Script>, awaits: bool)
    requires awaits || PlayAll(Begin(g), parallel, scripts).next == []
    ensures var f, rounds := PlayAll(Begin(g), parallel, scripts), AllRounds(Begin(g), parallel, scripts, awaits);
      && Taken(rounds, false) + f.steering.items == g.steering.items + g.steers + Steers(scripts)
      && Taken(rounds, true) + f.followUps.items == g.followUps.items + g.newFollowUps + FollowUps(scripts)
  {
    hide PlayAll, Rounds, Taken, Begin, Steers, FollowUps;
    AllKept(g, parallel, scripts);
    var f, rounds := PlayAll(Begin(g), parallel, scripts), Rounds(Begin(g), parallel, scripts);
    TakenSnoc(rounds, Round(f.next, f.following), false);
    TakenSnoc(rounds, Round(f.next, f.following), true);
    assert rounds + [] == rounds && Taken(rounds, false) + [] == Taken(rounds, false) && Taken(rounds, true) + [] == Taken(rounds, true);
  }

  lemma BeginsWithPrompts(g: Given)
    ensures Begin(g).messages == AsMessages(g.prompts)
  {
  }

  lemma FinalRound(g: Given, parallel: bool, scripts: seq<Script>, used: nat, ending: Ending, k: nat)
    requires Halts(Begin(g), parallel, scripts, used, ending)
    requires k < used || (k == used && ending.AwaitsModel?)
    ensures var all := AllRounds(Begin(g), parallel, scripts[..used], ending.AwaitsModel?);
      k < |all| && RoundAt(g, scripts[..used], all, k)
  {
    hide PlayAll, Rounds, Taken, RoundAt, Begin, GoesOn;
    var some := scripts[..used];
    var rounds, all := Rounds(Begin(g), parallel, some), AllRounds(Begin(g), parallel, some, ending.AwaitsModel?);
    if k > 0 { GoesOnPrefix(Begin(g), parallel, scripts, used, k); }
    if k < used {
      RoundsLawful(g, parallel, some, k);
      SameRound(g, some, rounds, all, k);
    } else {
      NextIsLawful(g, parallel, some);
    }
  }

  lemma SameRound(g: Given, scripts: seq<Script>, rounds: seq<Round>, more: seq<Round>, k: nat)
    requires k <= |scripts| && k < |rounds| && rounds <= more && RoundAt(g, scripts, rounds, k)
    ensures RoundAt(g, scripts, more, k)
  {
    hide Gives, Taken;
    assert more[..k] == rounds[..k];
  }

  lemma GoesOnPrefix(f: Flow, parallel: bool, scripts: seq<Script>, used: nat, k: nat)
    requires 0 < k <= used <= |scripts| && GoesOn(f, parallel, scripts, k)
    ensures GoesOn(f, parallel, scripts[..used], k)
  {
    hide PlayAll, Hangs, Done;
    assert scripts[..used][..k] == scripts[..k];
  }

  /** Nothing is pending when a run is over or waits for tools; and when it is over without a failure,
      only steering that came after the last poll is still queued. */
  lemma StopsEmpty(f: Flow, parallel: bool, scripts: seq<Script>, used: nat, ending: Ending)
    requires Halts(f, parallel, scripts, used, ending)
    ensures Final(f, parallel, scripts, used, ending).next == []
    ensures !ending.AwaitsModel? ==> PlayAll(f, parallel, scripts[..used]).next == []
    ensures ending.Finished? && !Fails(scripts[used - 1]) ==>
      && Final(f, parallel, scripts, used, ending).followUps.items == []
      && Final(f, parallel, scripts, used, ending).steering.items == scripts[used - 1].lateSteers
      && scripts[used - 1].stream.result.calls == []
  {
    hide PlayAll, Told, Hangs, Drained, Undrained, Play, GoesOn;
    if used > 0 {
      PlayNext(f, parallel, scripts, used - 1);
      PlayStops(PlayAll(f, parallel, scripts[..used - 1]), parallel, scripts[used - 1]);
    }
  }

  lemma PlayStops(f: Flow, parallel: bool, script: Script)
    ensures var f' := Play(f, parallel, script);
      && (Hangs(parallel, script) || Done(f', script) ==> f'.next == [])
      && (!Hangs(parallel, script) && Done(f', script) && !Fails(script) ==>
            f'.followUps.items == [] && f'.steering.items == script.lateSteers && script.stream.result.calls == [])
  {
    hide Told, Hangs;
    DrainSplits(Enqueued(f.steering, script.steers));
    DrainSplits(Enqueued(Enqueued(f.followUps, script.followUps), script.lateFollowUps));
    assert [] + script.lateSteers == script.lateSteers;
  }

  // ---- Stale partials ----

  /** No stream has more than one start. */
  ghost predicate StartOnce(scripts: seq<Script>) {
    forall k | 0 <= k < |scripts| :: Starts(scripts[k].stream.events) <= 1
  }

  lemma {:induction false} StaleIff(f: Flow, parallel: bool, scripts: seq<Script>)
    ensures PlayAll(f, parallel, scripts).stale >= f.stale
    ensures PlayAll(f, parallel, scripts).stale == f.stale <==> StartOnce(scripts)
  {
    hide PlayAll, Play, Starts;
    if scripts == [] {
      NoTurns(f, parallel);
    } else {
      var init, last := scripts[..|scripts| - 1], scripts[|scripts| - 1];
      StaleIff(f, parallel, init);
      LastTurn(f, parallel, scripts);
      PlayStale(PlayAll(f, parallel, init), parallel, last);
      assert scripts == init + [last];
    }
  }

  lemma PlayStale(f: Flow, parallel: bool, script: Script)
    ensures Play(f, parallel, script).stale == f.stale + Excess(script.stream)
  {
    hide Told, Hangs;
  }

  // ---- Tool results answer their calls ----

  function CallIds(calls: seq<ToolCall>): multiset<string> {
    if calls == [] then multiset{} else CallIds(calls[..|calls| - 1]) + multiset{calls[|calls| - 1].id}
  }

  function ResultIds(msgs: seq<Message>): multiset<string>
    requires forall i | 0 <= i < |msgs| :: msgs[i].ToolResult?
  {
    if msgs == [] then multiset{} else ResultIds(msgs[..|msgs| - 1]) + multiset{msgs[|msgs| - 1].callId}
  }

  ghost predicate AllResults(msgs: seq<Message>) {
    forall i | 0 <= i < |msgs| :: msgs[i].ToolResult?
  }

  /** The results hold exactly one answer for every call. */
  ghost predicate Answers(results: seq<Message>, calls: seq<ToolCall>) {
    AllResults(results) && |results| == |calls| && ResultIds(results) == CallIds(calls)
  }

  lemma {:induction false} ResultIdsConcat(a: seq<Message>, b: seq<Message>)
    requires AllResults(a) && AllResults(b)
    ensures AllResults(a + b) && ResultIds(a + b) == ResultIds(a) + ResultIds(b)
  {
    if b == [] {
      assert a + b == a;
    } else {
      var init := b[..|b| - 1];
      assert (a + b)[..|a + b| - 1] == a + init;
      ResultIdsConcat(a, init);
    }
  }

  lemma CallIdsStep(calls: seq<ToolCall>, k: nat)
    requires 0 < k <= |calls|
    ensures CallIds(calls[..k]) == CallIds(calls[..k - 1]) + multiset{calls[k - 1].id}
  {
    assert calls[..k][..k - 1] == calls[..k - 1];
  }

  lemma {:induction false} SourceOrderAnswers(calls: seq<ToolCall>, outcome: Outcomes, k: nat)
    requires k <= |calls|
    ensures Answers(InSourceOrder(calls, outcome, k), calls[..k])
  {
    if k > 0 {
      SourceOrderAnswers(calls, outcome, k - 1);
      CallIdsStep(calls, k);
      hide CallIds, ResultIds;
      ResultIdsSnoc(InSourceOrder(calls, outcome, k - 1), ResultFor(calls[k - 1], outcome(k - 1)));
    }
  }

  lemma OneMore(a: multiset<string>, b: multiset<string>, x: string)
    ensures a + multiset{x} + b == a + b + multiset{x}
    ensures a + (b + multiset{x}) == a + b + multiset{x}
  {
  }

  lemma SelectedStep(calls: seq<ToolCall>, outcome: Outcomes, k: nat)
    requires 0 < k <= |calls|
    ensures var a, b := Selected(calls, outcome, true, k - 1), Selected(calls, outcome, false, k - 1);
      var r := ResultFor(calls[k - 1], outcome(k - 1));
      && Selected(calls, outcome, true, k) == (if outcome(k - 1).Immediate? then a + [r] else a)
      && Selected(calls, outcome, false, k) == (if outcome(k - 1).Immediate? then b else b + [r])
  {
  }

  lemma NothingSelected(calls: seq<ToolCall>, outcome: Outcomes)
    ensures Selected(calls, outcome, true, 0) == Selected(calls, outcome, false, 0) == []
    ensures ResultIds([]) == multiset{} == CallIds(calls[..0])
  {
  }

  lemma {:induction false} SelectedAnswer(calls: seq<ToolCall>, outcome: Outcomes, k: nat)
    requires k <= |calls|
    ensures var a, b := Selected(calls, outcome, true, k), Selected(calls, outcome, false, k);
      && AllResults(a) && AllResults(b) && |a| + |b| == k
      && ResultIds(a) + ResultIds(b) == CallIds(calls[..k])
  {
    hide CallIds, ResultIds, Selected;
    if k == 0 {
      NothingSelected(calls, outcome);
    } else {
      SelectedAnswer(calls, outcome, k - 1);
      CallIdsStep(calls, k);
      SelectedStep(calls, outcome, k);
      var a, b := Selected(calls, outcome, true, k - 1), Selected(calls, outcome, false, k - 1);
      var r := ResultFor(calls[k - 1], outcome(k - 1));
      if outcome(k - 1).Immediate? { ResultIdsSnoc(a, r); } else { ResultIdsSnoc(b, r); }
      OneMore(ResultIds(a), ResultIds(b), r.callId);
    }
  }

  lemma ResultIdsSnoc(msgs: seq<Message>, r: Message)
    requires AllResults(msgs) && r.ToolResult?
    ensures AllResults(msgs + [r]) && ResultIds(msgs + [r]) == ResultIds(msgs) + multiset{r.callId}
  {
    assert (msgs + [r])[..|msgs|] == msgs;
  }

  lemma BothOrdersAnswer(calls: seq<ToolCall>, outcome: Outcomes)
    ensures Answers(InSourceOrder(calls, outcome, |calls|), calls)
    ensures Answers(InParallelOrder(calls, outcome), calls)
  {
    SourceOrderAnswers(calls, outcome, |calls|);
    SelectedAnswer(calls, outcome, |calls|);
    assert calls[..|calls|] == calls;
    ResultIdsConcat(Selected(calls, outcome, true, |calls|), Selected(calls, outcome, false, |calls|));
  }

  /** The message at `i` is followed by its results and no others; a failed one by none. */
  ghost predicate PairedAt(msgs: seq<Message>, i: nat)
    requires i < |msgs| && msgs[i].Assistant?
  {
    var r := msgs[i].response;
    var failed := r.stop == Error || r.stop == Aborted;
    var n := if failed then 0 else |r.calls|;
    && i + 1 + n <= |msgs|
    && (!failed ==> Answers(msgs[i + 1..i + 1 + n], r.calls))
    && (i + 1 + n < |msgs| ==> !msgs[i + 1 + n].ToolResult?)
  }

  ghost predicate Paired(msgs: seq<Message>) {
    forall i | 0 <= i < |msgs| && msgs[i].Assistant? :: PairedAt(msgs, i)
  }

  lemma PairedConcat(a: seq<Message>, b: seq<Message>)
    requires Paired(a) && Paired(b) && (b != [] ==> !b[0].ToolResult?)
    ensures Paired(a + b)
  {
    hide PairedAt;
    var c := a + b;
    forall i | 0 <= i < |c| && c[i].Assistant? ensures PairedAt(c, i) {
      if i < |a| {
        assert PairedAt(a, i);
        PairedBefore(a, b, i);
      } else {
        assert PairedAt(b, i - |a|);
        PairedBehind(a, b, i - |a|);
      }
    }
  }

  lemma PairedBefore(a: seq<Message>, b: seq<Message>, i: nat)
    requires i < |a| && a[i].Assistant? && PairedAt(a, i) && (b != [] ==> !b[0].ToolResult?)
    ensures (a + b)[i].Assistant? && PairedAt(a + b, i)
  {
    hide Answers;
    var c := a + b;
    var n := if a[i].response.Failed() then 0 else |a[i].response.calls|;
    assert c[i + 1..i + 1 + n] == a[i + 1..i + 1 + n];
  }

  lemma PairedBehind(a: seq<Message>, b: seq<Message>, i: nat)
    requires i < |b| && b[i].Assistant? && PairedAt(b, i)
    ensures (a + b)[|a| + i].Assistant? && PairedAt(a + b, |a| + i)
  {
    hide Answers;
    var c, j := a + b, |a| + i;
    var n := if b[i].response.Failed() then 0 else |b[i].response.calls|;
    assert c[j + 1..j + 1 + n] == b[i + 1..i + 1 + n];
  }

  lemma PairedTurn(r: Response, results: seq<Message>)
    requires if r.Failed() then results == [] else Answers(results, r.calls)
    ensures Paired([Assistant(r)] + results)
  {
    var c := [Assistant(r)] + results;
    assert c[1..1 + |results|] == results;
  }

  lemma PairedInputs(inputs: seq<Input>)
    ensures Paired(AsMessages(inputs)) && (inputs != [] ==> !AsMessages(inputs)[0].ToolResult?)
  {
  }

  /** In the messages of a run every response is followed by its results, if no tools are awaited. */
  lemma {:induction false} MessagesPaired(f: Flow, parallel: bool, scripts: seq<Script>)
    requires Paired(f.messages)
    requires forall k | 0 <= k < |scripts| :: !Hangs(parallel, scripts[k])
    ensures Paired(PlayAll(f, parallel, scripts).messages)
  {
    if scripts != [] {
      var init, last := scripts[..|scripts| - 1], scripts[|scripts| - 1];
      MessagesPaired(f, parallel, init);
      var before := PlayAll(f, parallel, init);
      assert PlayAll(f, parallel, scripts).messages == before.messages + AsMessages(before.next) + Told(parallel, last);
      ToldPaired(parallel, last);
      hide PlayAll, Paired, Told;
      PairedInputs(before.next);
      PairedConcat(before.messages, AsMessages(before.next));
      PairedConcat(before.messages + AsMessages(before.next), Told(parallel, last));
    }
  }

  lemma ToldPaired(parallel: bool, script: Script)
    requires !Hangs(parallel, script)
    ensures var told := Told(parallel, script); Paired(told) && told != [] && !told[0].ToolResult?
  {
    hide Paired, Hangs, Answers;
    BothOrdersAnswer(script.stream.result.calls, script.outcome);
    PairedTurn(script.stream.result, if Fails(script) then [] else ResultsOf(parallel, script));
  }

  lemma NoneHangs(f: Flow, parallel: bool, scripts: seq<Script>, used: nat, ending: Ending)
    requires Halts(f, parallel, scripts, used, ending)
    ensures forall k | 0 <= k < used :: Hangs(parallel, scripts[k]) ==> k == used - 1 && ending.AwaitsTools?
  {
    hide PlayAll, Hangs, Done;
    forall k | 0 <= k < used && Hangs(parallel, scripts[k]) ensures k == used - 1 && ending.AwaitsTools? {
      assert k + 1 < used ==> GoesOn(f, parallel, scripts, k + 1);
    }
  }

  /** But for the last one, if its tools are awaited. */
  lemma FinalPaired(g: Given, parallel: bool, scripts: seq<Script>, used: nat, ending: Ending)
    requires Halts(Begin(g), parallel, scripts, used, ending)
    ensures var msgs := Final(Begin(g), parallel, scripts, used, ending).messages;
      if ending.AwaitsTools? then msgs != [] && Paired(msgs[..|msgs| - 1]) else Paired(msgs)
  {
    NoneHangs(Begin(g), parallel, scripts, used, ending);
    PairedInputs(g.prompts);
    var n := if ending.AwaitsTools? then used - 1 else used;
    var f := PlayAll(Begin(g), parallel, scripts[..n]);
    if ending.AwaitsTools? { HungMessages(Begin(g), parallel, scripts, used); }
    hide PlayAll, Paired, Hangs, Done, GoesOn, Begin;
    MessagesPaired(Begin(g), parallel, scripts[..n]);
    PairedInputs(f.next);
    PairedConcat(f.messages, AsMessages(f.next));
    if ending.AwaitsTools? {
      var msgs := PlayAll(Begin(g), parallel, scripts[..used]).messages;
      assert msgs[..|msgs| - 1] == f.messages + AsMessages(f.next);
    }
  }

  lemma HungMessages(f: Flow, parallel: bool, scripts: seq<Script>, used: nat)
    requires 0 < used <= |scripts| && Hangs(parallel, scripts[used - 1])
    ensures var before := PlayAll(f, parallel, scripts[..used - 1]);
      PlayAll(f, parallel, scripts[..used]).messages ==
        (before.messages + AsMessages(before.next)) + [Assistant(scripts[used - 1].stream.result)]
  {
    hide PlayAll, Hangs;
    PlayNext(f, parallel, scripts, used - 1);
    assert [Assistant(scripts[used - 1].stream.result)] + [] == [Assistant(scripts[used - 1].stream.result)];
  }

  // ---- Every response in its place ----

  /** The message at `i` is this response, and these results follow it if it is answered, one for every call. */
  ghost predicate TurnAt(msgs: seq<Message>, i: nat, r: Response, results: seq<Message>, answered: bool) {
    && i < |msgs| && msgs[i] == Assistant(r)
    && (answered ==> Answers(results, r.calls) && i + 1 + |results| <= |msgs| && msgs[i + 1..i + 1 + |results|] == results)
  }

  /** Where the response of script `k` goes. */
  function Place(f: Flow, parallel: bool, scripts: seq<Script>, k: nat): nat
    requires k <= |scripts|
  {
    var before := PlayAll(f, parallel, scripts[..k]);
    |before.messages| + |before.next|
  }

  lemma {:induction false} MessagesGrow(f: Flow, parallel: bool, scripts: seq<Script>, k: nat, n: nat)
    requires k <= n <= |scripts|
    ensures PlayAll(f, parallel, scripts[..k]).messages <= PlayAll(f, parallel, scripts[..n]).messages
  {
    hide PlayAll, Told, Hangs;
    if k < n {
      MessagesGrow(f, parallel, scripts, k, n - 1);
      PlayNext(f, parallel, scripts, n - 1);
    }
  }

  lemma TurnInPlace(f: Flow, parallel: bool, scripts: seq<Script>, k: nat)
    requires k < |scripts|
    ensures var answered := !Fails(scripts[k]) && !Hangs(parallel, scripts[k]);
      TurnAt(PlayAll(f, parallel, scripts[..k + 1]).messages, Place(f, parallel, scripts, k), scripts[k].stream.result,
        ResultsOf(parallel, scripts[k]), answered)
    ensures Place(f, parallel, scripts, k) < |PlayAll(f, parallel, scripts[..k + 1]).messages|
  {
    hide PlayAll, Hangs, Answers, Fails, ResultsOf, Play, TurnAt;
    PlayNext(f, parallel, scripts, k);
    var before, r := PlayAll(f, parallel, scripts[..k]), scripts[k].stream.result;
    var answered := !Fails(scripts[k]) && !Hangs(parallel, scripts[k]);
    PlayTells(before, parallel, scripts[k], answered);
    ResultsAnswer(parallel, scripts[k]);
    AnsweredBehind(before.messages + AsMessages(before.next), r, ResultsOf(parallel, scripts[k]), answered);
  }

  lemma PlayTells(f: Flow, parallel: bool, script: Script, answered: bool)
    requires answered <==> !Fails(script) && !Hangs(parallel, script)
    ensures Play(f, parallel, script).messages ==
      f.messages + AsMessages(f.next) + ([Assistant(script.stream.result)] + if answered then ResultsOf(parallel, script) else [])
  {
    hide Hangs, Fails, ResultsOf;
  }

  lemma ResultsAnswer(parallel: bool, script: Script)
    ensures Answers(ResultsOf(parallel, script), script.stream.result.calls)
  {
    hide Answers;
    BothOrdersAnswer(script.stream.result.calls, script.outcome);
  }

  lemma AnsweredBehind(head: seq<Message>, r: Response, results: seq<Message>, answered: bool)
    requires answered ==> Answers(results, r.calls)
    ensures TurnAt(head + ([Assistant(r)] + if answered then results else []), |head|, r, results, answered)
  {
    hide Answers;
    if answered {
      assert (head + ([Assistant(r)] + results))[|head| + 1..|head| + 1 + |results|] == results;
    }
  }

  lemma TurnStays(msgs: seq<Message>, more: seq<Message>, i: nat, r: Response, results: seq<Message>, answered: bool)
    requires TurnAt(msgs, i, r, results, answered) && msgs <= more
    ensures TurnAt(more, i, r, results, answered)
  {
    hide Answers;
    if answered { assert more[i + 1..i + 1 + |results|] == msgs[i + 1..i + 1 + |results|]; }
  }

  /** The responses stand in the messages in the order of the turns, those that did not fail and whose
      tools are not awaited with all their results behind them. */
  lemma TurnsInPlace(f: Flow, parallel: bool, scripts: seq<Script>, used: nat, ending: Ending, k: nat)
    requires Halts(f, parallel, scripts, used, ending) && k < used
    ensures var Response(_, calls, stop) := scripts[k].stream.result;
      var results := if parallel then InParallelOrder(calls, scripts[k].outcome) else InSourceOrder(calls, scripts[k].outcome, |calls|);
      var answered := stop != Error && stop != Aborted && !(k == used - 1 && ending.AwaitsTools?);
      TurnAt(Final(f, parallel, scripts, used, ending).messages, Place(f, parallel, scripts, k), scripts[k].stream.result,
        results, answered)
    ensures k > 0 ==> Place(f, parallel, scripts, k - 1) < Place(f, parallel, scripts, k)
  {
    NoneHangs(f, parallel, scripts, used, ending);
    hide PlayAll, Hangs, TurnAt, Halts, Final, Place;
    TurnInPlace(f, parallel, scripts, k);
    if k > 0 { PlacesGrow(f, parallel, scripts, k); }
    MessagesGrow(f, parallel, scripts, k + 1, used);
    FinalGrows(f, parallel, scripts, used, ending);
    var msgs, more := PlayAll(f, parallel, scripts[..k + 1]).messages, Final(f, parallel, scripts, used, ending).messages;
    var r, results, place := scripts[k].stream.result, ResultsOf(parallel, scripts[k]), Place(f, parallel, scripts, k);
    var answered := r.stop != Error && r.stop != Aborted && !(k == used - 1 && ending.AwaitsTools?);
    TurnStays(msgs, more, place, r, results, !Fails(scripts[k]) && !Hangs(parallel, scripts[k]));
    Unanswered(more, place, r, results, !Fails(scripts[k]) && !Hangs(parallel, scripts[k]), answered);
  }

  lemma PlacesGrow(f: Flow, parallel: bool, scripts: seq<Script>, k: nat)
    requires 0 < k < |scripts|
    ensures Place(f, parallel, scripts, k - 1) < Place(f, parallel, scripts, k)
  {
    hide PlayAll, TurnAt;
    TurnInPlace(f, parallel, scripts, k - 1);
  }

  lemma FinalGrows(f: Flow, parallel: bool, scripts: seq<Script>, used: nat, ending: Ending)
    requires used <= |scripts|
    ensures PlayAll(f, parallel, scripts[..used]).messages <= Final(f, parallel, scripts, used, ending).messages
  {
    hide PlayAll;
  }

  lemma Unanswered(msgs: seq<Message>, i: nat, r: Response, results: seq<Message>, answered: bool, less: bool)
    requires TurnAt(msgs, i, r, results, answered) && (less ==> answered)
    ensures TurnAt(msgs, i, r, results, less)
  {
    hide Answers;
  }

  /** A response that failed is the last one, and ends the run. */
  lemma FailedIsLast(f: Flow, parallel: bool, scripts: seq<Script>, used: nat, ending: Ending, k: nat)
    requires Halts(f, parallel, scripts, used, ending) && k < used
    requires var stop := scripts[k].stream.result.stop; stop == Error || stop == Aborted
    ensures k == used - 1 && ending.Finished?
    ensures var messages := Final(f, parallel, scripts, used, ending).messages;
      messages != [] && messages[|messages| - 1] == Assistant(scripts[k].stream.result)
  {
    assert Fails(scripts[k]) && !Hangs(parallel, scripts[k]);
    assert k + 1 < used ==> GoesOn(f, parallel, scripts, k + 1);
    assert scripts[..k + 1][k] == scripts[k];
    hide PlayAll, Halts, Hangs;
    PlayNext(f, parallel, scripts, k);
  }
}
