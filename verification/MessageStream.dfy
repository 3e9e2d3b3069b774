/**
 The event stream of one assistant message, and a reader that is independent of every producer: it
 accepts exactly the well-bracketed streams and rebuilds the blocks from their deltas.
 */
module MessageStream {

  datatype Json =
    | Null
    | Bool(value: bool)
    | Number(text: string)
    | Str(text: string)
    | Array(elements: seq<Json>)
    | Object(fields: seq<(string, Json)>)

  /** `JSON.stringify` and the parser of streamed JSON. */
  datatype JsonText = JsonText(stringify: Json -> string, parse: string -> Json)

  /** The parser inverts the printer, which prints something. */
  ghost predicate Inverse(json: JsonText) {
    forall j :: json.stringify(j) != "" && json.parse(json.stringify(j)) == j
  }

  datatype Kind = Text | Thinking

  datatype Block = Prose(kind: Kind, text: string) | ToolCall(id: string, name: string, arguments: Json)

  datatype Reason = Stop | Length | ToolUse | Failed | Aborted

  predicate IsFailure(reason: Reason) { reason.Failed? || reason.Aborted? }

  /** The events, without their `partial` messages except for what a proxy keeps of them. */
  datatype Event =
    | Start
    | Begin(kind: Kind, index: int)
    | Delta(kind: Kind, index: int, delta: string)
    | End(kind: Kind, index: int, content: string)
    | ToolBegin(index: int, id: string, name: string)
    | ToolDelta(index: int, delta: string)
    | ToolEnd(index: int, call: Block)
    | Done(reason: Reason)
    | Error(reason: Reason)

  // ---- The reader ----

  /** The block being written: its deltas so far. */
  datatype Writing = Nothing | InProse(kind: Kind, text: string) | InCall(id: string, name: string, json: string)

  datatype Reading =
    | Fresh
    | Reading(content: seq<Block>, writing: Writing)
    | Finished(content: seq<Block>, reason: Reason)
    | Malformed

  /** One event: one `start` first, blocks one after the other under the next index, the end of a
      block when its deltas have come to its content, and nothing after `done` or `error`. */
  function ReadOne(stringify: Json -> string, r: Reading, e: Event): Reading {
    if r.Fresh? then
      if e.Start? then Reading([], Nothing) else if e.Error? then Finished([], e.reason) else Malformed
    else if !r.Reading? then Malformed
    else
      var n, w := |r.content|, r.writing;
      match e
      case Start => Malformed
      case Begin(kind, i) => if w == Nothing && i == n then r.(writing := InProse(kind, "")) else Malformed
      case Delta(kind, i, d) =>
        if w.InProse? && w.kind == kind && i == n then r.(writing := InProse(kind, w.text + d)) else Malformed
      case End(kind, i, text) =>
        if w == InProse(kind, text) && i == n then Reading(r.content + [Prose(kind, text)], Nothing) else Malformed
      case ToolBegin(i, id, name) => if w == Nothing && i == n then r.(writing := InCall(id, name, "")) else Malformed
      case ToolDelta(i, d) =>
        if w.InCall? && i == n then r.(writing := w.(json := w.json + d)) else Malformed
      case ToolEnd(i, call) =>
        if call.ToolCall? && w == InCall(call.id, call.name, stringify(call.arguments)) && i == n
        then Reading(r.content + [call], Nothing) else Malformed
      case Done(reason) => if w == Nothing && !IsFailure(reason) then Finished(r.content, reason) else Malformed
      case Error(reason) => if IsFailure(reason) then Finished(r.content, reason) else Malformed
  }

  function Read(stringify: Json -> string, events: seq<Event>): Reading {
    if events == [] then Fresh
    else ReadOne(stringify, Read(stringify, events[..|events| - 1]), events[|events| - 1])
  }

  /** The block that the last event has cut off, if it was an `error` inside of one. */
  function CutOff(stringify: Json -> string, events: seq<Event>): Writing {
    if events == [] then Nothing
    else
      var before := Read(stringify, events[..|events| - 1]);
      if before.Reading? && events[|events| - 1].Error? then before.writing else Nothing
  }

  lemma ReadSnoc(stringify: Json -> string, events: seq<Event>, e: Event)
    ensures Read(stringify, events + [e]) == ReadOne(stringify, Read(stringify, events), e)
  {
    assert (events + [e])[..|events|] == events;
  }

  /** A prefix of a well-bracketed stream is well-bracketed, and unfinished if anything follows. */
  lemma {:induction false} ReadPrefix(stringify: Json -> string, events: seq<Event>, k: nat)
    requires k <= |events| && !Read(stringify, events).Malformed?
    ensures !Read(stringify, events[..k]).Malformed?
    ensures k < |events| ==> !Read(stringify, events[..k]).Finished?
  {
    if k < |events| {
      var init := events[..|events| - 1];
      assert init[..k] == events[..k];
      if k < |init| { ReadPrefix(stringify, init, k); } else { assert init[..k] == init; }
    } else {
      assert events[..k] == events;
    }
  }

  /** Well-bracketed means in particular: one `start`, before every event of a block. */
  lemma {:induction false} OneStartFirst(stringify: Json -> string, events: seq<Event>, i: nat)
    requires !Read(stringify, events).Malformed? && i < |events|
    ensures events[i].Start? <==> i == 0 && !events[0].Error?
  {
    ReadPrefix(stringify, events, i + 1);
    ReadPrefix(stringify, events, i);
    ReadSnoc(stringify, events[..i], events[i]);
    assert events[..i + 1] == events[..i] + [events[i]];
    if i > 0 {
      FreshOnlyAtStart(stringify, events[..i]);
    }
  }

  lemma FreshOnlyAtStart(stringify: Json -> string, events: seq<Event>)
    requires events != []
    ensures !Read(stringify, events).Fresh?
  {
  }
}
