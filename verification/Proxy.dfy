/**
 The client of the proxy (`streamProxy`): a line buffer over arbitrary reads, and the rebuilding of
 the message from events without their partial messages (`processProxyEvent`).
 */
module Proxies {
  import opened Basics
  import opened MessageStream
  import opened Faux

  // ---- Lines ----

  /** The lines of a text that a newline ends, and what follows the last newline. */
  function Lines(text: string): seq<string> {
    if text == "" then []
    else
      var init := text[..|text| - 1];
      if text[|text| - 1] == '\n' then Lines(init) + [Rest(init)] else Lines(init)
  }

  function Rest(text: string): string {
    if text == "" || text[|text| - 1] == '\n' then "" else Rest(text[..|text| - 1]) + [text[|text| - 1]]
  }

  /** The buffer remembers all that matters of the text before. */
  lemma {:induction false} LinesJoin(a: string, b: string)
    ensures Lines(a + b) == Lines(a) + Lines(Rest(a) + b)
    ensures Rest(a + b) == Rest(Rest(a) + b)
  {
    if b == "" {
      assert a + b == a && Rest(a) + b == Rest(a);
      RestIsRest(a);
    } else {
      var init, c := b[..|b| - 1], b[|b| - 1];
      assert (a + b)[..|a + b| - 1] == a + init;
      assert (Rest(a) + b)[..|Rest(a) + b| - 1] == Rest(a) + init;
      LinesJoin(a, init);
    }
  }

  lemma {:induction false} RestIsRest(a: string)
    ensures Lines(Rest(a)) == [] && Rest(Rest(a)) == Rest(a)
  {
    if a != "" && a[|a| - 1] != '\n' {
      RestIsRest(a[..|a| - 1]);
      assert Rest(a)[..|Rest(a)| - 1] == Rest(a[..|a| - 1]);
    }
  }

  /** What `trim` takes away: the white space and line terminators of ECMAScript. */
  predicate IsWhite(c: char) {
    || '\U{9}' <= c <= '\U{D}' || c == ' ' || c == '\U{A0}' || c == '\U{1680}' || '\U{2000}' <= c <= '\U{200A}'
    || c == '\U{2028}' || c == '\U{2029}' || c == '\U{202F}' || c == '\U{205F}' || c == '\U{3000}' || c == '\U{FEFF}'
  }

  function TrimStart(s: string): string { if s != "" && IsWhite(s[0]) then TrimStart(s[1..]) else s }
  function TrimEnd(s: string): string { if s != "" && IsWhite(s[|s| - 1]) then TrimEnd(s[..|s| - 1]) else s }

  /** What a line carries: trimmed, and nothing for any other line. */
  function Payload(line: string): Option<string> {
    if "data: " <= line && TrimEnd(TrimStart(line[6..])) != "" then Some(TrimEnd(TrimStart(line[6..]))) else None
  }

  // ---- Events on the wire ----

  datatype ProxyEvent =
    | PStart
    | PBegin(kind: Kind, index: int)
    | PDelta(kind: Kind, index: int, delta: string)
    | PEnd(kind: Kind, index: int)
    | PToolBegin(index: int, id: string, name: string)
    | PToolDelta(index: int, delta: string)
    | PToolEnd(index: int)
    | PDone(reason: Reason)
    | PError(reason: Reason)

  /** What the server leaves of an event. */
  function Strip(e: Event): ProxyEvent {
    match e
    case Start => PStart
    case Begin(kind, i) => PBegin(kind, i)
    case Delta(kind, i, d) => PDelta(kind, i, d)
    case End(kind, i, _) => PEnd(kind, i)
    case ToolBegin(i, id, name) => PToolBegin(i, id, name)
    case ToolDelta(i, d) => PToolDelta(i, d)
    case ToolEnd(i, _) => PToolEnd(i)
    case Done(reason) => PDone(reason)
    case Error(reason) => PError(reason)
  }

  /** `JSON.stringify` and `JSON.parse` of whole events. */
  datatype Wire = Wire(encode: ProxyEvent -> string, decode: string -> Option<ProxyEvent>)

  /** An encoded event is one line without white space around it, and decodes to the event. */
  ghost predicate Faithful(wire: Wire) {
    forall e ::
      && wire.decode(wire.encode(e)) == Some(e)
      && '\n' !in wire.encode(e)
      && wire.encode(e) != ""
      && !IsWhite(wire.encode(e)[0]) && !IsWhite(wire.encode(e)[|wire.encode(e)| - 1])
  }

  // ---- Rebuilding ----

  /** A block under construction; a call keeps the text of its arguments until it ends. */
  datatype Slot =
    | ProseSlot(kind: Kind, text: string)
    | CallSlot(id: string, name: string, arguments: Json, partialJson: Option<string>)

  predicate Falsy(j: Json) {
    match j
    case Null => true
    case Bool(b) => !b
    case Number(text) => text == "0" || text == "-0"
    case Str(text) => text == ""
    case _ => false
  }

  /** `value || {}` */
  function OrEmpty(j: Json): Json { if Falsy(j) then Object([]) else j }

  function ParseArguments(parse: string -> Json, text: string): Json {
    if text == "" then Object([]) else OrEmpty(parse(text))
  }

  datatype Outcome = Emits(event: Event) | Ignores | Throws

  /** The new slot, if there is one, and what the consumer sees. */
  function ProcessSlot(parse: string -> Json, slots: map<int, Slot>, e: ProxyEvent): (map<int, Slot>, Outcome) {
    match e
    case PStart => (slots, Emits(Start))
    case PBegin(kind, i) => (slots[i := ProseSlot(kind, "")], Emits(Begin(kind, i)))
    case PDelta(kind, i, d) =>
      if i in slots && slots[i].ProseSlot? && slots[i].kind == kind
      then (slots[i := ProseSlot(kind, slots[i].text + d)], Emits(Delta(kind, i, d)))
      else (slots, Throws)
    case PEnd(kind, i) =>
      if i in slots && slots[i].ProseSlot? && slots[i].kind == kind
      then (slots, Emits(End(kind, i, slots[i].text)))
      else (slots, Throws)
    case PToolBegin(i, id, name) => (slots[i := CallSlot(id, name, Object([]), Some(""))], Emits(ToolBegin(i, id, name)))
    case PToolDelta(i, d) =>
      if i in slots && slots[i].CallSlot? then
        var text := (if slots[i].partialJson.Some? then slots[i].partialJson.value else "undefined") + d;
        (slots[i := slots[i].(arguments := ParseArguments(parse, text), partialJson := Some(text))], Emits(ToolDelta(i, d)))
      else (slots, Throws)
    case PToolEnd(i) =>
      if i in slots && slots[i].CallSlot?
      then (slots[i := slots[i].(partialJson := None)], Emits(ToolEnd(i, ToolCall(slots[i].id, slots[i].name, slots[i].arguments))))
      else (slots, Ignores)
    case PDone(reason) => (slots, Emits(Done(reason)))
    case PError(reason) => (slots, Emits(Error(reason)))
  }

  /** The client: the message so far, the events pushed, and whether it has given up. */
  datatype Client = Client(slots: map<int, Slot>, events: seq<Event>, failed: bool)

  const NEW_CLIENT := Client(map[], [], false)

  function TakeEvent(parse: string -> Json, c: Client, e: ProxyEvent): Client {
    var (slots, outcome) := ProcessSlot(parse, c.slots, e);
    match outcome
    case Emits(event) => Client(slots, c.events + [event], false)
    case Ignores => Client(slots, c.events, false)
    case Throws => Client(slots, c.events, true)
  }

  function TakeLine(wire: Wire, parse: string -> Json, c: Client, line: string): Client {
    if c.failed || Payload(line).None? then c
    else
      var e := wire.decode(Payload(line).value);
      if e.None? then c.(failed := true) else TakeEvent(parse, c, e.value)
  }

  function TakeLines(wire: Wire, parse: string -> Json, c: Client, lines: seq<string>): Client {
    if lines == [] then c else TakeLine(wire, parse, TakeLines(wire, parse, c, lines[..|lines| - 1]), lines[|lines| - 1])
  }

  lemma {:induction false} TakeLinesJoin(wire: Wire, parse: string -> Json, c: Client, a: seq<string>, b: seq<string>)
    ensures TakeLines(wire, parse, c, a + b) == TakeLines(wire, parse, TakeLines(wire, parse, c, a), b)
  {
    if b == [] {
      assert a + b == a;
    } else {
      assert (a + b)[..|a + b| - 1] == a + b[..|b| - 1];
      TakeLinesJoin(wire, parse, c, a, b[..|b| - 1]);
    }
  }

  lemma {:induction false} FailedStays(wire: Wire, parse: string -> Json, c: Client, lines: seq<string>)
    requires c.failed
    ensures TakeLines(wire, parse, c, lines) == c
  {
    if lines != [] { FailedStays(wire, parse, c, lines[..|lines| - 1]); }
  }

  class ProxyStream {
    var content: map<int, Slot>
    var events: seq<Event>

    constructor ()
      ensures content == map[] && events == []
    {
      content, events := map[], [];
    }

    /** `processProxyEvent` */
    method ProcessProxyEvent(parse: string -> Json, e: ProxyEvent) returns (outcome: Outcome)
      modifies this`content
      ensures (content, outcome) == ProcessSlot(parse, old(content), e)
    {
      match e {
        case PStart => return Emits(Start);
        case PBegin(kind, i) =>
          content := content[i := ProseSlot(kind, "")];
          return Emits(Begin(kind, i));
        case PDelta(kind, i, d) =>
          if i in content && content[i].ProseSlot? && content[i].kind == kind {
            content := content[i := content[i].(text := content[i].text + d)];
            return Emits(Delta(kind, i, d));
          }
          return Throws;
        case PEnd(kind, i) =>
          if i in content && content[i].ProseSlot? && content[i].kind == kind {
            return Emits(End(kind, i, content[i].text));
          }
          return Throws;
        case PToolBegin(i, id, name) =>
          content := content[i := CallSlot(id, name, Object([]), Some(""))];
          return Emits(ToolBegin(i, id, name));
        case PToolDelta(i, d) =>
          if i in content && content[i].CallSlot? {
            var text := (if content[i].partialJson.Some? then content[i].partialJson.value else "undefined") + d;
            content := content[i := content[i].(partialJson := Some(text), arguments := ParseArguments(parse, text))];
            return Emits(ToolDelta(i, d));
          }
          return Throws;
        case PToolEnd(i) =>
          if i in content && content[i].CallSlot? {
            content := content[i := content[i].(partialJson := None)];
            return Emits(ToolEnd(i, ToolCall(content[i].id, content[i].name, content[i].arguments)));
          }
          return Ignores;
        case PDone(reason) => return Emits(Done(reason));
        case PError(reason) => return Emits(Error(reason));
      }
    }

    /** The lines of one read; true if one of them throws. */
    method TakeRead(wire: Wire, parse: string -> Json, lines: seq<string>) returns (failed: bool)
      modifies this
      ensures Client(content, events, failed) == TakeLines(wire, parse, Client(old(content), old(events), false), lines)
    {
      hide ProcessSlot, Payload, TakeLines;
      failed := false;
      ghost var start := Client(content, events, false);
      LinesStart(wire, parse, start, lines);
      var i := 0;
      while i < |lines|
        invariant 0 <= i <= |lines|
        invariant Client(content, events, false) == TakeLines(wire, parse, start, lines[..i])
      {
        LinesNext(wire, parse, start, lines, i);
        var data := Payload(lines[i]);
        if data.Some? {
          var e := wire.decode(data.value);
          if e.None? { return true; }
          var outcome := ProcessProxyEvent(parse, e.value);
          match outcome {
            case Emits(event) => events := events + [event];
            case Ignores =>
            case Throws => return true;
          }
        }
        i := i + 1;
      }
      assert lines[..i] == lines;
    }

    /** The read loop of `streamProxy`, and its end. `aborted` is what the signal says after each read
        and at the end. `k` reads are used; an unfinished last line is not. */
    method Stream(wire: Wire, parse: string -> Json, chunks: seq<string>, aborted: nat -> bool) returns (k: nat, failure: Option<Reason>)
      requires content == map[] && events == []
      modifies this
      ensures k <= |chunks|
      ensures (forall j: nat | j < k :: !aborted(j)) && (failure.None? ==> !aborted(k))
      ensures failure == Some(Failed) ==>
        k > 0 && !TakeLines(wire, parse, NEW_CLIENT, Lines(Join(chunks[..k - 1]))).failed
      ensures var c := TakeLines(wire, parse, NEW_CLIENT, Lines(Join(chunks[..k])));
        && content == c.slots
        && events == c.events + (if failure.Some? then [Error(failure.value)] else [])
        && (failure == Some(Failed) <==> c.failed)
        && (failure.None? ==> k == |chunks|)
        && (failure == Some(Aborted) ==> aborted(k))
        && (failure.None? || failure == Some(Failed) || failure == Some(Aborted))
        && (failure != Some(Aborted) ==> c == TakeLines(wire, parse, NEW_CLIENT, Lines(Join(chunks))))
    {
      hide TakeLines, Lines, Rest;
      k, failure := 0, None;
      var buffer := "";
      StreamStart(wire, parse, chunks);
      while k < |chunks|
        invariant k <= |chunks| && buffer == Rest(Join(chunks[..k])) && forall j: nat | j < k :: !aborted(j)
        invariant Client(content, events, false) == TakeLines(wire, parse, NEW_CLIENT, Lines(Join(chunks[..k])))
      {
        if aborted(k) {
          events := events + [Error(Aborted)];
          return k, Some(Aborted);
        }
        StreamNext(wire, parse, chunks, k);
        var text := buffer + chunks[k];
        buffer := Rest(text);
        var failed := TakeRead(wire, parse, Lines(text));
        k := k + 1;
        if failed {
          FailedForGood(wire, parse, chunks, k);
          events := events + [Error(Failed)];
          return k, Some(Failed);
        }
      }
      if aborted(k) {
        events := events + [Error(Aborted)];
        return k, Some(Aborted);
      }
      assert chunks[..k] == chunks;
    }
  }

  lemma StreamStart(wire: Wire, parse: string -> Json, chunks: seq<string>)
    ensures Rest(Join(chunks[..0])) == "" && TakeLines(wire, parse, NEW_CLIENT, Lines(Join(chunks[..0]))) == NEW_CLIENT
  {
    assert chunks[..0] == [] && Join([]) == "" && Lines("") == [] && Rest("") == "";
  }

  lemma StreamNext(wire: Wire, parse: string -> Json, chunks: seq<string>, k: nat)
    requires k < |chunks|
    ensures var a, b := Join(chunks[..k]), Join(chunks[..k + 1]);
      && Rest(b) == Rest(Rest(a) + chunks[k])
      && TakeLines(wire, parse, NEW_CLIENT, Lines(b)) ==
        TakeLines(wire, parse, TakeLines(wire, parse, NEW_CLIENT, Lines(a)), Lines(Rest(a) + chunks[k]))
  {
    JoinNext(chunks, k);
    LinesJoin(Join(chunks[..k]), chunks[k]);
    TakeLinesJoin(wire, parse, NEW_CLIENT, Lines(Join(chunks[..k])), Lines(Rest(Join(chunks[..k])) + chunks[k]));
  }

  lemma LinesStart(wire: Wire, parse: string -> Json, c: Client, lines: seq<string>)
    ensures TakeLines(wire, parse, c, lines[..0]) == c
  {
  }

  /** One more line, and nothing more after a failure. */
  lemma LinesNext(wire: Wire, parse: string -> Json, c: Client, lines: seq<string>, i: nat)
    requires i < |lines|
    ensures TakeLines(wire, parse, c, lines[..i + 1]) == TakeLine(wire, parse, TakeLines(wire, parse, c, lines[..i]), lines[i])
    ensures TakeLines(wire, parse, c, lines[..i + 1]).failed ==> TakeLines(wire, parse, c, lines) == TakeLines(wire, parse, c, lines[..i + 1])
  {
    assert lines[..i + 1][..i] == lines[..i];
    TakeLinesJoin(wire, parse, c, lines[..i + 1], lines[i + 1..]);
    assert lines == lines[..i + 1] + lines[i + 1..];
    if TakeLines(wire, parse, c, lines[..i + 1]).failed {
      FailedStays(wire, parse, TakeLines(wire, parse, c, lines[..i + 1]), lines[i + 1..]);
    }
  }

  lemma {:induction false} JoinConcat(a: seq<string>, b: seq<string>)
    ensures Join(a + b) == Join(a) + Join(b)
  {
    if b == [] {
      assert a + b == a;
    } else {
      assert (a + b)[..|a + b| - 1] == a + b[..|b| - 1];
      JoinConcat(a, b[..|b| - 1]);
    }
  }

  /** After a failure the rest of the text does not matter. */
  lemma FailedForGood(wire: Wire, parse: string -> Json, chunks: seq<string>, k: nat)
    requires k <= |chunks| && TakeLines(wire, parse, NEW_CLIENT, Lines(Join(chunks[..k]))).failed
    ensures TakeLines(wire, parse, NEW_CLIENT, Lines(Join(chunks))) == TakeLines(wire, parse, NEW_CLIENT, Lines(Join(chunks[..k])))
  {
    assert chunks == chunks[..k] + chunks[k..];
    JoinConcat(chunks[..k], chunks[k..]);
    var a, b := Join(chunks[..k]), Join(chunks[k..]);
    LinesJoin(a, b);
    TakeLinesJoin(wire, parse, NEW_CLIENT, Lines(a), Lines(Rest(a) + b));
    FailedStays(wire, parse, TakeLines(wire, parse, NEW_CLIENT, Lines(a)), Lines(Rest(a) + b));
  }

  // ---- The wire ----

  function Message(wire: Wire, e: Event): string { "data: " + wire.encode(Strip(e)) + "\n\n" }

  function WireText(wire: Wire, events: seq<Event>): string {
    if events == [] then "" else WireText(wire, events[..|events| - 1]) + Message(wire, events[|events| - 1])
  }

  /** The client's handling of the stripped events, one after the other. */
  function Replay(parse: string -> Json, events: seq<Event>): Client {
    if events == [] then NEW_CLIENT
    else
      var c := Replay(parse, events[..|events| - 1]);
      if c.failed then c else TakeEvent(parse, c, Strip(events[|events| - 1]))
  }

  lemma {:induction false} OneLine(s: string)
    requires '\n' !in s
    ensures Lines(s) == [] && Rest(s) == s
  {
    if s != "" {
      var init := s[..|s| - 1];
      assert s[|s| - 1] in s && forall c | c in init :: c in s;
      OneLine(init);
    }
  }

  lemma LineEnds(s: string)
    requires '\n' !in s
    ensures Lines(s + "\n") == [s] && Rest(s + "\n") == ""
  {
    OneLine(s);
    assert (s + "\n")[..|s|] == s;
  }

  lemma MessageLines(wire: Wire, e: Event)
    requires Faithful(wire)
    ensures Lines(Message(wire, e)) == ["data: " + wire.encode(Strip(e)), ""] && Rest(Message(wire, e)) == ""
  {
    var line := "data: " + wire.encode(Strip(e));
    assert '\n' !in "data: " && '\n' !in wire.encode(Strip(e));
    LineEnds(line);
    LineEnds("");
    hide Faithful, Lines, Rest;
    LinesJoin(line + "\n", "\n");
    assert "" + "\n" == "\n" && Message(wire, e) == line + "\n" + "\n";
  }

  lemma PayloadOf(x: string)
    requires x != "" && !IsWhite(x[0]) && !IsWhite(x[|x| - 1])
    ensures Payload("data: " + x) == Some(x) && Payload("") == None
  {
    assert ("data: " + x)[6..] == x;
  }

  lemma {:induction false} WireReplays(wire: Wire, parse: string -> Json, events: seq<Event>)
    requires Faithful(wire)
    ensures Rest(WireText(wire, events)) == ""
    ensures TakeLines(wire, parse, NEW_CLIENT, Lines(WireText(wire, events))) == Replay(parse, events)
  {
    if events != [] {
      var init, e := events[..|events| - 1], events[|events| - 1];
      var x := wire.encode(Strip(e));
      var a := WireText(wire, init);
      WireReplays(wire, parse, init);
      LinesJoin(a, Message(wire, e));
      MessageLines(wire, e);
      PayloadOf(x);
      assert wire.decode(x) == Some(Strip(e));
      hide Faithful, Lines, Rest, Payload, TakeEvent;
      assert Rest(a) + Message(wire, e) == Message(wire, e);
      TakeLinesJoin(wire, parse, NEW_CLIENT, Lines(a), ["data: " + x, ""]);
      TwoLines(wire, parse, Replay(parse, init), "data: " + x, "");
    }
  }

  lemma TwoLines(wire: Wire, parse: string -> Json, c: Client, a: string, b: string)
    ensures TakeLines(wire, parse, c, [a, b]) == TakeLine(wire, parse, TakeLine(wire, parse, c, a), b)
  {
    assert [a, b][..1] == [a] && [a][..0] == [];
    assert TakeLines(wire, parse, c, [a]) == TakeLine(wire, parse, c, a);
  }

  // ---- The message comes back ----

  /** What the client makes of a block: arguments that are falsy become `{}`. */
  function Back(b: Block): Block {
    if b.Prose? then b else b.(arguments := OrEmpty(b.arguments))
  }

  function BackEvent(e: Event): Event {
    if e.ToolEnd? then e.(call := Back(e.call)) else e
  }

  function BackEvents(events: seq<Event>): seq<Event> {
    if events == [] then [] else BackEvents(events[..|events| - 1]) + [BackEvent(events[|events| - 1])]
  }

  function SlotOf(b: Block): Slot {
    if b.Prose? then ProseSlot(b.kind, b.text) else CallSlot(b.id, b.name, OrEmpty(b.arguments), None)
  }

  function SlotsOf(content: seq<Block>): map<int, Slot> { map i: int | 0 <= i < |content| :: SlotOf(content[i]) }

  function WritingSlot(parse: string -> Json, w: Writing): Slot
    requires !w.Nothing?
  {
    if w.InProse? then ProseSlot(w.kind, w.text) else CallSlot(w.id, w.name, ParseArguments(parse, w.json), Some(w.json))
  }

  /** The slots of some blocks and of the one being written. */
  function SlotsWith(parse: string -> Json, content: seq<Block>, w: Writing): map<int, Slot> {
    if w.Nothing? then SlotsOf(content) else SlotsOf(content)[|content| := WritingSlot(parse, w)]
  }

  /** The slots are the blocks that the reader has seen. */
  ghost predicate Tracks(parse: string -> Json, r: Reading, slots: map<int, Slot>) {
    match r
    case Fresh => slots == map[]
    case Reading(content, w) => slots == SlotsWith(parse, content, w)
    case Finished(content, reason) => if IsFailure(reason) then HasBlocks(slots, content) else slots == SlotsOf(content)
    case Malformed => true
  }

  /** All these blocks, and perhaps one more. */
  ghost predicate HasBlocks(slots: map<int, Slot>, content: seq<Block>) {
    && (forall i | 0 <= i < |content| :: i in slots && slots[i] == SlotOf(content[i]))
    && (forall i | i in slots :: 0 <= i <= |content|)
  }

  lemma OneTracks(json: JsonText, r: Reading, e: Event, slots: map<int, Slot>)
    requires Inverse(json) && Tracks(json.parse, r, slots) && !ReadOne(json.stringify, r, e).Malformed?
    ensures ProcessSlot(json.parse, slots, Strip(e)).1 == Emits(BackEvent(e))
    ensures Tracks(json.parse, ReadOne(json.stringify, r, e), ProcessSlot(json.parse, slots, Strip(e)).0)
  {
  }

  lemma {:induction false} ReplayTracks(json: JsonText, events: seq<Event>)
    requires Inverse(json) && !Read(json.stringify, events).Malformed?
    ensures var c := Replay(json.parse, events);
      !c.failed && c.events == BackEvents(events) && Tracks(json.parse, Read(json.stringify, events), c.slots)
  {
    if events != [] {
      var init, e := events[..|events| - 1], events[|events| - 1];
      ReplayTracks(json, init);
      OneTracks(json, Read(json.stringify, init), e, Replay(json.parse, init).slots);
      hide Inverse, Tracks, ProcessSlot, ReadOne, BackEvent;
    }
  }

  /** The end of a call with arguments other than null, false, zero and the empty string. */
  predicate Truthful(e: Event) {
    e.ToolEnd? && e.call.ToolCall? ==>
      var a := e.call.arguments;
      a != Null && a != Bool(false) && a != Number("0") && a != Number("-0") && a != Str("")
  }

  predicate AllTruthful(events: seq<Event>) { forall i | 0 <= i < |events| :: Truthful(events[i]) }

  predicate CallsEndCalls(events: seq<Event>) { forall i | 0 <= i < |events| && events[i].ToolEnd? :: events[i].call.ToolCall? }

  lemma SnocEqual<T>(a: seq<T>, x: T, b: seq<T>, y: T)
    ensures a + [x] == b + [y] <==> a == b && x == y
  {
    var s, t := a + [x], b + [y];
    if s == t {
      assert |a| == |b| && s[|a|] == t[|b|];
      assert s[..|a|] == a && t[..|b|] == b;
    }
  }

  lemma BackEventSame(e: Event)
    requires e.ToolEnd? ==> e.call.ToolCall?
    ensures BackEvent(e) == e <==> Truthful(e)
  {
  }

  lemma AllTruthfulSnoc(events: seq<Event>, e: Event)
    ensures AllTruthful(events + [e]) <==> AllTruthful(events) && Truthful(e)
  {
    hide Truthful;
    var all := events + [e];
    assert all[|events|] == e && forall i | 0 <= i < |events| :: all[i] == events[i];
  }

  lemma {:induction false} BackIsSame(events: seq<Event>)
    requires CallsEndCalls(events)
    ensures BackEvents(events) == events <==> AllTruthful(events)
  {
    if events != [] {
      var init, e := events[..|events| - 1], events[|events| - 1];
      assert events == init + [e];
      assert CallsEndCalls(init) by { assert forall i | 0 <= i < |init| :: init[i] == events[i]; }
      BackEventSame(e);
      hide Truthful, BackEvent, AllTruthful, CallsEndCalls;
      BackIsSame(init);
      SnocEqual(BackEvents(init), BackEvent(e), init, e);
      AllTruthfulSnoc(init, e);
    }
  }

  lemma {:induction false} CallsAreCalls(stringify: Json -> string, events: seq<Event>, i: nat)
    requires !Read(stringify, events).Malformed? && i < |events| && events[i].ToolEnd?
    ensures events[i].call.ToolCall?
  {
    ReadPrefix(stringify, events, i + 1);
    ReadSnoc(stringify, events[..i], events[i]);
    assert events[..i] + [events[i]] == events[..i + 1];
  }

  /** The block that an `error` has cut off stays as it was. */
  lemma CutOffStays(json: JsonText, events: seq<Event>, content: seq<Block>, reason: Reason)
    requires Inverse(json) && Read(json.stringify, events) == Finished(content, reason)
    ensures Replay(json.parse, events).slots == SlotsWith(json.parse, content, CutOff(json.stringify, events))
  {
    hide Inverse, ProcessSlot, TakeEvent;
    var init, e := events[..|events| - 1], events[|events| - 1];
    ReplayTracks(json, init);
    ReplayTracks(json, events);
    ErrorKeeps(json.parse, Replay(json.parse, init), e);
  }

  lemma ErrorKeeps(parse: string -> Json, c: Client, e: Event)
    ensures e.Error? ==> TakeEvent(parse, c, Strip(e)).slots == c.slots
  {
  }

  /** Any finished well-bracketed stream, stripped, sent and read in any pieces, gives the message back,
      with the block that an error has cut off as far as it had come; and it gives the consumer the same
      events exactly when no call has arguments that count as false. */
  lemma RoundTrip(wire: Wire, json: JsonText, events: seq<Event>, content: seq<Block>, reason: Reason, chunks: seq<string>)
    requires Faithful(wire) && Inverse(json)
    requires Read(json.stringify, events) == Finished(content, reason)
    requires Join(chunks) == WireText(wire, events)
    ensures var c := TakeLines(wire, json.parse, NEW_CLIENT, Lines(Join(chunks)));
      && c == Client(SlotsWith(json.parse, content, CutOff(json.stringify, events)), BackEvents(events), false)
      && (c.events == events <==> AllTruthful(events))
  {
    hide Faithful, Inverse, Read, TakeLines, Lines, AllTruthful, SlotsWith, CutOff, Replay;
    WireReplays(wire, json.parse, events);
    ReplayTracks(json, events);
    CutOffStays(json, events, content, reason);
    assert CallsEndCalls(events) by {
      forall i | 0 <= i < |events| && events[i].ToolEnd? ensures events[i].call.ToolCall? {
        CallsAreCalls(json.stringify, events, i);
      }
    }
    BackIsSame(events);
  }

  /** The client drops what follows the last newline: an event whose line is not ended is lost. */
  lemma UnendedLineLost(wire: Wire, events: seq<Event>, tail: string)
    requires Faithful(wire) && '\n' !in tail
    ensures Lines(WireText(wire, events) + tail) == Lines(WireText(wire, events))
  {
    WireReplays(wire, _ => Null, events);
    LinesJoin(WireText(wire, events), tail);
    OneLine(tail);
    assert "" + tail == tail;
  }
}
