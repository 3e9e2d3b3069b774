/**
 The part-to-block machine of the Google providers (`streamGoogleVertex`, `streamResponse` and the
 empty-stream retries of the Gemini CLI provider).
 */
module GoogleBlocks {
  import opened Basics
  import opened MessageStream

  const MAX_EMPTY_STREAM_RETRIES := 2

  /** A missing id is the empty string; `now` is what the clock says if the call needs an id. */
  datatype FunctionCall = FunctionCall(id: string, name: Option<string>, arguments: Option<Json>, now: nat)

  datatype Part = Part(text: Option<string>, thought: bool, call: Option<FunctionCall>)

  /** What one read of the response gives: a chunk, or an abort or another failure that is thrown. */
  datatype Item = Chunk(parts: seq<Part>, finish: Option<Reason>) | Fault(aborted: bool)

  function GeneratedId(call: FunctionCall, counter: nat): string {
    (if call.name.Some? then call.name.value else "undefined") + "_" + Decimal(call.now) + "_" + Decimal(counter)
  }

  // ---- The machine ----

  /** `open` says whether there is a current block, which is then the last of `content`. */
  datatype Machine = Machine(content: seq<Block>, open: bool, events: seq<Event>, started: bool, counter: nat)

  predicate Valid(m: Machine) { m.open ==> m.content != [] && m.content[|m.content| - 1].Prose? }

  function Last(m: Machine): Block
    requires m.content != []
  {
    m.content[|m.content| - 1]
  }

  function Push(m: Machine, e: Event): Machine { m.(events := m.events + [e]) }

  function EnsureStarted(m: Machine): Machine {
    if m.started then m else Push(m, Start).(started := true)
  }

  function CloseBlock(m: Machine): (m'': Machine)
    requires Valid(m)
    ensures Valid(m'')
  {
    if m.open then Push(m, End(Last(m).kind, |m.content| - 1, Last(m).text)).(open := false) else m
  }

  function OpenBlock(m: Machine, kind: Kind): (m'': Machine)
    requires Valid(m)
    ensures Valid(m'')
  {
    if m.open && Last(m).kind == kind then m
    else
      var m' := CloseBlock(m);
      Push(EnsureStarted(m'.(content := m'.content + [Prose(kind, "")], open := true)), Begin(kind, |m'.content|))
  }

  function TakeText(m: Machine, kind: Kind, text: string): (m'': Machine)
    requires Valid(m)
    ensures Valid(m'')
  {
    var m' := OpenBlock(m, kind);
    var n := |m'.content| - 1;
    Push(m'.(content := m'.content[..n] + [Prose(kind, m'.content[n].text + text)]), Delta(kind, n, text))
  }

  predicate HasId(content: seq<Block>, id: string) {
    exists i | 0 <= i < |content| :: content[i].ToolCall? && content[i].id == id
  }

  predicate NeedsNewId(m: Machine, call: FunctionCall) { call.id == "" || HasId(m.content, call.id) }

  function CallBlock(m: Machine, call: FunctionCall): Block {
    ToolCall(if NeedsNewId(m, call) then GeneratedId(call, m.counter + 1) else call.id,
      if call.name.Some? then call.name.value else "",
      if call.arguments.Some? && !call.arguments.value.Null? then call.arguments.value else Object([]))
  }

  function TakeCall(stringify: Json -> string, m: Machine, call: FunctionCall): (m'': Machine)
    requires Valid(m)
    ensures Valid(m'')
  {
    var b, m' := CallBlock(m, call), CloseBlock(m);
    var n := |m.content|;
    var s := EnsureStarted(m'.(content := m.content + [b], counter := if NeedsNewId(m, call) then m.counter + 1 else m.counter));
    s.(events := s.events + [ToolBegin(n, b.id, b.name), ToolDelta(n, stringify(b.arguments)), ToolEnd(n, b)])
  }

  function KindOf(part: Part): Kind { if part.thought then Thinking else Text }

  function TakePart(stringify: Json -> string, m: Machine, part: Part): (m': Machine)
    requires Valid(m)
    ensures Valid(m')
  {
    var m' := if part.text.Some? then TakeText(m, KindOf(part), part.text.value) else m;
    if part.call.Some? then TakeCall(stringify, m', part.call.value) else m'
  }

  function TakeParts(stringify: Json -> string, m: Machine, parts: seq<Part>): (m': Machine)
    requires Valid(m)
    ensures Valid(m')
  {
    if parts == [] then m
    else TakePart(stringify, TakeParts(stringify, m, parts[..|parts| - 1]), parts[|parts| - 1])
  }

  // ---- Bracketing ----

  /** The reader sees the blocks of the message, the last one still being written if it is open. */
  ghost predicate Bracketed(stringify: Json -> string, m: Machine) {
    && Valid(m)
    && (!m.started ==> m.events == [] && m.content == [] && !m.open)
    && (m.started ==> Read(stringify, m.events) == Seen(m))
  }

  function Seen(m: Machine): Reading
    requires Valid(m)
  {
    if m.open then Reading(m.content[..|m.content| - 1], InProse(Last(m).kind, Last(m).text))
    else Reading(m.content, Nothing)
  }

  lemma EnsureStartedReads(stringify: Json -> string, m: Machine)
    requires !m.started ==> m.events == []
    requires m.started ==> Read(stringify, m.events).Reading?
    ensures EnsureStarted(m).started
    ensures Read(stringify, EnsureStarted(m).events) == if m.started then Read(stringify, m.events) else Reading([], Nothing)
  {
    ReadSnoc(stringify, m.events, Start);
  }

  lemma CloseBracketed(stringify: Json -> string, m: Machine)
    requires Bracketed(stringify, m)
    ensures Bracketed(stringify, CloseBlock(m)) && !CloseBlock(m).open && CloseBlock(m).content == m.content
  {
    hide Read;
    if m.open {
      ReadSnoc(stringify, m.events, End(Last(m).kind, |m.content| - 1, Last(m).text));
      assert m.content[..|m.content| - 1] + [Last(m)] == m.content;
    }
  }

  lemma OpenBracketed(stringify: Json -> string, m: Machine, kind: Kind)
    requires Bracketed(stringify, m)
    ensures var m' := OpenBlock(m, kind);
      Bracketed(stringify, m') && m'.started && m'.open && Last(m').kind == kind
  {
    hide Read;
    if !(m.open && Last(m).kind == kind) {
      CloseBracketed(stringify, m);
      var a := CloseBlock(m);
      var b := a.(content := a.content + [Prose(kind, "")], open := true);
      EnsureStartedReads(stringify, b);
      ReadSnoc(stringify, EnsureStarted(b).events, Begin(kind, |a.content|));
      assert b.content[..|a.content|] == a.content;
    }
  }

  lemma TextBracketed(stringify: Json -> string, m: Machine, kind: Kind, text: string)
    requires Bracketed(stringify, m)
    ensures Bracketed(stringify, TakeText(m, kind, text)) && TakeText(m, kind, text).started
  {
    hide OpenBlock, Read;
    OpenBracketed(stringify, m, kind);
    var m' := OpenBlock(m, kind);
    var n := |m'.content| - 1;
    ReadSnoc(stringify, m'.events, Delta(kind, n, text));
    assert TakeText(m, kind, text).content[..n] == m'.content[..n];
  }

  lemma CallEventsRead(stringify: Json -> string, events: seq<Event>, content: seq<Block>, b: Block)
    requires b.ToolCall? && Read(stringify, events) == Reading(content, Nothing)
    ensures var n, delta := |content|, stringify(b.arguments);
      Read(stringify, events + [ToolBegin(n, b.id, b.name), ToolDelta(n, delta), ToolEnd(n, b)]) == Reading(content + [b], Nothing)
  {
    hide Read;
    var n, delta := |content|, stringify(b.arguments);
    var one := events + [ToolBegin(n, b.id, b.name)];
    var two := one + [ToolDelta(n, delta)];
    ReadSnoc(stringify, events, ToolBegin(n, b.id, b.name));
    ReadSnoc(stringify, one, ToolDelta(n, delta));
    ReadSnoc(stringify, two, ToolEnd(n, b));
    assert "" + delta == delta;
    assert events + [ToolBegin(n, b.id, b.name), ToolDelta(n, delta), ToolEnd(n, b)] == two + [ToolEnd(n, b)];
  }

  lemma CallBracketed(stringify: Json -> string, m: Machine, call: FunctionCall)
    requires Bracketed(stringify, m)
    ensures Bracketed(stringify, TakeCall(stringify, m, call)) && TakeCall(stringify, m, call).started
  {
    CloseBracketed(stringify, m);
    var b, a := CallBlock(m, call), CloseBlock(m);
    assert b.ToolCall?;
    var c := a.(content := m.content + [b], counter := if NeedsNewId(m, call) then m.counter + 1 else m.counter);
    EnsureStartedReads(stringify, c);
    var s := EnsureStarted(c);
    assert Read(stringify, s.events) == Reading(m.content, Nothing);
    CallEventsRead(stringify, s.events, m.content, b);
    hide Read, CallBlock, CloseBlock;
  }

  lemma PartBracketed(stringify: Json -> string, m: Machine, part: Part)
    requires Bracketed(stringify, m)
    ensures Bracketed(stringify, TakePart(stringify, m, part))
  {
    hide TakeText, TakeCall, Read, Seen;
    assert Valid(m);
    if part.text.Some? { TextBracketed(stringify, m, KindOf(part), part.text.value); }
    var m' := if part.text.Some? then TakeText(m, KindOf(part), part.text.value) else m;
    if part.call.Some? { CallBracketed(stringify, m', part.call.value); }
  }

  // ---- No two prose blocks of a kind side by side ----

  ghost predicate NoTwins(content: seq<Block>) {
    forall i | 0 < i < |content| && content[i - 1].Prose? && content[i].Prose? :: content[i - 1].kind != content[i].kind
  }

  /** Before the stream ends only a tool call leaves no block open. */
  ghost predicate Alternating(m: Machine) {
    && Valid(m) && NoTwins(m.content)
    && (!m.open && m.content != [] ==> Last(m).ToolCall?)
  }

  predicate Continues(m: Machine, kind: Kind)
    requires Valid(m)
  {
    m.open && Last(m).kind == kind
  }

  /** The blocks before the one that a text goes to, and what that block says already. */
  function Before(m: Machine, kind: Kind): seq<Block>
    requires Valid(m)
  {
    if Continues(m, kind) then m.content[..|m.content| - 1] else m.content
  }

  function SaidBefore(m: Machine, kind: Kind): string
    requires Valid(m)
  {
    if Continues(m, kind) then Last(m).text else ""
  }

  /** The content after each operation, whatever events it pushes. */
  lemma TextContent(m: Machine, kind: Kind, text: string)
    requires Valid(m)
    ensures TakeText(m, kind, text).open
    ensures TakeText(m, kind, text).content == Before(m, kind) + [Prose(kind, SaidBefore(m, kind) + text)]
    ensures Continues(m, kind) ==> m.content == Before(m, kind) + [Prose(kind, SaidBefore(m, kind))]
  {
  }

  lemma CallContent(stringify: Json -> string, m: Machine, call: FunctionCall)
    requires Valid(m)
    ensures var m' := TakeCall(stringify, m, call); !m'.open && m'.content == m.content + [CallBlock(m, call)]
  {
  }

  lemma NoTwinsSnoc(content: seq<Block>, b: Block)
    ensures NoTwins(content + [b]) <==>
      && NoTwins(content)
      && (content == [] || content[|content| - 1].ToolCall? || b.ToolCall? || content[|content| - 1].kind != b.kind)
  {
    var all := content + [b];
    assert forall i | 0 <= i < |content| :: all[i] == content[i];
    if NoTwins(all) && content != [] {
      assert all[|content| - 1] == content[|content| - 1] && all[|content|] == b;
    }
  }

  lemma TextAlternating(m: Machine, kind: Kind, text: string)
    requires Alternating(m)
    ensures Alternating(TakeText(m, kind, text))
  {
    hide TakeText, NoTwins;
    TextContent(m, kind, text);
    NoTwinsSnoc(Before(m, kind), Prose(kind, SaidBefore(m, kind)));
    NoTwinsSnoc(Before(m, kind), Prose(kind, SaidBefore(m, kind) + text));
  }

  lemma CallAlternating(stringify: Json -> string, m: Machine, call: FunctionCall)
    requires Alternating(m)
    ensures Alternating(TakeCall(stringify, m, call))
  {
    hide TakeCall, NoTwins;
    CallContent(stringify, m, call);
    NoTwinsSnoc(m.content, CallBlock(m, call));
  }

  lemma PartAlternating(stringify: Json -> string, m: Machine, part: Part)
    requires Alternating(m)
    ensures Alternating(TakePart(stringify, m, part))
  {
    hide TakeText, TakeCall, NoTwins;
    assert Valid(m);
    if part.text.Some? { TextAlternating(m, KindOf(part), part.text.value); }
    var m' := if part.text.Some? then TakeText(m, KindOf(part), part.text.value) else m;
    if part.call.Some? { CallAlternating(stringify, m', part.call.value); }
  }

  // ---- Nothing is lost, merged or reordered ----

  /** The characters said, each with its kind, and the calls made. */
  datatype Letter = Said(kind: Kind, c: char) | Called(name: string, arguments: Json)

  function Spelled(kind: Kind, text: string): seq<Letter> {
    seq(|text|, i requires 0 <= i < |text| => Said(kind, text[i]))
  }

  function BlockLetters(b: Block): seq<Letter> {
    if b.Prose? then Spelled(b.kind, b.text) else [Called(b.name, b.arguments)]
  }

  function Letters(content: seq<Block>): seq<Letter> {
    if content == [] then [] else Letters(content[..|content| - 1]) + BlockLetters(content[|content| - 1])
  }

  function CallLetter(call: FunctionCall): Letter {
    Called(if call.name.Some? then call.name.value else "",
      if call.arguments.Some? && !call.arguments.value.Null? then call.arguments.value else Object([]))
  }

  function PartLetters(part: Part): seq<Letter> {
    (if part.text.Some? then Spelled(if part.thought then Thinking else Text, part.text.value) else []) +
    if part.call.Some? then [CallLetter(part.call.value)] else []
  }

  function PartsLetters(parts: seq<Part>): seq<Letter> {
    if parts == [] then [] else PartsLetters(parts[..|parts| - 1]) + PartLetters(parts[|parts| - 1])
  }

  lemma LettersSnoc(content: seq<Block>, b: Block)
    ensures Letters(content + [b]) == Letters(content) + BlockLetters(b)
  {
    assert (content + [b])[..|content|] == content;
  }

  lemma SpelledConcat(kind: Kind, a: string, b: string)
    ensures Spelled(kind, a + b) == Spelled(kind, a) + Spelled(kind, b)
  {
  }

  lemma TextLetters(m: Machine, kind: Kind, text: string)
    requires Valid(m)
    ensures Letters(TakeText(m, kind, text).content) == Letters(m.content) + Spelled(kind, text)
  {
    hide TakeText, Letters, Spelled;
    TextContent(m, kind, text);
    var init, said := Before(m, kind), SaidBefore(m, kind);
    LettersSnoc(init, Prose(kind, said));
    LettersSnoc(init, Prose(kind, said + text));
    SpelledConcat(kind, said, text);
    SpelledNothing(kind);
    assert Letters(m.content) == Letters(init) + Spelled(kind, said);
    assert Letters(init) + (Spelled(kind, said) + Spelled(kind, text)) == Letters(init) + Spelled(kind, said) + Spelled(kind, text);
  }

  lemma SpelledNothing(kind: Kind)
    ensures Spelled(kind, "") == []
  {
  }

  lemma CallLetters(m: Machine, call: FunctionCall)
    ensures BlockLetters(CallBlock(m, call)) == [CallLetter(call)]
  {
  }

  lemma PartLettersKept(stringify: Json -> string, m: Machine, part: Part)
    requires Valid(m)
    ensures Letters(TakePart(stringify, m, part).content) == Letters(m.content) + PartLetters(part)
  {
    hide TakeText, Letters, Spelled, TakeCall, CallBlock;
    var said := if part.text.Some? then Spelled(KindOf(part), part.text.value) else [];
    if part.text.Some? { TextLetters(m, KindOf(part), part.text.value); }
    var m' := if part.text.Some? then TakeText(m, KindOf(part), part.text.value) else m;
    if part.call.Some? {
      var b := CallBlock(m', part.call.value);
      LettersSnoc(m'.content, b);
      CallContent(stringify, m', part.call.value);
      CallLetters(m', part.call.value);
    }
    assert Letters(m'.content) == Letters(m.content) + said;
  }

  /** What the machine keeps when it has taken all of `letters`. */
  ghost predicate Keeps(stringify: Json -> string, m: Machine, letters: seq<Letter>) {
    Bracketed(stringify, m) && Alternating(m) && Letters(m.content) == letters
  }

  lemma PartKept(stringify: Json -> string, m: Machine, part: Part, letters: seq<Letter>)
    requires Valid(m) && Keeps(stringify, m, letters)
    ensures Keeps(stringify, TakePart(stringify, m, part), letters + PartLetters(part))
  {
    hide Bracketed, Alternating, Letters, PartLetters, TakePart;
    PartBracketed(stringify, m, part);
    PartAlternating(stringify, m, part);
    PartLettersKept(stringify, m, part);
  }

  /** What every stretch of parts keeps: the events are bracketed, the blocks alternate, and the
      blocks say what the parts said. */
  lemma {:induction false} PartsKept(stringify: Json -> string, m: Machine, parts: seq<Part>, letters: seq<Letter>)
    requires Valid(m) && Keeps(stringify, m, letters)
    ensures Keeps(stringify, TakeParts(stringify, m, parts), letters + PartsLetters(parts))
  {
    hide Keeps, PartLetters, TakePart, Valid;
    if parts == [] {
      assert letters + [] == letters;
    } else {
      var init, last := parts[..|parts| - 1], parts[|parts| - 1];
      PartsKept(stringify, m, init, letters);
      PartKept(stringify, TakeParts(stringify, m, init), last, letters + PartsLetters(init));
      Assoc(letters, PartsLetters(init), PartLetters(last));
    }
  }

  // ---- The ids of the calls ----

  ghost predicate DistinctIds(content: seq<Block>) {
    forall i, j | 0 <= i < j < |content| && content[i].ToolCall? && content[j].ToolCall? :: content[i].id != content[j].id
  }

  /** The id made up for a call is already taken. */
  predicate Clashes(m: Machine, call: FunctionCall) {
    NeedsNewId(m, call) && HasId(m.content, GeneratedId(call, m.counter + 1))
  }

  lemma CallIds(m: Machine, call: FunctionCall)
    ensures DistinctIds(m.content + [CallBlock(m, call)]) <==> DistinctIds(m.content) && !Clashes(m, call)
  {
    var b, content := CallBlock(m, call), m.content;
    var id := if NeedsNewId(m, call) then GeneratedId(call, m.counter + 1) else call.id;
    var all := content + [b];
    assert HasId(content, id) <==> Clashes(m, call);
    assert forall i | 0 <= i < |content| :: all[i] == content[i];
    assert all[|content|] == b;
  }

  /** A text changes no id and makes none up. */
  lemma TextIds(m: Machine, kind: Kind, text: string, id: string)
    requires Valid(m)
    ensures var m' := TakeText(m, kind, text);
      m'.counter == m.counter && HasId(m'.content, id) == HasId(m.content, id) && DistinctIds(m'.content) == DistinctIds(m.content)
  {
    TextContent(m, kind, text);
    var base, said := Before(m, kind), SaidBefore(m, kind);
    assert TakeText(m, kind, text).counter == m.counter;
    hide TakeText;
    ProseHasNoId(base, Prose(kind, said), id);
    ProseHasNoId(base, Prose(kind, said + text), id);
  }

  lemma ProseHasNoId(content: seq<Block>, b: Block, id: string)
    requires b.Prose?
    ensures HasId(content + [b], id) == HasId(content, id) && DistinctIds(content + [b]) == DistinctIds(content)
  {
    var all := content + [b];
    assert forall i | 0 <= i < |content| :: all[i] == content[i];
    assert all[|content|] == b;
  }

  function AfterText(m: Machine, part: Part): (m': Machine)
    requires Valid(m)
    ensures Valid(m')
  {
    if part.text.Some? then TakeText(m, KindOf(part), part.text.value) else m
  }

  predicate PartClashes(m: Machine, part: Part)
    requires Valid(m)
  {
    part.call.Some? && Clashes(m, part.call.value)
  }

  lemma PartIds(stringify: Json -> string, m: Machine, part: Part)
    requires Valid(m)
    ensures DistinctIds(TakePart(stringify, m, part).content) <==> DistinctIds(m.content) && !PartClashes(m, part)
  {
    hide TakeText, TakeCall, DistinctIds, HasId;
    var m' := AfterText(m, part);
    if part.call.Some? {
      var call := part.call.value;
      if part.text.Some? {
        TextIds(m, KindOf(part), part.text.value, call.id);
        TextIds(m, KindOf(part), part.text.value, GeneratedId(call, m.counter + 1));
      }
      CallContent(stringify, m', call);
      CallIds(m', call);
    } else if part.text.Some? {
      TextIds(m, KindOf(part), part.text.value, "");
    }
  }

  predicate ClashAt(stringify: Json -> string, m: Machine, parts: seq<Part>, k: nat)
    requires Valid(m) && k < |parts|
  {
    PartClashes(TakeParts(stringify, m, parts[..k]), parts[k])
  }

  /** The ids of the calls are distinct exactly when no id made up for one was already there. */
  lemma {:induction false} IdsDistinctIff(stringify: Json -> string, m: Machine, parts: seq<Part>)
    requires Valid(m) && DistinctIds(m.content)
    ensures DistinctIds(TakeParts(stringify, m, parts).content)
      <==> forall k | 0 <= k < |parts| :: !ClashAt(stringify, m, parts, k)
  {
    hide TakePart, DistinctIds, PartClashes, ClashAt;
    if parts != [] {
      var init, last := parts[..|parts| - 1], parts[|parts| - 1];
      IdsDistinctIff(stringify, m, init);
      PartIds(stringify, TakeParts(stringify, m, init), last);
      LastClash(stringify, m, parts);
      forall k | 0 <= k < |init| ensures ClashAt(stringify, m, parts, k) == ClashAt(stringify, m, init, k) {
        EarlierClash(stringify, m, parts, k);
      }
    }
  }

  lemma LastClash(stringify: Json -> string, m: Machine, parts: seq<Part>)
    requires Valid(m) && parts != []
    ensures var init := parts[..|parts| - 1];
      ClashAt(stringify, m, parts, |init|) == PartClashes(TakeParts(stringify, m, init), parts[|init|])
  {
  }

  lemma EarlierClash(stringify: Json -> string, m: Machine, parts: seq<Part>, k: nat)
    requires Valid(m) && k < |parts| - 1
    ensures ClashAt(stringify, m, parts, k) == ClashAt(stringify, m, parts[..|parts| - 1], k)
  {
    hide TakeParts, PartClashes;
    assert parts[..|parts| - 1][..k] == parts[..k];
  }

  /** A call comes out with its name and arguments, which may be missing, and the id it came with, unless
      that is missing or another call has it already. */
  lemma CallIs(stringify: Json -> string, m: Machine, call: FunctionCall)
    requires Valid(m)
    ensures var m' := TakeCall(stringify, m, call);
      var taken := exists i | 0 <= i < |m.content| :: m.content[i].ToolCall? && m.content[i].id == call.id;
      && m'.content != [] && Last(m').ToolCall?
      && Last(m').name == (match call.name case Some(name) => name case None => "")
      && (match call.arguments
          case Some(Null) => Last(m').arguments == Object([])
          case Some(arguments) => Last(m').arguments == arguments
          case None => Last(m').arguments == Object([]))
      && (call.id != "" && !taken ==> Last(m').id == call.id && m'.counter == m.counter)
      && (call.id == "" || taken ==>
            && m'.counter == m.counter + 1
            && Last(m').id == (match call.name case Some(name) => name case None => "undefined")
                 + "_" + Decimal(call.now) + "_" + Decimal(m.counter + 1))
  {
    hide Decimal;
    CallContent(stringify, m, call);
  }

  // ---- Made-up ids never meet each other ----

  lemma SuffixUnique(a: string, x: string, b: string, y: string)
    requires IsDigits(x) && IsDigits(y) && a + "_" + x == b + "_" + y
    ensures x == y
  {
    var s, t := a + "_" + x, b + "_" + y;
    assert s[|a|] == '_' && t[|b|] == '_';
    assert |a| == |b|;
    assert s[|a| + 1..] == x && t[|b| + 1..] == y;
  }

  lemma GeneratedDiffer(c: FunctionCall, n: nat, c': FunctionCall, n': nat)
    requires GeneratedId(c, n) == GeneratedId(c', n')
    ensures n == n'
  {
    var a := (if c.name.Some? then c.name.value else "undefined") + "_" + Decimal(c.now);
    var b := (if c'.name.Some? then c'.name.value else "undefined") + "_" + Decimal(c'.now);
    assert GeneratedId(c, n) == a + "_" + Decimal(n) && GeneratedId(c', n') == b + "_" + Decimal(n');
    SuffixUnique(a, Decimal(n), b, Decimal(n'));
    DecimalRoundTrip(n);
    DecimalRoundTrip(n');
  }

  /** Not of the form that the machine makes up. */
  ghost predicate Foreign(id: string) { forall c: FunctionCall, n: nat :: id != GeneratedId(c, n) }

  ghost predicate MadeUp(id: string, counter: nat) { exists c: FunctionCall, n: nat :: n <= counter && id == GeneratedId(c, n) }

  ghost predicate KnownIds(m: Machine) {
    forall i | 0 <= i < |m.content| && m.content[i].ToolCall? :: Foreign(m.content[i].id) || MadeUp(m.content[i].id, m.counter)
  }

  lemma KnownNeverClash(m: Machine, call: FunctionCall)
    requires KnownIds(m)
    ensures !Clashes(m, call)
  {
    var id := GeneratedId(call, m.counter + 1);
    if HasId(m.content, id) {
      var i :| 0 <= i < |m.content| && m.content[i].ToolCall? && m.content[i].id == id;
      if MadeUp(id, m.counter) {
        var c: FunctionCall, n: nat :| n <= m.counter && id == GeneratedId(c, n);
        GeneratedDiffer(call, m.counter + 1, c, n);
      }
    }
  }

  lemma CallKnown(stringify: Json -> string, m: Machine, call: FunctionCall)
    requires Valid(m) && KnownIds(m) && (call.id == "" || Foreign(call.id))
    ensures KnownIds(TakeCall(stringify, m, call))
  {
    CallContent(stringify, m, call);
    var m', b := TakeCall(stringify, m, call), CallBlock(m, call);
    assert m'.counter == if NeedsNewId(m, call) then m.counter + 1 else m.counter;
    assert Foreign(b.id) || MadeUp(b.id, m'.counter);
    hide TakeCall, CallBlock, Foreign, NeedsNewId;
    forall i | 0 <= i < |m'.content| && m'.content[i].ToolCall?
      ensures Foreign(m'.content[i].id) || MadeUp(m'.content[i].id, m'.counter)
    {
      if i < |m.content| { assert m'.content[i] == m.content[i]; }
    }
  }

  lemma TextKnown(m: Machine, kind: Kind, text: string)
    requires Valid(m) && KnownIds(m)
    ensures KnownIds(TakeText(m, kind, text))
  {
    hide TakeText, Foreign, MadeUp;
    TextContent(m, kind, text);
    TextIds(m, kind, text, "");
    var m', base := TakeText(m, kind, text), Before(m, kind);
    assert forall i | 0 <= i < |base| :: m'.content[i] == base[i] == m.content[i];
  }

  ghost predicate ForeignId(part: Part) { part.call.Some? && part.call.value.id != "" ==> Foreign(part.call.value.id) }

  lemma PartKnown(stringify: Json -> string, m: Machine, part: Part)
    requires Valid(m) && KnownIds(m) && ForeignId(part)
    ensures KnownIds(TakePart(stringify, m, part)) && !PartClashes(m, part)
  {
    hide TakeText, TakeCall, KnownIds, Foreign, Clashes;
    if part.text.Some? { TextKnown(m, KindOf(part), part.text.value); }
    if part.call.Some? {
      CallKnown(stringify, AfterText(m, part), part.call.value);
      KnownNeverClash(m, part.call.value);
    }
  }

  /** If the ids that the model sends do not look made up, the ids of all calls are distinct. */
  lemma {:induction false} ForeignIdsDistinct(stringify: Json -> string, m: Machine, parts: seq<Part>)
    requires Valid(m) && DistinctIds(m.content) && KnownIds(m)
    requires forall i | 0 <= i < |parts| :: ForeignId(parts[i])
    ensures KnownIds(TakeParts(stringify, m, parts)) && DistinctIds(TakeParts(stringify, m, parts).content)
  {
    if parts != [] {
      var init, last := parts[..|parts| - 1], parts[|parts| - 1];
      assert forall i | 0 <= i < |init| :: init[i] == parts[i];
      assert ForeignId(last);
      hide ForeignId, KnownIds, DistinctIds, TakePart, Valid;
      ForeignIdsDistinct(stringify, m, init);
      PartKnown(stringify, TakeParts(stringify, m, init), last);
      PartIds(stringify, TakeParts(stringify, m, init), last);
    }
  }

  /** Two calls do get one id, if the model sends the one that is made up next. */
  lemma ProvidedIdClashes(stringify: Json -> string, now: nat)
    ensures var call := FunctionCall("", Some("f"), None, now);
      var first := call.(id := GeneratedId(call, 1));
      var parts := [Part(None, false, Some(first)), Part(None, false, Some(call))];
      !DistinctIds(TakeParts(stringify, Machine([], false, [], false, 0), parts).content)
  {
    hide Decimal;
    var call := FunctionCall("", Some("f"), None, now);
    var first := call.(id := GeneratedId(call, 1));
    var parts := [Part(None, false, Some(first)), Part(None, false, Some(call))];
    var m := Machine([], false, [], false, 0);
    assert parts[..1] == [parts[0]] && [parts[0]][..0] == [];
    assert TakeParts(stringify, m, [parts[0]]) == TakeCall(stringify, m, first);
    assert first.id == "f" + "_" + Decimal(now) + "_" + Decimal(1);
    assert first.id[0] == 'f';
    CallContent(stringify, m, first);
    var m' := TakeCall(stringify, m, first);
    assert m'.counter == 0 && m'.content[0].id == first.id;
    assert TakeParts(stringify, m, parts) == TakeCall(stringify, m', call);
    assert HasId(m'.content, GeneratedId(call, 1));
    CallIds(m', call);
    CallContent(stringify, m', call);
  }
}
