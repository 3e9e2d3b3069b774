/**
 What the client of the proxy makes of its input, in terms of that input: the lines and payloads of a
 text, and for any sequence of events, well-bracketed or not, which block an event belongs to, when the
 client gives up, and what the consumer gets.
 */
module ProxyLaws {
  import opened Basics
  import opened MessageStream
  import opened Faux
  import opened Proxies

  // ---- Lines and payloads ----

  /** Each line with a newline behind it. */
  function Ended(lines: seq<string>): string {
    if lines == [] then "" else Ended(lines[..|lines| - 1]) + lines[|lines| - 1] + "\n"
  }

  /** The lines and the rest are the text cut at its newlines. */
  lemma {:induction false} LinesAre(text: string)
    ensures Ended(Lines(text)) + Rest(text) == text
    ensures '\n' !in Rest(text) && forall i | 0 <= i < |Lines(text)| :: '\n' !in Lines(text)[i]
  {
    if text != "" {
      var init, last := text[..|text| - 1], text[|text| - 1];
      LinesAre(init);
      assert text == init + [last];
      if last == '\n' {
        assert Lines(text)[..|Lines(init)|] == Lines(init) && Ended(Lines(text)) == Ended(Lines(init)) + Rest(init) + "\n";
      }
    }
  }

  ghost predicate AllWhite(s: string, i: nat, j: nat) { forall k | i <= k < j <= |s| :: IsWhite(s[k]) }

  lemma {:induction false} TrimStartIs(s: string) returns (i: nat)
    ensures i <= |s| && TrimStart(s) == s[i..] && AllWhite(s, 0, i) && (i < |s| ==> !IsWhite(s[i]))
  {
    i := 0;
    if s != "" && IsWhite(s[0]) {
      i := TrimStartIs(s[1..]);
      i := i + 1;
      assert forall k | 0 < k < i :: s[k] == s[1..][k - 1];
    }
  }

  lemma {:induction false} TrimEndIs(s: string) returns (j: nat)
    ensures j <= |s| && TrimEnd(s) == s[..j] && AllWhite(s, j, |s|) && (j > 0 ==> !IsWhite(s[j - 1]))
  {
    j := |s|;
    if s != "" && IsWhite(s[|s| - 1]) {
      var init := s[..|s| - 1];
      j := TrimEndIs(init);
      assert forall k | j <= k < |init| :: s[k] == init[k];
    }
  }

  /** A line carries something exactly if it begins with `data: ` and is not blank behind that; then it
      carries what stands from the first to the last character that is not white. */
  lemma PayloadIs(line: string) returns (i: nat, j: nat)
    ensures Payload(line).Some? <==> "data: " <= line && !AllWhite(line, 6, |line|)
    ensures Payload(line).Some? ==>
      && 6 <= i < j <= |line| && Payload(line) == Some(line[i..j])
      && AllWhite(line, 6, i) && !IsWhite(line[i]) && !IsWhite(line[j - 1]) && AllWhite(line, j, |line|)
  {
    i, j := 0, 0;
    if "data: " <= line {
      hide IsWhite, TrimStart, TrimEnd, AllWhite;
      var s := line[6..];
      i := TrimStartIs(s);
      var t := s[i..];
      j := TrimEndIs(t);
      WhiteSlice(line, 6, s, 0, i);
      SubSlice(line, 6, |line|, i, |s|);
      WhiteSlice(line, 6 + i, t, j, |t|);
      if i < |s| {
        assert t[0] == s[i] == line[6 + i];
        NotAllWhite(t, 0, 0, |t|);
        NotAllWhite(line, 6, 6 + i, |line|);
        assert t[j - 1] == line[6 + i + j - 1];
      }
      assert t[..j] == line[6 + i..6 + i + j];
      i, j := 6 + i, 6 + i + j;
    }
  }

  lemma NotAllWhite(s: string, i: nat, k: nat, j: nat)
    requires i <= k < j <= |s| && !IsWhite(s[k])
    ensures !AllWhite(s, i, j)
  {
  }

  lemma WhiteSlice(s: string, n: nat, tail: string, i: nat, j: nat)
    requires n <= |s| && tail == s[n..] && i <= j <= |tail|
    ensures AllWhite(tail, i, j) <==> AllWhite(s, n + i, n + j)
  {
    hide IsWhite;
    assert forall k | i <= k < j :: tail[k] == s[n + k];
    assert forall k | n + i <= k < n + j :: s[k] == tail[k - n];
  }

  // ---- Which block an event belongs to ----

  ghost predicate Begins(e: Event, i: int) { (e.Begin? || e.ToolBegin?) && e.index == i }

  /** Block `i` was last begun by event `j`. */
  ghost predicate LastBegun(es: seq<Event>, i: int, j: nat) {
    j < |es| && Begins(es[j], i) && forall m | j < m < |es| :: !Begins(es[m], i)
  }

  /** The deltas for block `i`. */
  function Said(es: seq<Event>, i: int): string {
    if es == [] then ""
    else
      var last := es[|es| - 1];
      Said(es[..|es| - 1], i) + if (last.Delta? || last.ToolDelta?) && last.index == i then last.delta else ""
  }

  ghost predicate NotEnded(es: seq<Event>, i: int) { forall m | 0 <= m < |es| && es[m].ToolEnd? :: es[m].index != i }

  /** What the client has of a block, after these events since it was begun. */
  ghost predicate IsSlot(parse: string -> Json, begun: Event, since: seq<Event>, i: int, slot: Slot) {
    match begun
    case Begin(kind, _) => slot == ProseSlot(kind, Said(since, i))
    case ToolBegin(_, id, name) =>
      && slot.CallSlot? && slot.id == id && slot.name == name
      && (NotEnded(since, i) ==> slot.partialJson == Some(Said(since, i)) && slot.arguments == ParseArguments(parse, Said(since, i)))
    case _ => false
  }

  /** Block by block: there is one exactly if it was begun, and then it is of the kind it was last begun
      as, with what its deltas have said since. */
  ghost predicate SlotIs(parse: string -> Json, es: seq<Event>, i: int) {
    var slots := Replay(parse, es).slots;
    && (i in slots <==> exists j: nat :: LastBegun(es, i, j))
    && (forall j: nat | LastBegun(es, i, j) :: i in slots && IsSlot(parse, es[j], es[j + 1..], i, slots[i]))
  }

  lemma LastBegunSnoc(es: seq<Event>, e: Event, i: int, j: nat)
    ensures LastBegun(es + [e], i, j) <==> if Begins(e, i) then j == |es| else LastBegun(es, i, j)
  {
    var all := es + [e];
    assert all[|es|] == e && forall m | 0 <= m < |es| :: all[m] == es[m];
  }

  lemma SinceSnoc(es: seq<Event>, e: Event, i: int, j: nat)
    requires j < |es|
    ensures var since := es[j + 1..];
      && (es + [e])[j + 1..] == since + [e]
      && Said(since + [e], i) == (if (e.Delta? || e.ToolDelta?) && e.index == i then Said(since, i) + e.delta else Said(since, i))
      && (NotEnded(since + [e], i) <==> NotEnded(since, i) && !(e.ToolEnd? && e.index == i))
  {
    var since := es[j + 1..];
    assert (since + [e])[..|since|] == since;
    assert (since + [e])[|since|] == e && forall m | 0 <= m < |since| :: (since + [e])[m] == since[m];
  }

  /** The event fits the blocks that there are. */
  ghost predicate Fits(es: seq<Event>, e: Event) {
    match e
    case Delta(kind, i, _) => exists j: nat :: LastBegun(es, i, j) && es[j] == Begin(kind, i)
    case End(kind, i, _) => exists j: nat :: LastBegun(es, i, j) && es[j] == Begin(kind, i)
    case ToolDelta(i, _) => exists j: nat :: LastBegun(es, i, j) && es[j].ToolBegin?
    case _ => true
  }

  lemma ReplaySnoc(parse: string -> Json, es: seq<Event>, e: Event)
    ensures var c := Replay(parse, es);
      Replay(parse, es + [e]) == if c.failed then c else TakeEvent(parse, c, Strip(e))
  {
    assert (es + [e])[..|es|] == es;
  }

  /** One event that fits leaves the blocks as they should be. */
  lemma SlotNext(parse: string -> Json, es: seq<Event>, e: Event, i: int)
    requires !Replay(parse, es).failed && SlotIs(parse, es, i) && !Replay(parse, es + [e]).failed
    ensures SlotIs(parse, es + [e], i)
  {
    hide Replay, LastBegun, ParseArguments, IsSlot, Begins, ProcessSlot;
    ReplaySnoc(parse, es, e);
    LastBegunAll(es, e, i);
    var slots, slots' := Replay(parse, es).slots, Replay(parse, es + [e]).slots;
    if Begins(e, i) {
      JustBegun(parse, slots, e, i);
      assert (es + [e])[|es| + 1..] == [] && (es + [e])[|es|] == e;
      assert LastBegun(es + [e], i, |es|);
    } else {
      SlotStays(parse, slots, e, i);
      forall j: nat | LastBegun(es, i, j)
        ensures j < |es| && IsSlot(parse, (es + [e])[j], (es + [e])[j + 1..], i, slots'[i])
      {
        BegunFacts(es, i, j);
        SlotGrows(parse, es[j], es[j + 1..], i, slots, e);
        SinceSnoc(es, e, i, j);
      }
    }
  }

  lemma BegunFacts(es: seq<Event>, i: int, j: nat)
    requires LastBegun(es, i, j)
    ensures j < |es| && Begins(es[j], i)
  {
  }

  lemma LastBegunAll(es: seq<Event>, e: Event, i: int)
    ensures forall j: nat :: LastBegun(es + [e], i, j) <==> if Begins(e, i) then j == |es| else LastBegun(es, i, j)
  {
    forall j: nat ensures LastBegun(es + [e], i, j) <==> if Begins(e, i) then j == |es| else LastBegun(es, i, j) {
      LastBegunSnoc(es, e, i, j);
    }
  }

  lemma JustBegun(parse: string -> Json, slots: map<int, Slot>, e: Event, i: int)
    requires Begins(e, i)
    ensures var slots' := ProcessSlot(parse, slots, Strip(e)).0;
      i in slots' && IsSlot(parse, e, [], i, slots'[i])
  {
  }

  lemma SlotStays(parse: string -> Json, slots: map<int, Slot>, e: Event, i: int)
    requires !Begins(e, i)
    ensures i in ProcessSlot(parse, slots, Strip(e)).0 <==> i in slots
  {
  }

  lemma SlotGrows(parse: string -> Json, begun: Event, since: seq<Event>, i: int, slots: map<int, Slot>, e: Event)
    requires !Begins(e, i) && !ProcessSlot(parse, slots, Strip(e)).1.Throws?
    requires i in slots && IsSlot(parse, begun, since, i, slots[i])
    ensures var slots' := ProcessSlot(parse, slots, Strip(e)).0;
      i in slots' && IsSlot(parse, begun, since + [e], i, slots'[i])
  {
    hide ParseArguments, NotEnded, Said;
    SinceSnoc([begun] + since, e, i, 0);
    assert ([begun] + since)[1..] == since;
  }

  lemma {:induction false} SlotsAre(parse: string -> Json, es: seq<Event>, i: int)
    requires !Replay(parse, es).failed
    ensures SlotIs(parse, es, i)
  {
    if es == [] {
      NothingBegun(i);
    } else {
      var init, last := es[..|es| - 1], es[|es| - 1];
      assert init + [last] == es;
      ReplaySnoc(parse, init, last);
      hide SlotIs, Replay, TakeEvent;
      SlotsAre(parse, init, i);
      SlotNext(parse, init, last, i);
    }
  }

  lemma NothingBegun(i: int)
    ensures forall j: nat :: !LastBegun([], i, j)
  {
  }

  lemma OneLastBegun(es: seq<Event>, i: int, j: nat, j': nat)
    requires LastBegun(es, i, j) && LastBegun(es, i, j')
    ensures j == j'
  {
  }

  // ---- When the client gives up, and what the consumer gets ----

  /** What the consumer gets for an event that fits: the event, an end with what the deltas said, and
      nothing for the end of a call that was not begun. */
  ghost predicate IsEmitted(es: seq<Event>, e: Event, emitted: seq<Event>) {
    match e
    case End(kind, i, _) => forall j: nat | LastBegun(es, i, j) :: emitted == [End(kind, i, Said(es[j + 1..], i))]
    case ToolEnd(i, _) =>
      && ((forall j: nat | LastBegun(es, i, j) :: !es[j].ToolBegin?) ==> emitted == [])
      && forall j: nat | LastBegun(es, i, j) && es[j].ToolBegin? ::
           |emitted| == 1 && emitted[0].ToolEnd? && emitted[0].index == i
           && emitted[0].call.ToolCall? && emitted[0].call.id == es[j].id && emitted[0].call.name == es[j].name
    case _ => emitted == [e]
  }

  /** One more event: the client gives up exactly if it does not fit, and else passes it on. */
  lemma OneMore(parse: string -> Json, es: seq<Event>, e: Event)
    requires !Replay(parse, es).failed
    ensures var c, c' := Replay(parse, es), Replay(parse, es + [e]);
      && (c'.failed <==> !Fits(es, e))
      && (Fits(es, e) ==> c.events <= c'.events && IsEmitted(es, e, c'.events[|c.events|..]))
      && (!Fits(es, e) ==> c'.events == c.events)
  {
    hide Replay, ParseArguments, LastBegun, NotEnded, Said;
    ReplaySnoc(parse, es, e);
    if e.Delta? || e.End? || e.ToolDelta? || e.ToolEnd? {
      var i := e.index;
      SlotsAre(parse, es, i);
      if j: nat :| LastBegun(es, i, j) {
        BegunFacts(es, i, j);
        forall j': nat | LastBegun(es, i, j') ensures j' == j { OneLastBegun(es, i, j, j'); }
      }
    }
  }

  /** Over any sequence of events: the client gives up exactly if some event does not fit those before it. */
  lemma {:induction false} GivesUpIff(parse: string -> Json, es: seq<Event>)
    ensures Replay(parse, es).failed <==> exists k | 0 <= k < |es| :: !Fits(es[..k], es[k])
  {
    if es == [] {
    } else {
      var n := |es| - 1;
      var init := es[..n];
      assert init + [es[n]] == es;
      GivesUpIff(parse, init);
      ReplaySnoc(parse, init, es[n]);
      assert forall k | 0 <= k < n :: init[k] == es[k] && init[..k] == es[..k];
      hide Replay, Fits;
      if Replay(parse, init).failed {
        var k :| 0 <= k < n && !Fits(init[..k], init[k]);
        assert !Fits(es[..k], es[k]);
      } else {
        OneMore(parse, init, es[n]);
        assert forall k | 0 <= k < n :: Fits(init[..k], init[k]);
      }
    }
  }

  // ---- From lines to events ----

  /** An event that the server would leave as this one. */
  function Restored(e: ProxyEvent): (r: Event)
    ensures Strip(r) == e
  {
    match e
    case PStart => Start
    case PBegin(kind, i) => Begin(kind, i)
    case PDelta(kind, i, d) => Delta(kind, i, d)
    case PEnd(kind, i) => End(kind, i, "")
    case PToolBegin(i, id, name) => ToolBegin(i, id, name)
    case PToolDelta(i, d) => ToolDelta(i, d)
    case PToolEnd(i) => ToolEnd(i, ToolCall("", "", Null))
    case PDone(reason) => Done(reason)
    case PError(reason) => Error(reason)
  }

  ghost predicate Undecodable(wire: Wire, line: string) {
    Payload(line).Some? && wire.decode(Payload(line).value).None?
  }

  /** The events that the lines carry. */
  function Carried(wire: Wire, lines: seq<string>): seq<Event> {
    if lines == [] then []
    else
      var init, payload := Carried(wire, lines[..|lines| - 1]), Payload(lines[|lines| - 1]);
      var e := if payload.Some? then wire.decode(payload.value) else None;
      if e.Some? then init + [Restored(e.value)] else init
  }

  /** The client gives up exactly if a line carries something that is no event, or the events carried
      do not fit; until then it is where these events lead. */
  lemma {:induction false} LinesLead(wire: Wire, parse: string -> Json, lines: seq<string>)
    ensures var c := TakeLines(wire, parse, NEW_CLIENT, lines);
      && (c.failed <==>
            (exists k | 0 <= k < |lines| :: Undecodable(wire, lines[k])) || Replay(parse, Carried(wire, lines)).failed)
      && (!c.failed ==> c == Replay(parse, Carried(wire, lines)))
  {
    hide Payload, ProcessSlot, Replay, TakeEvent;
    ReplayNothing(parse);
    if lines != [] {
      var n := |lines| - 1;
      var init, last := lines[..n], lines[n];
      LinesLead(wire, parse, init);
      assert forall k | 0 <= k < n :: init[k] == lines[k];
      assert Undecodable(wire, lines[n]) || !Undecodable(wire, lines[n]);
      var payload := Payload(last);
      if payload.Some? && wire.decode(payload.value).Some? {
        ReplaySnoc(parse, Carried(wire, init), Restored(wire.decode(payload.value).value));
      }
    }
  }

  lemma ReplayNothing(parse: string -> Json)
    ensures Replay(parse, []) == NEW_CLIENT
  {
  }
}
