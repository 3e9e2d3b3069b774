/**
 The delta emitter of the faux provider: splitting a text into chunks (`splitStringByTokenSize`) and
 streaming a whole message in deltas (`streamWithDeltas`).
 */
module Faux {
  import opened MessageStream

  function Join(chunks: seq<string>): string {
    if chunks == [] then "" else Join(chunks[..|chunks| - 1]) + chunks[|chunks| - 1]
  }

  lemma JoinSnoc(chunks: seq<string>, c: string)
    ensures Join(chunks + [c]) == Join(chunks) + c
  {
    assert (chunks + [c])[..|chunks|] == chunks;
  }

  function CharSize(tokenSize: nat): nat { if tokenSize == 0 then 1 else 4 * tokenSize }

  /** The state of the loop: all chunks so far have the drawn size, but for the one that ends the text. */
  ghost predicate Chunked(text: string, tokenSize: nat -> nat, chunks: seq<string>, index: nat) {
    && Join(chunks) == text[..if index < |text| then index else |text|]
    && (index == 0 <==> chunks == [])
    && (forall i | 0 <= i < |chunks| :: 0 < |chunks[i]| <= CharSize(tokenSize(i)))
    && (forall i | 0 <= i < |chunks| && (i < |chunks| - 1 || index < |text|) :: |chunks[i]| == CharSize(tokenSize(i)))
  }

  lemma NextChunk(text: string, tokenSize: nat -> nat, chunks: seq<string>, index: nat, end: nat)
    requires index < |text| && Chunked(text, tokenSize, chunks, index)
    requires var size := CharSize(tokenSize(|chunks|)); end == if index + size < |text| then index + size else |text|
    ensures Chunked(text, tokenSize, chunks + [text[index..end]], index + CharSize(tokenSize(|chunks|)))
  {
    hide Join, CharSize;
    JoinSnoc(chunks, text[index..end]);
    assert text[..end] == text[..index] + text[index..end];
    assert CharSize(tokenSize(|chunks|)) > 0 by { SomeChars(tokenSize(|chunks|)); }
  }

  lemma SomeChars(tokenSize: nat)
    ensures CharSize(tokenSize) > 0
  {
  }

  lemma AllChunked(text: string, tokenSize: nat -> nat, chunks: seq<string>, index: nat)
    requires Chunked(text, tokenSize, chunks, index) && index >= |text|
    ensures Join(chunks) == text && (chunks == [] <==> text == "")
    ensures forall i | 0 <= i < |chunks| :: 0 < |chunks[i]| <= CharSize(tokenSize(i))
    ensures forall i | 0 <= i < |chunks| - 1 :: |chunks[i]| == CharSize(tokenSize(i))
  {
    hide CharSize;
    assert text[..|text|] == text;
  }

  lemma OneChunk(c: string)
    ensures Join([c]) == c
  {
    assert [c][..0] == [] && Join([]) == "" && "" + c == c;
  }

  /** How many chunks a text of `n` characters makes, from chunk `k` on. */
  function ChunkCount(n: nat, tokenSize: nat -> nat, k: nat): nat
    decreases n
  {
    if n == 0 then 0
    else if n <= CharSize(tokenSize(k)) then 1
    else
      SomeChars(tokenSize(k));
      1 + ChunkCount(n - CharSize(tokenSize(k)), tokenSize, k + 1)
  }

  lemma CountNext(n: nat, tokenSize: nat -> nat, k: nat)
    requires n > 0
    ensures CharSize(tokenSize(k)) > 0
    ensures ChunkCount(n, tokenSize, k) ==
      1 + ChunkCount(if n <= CharSize(tokenSize(k)) then 0 else n - CharSize(tokenSize(k)), tokenSize, k + 1)
  {
  }

  function Left(text: string, index: nat): nat { if index < |text| then |text| - index else 0 }

  /** `splitStringByTokenSize`; `tokenSize` is the random size of each token. */
  method SplitStringByTokenSize(text: string, tokenSize: nat -> nat) returns (chunks: seq<string>)
    ensures Join(chunks) == text && chunks != []
    ensures text == "" ==> chunks == [""]
    ensures text != "" ==> forall i | 0 <= i < |chunks| :: 0 < |chunks[i]| <= CharSize(tokenSize(i))
    ensures forall i | 0 <= i < |chunks| - 1 :: |chunks[i]| == CharSize(tokenSize(i))
    ensures |chunks| == if text == "" then 1 else ChunkCount(|text|, tokenSize, 0)
  {
    hide Join, CharSize, ChunkCount;
    chunks := [];
    var index := 0;
    assert Chunked(text, tokenSize, chunks, 0) by { NoChunks(); }
    NothingLeft(tokenSize);
    while index < |text|
      invariant 0 <= index && Chunked(text, tokenSize, chunks, index)
      invariant |chunks| + ChunkCount(Left(text, index), tokenSize, |chunks|) == ChunkCount(|text|, tokenSize, 0)
      decreases |text| - index
    {
      hide Chunked;
      var charSize := CharSize(tokenSize(|chunks|));
      var end := if index + charSize < |text| then index + charSize else |text|;
      NextChunk(text, tokenSize, chunks, index, end);
      CountNext(|text| - index, tokenSize, |chunks|);
      SomeChars(tokenSize(|chunks|));
      chunks := chunks + [text[index..end]];
      index := index + charSize;
    }
    AllChunked(text, tokenSize, chunks, index);
    if |chunks| == 0 {
      OneChunk("");
      chunks := [""];
    }
  }

  lemma NothingLeft(tokenSize: nat -> nat)
    ensures forall k: nat :: ChunkCount(0, tokenSize, k) == 0
  {
  }

  lemma NoChunks()
    ensures Join([]) == ""
  {
  }

  // ---- Streaming a message ----

  function BeginEvent(b: Block, i: nat): Event {
    if b.Prose? then Begin(b.kind, i) else ToolBegin(i, b.id, b.name)
  }

  function DeltaEvent(b: Block, i: nat, d: string): Event {
    if b.Prose? then Delta(b.kind, i, d) else ToolDelta(i, d)
  }

  function EndEvent(b: Block, i: nat): Event {
    if b.Prose? then End(b.kind, i, b.text) else ToolEnd(i, b)
  }

  /** What the deltas of a block come to. */
  function Body(stringify: Json -> string, b: Block): string {
    if b.Prose? then b.text else stringify(b.arguments)
  }

  function WritingOf(b: Block, text: string): Writing {
    if b.Prose? then InProse(b.kind, text) else InCall(b.id, b.name, text)
  }

  lemma BlockReads(stringify: Json -> string, events: seq<Event>, content: seq<Block>, i: nat)
    requires i < |content|
    requires Read(stringify, events) == Reading(content[..i], Nothing)
    ensures Read(stringify, events + [BeginEvent(content[i], i)]) == Reading(content[..i], WritingOf(content[i], ""))
  {
    ReadSnoc(stringify, events, BeginEvent(content[i], i));
  }

  lemma DeltaReads(stringify: Json -> string, events: seq<Event>, content: seq<Block>, i: nat, text: string, d: string)
    requires i < |content|
    requires Read(stringify, events) == Reading(content[..i], WritingOf(content[i], text))
    ensures Read(stringify, events + [DeltaEvent(content[i], i, d)]) == Reading(content[..i], WritingOf(content[i], text + d))
  {
    ReadSnoc(stringify, events, DeltaEvent(content[i], i, d));
  }

  lemma EndReads(stringify: Json -> string, events: seq<Event>, content: seq<Block>, i: nat)
    requires i < |content|
    requires Read(stringify, events) == Reading(content[..i], WritingOf(content[i], Body(stringify, content[i])))
    ensures Read(stringify, events + [EndEvent(content[i], i)]) == Reading(content[..i + 1], Nothing)
  {
    ReadSnoc(stringify, events, EndEvent(content[i], i));
    assert content[..i] + [content[i]] == content[..i + 1];
  }

  lemma AbortReads(stringify: Json -> string, events: seq<Event>)
    requires Read(stringify, events).Fresh? || Read(stringify, events).Reading?
    ensures Read(stringify, events + [Error(Aborted)]) ==
      Finished(if Read(stringify, events).Fresh? then [] else Read(stringify, events).content, Aborted)
  {
    ReadSnoc(stringify, events, Error(Aborted));
  }

  /** How many deltas a block is told in. */
  function Deltas(stringify: Json -> string, b: Block, tokenSize: nat -> nat): nat {
    if Body(stringify, b) == "" then 1 else ChunkCount(|Body(stringify, b)|, tokenSize, 0)
  }

  /** One block: false if the signal is seen before one of its deltas, `seen`. */
  method StreamBlock(stringify: Json -> string, content: seq<Block>, i: nat, before: seq<Event>, tokenSize: nat -> nat, aborted: nat -> bool)
    returns (events: seq<Event>, finished: bool, ghost seen: nat)
    requires i < |content| && Read(stringify, before) == Reading(content[..i], Nothing)
    ensures finished ==> Read(stringify, events) == Reading(content[..i + 1], Nothing)
    ensures !finished ==> Read(stringify, events) == Finished(content[..i], Aborted)
    ensures var n := Deltas(stringify, content[i], tokenSize);
      && (finished ==> forall c: nat | c < n :: !aborted(c))
      && (!finished ==> seen < n && aborted(seen) && forall c: nat | c < seen :: !aborted(c))
  {
    hide Read, Join, ReadOne, Body, ChunkCount, WritingOf, BeginEvent, DeltaEvent, EndEvent;
    var b := content[i];
    seen := 0;
    events := before + [BeginEvent(b, i)];
    BlockReads(stringify, before, content, i);
    var chunks := SplitStringByTokenSize(Body(stringify, b), tokenSize);
    var c := 0;
    BlockStarts(b, chunks);
    while c < |chunks|
      invariant 0 <= c <= |chunks|
      invariant Read(stringify, events) == Reading(content[..i], WritingOf(b, Join(chunks[..c])))
      invariant forall c': nat | c' < c :: !aborted(c')
    {
      if aborted(c) {
        AbortReads(stringify, events);
        return events + [Error(Aborted)], false, c;
      }
      DeltaReads(stringify, events, content, i, Join(chunks[..c]), chunks[c]);
      JoinNext(chunks, c);
      events := events + [DeltaEvent(b, i, chunks[c])];
      c := c + 1;
    }
    assert chunks[..c] == chunks;
    EndReads(stringify, events, content, i);
    return events + [EndEvent(b, i)], true, 0;
  }

  lemma BlockStarts(b: Block, chunks: seq<string>)
    ensures WritingOf(b, Join(chunks[..0])) == WritingOf(b, "")
  {
  }

  lemma JoinNext(chunks: seq<string>, c: nat)
    requires c < |chunks|
    ensures Join(chunks[..c + 1]) == Join(chunks[..c]) + chunks[c]
  {
    JoinSnoc(chunks[..c], chunks[c]);
    assert chunks[..c + 1] == chunks[..c] + [chunks[c]];
  }

  /** At no look in block `i` does the signal say that the request is aborted. */
  ghost predicate Quiet(stringify: Json -> string, content: seq<Block>, i: nat, tokenSize: (nat, nat) -> nat, aborted: (nat, nat) -> bool)
    requires i < |content|
  {
    !aborted(i, 0) && forall c: nat | 0 < c <= Deltas(stringify, content[i], SizesIn(tokenSize, i)) :: !aborted(i, c)
  }

  function SizesIn(tokenSize: (nat, nat) -> nat, i: nat): nat -> nat { (c: nat) => tokenSize(i, c) }

  function LooksIn(aborted: (nat, nat) -> bool, i: nat): nat -> bool { (c: nat) => aborted(i, c + 1) }

  /** The looks before the chunks of a block. */
  lemma QuietIff(stringify: Json -> string, content: seq<Block>, i: nat, tokenSize: (nat, nat) -> nat, aborted: (nat, nat) -> bool)
    requires i < |content|
    ensures Quiet(stringify, content, i, tokenSize, aborted) <==>
      !aborted(i, 0) && forall c: nat | c < Deltas(stringify, content[i], SizesIn(tokenSize, i)) :: !LooksIn(aborted, i)(c)
  {
    hide Deltas;
    var n := Deltas(stringify, content[i], SizesIn(tokenSize, i));
    assert forall c: nat | c < n :: LooksIn(aborted, i)(c) == aborted(i, c + 1);
    if forall c: nat | c < n :: !LooksIn(aborted, i)(c) {
      forall c: nat | 0 < c <= n ensures !aborted(i, c) { assert !LooksIn(aborted, i)(c - 1); }
    }
  }

  /** `streamWithDeltas`. `aborted` is what the signal says at each look: before the message (0, 0),
      before block i (i, 0) and before its chunk c (i, c + 1). */
  method StreamWithDeltas(stringify: Json -> string, content: seq<Block>, stopReason: Reason,
                          tokenSize: (nat, nat) -> nat, aborted: (nat, nat) -> bool)
    returns (events: seq<Event>, finished: bool, ghost seen: (nat, nat))
    ensures finished ==> Read(stringify, events) == Finished(content, stopReason) && CutOff(stringify, events).Nothing?
    ensures finished <==> !aborted(0, 0) && forall i: nat | i < |content| :: Quiet(stringify, content, i, tokenSize, aborted)
    ensures !finished ==>
      && seen.0 <= |content| && Read(stringify, events) == Finished(content[..seen.0], Aborted)
      && aborted(seen.0, seen.1) && (forall c: nat | c < seen.1 :: !aborted(seen.0, c))
      && forall i: nat | i < seen.0 :: Quiet(stringify, content, i, tokenSize, aborted)
  {
    hide Read, ReadOne, Deltas, Quiet;
    StartReads(stringify);
    events, seen := [Start], (0, 0);
    assert content[..0] == [];
    if aborted(0, 0) {
      return [Error(Aborted)], false, (0, 0);
    }
    var i := 0;
    while i < |content|
      invariant 0 <= i <= |content| && Read(stringify, events) == Reading(content[..i], Nothing)
      invariant forall j: nat | j < i :: Quiet(stringify, content, j, tokenSize, aborted)
    {
      if aborted(i, 0) {
        AbortReads(stringify, events);
        QuietIff(stringify, content, i, tokenSize, aborted);
        return events + [Error(Aborted)], false, (i, 0);
      }
      QuietIff(stringify, content, i, tokenSize, aborted);
      ghost var c;
      events, finished, c := StreamBlock(stringify, content, i, events, SizesIn(tokenSize, i), LooksIn(aborted, i));
      if !finished {
        forall k: nat | k <= c ensures !aborted(i, k) { if k > 0 { assert !LooksIn(aborted, i)(k - 1); } }
        seen := (i, c + 1);
        return;
      }
      i := i + 1;
    }
    assert content[..i] == content;
    LastReads(stringify, events, content, stopReason);
    return events + [if IsFailure(stopReason) then Error(stopReason) else Done(stopReason)], true, seen;
  }

  lemma StartReads(stringify: Json -> string)
    ensures Read(stringify, [Start]) == Reading([], Nothing)
    ensures Read(stringify, [Error(Aborted)]) == Finished([], Aborted)
  {
    FirstReads(stringify, Start);
    FirstReads(stringify, Error(Aborted));
    hide Read;
  }

  lemma FirstReads(stringify: Json -> string, e: Event)
    ensures Read(stringify, [e]) == ReadOne(stringify, Fresh, e)
  {
    hide ReadOne;
    assert [e][..0] == [];
  }

  lemma LastReads(stringify: Json -> string, events: seq<Event>, content: seq<Block>, reason: Reason)
    requires Read(stringify, events) == Reading(content, Nothing)
    ensures var all := events + [if IsFailure(reason) then Error(reason) else Done(reason)];
      Read(stringify, all) == Finished(content, reason) && CutOff(stringify, all).Nothing?
  {
    ReadSnoc(stringify, events, if IsFailure(reason) then Error(reason) else Done(reason));
    assert (events + [if IsFailure(reason) then Error(reason) else Done(reason)])[..|events|] == events;
  }
}
