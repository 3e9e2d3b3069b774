/**
 The stdin tokenizer (`StdinBuffer`). Input arrives in chunks that may cut escape sequences
 and paste markers anywhere; the events should not depend on the cuts. They do not exactly
 when no token is completed inside a paste-start marker.
 */
module StdinBuffers {
  import opened Basics

  const ESC := '\U{1b}'
  const BEL := '\U{07}'
  const PASTE_START := [ESC] + "[200~"
  const PASTE_END := [ESC] + "[201~"

  // ---- Complete sequences ----

  datatype Status = Complete | Incomplete | NotEscape

  predicate StartsWith(s: string, prefix: string) {
    |prefix| <= |s| && s[..|prefix|] == prefix
  }

  predicate EndsWith(s: string, suffix: string) {
    |suffix| <= |s| && s[|s| - |suffix|..] == suffix
  }

  function SplitAt(s: string, c: char): seq<string> {
    if s == "" then [""]
    else if s[0] == c then [""] + SplitAt(s[1..], c)
    else var rest := SplitAt(s[1..], c); if rest == [] then [s] else [[s[0]] + rest[0]] + rest[1..]
  }

  /** `<digits;digits;digits` and a final `M` or `m`. The two tests of the source for it, a
      regular expression and a split at the semicolons, accept the same payloads. */
  predicate IsSgrMouse(payload: string) {
    && |payload| >= 2 && payload[0] == '<'
    && (payload[|payload| - 1] == 'M' || payload[|payload| - 1] == 'm')
    && var parts := SplitAt(payload[1..|payload| - 1], ';');
       |parts| == 3 && forall i | 0 <= i < 3 :: parts[i] != "" && IsDigits(parts[i])
  }

  function IsCompleteCsi(data: string): Status
    requires StartsWith(data, [ESC, '['])
  {
    if |data| < 3 then Incomplete
    else
      var payload := data[2..];
      var last := payload[|payload| - 1];
      if '@' <= last <= '~' then
        if payload[0] == '<' then if IsSgrMouse(payload) then Complete else Incomplete
        else Complete
      else Incomplete
  }

  /** `isCompleteSequence` */
  function IsCompleteSequence(data: string): Status {
    if |data| == 0 || data[0] != ESC then NotEscape
    else if |data| == 1 then Incomplete
    else if data[1] == '[' then
      if StartsWith(data, [ESC, '[', 'M']) then if |data| >= 6 then Complete else Incomplete
      else IsCompleteCsi(data)
    else if data[1] == ']' then
      if EndsWith(data, [ESC, '\\']) || EndsWith(data, [BEL]) then Complete else Incomplete
    else if data[1] == 'P' || data[1] == '_' then
      if EndsWith(data, [ESC, '\\']) then Complete else Incomplete
    else if data[1] == 'O' then
      if |data| >= 3 then Complete else Incomplete
    else Complete
  }

  // ---- Tokens ----

  /** Complete sequences, and the incomplete one at the end. */
  datatype Split = Split(tokens: seq<string>, remainder: string)

  /** The length of the shortest complete prefix of at least `n` characters, or beyond the end. */
  function FirstComplete(s: string, n: nat): (r: nat)
    requires n >= 1
    ensures r >= n
    decreases |s| - n
  {
    if n > |s| || IsCompleteSequence(s[..n]) == Complete then n else FirstComplete(s, n + 1)
  }

  /** The length of the token at the start of `s`, or more than `|s|` if it is incomplete. */
  function TokenLength(s: string): (n: nat)
    requires s != ""
    ensures n >= 1
  {
    if s[0] == ESC then FirstComplete(s, 1) else 1
  }

  function Tokens(s: string): Split
    decreases |s|
  {
    if s == "" then Split([], "")
    else if TokenLength(s) > |s| then Split([], s)
    else
      var rest := Tokens(s[TokenLength(s)..]);
      Split([s[..TokenLength(s)]] + rest.tokens, rest.remainder)
  }

  lemma TokenStep(s: string, n: nat)
    requires s != "" && n == TokenLength(s)
    ensures n > |s| ==> Tokens(s) == Split([], s)
    ensures n <= |s| ==>
      Tokens(s) == Split([s[..n]] + Tokens(s[n..]).tokens, Tokens(s[n..]).remainder)
  {
  }

  /** `extractCompleteSequences` */
  method ExtractCompleteSequences(buffer: string) returns (sequences: seq<string>, remainder: string)
    ensures Tokens(buffer) == Split(sequences, remainder)
  {
    NoTokens(buffer);
    hide Tokens, TokenLength, FirstComplete, IsCompleteSequence;
    sequences := [];
    var pos := 0;
    assert buffer[0..] == buffer;
    while pos < |buffer|
      invariant 0 <= pos <= |buffer|
      invariant Tokens(buffer) == Split(sequences + Tokens(buffer[pos..]).tokens, Tokens(buffer[pos..]).remainder)
    {
      var remaining := buffer[pos..];
      var length := NextToken(remaining);
      TokenStep(remaining, length);
      if length > |remaining| {
        return sequences, remaining;
      }
      assert remaining[length..] == buffer[pos + length..];
      sequences := sequences + [remaining[..length]];
      pos := pos + length;
    }
    assert buffer[pos..] == buffer[..0] && sequences + [] == sequences;
    remainder := "";
  }

  /** One pass of its loop: a growing candidate is tried until it is complete. */
  method NextToken(remaining: string) returns (length: nat)
    requires remaining != ""
    ensures length == TokenLength(remaining)
  {
    hide IsCompleteSequence;
    if StartsWith(remaining, [ESC]) {
      var seqEnd := 1;
      while seqEnd <= |remaining| && IsCompleteSequence(remaining[..seqEnd]) != Complete
        invariant 1 <= seqEnd <= |remaining| + 1
        invariant FirstComplete(remaining, seqEnd) == FirstComplete(remaining, 1)
      {
        seqEnd := seqEnd + 1;
      }
      return seqEnd;
    } else {
      return 1;
    }
  }

  lemma NoTokens(s: string)
    ensures s[..0] == "" && Tokens(s[..0]) == Split([], "")
  {
  }

  function Flatten(ss: seq<string>): string {
    if ss == [] then "" else ss[0] + Flatten(ss[1..])
  }

  lemma {:induction false} FlattenConcat(a: seq<string>, b: seq<string>)
    ensures Flatten(a + b) == Flatten(a) + Flatten(b)
  {
    if a == [] {
      assert a + b == b;
    } else {
      assert (a + b)[1..] == a[1..] + b;
      FlattenConcat(a[1..], b);
    }
  }

  /** Tokens and remainder rejoin to the buffer. */
  lemma {:induction false} TokensRejoin(s: string)
    ensures Flatten(Tokens(s).tokens) + Tokens(s).remainder == s
    decreases |s|
  {
    hide IsCompleteSequence;
    if s != "" {
      var n := TokenLength(s);
      if n <= |s| {
        TokensRejoin(s[n..]);
        assert s == s[..n] + s[n..];
      }
    }
  }

  /** A single character that starts no escape sequence, or the shortest complete sequence. */
  predicate IsToken(t: string) {
    || (|t| == 1 && t[0] != ESC)
    || (t != "" && t[0] == ESC && FirstComplete(t, 1) == |t|)
  }

  predicate IsPending(s: string) {
    s == "" || (s[0] == ESC && FirstComplete(s, 1) > |s|)
  }

  lemma {:induction false} FirstCompletePrefix(s: string, k: nat, n: nat)
    requires n >= 1 && k <= |s|
    ensures FirstComplete(s, n) <= k ==> FirstComplete(s[..k], n) == FirstComplete(s, n)
    ensures FirstComplete(s[..k], n) <= k ==> FirstComplete(s[..k], n) == FirstComplete(s, n)
    decreases |s| - n
  {
    hide IsCompleteSequence;
    if n <= k {
      assert s[..k][..n] == s[..n];
      FirstCompletePrefix(s, k, n + 1);
    }
  }

  /** Every token is well formed and the remainder is a sequence still waiting for its end. */
  lemma {:induction false} TokensAreTokens(s: string)
    ensures forall i | 0 <= i < |Tokens(s).tokens| :: IsToken(Tokens(s).tokens[i])
    ensures IsPending(Tokens(s).remainder)
    decreases |s|
  {
    hide IsCompleteSequence;
    if s != "" {
      var n := TokenLength(s);
      if n <= |s| {
        TokensAreTokens(s[n..]);
        FirstCompletePrefix(s, n, 1);
      }
    }
  }

  lemma TokenLengthOfPrefix(a: string, b: string)
    requires a != "" && TokenLength(a) <= |a|
    ensures TokenLength(a + b) == TokenLength(a)
  {
    hide IsCompleteSequence, FirstComplete;
    assert (a + b)[..|a|] == a;
    FirstCompletePrefix(a + b, |a|, 1);
  }

  /** Tokenizing may be interrupted anywhere and resumed from the remainder. */
  lemma {:induction false} TokensResume(a: string, b: string)
    ensures Tokens(a + b) == Split(Tokens(a).tokens + Tokens(Tokens(a).remainder + b).tokens,
                                   Tokens(Tokens(a).remainder + b).remainder)
    decreases |a|
  {
    hide Tokens, TokenLength;
    if a == "" {
      NoTokens(a);
      assert a == a[..0] && a + b == b;
      assert [] + Tokens(b).tokens == Tokens(b).tokens;
    } else {
      var n := TokenLength(a);
      TokenStep(a, n);
      if n <= |a| {
        TokenLengthOfPrefix(a, b);
        TokenStep(a + b, n);
        SplitInside(a, b, n);
        TokensResume(a[n..], b);
        var t := Tokens(a[n..]);
        Assoc([a[..n]], t.tokens, Tokens(t.remainder + b).tokens);
      } else {
        assert [] + Tokens(a + b).tokens == Tokens(a + b).tokens;
      }
    }
  }

  lemma SplitInside(a: string, b: string, n: nat)
    requires n <= |a|
    ensures (a + b)[..n] == a[..n] && (a + b)[n..] == a[n..] + b
  {
  }

  lemma PendingTokens(s: string)
    requires IsPending(s)
    ensures Tokens(s) == Split([], s)
  {
  }

  // ---- Feeding ----

  predicate Occurs(s: string, pattern: string, k: int) {
    0 <= k && k + |pattern| <= |s| && s[k..k + |pattern|] == pattern
  }

  /** `indexOf`: the first occurrence, or -1. */
  function Find(s: string, pattern: string): (i: int)
    ensures -1 <= i && (i >= 0 ==> Occurs(s, pattern, i))
  {
    if |s| < |pattern| then -1
    else if s[..|pattern|] == pattern then 0
    else if s == "" then -1
    else
      var i := Find(s[1..], pattern);
      if i < 0 then -1
      else
        assert s[i + 1..i + 1 + |pattern|] == s[1..][i..i + |pattern|];
        i + 1
  }

  datatype Event = Data(text: string) | Paste(text: string)

  datatype State = State(buffer: string, pasteMode: bool, pasteBuffer: string) {
    /** Outside a paste nothing is in the paste buffer, inside it nothing is in the other one. */
    predicate Valid() {
      if pasteMode then buffer == "" else pasteBuffer == ""
    }

    /** The input that is still waiting. */
    function Pending(): string {
      if pasteMode then pasteBuffer else buffer
    }
  }

  datatype Outcome = Outcome(state: State, events: seq<Event>)

  function DataEvents(tokens: seq<string>): (r: seq<Event>)
    ensures |r| == |tokens|
  {
    seq(|tokens|, i requires 0 <= i < |tokens| => Data(tokens[i]))
  }

  /** Input outside a paste. What precedes a paste marker is tokenized without a second chance:
      an incomplete sequence before the marker is dropped. */
  function FeedText(s: string): (r: Outcome)
    ensures r.state.Valid()
    decreases |s|
  {
    var i := Find(s, PASTE_START);
    if i >= 0 then
      var rest := FeedPaste(s[i + |PASTE_START|..]);
      Outcome(rest.state, DataEvents(Tokens(s[..i]).tokens) + rest.events)
    else
      Outcome(State(Tokens(s).remainder, false, ""), DataEvents(Tokens(s).tokens))
  }

  /** Input inside a paste. */
  function FeedPaste(s: string): (r: Outcome)
    ensures r.state.Valid()
    decreases |s|
  {
    var i := Find(s, PASTE_END);
    if i >= 0 then
      var rest := FeedText(s[i + |PASTE_END|..]);
      Outcome(rest.state, [Paste(s[..i])] + rest.events)
    else
      Outcome(State("", true, s), [])
  }

  function Scan(pasteMode: bool, s: string): (r: Outcome)
    ensures r.state.Valid()
  {
    if pasteMode then FeedPaste(s) else FeedText(s)
  }

  /** One call of `process`. An empty chunk on an empty buffer is passed on as it is. */
  function Feed(st: State, chunk: string): (r: Outcome)
    requires st.Valid()
    ensures r.state.Valid()
  {
    if chunk == "" && st.buffer == "" then Outcome(st, [Data("")])
    else Scan(st.pasteMode, st.Pending() + chunk)
  }

  function FeedAll(st: State, chunks: seq<string>): (r: Outcome)
    requires st.Valid()
    ensures r.state.Valid()
    decreases |chunks|
  {
    if chunks == [] then Outcome(st, [])
    else
      var first := Feed(st, chunks[0]);
      var rest := FeedAll(first.state, chunks[1..]);
      Outcome(rest.state, first.events + rest.events)
  }

  /** `StdinBuffer`. `emitted` records the events; the timer is a call of `Timeout`. */
  class StdinBuffer {
    var buffer: string
    var pasteMode: bool
    var pasteBuffer: string
    ghost var emitted: seq<Event>

    function Now(): State
      reads this
    {
      State(buffer, pasteMode, pasteBuffer)
    }

    constructor ()
      ensures Now() == State("", false, "") && emitted == []
    {
      buffer, pasteMode, pasteBuffer := "", false, "";
      emitted := [];
    }

    method Emit(event: Event)
      modifies this`emitted
      ensures emitted == old(emitted) + [event]
    {
      emitted := emitted + [event];
    }

    method EmitAll(sequences: seq<string>)
      modifies this`emitted
      ensures emitted == old(emitted) + DataEvents(sequences)
    {
      var i := 0;
      while i < |sequences|
        invariant 0 <= i <= |sequences|
        invariant emitted == old(emitted) + DataEvents(sequences[..i])
      {
        assert DataEvents(sequences[..i + 1]) == DataEvents(sequences[..i]) + [Data(sequences[i])];
        Emit(Data(sequences[i]));
        i := i + 1;
      }
      assert sequences[..i] == sequences;
    }

    method Process(str: string)
      requires Now().Valid()
      modifies this
      ensures Now() == Feed(old(Now()), str).state
      ensures emitted == old(emitted) + Feed(old(Now()), str).events
      decreases |buffer| + |pasteBuffer| + |str|
    {
      hide Tokens, Find, FeedPaste;
      if |str| == 0 && |buffer| == 0 {
        Emit(Data(""));
        return;
      }
      buffer := buffer + str;
      if pasteMode {
        assert buffer == str;
        pasteBuffer := pasteBuffer + buffer;
        buffer := "";
        EndPaste();
        return;
      }
      var startIndex := Find(buffer, PASTE_START);
      if startIndex != -1 {
        if startIndex > 0 {
          var beforePaste := buffer[..startIndex];
          var sequences, _ := ExtractCompleteSequences(beforePaste);
          EmitAll(sequences);
        } else {
          NoTokens(buffer);
        }
        buffer := buffer[startIndex + |PASTE_START|..];
        pasteMode := true;
        pasteBuffer := buffer;
        buffer := "";
        EndPaste();
        return;
      }
      var sequences, remainder := ExtractCompleteSequences(buffer);
      buffer := remainder;
      EmitAll(sequences);
    }

    /** The end of both paste branches of `process`. */
    method EndPaste()
      requires pasteMode && buffer == ""
      modifies this
      ensures Now() == FeedPaste(old(pasteBuffer)).state
      ensures emitted == old(emitted) + FeedPaste(old(pasteBuffer)).events
      decreases |pasteBuffer|, 0
    {
      hide Tokens, Find;
      var endIndex := Find(pasteBuffer, PASTE_END);
      if endIndex != -1 {
        var pastedContent := pasteBuffer[..endIndex];
        var remaining := pasteBuffer[endIndex + |PASTE_END|..];
        pasteMode := false;
        pasteBuffer := "";
        Emit(Paste(pastedContent));
        if |remaining| > 0 {
          assert "" + remaining == remaining;
          Process(remaining);
        } else {
          FeedNothing();
        }
      }
    }

    /** The timer: `flush` and the emission of what it returns. */
    method Timeout()
      modifies this
      ensures Now() == old(Now()).(buffer := "")
      ensures emitted == old(emitted) + if old(buffer) == "" then [] else [Data(old(buffer))]
    {
      if |buffer| == 0 {
        return;
      }
      Emit(Data(buffer));
      buffer := "";
    }
  }

  lemma FeedNothing()
    ensures FeedText("") == Outcome(State("", false, ""), [])
  {
  }

  // ---- Searching in parts ----

  lemma FindSplits(s: string, pattern: string)
    requires Find(s, pattern) >= 0
    ensures var i := Find(s, pattern);
      i + |pattern| <= |s| && s == s[..i] + (pattern + s[i + |pattern|..])
  {
    hide Find;
    var i := Find(s, pattern);
    assert Occurs(s, pattern, i);
    SplitThree(s, i, pattern);
  }

  lemma SplitThree(s: string, i: nat, middle: string)
    requires i + |middle| <= |s| && s[i..i + |middle|] == middle
    ensures s == s[..i] + (middle + s[i + |middle|..])
  {
    var j := i + |middle|;
    assert s[..j] == s[..i] + middle;
    assert s == s[..j] + s[j..];
    Assoc(s[..i], middle, s[j..]);
  }

  lemma TakeBeyond(a: string, b: string, k: nat)
    requires |a| <= k <= |a| + |b|
    ensures (a + b)[..k] == a + b[..k - |a|]
  {
  }

  /** `Find` gives the first occurrence. */
  lemma {:induction false} FindIsFirst(s: string, pattern: string, k: int)
    requires pattern != "" && Occurs(s, pattern, k)
    ensures 0 <= Find(s, pattern) <= k
  {
    if s[..|pattern|] != pattern {
      assert s[1..][k - 1..k - 1 + |pattern|] == s[k..k + |pattern|];
      FindIsFirst(s[1..], pattern, k - 1);
    }
  }

  lemma OccursWithin(s: string, lo: nat, hi: nat, pattern: string, k: int)
    requires lo <= hi <= |s| && 0 <= k && k + |pattern| <= hi - lo
    ensures Occurs(s[lo..hi], pattern, k) <==> Occurs(s, pattern, lo + k)
  {
    var x, y := s[lo..hi][k..k + |pattern|], s[lo + k..lo + k + |pattern|];
    forall n | 0 <= n < |pattern| ensures x[n] == y[n] {}
    assert x == y;
  }

  /** An occurrence in the first part is also the first one in the whole. */
  lemma FindInPrefix(a: string, b: string, pattern: string)
    requires pattern != ""
    ensures Find(a, pattern) >= 0 ==> Find(a + b, pattern) == Find(a, pattern)
    ensures Find(a, pattern) < 0 && Find(a + b, pattern) >= 0 ==> Find(a + b, pattern) + |pattern| > |a|
  {
    var s, i, j := a + b, Find(a, pattern), Find(a + b, pattern);
    assert s[0..|a|] == a;
    assert i >= 0 ==> i + |pattern| <= |a|;
    hide Find, Occurs;
    if i >= 0 {
      OccursWithin(s, 0, |a|, pattern, i);
      FindIsFirst(s, pattern, i);
    }
    if j >= 0 && j + |pattern| <= |a| {
      OccursWithin(s, 0, |a|, pattern, j);
      FindIsFirst(a, pattern, j);
    }
  }

  /** Dropping what precedes the first occurrence, or some of it. */
  lemma FindInSuffix(s: string, c: nat, pattern: string)
    requires pattern != "" && c <= |s| && (Find(s, pattern) < 0 || c <= Find(s, pattern))
    ensures Find(s[c..], pattern) == if Find(s, pattern) < 0 then -1 else Find(s, pattern) - c
  {
    hide Find, Occurs;
    FindFits(s, pattern);
    FindFits(s[c..], pattern);
    WholeSuffix(s, c);
    var i, j := Find(s, pattern), Find(s[c..], pattern);
    if j >= 0 {
      OccursWithin(s, c, |s|, pattern, j);
      FindIsFirst(s, pattern, c + j);
    }
    if i >= 0 {
      OccursWithin(s, c, |s|, pattern, i - c);
      FindIsFirst(s[c..], pattern, i - c);
    }
  }

  lemma FindFits(s: string, pattern: string)
    ensures Find(s, pattern) >= 0 ==> Find(s, pattern) + |pattern| <= |s|
  {
  }

  lemma WholeSuffix(s: string, c: nat)
    requires c <= |s|
    ensures s[c..|s|] == s[c..]
  {
  }

  // ---- Independence of the chunks ----

  /** No token is completed within the first five characters of a paste-start marker. */
  predicate CleanText(s: string)
    decreases |s|
  {
    var i := Find(s, PASTE_START);
    i >= 0 ==>
      && Tokens(s[..i + |PASTE_START| - 1]).tokens == Tokens(s[..i]).tokens
      && CleanPaste(s[i + |PASTE_START|..])
  }

  predicate CleanPaste(s: string)
    decreases |s|
  {
    var i := Find(s, PASTE_END);
    i >= 0 ==> CleanText(s[i + |PASTE_END|..])
  }

  predicate Clean(pasteMode: bool, s: string) {
    if pasteMode then CleanPaste(s) else CleanText(s)
  }

  /** Feeding `a` and then `b` is the same as feeding both at once, and stays so. */
  ghost predicate Resumes(pasteMode: bool, a: string, b: string) {
    var first := Scan(pasteMode, a);
    var rest := first.state.Pending() + b;
    var second := Scan(first.state.pasteMode, rest);
    && Scan(pasteMode, a + b) == Outcome(second.state, first.events + second.events)
    && Clean(first.state.pasteMode, rest)
  }

  lemma TokensWithin(a: string, m: string, b: string)
    requires Tokens(a + m + b).tokens == Tokens(a).tokens
    ensures Tokens(a + m).tokens == Tokens(a).tokens
  {
    TokensResume(a + m, b);
    TokensResume(a, m);
  }

  /** When the marker lies beyond what is consumed of `a`, it is found again after `a`. */
  lemma Straddle(a: string, b: string)
    requires Find(a, PASTE_START) < 0 && Find(a + b, PASTE_START) >= 0 && CleanText(a + b)
    ensures var i, rest := Find(a + b, PASTE_START), Tokens(a).remainder + b;
      var c := |a| - |Tokens(a).remainder|;
      && 0 <= c <= i && rest == (a + b)[c..] && Find(rest, PASTE_START) == i - c
      && Tokens((a + b)[..i]).tokens == Tokens(a).tokens + Tokens(rest[..i - c]).tokens
      && Tokens(rest[..i - c + |PASTE_START| - 1]).tokens == Tokens(rest[..i - c]).tokens
  {
    hide Tokens, Find, CleanText, CleanPaste;
    CleanHere(a + b);
    var s, i, t := a + b, Find(a + b, PASTE_START), Tokens(a);
    var k := i + |PASTE_START| - 1;
    FindInPrefix(a, b, PASTE_START);
    TokensRejoin(a);
    var rest := t.remainder + b;
    var c := |a| - |t.remainder|;
    DropInside(a, b, t.remainder);
    TakeBeyond(a, b, k);
    TokensResume(a, b[..k - |a|]);
    TakeBeyond(t.remainder, b, k - c);
    if |a| <= i {
      TakeBeyond(a, b, i);
      TokensResume(a, b[..i - |a|]);
      FindInSuffix(s, c, PASTE_START);
      TakeBeyond(t.remainder, b, i - c);
    } else {
      assert s[..i] == a[..i] && a == a[..i] + a[i..];
      assert a[..i] + a[i..] + b[..k - |a|] == s[..k];
      TokensWithin(a[..i], a[i..], b[..k - |a|]);
      TokensRejoin(a[..i]);
      TokensAreTokens(a[..i]);
      FindInSuffix(s, c, PASTE_START);
      assert rest[..i - c] == Tokens(a[..i]).remainder;
      PendingTokens(rest[..i - c]);
    }
    Cancel(t.tokens, Tokens(rest[..i - c]).tokens, Tokens(rest[..k - c]).tokens);
  }

  lemma DropInside(a: string, b: string, tail: string)
    requires |tail| <= |a| && a[|a| - |tail|..] == tail
    ensures (a + b)[|a| - |tail|..] == tail + b
  {
  }

  lemma Cancel(a: seq<string>, b: seq<string>, c: seq<string>)
    requires a + b == a + c
    ensures b == c
  {
    assert b == (a + b)[|a|..] && c == (a + c)[|a|..];
  }

  lemma CleanHere(s: string)
    requires CleanText(s) && Find(s, PASTE_START) >= 0
    ensures var i := Find(s, PASTE_START);
      Tokens(s[..i + |PASTE_START| - 1]).tokens == Tokens(s[..i]).tokens && CleanPaste(s[i + |PASTE_START|..])
  {
  }

  lemma DataEventsConcat(a: seq<string>, b: seq<string>)
    ensures DataEvents(a + b) == DataEvents(a) + DataEvents(b)
  {
  }

  lemma {:induction false} TextResumes(a: string, b: string)
    requires CleanText(a + b)
    ensures Resumes(false, a, b)
    decreases |a|
  {
    hide Tokens, Find;
    var s := a + b;
    FindInPrefix(a, b, PASTE_START);
    var i := Find(s, PASTE_START);
    if Find(a, PASTE_START) >= 0 {
      var tail := a[i + |PASTE_START|..];
      SplitInside(a, b, i);
      SplitInside(a, b, i + |PASTE_START|);
      PasteResumes(tail, b);
      var first := FeedPaste(tail);
      Assoc(DataEvents(Tokens(a[..i]).tokens), first.events, Scan(first.state.pasteMode, first.state.Pending() + b).events);
    } else {
      var t := Tokens(a);
      var rest := t.remainder + b;
      if i >= 0 {
        Straddle(a, b);
        var c := |a| - |t.remainder|;
        assert rest[i - c + |PASTE_START|..] == s[i + |PASTE_START|..];
        DataEventsConcat(t.tokens, Tokens(rest[..i - c]).tokens);
        var paste := FeedPaste(s[i + |PASTE_START|..]).events;
        assert DataEvents(t.tokens) + DataEvents(Tokens(rest[..i - c]).tokens) + paste
            == DataEvents(t.tokens) + (DataEvents(Tokens(rest[..i - c]).tokens) + paste);
      } else {
        TokensRejoin(a);
        var c := |a| - |t.remainder|;
        assert rest == s[c..];
        FindInSuffix(s, c, PASTE_START);
        TokensResume(a, b);
        DataEventsConcat(t.tokens, Tokens(rest).tokens);
      }
    }
  }

  lemma {:induction false} PasteResumes(a: string, b: string)
    requires CleanPaste(a + b)
    ensures Resumes(true, a, b)
    decreases |a|
  {
    hide Tokens, Find;
    var s := a + b;
    FindInPrefix(a, b, PASTE_END);
    var i := Find(s, PASTE_END);
    if Find(a, PASTE_END) >= 0 {
      var tail := a[i + |PASTE_END|..];
      SplitInside(a, b, i);
      SplitInside(a, b, i + |PASTE_END|);
      TextResumes(tail, b);
      var first := FeedText(tail);
      var second := Scan(first.state.pasteMode, first.state.Pending() + b);
      Assoc([Paste(s[..i])], first.events, second.events);
    }
  }

  ghost predicate NonEmpty(chunks: seq<string>) {
    forall i | 0 <= i < |chunks| :: chunks[i] != ""
  }

  /** However a clean input is cut into chunks, the events and the final state are the same. */
  lemma {:induction false} ChunksDoNotMatter(st: State, chunks: seq<string>)
    requires st.Valid() && chunks != [] && NonEmpty(chunks)
    requires Clean(st.pasteMode, st.Pending() + Flatten(chunks))
    ensures FeedAll(st, chunks) == Scan(st.pasteMode, st.Pending() + Flatten(chunks))
    decreases |chunks|
  {
    hide Scan, Clean;
    var first := Feed(st, chunks[0]);
    var rest := chunks[1..];
    if rest == [] {
      assert Flatten(chunks) == chunks[0] + "" == chunks[0];
      assert first.events + [] == first.events;
    } else {
      var a, b := st.Pending() + chunks[0], Flatten(rest);
      assert a + b == st.Pending() + Flatten(chunks);
      ScanResumes(st.pasteMode, a, b);
      ChunksDoNotMatter(first.state, rest);
    }
  }

  lemma ScanResumes(pasteMode: bool, a: string, b: string)
    requires Clean(pasteMode, a + b)
    ensures Resumes(pasteMode, a, b)
  {
    if pasteMode { PasteResumes(a, b); } else { TextResumes(a, b); }
  }

  // ---- The condition is exact ----

  /** Cutting `s` into `a` and `b` changes the events. */
  ghost predicate CutMatters(pasteMode: bool, s: string, a: string, b: string) {
    && a != "" && b != "" && a + b == s
    && var first := Scan(pasteMode, a);
       var second := Scan(first.state.pasteMode, first.state.Pending() + b);
       Scan(pasteMode, s).events != first.events + second.events
  }

  lemma PasteEventFirst(s: string)
    ensures FeedPaste(s).events == [] || FeedPaste(s).events[0].Paste?
  {
  }

  /** A cut inside the marker lets the early token out as data; uncut, the paste comes next. */
  lemma EarlyToken(s: string) returns (a: string, b: string)
    requires Find(s, PASTE_START) >= 0
    requires var i := Find(s, PASTE_START); Tokens(s[..i + |PASTE_START| - 1]).tokens != Tokens(s[..i]).tokens
    ensures CutMatters(false, s, a, b)
  {
    hide Tokens, Find;
    var i := Find(s, PASTE_START);
    var k := i + |PASTE_START| - 1;
    a, b := s[..k], s[k..];
    assert a + b == s;
    FindInPrefix(a, b, PASTE_START);
    var early, due := Tokens(a).tokens, Tokens(s[..i]).tokens;
    assert a == s[..i] + s[i..k];
    TokensResume(s[..i], s[i..k]);
    assert |early| > |due|;
    var first := FeedText(a);
    var second := Scan(first.state.pasteMode, first.state.Pending() + b);
    PasteEventFirst(s[i + |PASTE_START|..]);
    assert (first.events + second.events)[|due|] == Data(early[|due|]);
    var whole := FeedText(s).events;
    assert |whole| > |due| ==> whole[|due|] == FeedPaste(s[i + |PASTE_START|..]).events[0];
  }

  lemma {:induction false} UncleanText(s: string) returns (a: string, b: string)
    requires !CleanText(s)
    ensures CutMatters(false, s, a, b)
    decreases |s|
  {
    hide Tokens, Find, FeedText, FeedPaste, CutMatters;
    var i := Find(s, PASTE_START);
    if Tokens(s[..i + |PASTE_START| - 1]).tokens != Tokens(s[..i]).tokens {
      a, b := EarlyToken(s);
    } else {
      var head, tail := s[..i + |PASTE_START|], s[i + |PASTE_START|..];
      var a', b' := UncleanPaste(tail);
      a, b := head + a', b';
      assert head + tail == s;
      CutLater(false, i, head, tail, a', b');
    }
  }

  lemma {:induction false} UncleanPaste(s: string) returns (a: string, b: string)
    requires !CleanPaste(s)
    ensures CutMatters(true, s, a, b)
    decreases |s|
  {
    hide Tokens, Find, FeedText, FeedPaste, CutMatters;
    var i := Find(s, PASTE_END);
    var head, tail := s[..i + |PASTE_END|], s[i + |PASTE_END|..];
    assert head + tail == s;
    var a', b' := UncleanText(tail);
    a, b := head + a', b';
    CutLater(true, i, head, tail, a', b');
  }

  function MarkerOf(pasteMode: bool): string {
    if pasteMode then PASTE_END else PASTE_START
  }

  /** The events up to and including the first marker. */
  function Before(pasteMode: bool, s: string, i: nat): seq<Event>
    requires i <= |s|
  {
    if pasteMode then [Paste(s[..i])] else DataEvents(Tokens(s[..i]).tokens)
  }

  lemma ScanMarker(pasteMode: bool, i: nat, head: string, tail: string)
    requires |head| == i + |MarkerOf(pasteMode)| && Find(head + tail, MarkerOf(pasteMode)) == i
    ensures Scan(pasteMode, head + tail) ==
      Outcome(Scan(!pasteMode, tail).state, Before(pasteMode, head, i) + Scan(!pasteMode, tail).events)
  {
    hide Find, Tokens;
    assert (head + tail)[i + |MarkerOf(pasteMode)|..] == tail;
    assert (head + tail)[..i] == head[..i];
  }

  lemma FindInOther(pasteMode: bool, i: nat, head: string, tail: string, a: string)
    requires |head| == i + |MarkerOf(pasteMode)| && Find(head + tail, MarkerOf(pasteMode)) == i
    ensures Find(head + a, MarkerOf(pasteMode)) == i
  {
    hide Find;
    var marker := MarkerOf(pasteMode);
    FindAtEnd(head + tail, marker);
    assert (head + tail)[..i + |marker|] == head;
    FindInPrefix(head, a, marker);
  }

  /** A cut that matters after the first marker matters for the whole. */
  lemma CutLater(pasteMode: bool, i: nat, head: string, tail: string, a: string, b: string)
    requires |head| == i + |MarkerOf(pasteMode)| && Find(head + tail, MarkerOf(pasteMode)) == i
    requires CutMatters(!pasteMode, tail, a, b)
    ensures CutMatters(pasteMode, head + tail, head + a, b)
  {
    hide Tokens, Find, FeedText, FeedPaste, Scan, Before, MarkerOf;
    FindInOther(pasteMode, i, head, tail, a);
    ScanMarker(pasteMode, i, head, tail);
    ScanMarker(pasteMode, i, head, a);
    assert (head + a) + b == head + (a + b);
    var first := Scan(!pasteMode, a);
    NotEqualAfter(Before(pasteMode, head, i), Scan(!pasteMode, tail).events, first.events,
                  Scan(first.state.pasteMode, first.state.Pending() + b).events);
  }

  lemma FindAtEnd(s: string, pattern: string)
    requires pattern != "" && Find(s, pattern) >= 0
    ensures Find(s[..Find(s, pattern) + |pattern|], pattern) == Find(s, pattern)
  {
    var i := Find(s, pattern);
    var n := i + |pattern|;
    assert s == s[..n] + s[n..] && s[0..n] == s[..n];
    OccursWithin(s, 0, n, pattern, i);
    hide Find, Occurs;
    FindIsFirst(s[..n], pattern, i);
    FindInPrefix(s[..n], s[n..], pattern);
  }

  lemma NotEqualAfter(before: seq<Event>, whole: seq<Event>, first: seq<Event>, second: seq<Event>)
    requires whole != first + second
    ensures before + whole != (before + first) + second
  {
    assert (before + whole)[|before|..] == whole;
    assert ((before + first) + second)[|before|..] == first + second;
  }

  /** The law at the centre: starting afresh, the events do not depend on the chunks if and
      only if no token is completed inside a paste-start marker. */
  lemma ChunkIndependence(s: string)
    requires s != ""
    ensures var start := State("", false, "");
      CleanText(s) <==>
      forall chunks: seq<string> :: NonEmpty(chunks) && Flatten(chunks) == s ==> FeedAll(start, chunks) == FeedText(s)
  {
    var start := State("", false, "");
    if CleanText(s) {
      forall chunks: seq<string> | NonEmpty(chunks) && Flatten(chunks) == s
        ensures FeedAll(start, chunks) == FeedText(s)
      {
        assert chunks != [];
        assert start.Pending() + s == s;
        ChunksDoNotMatter(start, chunks);
      }
    } else {
      var a, b := UncleanText(s);
      var chunks := [a, b];
      assert chunks[1..] == [b] && [b][1..] == [];
      assert Flatten([b]) == b + "" == b && Flatten(chunks) == a + b;
      assert start.Pending() + a == a;
      var first := FeedText(a);
      assert Feed(start, a) == first;
      var second := Feed(first.state, b);
      assert FeedAll(first.state, [b]).events == second.events + [] == second.events;
      assert FeedAll(start, chunks).events == first.events + second.events;
      assert NonEmpty(chunks) && FeedAll(start, chunks) != FeedText(s);
    }
  }

  lemma {:induction false} PendingWithMarker(k: nat)
    requires k < |PASTE_START|
    ensures IsPending(PASTE_START[..k])
  {
    if k > 0 {
      var m := PASTE_START[..k];
      forall n | 1 <= n <= k ensures IsCompleteSequence(m[..n]) != Complete {
        assert m[..n] == PASTE_START[..n];
        MarkerIncomplete(n);
      }
      NoComplete(m, 1);
    }
  }

  lemma MarkerIncomplete(n: nat)
    requires 1 <= n < |PASTE_START|
    ensures IsCompleteSequence(PASTE_START[..n]) == Incomplete
  {
    var m := PASTE_START[..n];
    assert m[0] == ESC;
    if n > 1 { assert m[1] == '['; }
    if n > 2 {
      assert m[2] == '2' && m[2..][|m| - 3] == m[|m| - 1];
      assert m[n - 1] == if n == 3 then '2' else '0';
    }
  }

  lemma {:induction false} NoComplete(s: string, n: nat)
    requires n >= 1 && forall k | n <= k <= |s| :: IsCompleteSequence(s[..k]) != Complete
    ensures FirstComplete(s, n) > |s|
    decreases |s| - n
  {
    hide IsCompleteSequence;
    if n <= |s| { NoComplete(s, n + 1); }
  }

  /** It fails on real input: an Escape key just before a paste. In one piece the key is dropped and
      the paste is seen; cut inside the marker, two escapes come out as a key and the paste as text. */
  lemma EscapeBeforePaste()
    ensures !CleanText([ESC] + PASTE_START)
  {
    hide Find, CleanPaste;
    var s := [ESC] + PASTE_START;
    assert s[1..] == PASTE_START;
    assert Occurs(s, PASTE_START, 1);
    assert !Occurs(s, PASTE_START, 0) by { assert s[1] != PASTE_START[1]; }
    FindIsFirst(s, PASTE_START, 1);
    assert Find(s, PASTE_START) == 1;
    var one, six := s[..1], s[..6];
    assert s[..1 + |PASTE_START| - 1] == six;
    assert one[..1] == one && IsCompleteSequence(one) == Incomplete;
    assert FirstComplete(one, 1) > 1;
    assert Tokens(one).tokens == [];
    assert six[..1] == one && six[..2] == [ESC, ESC] && IsCompleteSequence(six[..2]) == Complete;
    assert FirstComplete(six, 2) == 2 && FirstComplete(six, 1) == 2;
    assert TokenLength(six) == 2;
    assert Tokens(six).tokens != [];
  }

  /** In particular a marker at a token boundary is safe. */
  lemma BoundaryIsClean(before: string)
    requires Tokens(before).remainder == ""
    ensures Tokens(before + PASTE_START[..|PASTE_START| - 1]).tokens == Tokens(before).tokens
  {
    hide IsCompleteSequence;
    var m := PASTE_START[..|PASTE_START| - 1];
    TokensResume(before, m);
    assert "" + m == m;
    PendingWithMarker(|PASTE_START| - 1);
    PendingTokens(m);
  }

  // ---- Nothing is lost ----

  /** The events written out again. */
  function Encode(events: seq<Event>): string {
    if events == [] then ""
    else (if events[0].Data? then events[0].text else PASTE_START + events[0].text + PASTE_END) + Encode(events[1..])
  }

  lemma {:induction false} EncodeConcat(a: seq<Event>, b: seq<Event>)
    ensures Encode(a + b) == Encode(a) + Encode(b)
  {
    if a == [] {
      assert a + b == b;
    } else {
      assert (a + b)[1..] == a[1..] + b;
      EncodeConcat(a[1..], b);
    }
  }

  lemma {:induction false} EncodeData(tokens: seq<string>)
    ensures Encode(DataEvents(tokens)) == Flatten(tokens)
  {
    if tokens != [] {
      assert DataEvents(tokens)[1..] == DataEvents(tokens[1..]);
      EncodeData(tokens[1..]);
    }
  }

  /** Every paste-start marker outside a paste stands at a token boundary. */
  predicate MarkersAtBoundaries(pasteMode: bool, s: string)
    decreases |s|
  {
    var marker := if pasteMode then PASTE_END else PASTE_START;
    var i := Find(s, marker);
    i >= 0 ==>
      && (!pasteMode ==> Tokens(s[..i]).remainder == "")
      && MarkersAtBoundaries(!pasteMode, s[i + |marker|..])
  }

  /** What has been emitted and what is pending, with the marker of an open paste. */
  function Written(r: Outcome): string {
    Encode(r.events) + ((if r.state.pasteMode then PASTE_START else "") + r.state.Pending())
  }

  lemma WrittenAfter(before: seq<Event>, r: Outcome)
    ensures Written(Outcome(r.state, before + r.events)) == Encode(before) + Written(r)
  {
    hide Encode;
    EncodeConcat(before, r.events);
    Assoc(Encode(before), Encode(r.events), (if r.state.pasteMode then PASTE_START else "") + r.state.Pending());
  }

  /** The input can be read off the events and the state exactly when every marker stood at a
      token boundary; otherwise an incomplete sequence before a marker was dropped. */
  lemma {:induction false} TextConserved(s: string)
    ensures |Written(FeedText(s))| <= |s|
    ensures MarkersAtBoundaries(false, s) <==> Written(FeedText(s)) == s
    decreases |s|
  {
    hide Tokens, Find, Encode, Written;
    var i := Find(s, PASTE_START);
    if i >= 0 {
      var before, rest := s[..i], s[i + |PASTE_START|..];
      var t := Tokens(before);
      PasteConserved(rest);
      WrittenAfter(DataEvents(t.tokens), FeedPaste(rest));
      EncodeData(t.tokens);
      TokensRejoin(before);
      FindSplits(s, PASTE_START);
      Remainder(Flatten(t.tokens), t.remainder, Written(FeedPaste(rest)), PASTE_START + rest);
    } else {
      PlainConserved(s);
    }
  }

  lemma PlainConserved(s: string)
    requires Find(s, PASTE_START) < 0
    ensures Written(FeedText(s)) == s
  {
    hide Tokens, Find, Encode;
    EncodeData(Tokens(s).tokens);
    TokensRejoin(s);
    assert "" + Tokens(s).remainder == Tokens(s).remainder;
  }

  lemma {:induction false} PasteConserved(s: string)
    ensures |Written(FeedPaste(s))| <= |PASTE_START| + |s|
    ensures MarkersAtBoundaries(true, s) <==> Written(FeedPaste(s)) == PASTE_START + s
    decreases |s|
  {
    hide Tokens, Find, Encode;
    EncodeNone();
    var i := Find(s, PASTE_END);
    if i >= 0 {
      var content, rest := s[..i], s[i + |PASTE_END|..];
      TextConserved(rest);
      WrittenAfter([Paste(content)], FeedText(rest));
      EncodePaste(content);
      var head := PASTE_START + content + PASTE_END;
      assert PASTE_START + s == head + rest;
      var text := Written(FeedText(rest));
      assert Written(FeedPaste(s)) == head + text;
      assert head + "" == head;
      Remainder(head, "", text, rest);
    } else {
      assert "" + (PASTE_START + s) == PASTE_START + s;
    }
  }

  lemma Remainder(head: string, dropped: string, found: string, due: string)
    requires |found| <= |due|
    ensures |head + found| <= |head + dropped + due|
    ensures head + found == head + dropped + due <==> dropped == "" && found == due
  {
    if dropped == "" {
      assert head + dropped == head;
      assert (head + found)[|head|..] == found && (head + due)[|head|..] == due;
    }
  }

  lemma EncodeNone()
    ensures Encode([]) == ""
  {
  }

  lemma EncodePaste(content: string)
    ensures Encode([Paste(content)]) == PASTE_START + content + PASTE_END
  {
    assert [Paste(content)][1..] == [];
  }

  // ---- Runs with timeouts ----

  datatype Op = Chunk(text: string) | Expire

  function Do(st: State, op: Op): Outcome
    requires st.Valid()
  {
    match op
    case Chunk(text) => Feed(st, text)
    case Expire => Outcome(st.(buffer := ""), if st.buffer == "" then [] else [Data(st.buffer)])
  }

  /** The run never sees a whole paste-start marker. */
  predicate PasteFree(st: State, ops: seq<Op>)
    requires st.Valid()
    decreases |ops|
  {
    && !st.pasteMode
    && (ops == [] ||
      ((ops[0].Chunk? ==> Find(st.buffer + ops[0].text, PASTE_START) < 0)
       && PasteFree(Do(st, ops[0]).state, ops[1..])))
  }

  function Run(st: State, ops: seq<Op>): (r: Outcome)
    requires st.Valid()
    ensures r.state.Valid()
    decreases |ops|
  {
    if ops == [] then Outcome(st, [])
    else
      var first := Do(st, ops[0]);
      var rest := Run(first.state, ops[1..]);
      Outcome(rest.state, first.events + rest.events)
  }

  function Input(ops: seq<Op>): string {
    if ops == [] then "" else (if ops[0].Chunk? then ops[0].text else "") + Input(ops[1..])
  }

  /** Without pastes every character comes out once and in order, whenever the timer fires. */
  lemma {:induction false} TimeoutsLoseNothing(st: State, ops: seq<Op>)
    requires st.Valid() && PasteFree(st, ops)
    ensures Encode(Run(st, ops).events) + Run(st, ops).state.buffer == st.buffer + Input(ops)
    decreases |ops|
  {
    hide Tokens, Find, Encode;
    EncodeNone();
    if ops == [] {
      assert "" + st.buffer == st.buffer + "";
    } else {
      var first := Do(st, ops[0]);
      var rest := Run(first.state, ops[1..]);
      StepLosesNothing(st, ops[0]);
      TimeoutsLoseNothing(first.state, ops[1..]);
      EncodeConcat(first.events, rest.events);
      calc {
        Encode(first.events + rest.events) + rest.state.buffer;
        Encode(first.events) + (Encode(rest.events) + rest.state.buffer);
        Encode(first.events) + first.state.buffer + Input(ops[1..]);
        st.buffer + Input(ops);
      }
    }
  }

  lemma StepLosesNothing(st: State, op: Op)
    requires st.Valid() && PasteFree(st, [op])
    ensures Encode(Do(st, op).events) + Do(st, op).state.buffer == st.buffer + if op.Chunk? then op.text else ""
  {
    hide Tokens, Find;
    assert [op][0] == op;
    match op {
      case Chunk(text) =>
        if text == "" && st.buffer == "" {
          assert [Data("")][1..] == [];
        } else {
          var s := st.buffer + text;
          EncodeData(Tokens(s).tokens);
          TokensRejoin(s);
        }
      case Expire =>
        if st.buffer != "" { assert [Data(st.buffer)][1..] == []; }
    }
  }
}