/**
 The tokens of the input by position, without the test for a complete sequence: where each kind of
 escape sequence ends, and what one read of plain input, or of a paste, becomes.
 */
module StdinForms {
  import opened Basics
  import opened StdinBuffers

  // ---- Where sequences end ----

  predicate IsFinal(c: char) { '@' <= c <= '~' }

  predicate DigitsIn(s: string, i: nat, j: nat) {
    i < j <= |s| && forall k | i <= k < j :: '0' <= s[k] <= '9'
  }

  /** Digits, digits and digits, from position 3 to `a`, `b` and `n`, and an `M` or `m`. */
  predicate MouseAt(s: string, a: nat, b: nat, n: nat) {
    && a < b < n <= |s|
    && DigitsIn(s, 3, a) && s[a] == ';' && DigitsIn(s, a + 1, b) && s[b] == ';' && DigitsIn(s, b + 1, n - 1)
    && (s[n - 1] == 'M' || s[n - 1] == 'm')
  }

  ghost predicate IsMouse(s: string, n: nat) { exists a, b :: MouseAt(s, a, b, n) }

  /** A string terminator, `ESC \` or perhaps `BEL`, ends behind position `n - 1`. */
  predicate Terminated(s: string, n: nat, bel: bool)
    requires n <= |s|
  {
    (n >= 4 && s[n - 2] == '\U{1b}' && s[n - 1] == '\\') || (bel && n >= 3 && s[n - 1] == '\U{07}')
  }

  /** The escape sequence at the start of `s` ends after exactly `n` characters. */
  ghost predicate Closes(s: string, n: nat)
    requires n <= |s|
  {
    && n >= 2 && s[0] == '\U{1b}'
    && match s[1]
       case '[' =>
         n >= 3 &&
         if s[2] == 'M' then n == 6
         else if s[2] == '<' then IsMouse(s, n)
         else IsFinal(s[n - 1]) && forall i | 2 <= i < n - 1 :: !IsFinal(s[i])
       case ']' => Terminated(s, n, true) && forall i | 0 <= i < n :: !Terminated(s, i, true)
       case 'P' => Terminated(s, n, false) && forall i | 0 <= i < n :: !Terminated(s, i, false)
       case '_' => Terminated(s, n, false) && forall i | 0 <= i < n :: !Terminated(s, i, false)
       case 'O' => n == 3
       case _ => n == 2
  }

  /** The same, but for being the first such place. */
  ghost predicate Meets(s: string, n: nat)
    requires n <= |s|
  {
    && n >= 2 && s[0] == '\U{1b}'
    && match s[1]
       case '[' => n >= 3 && if s[2] == 'M' then n >= 6 else if s[2] == '<' then IsMouse(s, n) else IsFinal(s[n - 1])
       case ']' => Terminated(s, n, true)
       case 'P' => Terminated(s, n, false)
       case '_' => Terminated(s, n, false)
       case 'O' => n >= 3
       case _ => true
  }

  // ---- Splitting at semicolons ----

  lemma {:induction false} SplitHead(x: string, t: string, c: char)
    requires c !in x
    ensures SplitAt(x, c) == [x]
    ensures SplitAt(x + [c] + t, c) == [x] + SplitAt(t, c)
  {
    var s := x + [c] + t;
    if x == "" {
      assert s[0] == c && s[1..] == t;
    } else {
      assert x[0] in x && c !in x[1..];
      SplitHead(x[1..], t, c);
      assert s[0] == x[0] && s[1..] == x[1..] + [c] + t;
      assert [x[0]] + x[1..] == x;
      assert ([x[1..]] + SplitAt(t, c))[1..] == SplitAt(t, c);
    }
  }

  lemma {:induction false} SplitParts(t: string, c: char)
    ensures SplitAt(t, c) != []
    ensures c !in SplitAt(t, c)[0]
    ensures |SplitAt(t, c)| == 1 ==> SplitAt(t, c)[0] == t
    ensures |SplitAt(t, c)| > 1 ==>
      var n := |SplitAt(t, c)[0]|;
      n < |t| && t[..n] == SplitAt(t, c)[0] && t[n] == c && SplitAt(t[n + 1..], c) == SplitAt(t, c)[1..]
  {
    if t != "" {
      SplitParts(t[1..], c);
      var rest := SplitAt(t[1..], c);
      hide SplitAt;
      SplitStep(t, c);
      if t[0] == c {
        assert ([""] + rest)[1..] == rest && t[..0] == "";
      } else {
        assert ([[t[0]] + rest[0]] + rest[1..])[1..] == rest[1..] && [t[0]] + t[1..] == t;
        var n := |rest[0]|;
        if |rest| > 1 { assert t[..n + 1] == [t[0]] + t[1..][..n] && t[n + 2..] == t[1..][n + 1..]; }
      }
    }
  }

  lemma SplitStep(t: string, c: char)
    requires t != "" && SplitAt(t[1..], c) != []
    ensures var rest := SplitAt(t[1..], c); SplitAt(t, c) == if t[0] == c then [""] + rest else [[t[0]] + rest[0]] + rest[1..]
  {
  }

  lemma DigitsSlice(s: string, i: nat, j: nat)
    requires i <= j <= |s|
    ensures DigitsIn(s, i, j) <==> s[i..j] != "" && IsDigits(s[i..j])
  {
    assert forall k | i <= k < j :: s[k] == s[i..j][k - i];
  }

  /** The payload of a mouse report, by its parts and by its positions. */
  lemma MouseParts(s: string, n: nat)
    requires 4 <= n <= |s|
    ensures var parts := SplitAt(s[3..n - 1], ';');
      (|parts| == 3 && forall i | 0 <= i < 3 :: parts[i] != "" && IsDigits(parts[i])) && (s[n - 1] == 'M' || s[n - 1] == 'm')
      <==> IsMouse(s, n)
  {
    hide SplitAt, IsDigits;
    var parts := SplitAt(s[3..n - 1], ';');
    if |parts| == 3 && (forall i | 0 <= i < 3 :: parts[i] != "" && IsDigits(parts[i])) && (s[n - 1] == 'M' || s[n - 1] == 'm') {
      PartsPlaced(s, n);
    }
    if IsMouse(s, n) {
      var a, b :| MouseAt(s, a, b, n);
      PartsFound(s, a, b, n);
    }
  }

  lemma PartsPlaced(s: string, n: nat)
    requires 4 <= n <= |s| && (s[n - 1] == 'M' || s[n - 1] == 'm')
    requires var parts := SplitAt(s[3..n - 1], ';');
      |parts| == 3 && forall i | 0 <= i < 3 :: parts[i] != "" && IsDigits(parts[i])
    ensures IsMouse(s, n)
  {
    hide SplitAt, IsDigits, DigitsIn;
    var parts := SplitAt(s[3..n - 1], ';');
    var a := FirstPart(s, 3, n - 1);
    var b := FirstPart(s, a + 1, n - 1);
    LastPart(s, b + 1, n - 1);
    DigitsSlice(s, 3, a);
    DigitsSlice(s, a + 1, b);
    DigitsSlice(s, b + 1, n - 1);
    assert MouseAt(s, a, b, n);
  }

  /** The first of several parts of a slice. */
  lemma FirstPart(s: string, i: nat, j: nat) returns (a: nat)
    requires i <= j <= |s| && |SplitAt(s[i..j], ';')| > 1
    ensures i <= a < j && s[a] == ';' && SplitAt(s[i..j], ';')[0] == s[i..a]
    ensures SplitAt(s[a + 1..j], ';') == SplitAt(s[i..j], ';')[1..]
  {
    hide SplitAt;
    var t := s[i..j];
    SplitParts(t, ';');
    var n := |SplitAt(t, ';')[0]|;
    a := i + n;
    SubSlice(s, i, j, 0, n);
    SubSlice(s, i, j, n + 1, |t|);
    assert t[n + 1..|t|] == t[n + 1..] && t[0..n] == t[..n];
  }

  lemma LastPart(s: string, i: nat, j: nat)
    requires i <= j <= |s| && |SplitAt(s[i..j], ';')| == 1
    ensures SplitAt(s[i..j], ';')[0] == s[i..j]
  {
    hide SplitAt;
    SplitParts(s[i..j], ';');
  }

  lemma PartsFound(s: string, a: nat, b: nat, n: nat)
    requires MouseAt(s, a, b, n)
    ensures var parts := SplitAt(s[3..n - 1], ';');
      |parts| == 3 && forall i | 0 <= i < 3 :: parts[i] != "" && IsDigits(parts[i])
  {
    var x, y, z := s[3..a], s[a + 1..b], s[b + 1..n - 1];
    DigitsSlice(s, 3, a);
    DigitsSlice(s, a + 1, b);
    DigitsSlice(s, b + 1, n - 1);
    FiveParts(s, a, b, n);
    NoSemicolon(x);
    NoSemicolon(y);
    NoSemicolon(z);
    hide SplitAt, IsDigits, DigitsIn;
    SplitHead(x, y + [';'] + z, ';');
    SplitHead(y, z, ';');
    SplitHead(z, "", ';');
    assert SplitAt(s[3..n - 1], ';') == [x, y, z];
  }

  lemma FiveParts(s: string, a: nat, b: nat, n: nat)
    requires 3 <= a < b < n - 1 < |s| && a + 1 <= b && s[a] == ';' && s[b] == ';'
    ensures s[3..n - 1] == s[3..a] + [';'] + (s[a + 1..b] + [';'] + s[b + 1..n - 1])
  {
    JoinAt(s, a + 1, b, n - 1);
    JoinAt(s, 3, a, n - 1);
  }

  lemma JoinAt(s: string, i: nat, k: nat, n: nat)
    requires i <= k < n <= |s|
    ensures s[i..n] == s[i..k] + [s[k]] + s[k + 1..n]
  {
  }

  lemma NoSemicolon(t: string)
    requires IsDigits(t)
    ensures ';' !in t
  {
  }

  // ---- The test for a complete sequence, by position ----

  lemma CompleteMeets(s: string, n: nat)
    requires n <= |s|
    ensures IsCompleteSequence(s[..n]) == Complete <==> Meets(s, n)
  {
    hide IsMouse, SplitAt, IsDigits;
    var data := s[..n];
    if n >= 2 && s[0] == ESC {
      assert data[1] == s[1];
      if s[1] == '[' { CsiMeets(s, n); } else { StringMeets(s, n); }
    }
  }

  lemma StringMeets(s: string, n: nat)
    requires 2 <= n <= |s| && s[0] == ESC && s[1] != '['
    ensures IsCompleteSequence(s[..n]) == Complete <==> Meets(s, n)
  {
    hide IsMouse, IsCompleteCsi, EndsWith;
    var data := s[..n];
    assert data[0] == s[0] && data[1] == s[1];
    EndsTwo(s, n, ESC, '\\');
    EndsOne(s, n, BEL);
  }

  lemma EndsTwo(s: string, n: nat, c: char, d: char)
    requires 2 <= n <= |s|
    ensures EndsWith(s[..n], [c, d]) <==> s[n - 2] == c && s[n - 1] == d
  {
    assert s[..n][n - 2..] == [s[n - 2], s[n - 1]];
  }

  lemma EndsOne(s: string, n: nat, c: char)
    requires 1 <= n <= |s|
    ensures EndsWith(s[..n], [c]) <==> s[n - 1] == c
  {
    assert s[..n][n - 1..] == [s[n - 1]];
  }

  lemma CsiMeets(s: string, n: nat)
    requires 2 <= n <= |s| && s[0] == ESC && s[1] == '['
    ensures IsCompleteSequence(s[..n]) == Complete <==> Meets(s, n)
  {
    hide IsMouse, SplitAt, IsDigits, IsCompleteCsi;
    var data := s[..n];
    assert data[0] == s[0] && data[1] == s[1] && data[..2] == [ESC, '['];
    if n >= 3 {
      assert data[2] == s[2] && data[..3] == [ESC, '[', s[2]];
      if s[2] != 'M' { PayloadMeets(s, n); }
    } else {
      ShortCsi(data);
    }
  }

  lemma ShortCsi(data: string)
    requires |data| < 3 && StartsWith(data, [ESC, '['])
    ensures IsCompleteCsi(data) == Incomplete
  {
  }

  lemma PayloadMeets(s: string, n: nat)
    requires 3 <= n <= |s| && s[..2] == [ESC, '['] && s[2] != 'M'
    ensures StartsWith(s[..n], [ESC, '['])
    ensures IsCompleteCsi(s[..n]) == Complete <==> if s[2] == '<' then IsMouse(s, n) else IsFinal(s[n - 1])
  {
    hide SplitAt, IsDigits, IsMouse;
    var data := s[..n];
    var payload := data[2..];
    assert data[..2] == s[..2] && payload[0] == s[2] && payload[|payload| - 1] == s[n - 1];
    if s[2] == '<' {
      if n >= 4 {
        MouseParts(s, n);
        SubSlice(s, 0, n, 2, n);
        SubSlice(s, 2, n, 1, n - 3);
        assert s[0..n] == data && data[2..n] == payload;
      } else {
        ShortMouse(s, n);
      }
    }
  }

  lemma ShortMouse(s: string, n: nat)
    requires n < 4
    ensures !IsMouse(s, n)
  {
  }

  // ---- The first place ----

  lemma {:induction false} FirstIsLeast(s: string, m: nat, n: nat)
    requires 1 <= m <= n <= |s|
    ensures FirstComplete(s, m) == n <==>
      IsCompleteSequence(s[..n]) == Complete && forall k | m <= k < n :: IsCompleteSequence(s[..k]) != Complete
    decreases n - m
  {
    hide IsCompleteSequence;
    if m < n && IsCompleteSequence(s[..m]) != Complete { FirstIsLeast(s, m + 1, n); }
  }

  lemma MouseInside(s: string, n: nat, k: nat)
    requires IsMouse(s, n) && 3 <= k < n - 1
    ensures s[k] != 'M' && s[k] != 'm'
  {
    var a, b :| MouseAt(s, a, b, n);
    assert '0' <= s[k] <= '9' || s[k] == ';';
  }

  lemma MouseEnds(s: string, n: nat)
    ensures IsMouse(s, n) ==> 9 <= n <= |s| && (s[n - 1] == 'M' || s[n - 1] == 'm')
  {
  }

  /** A mouse report does not go on behind its last letter. */
  lemma MouseOnce(s: string, m: nat, n: nat)
    requires m < n && IsMouse(s, n)
    ensures !IsMouse(s, m)
  {
    hide IsMouse;
    MouseEnds(s, m);
    MouseEnds(s, n);
    if m >= 4 { MouseInside(s, n, m - 1); }
  }

  lemma ClosesIsFirst(s: string, n: nat)
    requires n <= |s|
    ensures Closes(s, n) <==> Meets(s, n) && forall k | 1 <= k < n :: !Meets(s, k)
  {
    hide IsMouse;
    if n >= 2 && s[0] == ESC && s[1] == '[' {
      CsiIsFirst(s, n);
    } else if Meets(s, n) && (forall k | 1 <= k < n :: !Meets(s, k)) {
      NotBefore(s, n);
    }
  }

  lemma NotBefore(s: string, n: nat)
    requires 2 <= n <= |s| && s[0] == ESC && s[1] != '[' && Meets(s, n) && forall k | 1 <= k < n :: !Meets(s, k)
    ensures Closes(s, n)
  {
    hide IsMouse;
    assert 2 < n ==> !Meets(s, 2);
    assert 3 < n ==> !Meets(s, 3);
    forall i | 0 <= i < n ensures (s[1] == ']' ==> !Terminated(s, i, true)) && (s[1] == 'P' || s[1] == '_' ==> !Terminated(s, i, false)) {
      if i >= 2 { assert !Meets(s, i); }
    }
  }

  lemma CsiIsFirst(s: string, n: nat)
    requires 2 <= n <= |s| && s[0] == ESC && s[1] == '['
    ensures Closes(s, n) <==> Meets(s, n) && forall k | 1 <= k < n :: !Meets(s, k)
  {
    hide IsMouse;
    if n >= 3 {
      if s[2] == 'M' {
        assert n > 6 ==> Meets(s, 6);
      } else if s[2] == '<' {
        forall k | 1 <= k < n && IsMouse(s, n) ensures !IsMouse(s, k) { MouseOnce(s, k, n); }
      } else if Meets(s, n) && (forall k | 1 <= k < n :: !Meets(s, k)) {
        forall i | 2 <= i < n - 1 ensures !IsFinal(s[i]) { assert !Meets(s, i + 1); }
      }
    }
  }

  /** The first token of a text that begins with an escape ends where the sequence ends. */
  lemma TokenCloses(s: string, n: nat)
    requires s != "" && s[0] == ESC && 1 <= n <= |s|
    ensures TokenLength(s) == n <==> Closes(s, n)
  {
    hide IsCompleteSequence, Closes, Meets;
    FirstIsLeast(s, 1, n);
    ClosesIsFirst(s, n);
    forall k | 1 <= k <= n ensures IsCompleteSequence(s[..k]) == Complete <==> Meets(s, k) { CompleteMeets(s, k); }
  }

  // ---- Tokens ----

  /** One character that is no escape, or a sequence that ends where the token does. */
  ghost predicate WellClosed(t: string) {
    t != "" && if t[0] == '\U{1b}' then Closes(t, |t|) else |t| == 1
  }

  /** Nothing, or a sequence that has not come to its end. */
  ghost predicate StillOpen(s: string) {
    s == "" || (s[0] == '\U{1b}' && forall n | 0 <= n <= |s| :: !Closes(s, n))
  }

  lemma {:induction false} TokensClose(s: string)
    ensures forall i | 0 <= i < |Tokens(s).tokens| :: WellClosed(Tokens(s).tokens[i])
    ensures StillOpen(Tokens(s).remainder)
  {
    hide Closes, Tokens, FirstComplete, IsCompleteSequence;
    TokensAreTokens(s);
    var tokens, rest := Tokens(s).tokens, Tokens(s).remainder;
    forall i | 0 <= i < |tokens| ensures WellClosed(tokens[i]) {
      if tokens[i][0] == ESC { TokenCloses(tokens[i], |tokens[i]|); }
    }
    if rest != "" {
      forall n | 0 <= n <= |rest| ensures !Closes(rest, n) {
        if n >= 1 { TokenCloses(rest, n); } else { NotAtOnce(rest); }
      }
    }
  }

  lemma NotAtOnce(s: string)
    ensures !Closes(s, 0)
  {
  }

  lemma ClosesPrefix(a: string, b: string, n: nat)
    requires n <= |a|
    ensures Closes(a + b, n) <==> Closes(a, n)
  {
    hide Closes, Meets, IsCompleteSequence;
    ClosesIsFirst(a, n);
    ClosesIsFirst(a + b, n);
    forall k | 1 <= k <= n ensures Meets(a + b, k) <==> Meets(a, k) {
      assert (a + b)[..k] == a[..k];
      CompleteMeets(a, k);
      CompleteMeets(a + b, k);
    }
    if n == 0 { NotAtOnce(a); NotAtOnce(a + b); }
  }

  // ---- One read ----

  function Texts(events: seq<Event>): string {
    if events == [] then ""
    else (match events[0] case Data(text) => text case Paste(text) => text) + Texts(events[1..])
  }

  lemma {:induction false} TextsOfData(tokens: seq<string>)
    ensures Texts(DataEvents(tokens)) == Flatten(tokens)
  {
    if tokens != [] {
      TextsOfData(tokens[1..]);
      assert DataEvents(tokens)[1..] == DataEvents(tokens[1..]);
    }
  }

  /** The text stands in `s` at position `i`. */
  predicate StandsAt(s: string, i: nat, text: string) {
    i + |text| <= |s| && s[i..i + |text|] == text
  }

  lemma FoundStands(s: string, pattern: string)
    ensures Find(s, pattern) >= 0 ==> StandsAt(s, Find(s, pattern), pattern)
  {
  }

  lemma FirstAt(s: string, pattern: string, k: nat)
    requires pattern != "" && StandsAt(s, k, pattern) && forall i: nat | i < k :: !StandsAt(s, i, pattern)
    ensures Find(s, pattern) == k
  {
    hide Find;
    FindIsFirst(s, pattern, k);
    FoundStands(s, pattern);
  }

  /** A read without a paste marker: each event is one character or one whole sequence, together with
      what stays in the buffer they are what was read, and that is a sequence without its end. */
  lemma ReadPlain(s: string)
    requires s != "" && forall i: nat :: !StandsAt(s, i, "\U{1b}[200~")
    ensures var Outcome(state, events) := Feed(State("", false, ""), s);
      && (forall i | 0 <= i < |events| :: events[i].Data? && WellClosed(events[i].text))
      && Texts(events) + state.buffer == s && StillOpen(state.buffer) && !state.pasteMode
  {
    hide Tokens, Find, WellClosed, StillOpen, StandsAt;
    assert PASTE_START == "\U{1b}[200~" && "" + s == s;
    FoundStands(s, PASTE_START);
    TokensClose(s);
    TokensRejoin(s);
    TextsOfData(Tokens(s).tokens);
  }

  /** A paste in one read: one event with exactly what stands between the markers. */
  lemma ReadPaste(content: string)
    requires forall i: nat | i < |content| :: !StandsAt(content + "\U{1b}[201~", i, "\U{1b}[201~")
    ensures Feed(State("", false, ""), "\U{1b}[200~" + content + "\U{1b}[201~") == Outcome(State("", false, ""), [Paste(content)])
  {
    hide Find, Tokens, StandsAt, FeedText, FeedPaste;
    assert PASTE_START == "\U{1b}[200~" && PASTE_END == "\U{1b}[201~";
    var tail := content + PASTE_END;
    assert PASTE_START + content + PASTE_END == PASTE_START + tail && "" + (PASTE_START + tail) == PASTE_START + tail;
    PasteOnly(content);
    PasteBegins(tail);
  }

  lemma PasteBegins(tail: string)
    ensures var rest := FeedPaste(tail); FeedText(PASTE_START + tail) == Outcome(rest.state, rest.events)
  {
    hide FeedPaste, Tokens, Find;
    var s := PASTE_START + tail;
    assert s[0..6] == PASTE_START && s[6..] == tail;
    FirstAt(s, PASTE_START, 0);
    NoTokens(s);
    assert DataEvents([]) == [] && [] + FeedPaste(tail).events == FeedPaste(tail).events;
  }

  lemma PasteOnly(content: string)
    requires forall i: nat | i < |content| :: !StandsAt(content + PASTE_END, i, PASTE_END)
    ensures FeedPaste(content + PASTE_END) == Outcome(State("", false, ""), [Paste(content)])
  {
    hide FeedText, Tokens, Find, StandsAt;
    TailParts(content, PASTE_END);
    FirstAt(content + PASTE_END, PASTE_END, |content|);
    FeedNothing();
    assert [Paste(content)] + [] == [Paste(content)];
  }

  lemma TailParts(a: string, b: string)
    ensures StandsAt(a + b, |a|, b) && (a + b)[..|a|] == a && (a + b)[|a| + |b|..] == ""
  {
  }
}
