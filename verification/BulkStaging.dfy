/**
 Staging of a bulk send (`cmdStart`): the daily window, the paced send times and the list of
 results. Times are milliseconds since the epoch.
 */
module BulkStaging {
  import opened Basics

  const DELAY_MIN_MS := 75_000
  const DELAY_MAX_MS := 105_000
  const IST_OFFSET_MS := 19_800_000  // UTC+5:30
  const DAY_MS := 86_400_000
  const HOUR_MS := 3_600_000
  const MINUTE_MS := 60_000

  // ---- The window ----

  datatype Window = Window(startMs: int, endMs: int, dispatchEndMs: int)

  /** Midnight of the Indian calendar day that contains `now`. */
  function DayStart(now: int): int {
    (now + IST_OFFSET_MS) / DAY_MS * DAY_MS - IST_OFFSET_MS
  }

  /** `istWindow`: scheduling from 9:00 to 18:00, sending until 19:30. */
  function IstWindow(now: int): Window {
    Window(DayStart(now) + 9 * HOUR_MS, DayStart(now) + 18 * HOUR_MS, DayStart(now) + 19 * HOUR_MS + 30 * MINUTE_MS)
  }

  /** Windows never run backwards: a later instant has the same window or one of a later day. */
  lemma WindowMonotone(a: int, b: int)
    requires a <= b
    ensures DayStart(a) <= a < DayStart(a) + DAY_MS
    ensures DayStart(a) <= DayStart(b)
    ensures IstWindow(a) == IstWindow(b) || IstWindow(a).dispatchEndMs < IstWindow(b).startMs
  {
    assert (a + IST_OFFSET_MS) / DAY_MS <= (b + IST_OFFSET_MS) / DAY_MS;
    if (a + IST_OFFSET_MS) / DAY_MS < (b + IST_OFFSET_MS) / DAY_MS {
      assert (a + IST_OFFSET_MS) / DAY_MS + 1 <= (b + IST_OFFSET_MS) / DAY_MS;
    }
  }

  /** The window by the clock: the time of day in India is 9:00 when it opens, 18:00 when it closes for
      scheduling, and 19:30 when it closes for sending. */
  lemma HoursOfDay(now: int)
    ensures var time := (now + 19_800_000) % 86_400_000;
      && IstWindow(now).startMs == now - time + 32_400_000
      && IstWindow(now).endMs == now - time + 64_800_000
      && IstWindow(now).dispatchEndMs == now - time + 70_200_000
  {
    var t := now + 19_800_000;
    assert t == t / DAY_MS * DAY_MS + t % DAY_MS;
  }

  // ---- The delays ----

  /** A value of `Math.random()`. */
  type Unit = u: real | 0.0 <= u < 1.0 witness 0.0

  /** `randDelay` */
  function RandDelay(u: Unit): int {
    DELAY_MIN_MS + (u * (DELAY_MAX_MS - DELAY_MIN_MS + 1) as real).Floor
  }

  lemma RandDelayRange(u: Unit)
    ensures 75_000 <= RandDelay(u) <= 105_000
  {
    assert 0.0 <= u * 30001.0 < 30001.0;
  }

  // ---- Deduplication ----

  /** Every number once, in the order of its first occurrence. */
  ghost predicate Distinct(xs: seq<string>) {
    forall i, j | 0 <= i < j < |xs| :: xs[i] != xs[j]
  }

  /** Where a number first occurs. */
  function FirstAt(parts: seq<string>, normalize: string -> Option<string>, n: string): nat {
    if parts == [] || normalize(parts[0]) == Some(n) then 0 else 1 + FirstAt(parts[1..], normalize, n)
  }

  lemma {:induction false} FirstAtIs(parts: seq<string>, normalize: string -> Option<string>, n: string, i: nat)
    requires i < |parts| && normalize(parts[i]) == Some(n)
    requires forall k | 0 <= k < i :: normalize(parts[k]) != Some(n)
    ensures FirstAt(parts, normalize, n) == i
  {
    if i > 0 {
      assert normalize(parts[0]) != Some(n);
      FirstAtIs(parts[1..], normalize, n, i - 1);
    }
  }

  /** The first loop of `cmdStart`; `normalize` is `normalizePhone`. */
  method Normalize(parts: seq<string>, normalize: string -> Option<string>)
    returns (recipients: seq<string>, invalid: seq<string>)
    ensures Distinct(recipients)
    ensures forall a, b | 0 <= a < b < |recipients| ::
      FirstAt(parts, normalize, recipients[a]) < FirstAt(parts, normalize, recipients[b])
    ensures forall n: string :: n in recipients <==> exists i | 0 <= i < |parts| :: normalize(parts[i]) == Some(n)
    ensures forall p: string :: p in invalid <==> p in parts && normalize(p) == None
  {
    recipients, invalid := [], [];
    var seen: set<string> := {};
    var i := 0;
    while i < |parts|
      invariant 0 <= i <= |parts|
      invariant Distinct(recipients) && forall n: string :: n in seen <==> n in recipients
      invariant forall n: string :: n in recipients <==> exists k | 0 <= k < i :: normalize(parts[k]) == Some(n)
      invariant forall a | 0 <= a < |recipients| :: FirstAt(parts, normalize, recipients[a]) < i
      invariant forall a, b | 0 <= a < b < |recipients| ::
        FirstAt(parts, normalize, recipients[a]) < FirstAt(parts, normalize, recipients[b])
      invariant forall p: string :: p in invalid <==> p in parts[..i] && normalize(p) == None
    {
      var n := normalize(parts[i]);
      assert parts[..i + 1] == parts[..i] + [parts[i]];
      if n.None? {
        invalid := invalid + [parts[i]];
      } else if n.value !in seen {
        FirstAtIs(parts, normalize, n.value, i);
        seen := seen + {n.value};
        recipients := recipients + [n.value];
      }
      i := i + 1;
    }
    assert parts[..i] == parts;
  }

  // ---- Staging ----

  datatype Blocked = Free | AlreadyQueued | Cooldown

  datatype Result = Queued(at: int) | Refused(reason: Blocked) | QueueFull

  /** The times given out, in order. */
  function QueuedTimes(results: seq<Result>): seq<int> {
    if results == [] then []
    else QueuedTimes(results[..|results| - 1]) +
         if results[|results| - 1].Queued? then [results[|results| - 1].at] else []
  }

  lemma QueuedSnoc(results: seq<Result>, r: Result)
    ensures QueuedTimes(results + [r]) == QueuedTimes(results) + if r.Queued? then [r.at] else []
  {
    assert (results + [r])[..|results|] == results;
  }

  /** The time that the delay of `times[i]` was added to. */
  function Before(base: int, times: seq<int>, i: nat): int
    requires i < |times|
  {
    if i == 0 then base else times[i - 1]
  }

  /** Successive times are 75 to 105 seconds apart, counting from `base`, and within the window. */
  ghost predicate Paced(base: int, times: seq<int>, endMs: int) {
    forall i | 0 <= i < |times| :: 75_000 <= times[i] - Before(base, times, i) <= 105_000 && times[i] <= endMs
  }

  function LastTime(base: int, times: seq<int>): int {
    if times == [] then base else times[|times| - 1]
  }

  function Frees(blocked: seq<Blocked>): nat {
    if blocked == [] then 0
    else Frees(blocked[..|blocked| - 1]) + if blocked[|blocked| - 1].Free? then 1 else 0
  }

  lemma PacedSnoc(base: int, times: seq<int>, at: int, endMs: int)
    ensures Paced(base, times + [at], endMs) <==>
      Paced(base, times, endMs) && 75_000 <= at - LastTime(base, times) <= 105_000 && at <= endMs
    ensures LastTime(base, times + [at]) == at
  {
    var all := times + [at];
    assert all[|times|] == at && Before(base, all, |times|) == LastTime(base, times);
    forall i | 0 <= i < |times|
      ensures all[i] == times[i] && Before(base, all, i) == Before(base, times, i)
    {}
  }

  lemma {:induction false} PacedEnds(base: int, times: seq<int>, endMs: int)
    requires Paced(base, times, endMs)
    ensures base + 75_000 * |times| <= LastTime(base, times) <= base + 105_000 * |times|
    ensures times != [] ==> LastTime(base, times) <= endMs
  {
    if times != [] {
      var init, at := times[..|times| - 1], times[|times| - 1];
      assert times == init + [at];
      PacedSnoc(base, init, at, endMs);
      hide Paced;
      PacedEnds(base, init, endMs);
    }
  }

  lemma {:induction false} PacedApart(base: int, times: seq<int>, endMs: int, i: nat, j: nat)
    requires Paced(base, times, endMs) && i < j < |times|
    ensures times[i] + 75_000 <= times[j]
    decreases j
  {
    assert times[j] - Before(base, times, j) >= 75_000;
    if i < j - 1 {
      hide Paced;
      PacedApart(base, times, endMs, i, j - 1);
    }
  }

  /** What pacing means for the first, the last and any two times. */
  lemma PacedBounds(base: int, times: seq<int>, endMs: int)
    requires Paced(base, times, endMs)
    ensures base + 75_000 * |times| <= LastTime(base, times) <= base + 105_000 * |times|
    ensures times != [] ==> 75_000 * |times| <= endMs - base
    ensures forall i | 0 <= i < |times| :: base + 75_000 <= times[i] <= LastTime(base, times) <= endMs
    ensures forall i, j | 0 <= i < j < |times| :: times[i] + 75_000 <= times[j]
  {
    PacedEnds(base, times, endMs);
    assert times != [] ==> times[0] - Before(base, times, 0) >= 75_000;
    forall i, j | 0 <= i < j < |times| ensures times[i] + 75_000 <= times[j] {
      PacedApart(base, times, endMs, i, j);
    }
    hide Paced;
    forall i | 0 <= i < |times| ensures base + 75_000 <= times[i] <= LastTime(base, times) {
      assert times[0] <= times[i] <= times[|times| - 1];
    }
  }

  /** What a number gets: a free one the time behind the last, if it is within the window. */
  ghost predicate IsOffer(r: Result, blocked: Blocked, last: int, delay: int, w: Window, now: int) {
    && (!blocked.Free? ==> r == Refused(blocked))
    && (blocked.Free? && now < w.endMs && last + delay <= w.endMs ==> r == Queued(last + delay))
    && (blocked.Free? && (now >= w.endMs || last + delay > w.endMs) ==> r == QueueFull)
  }

  /** Every free number was offered the time that follows those before it. */
  ghost predicate Offered(base: int, w: Window, now: int, blocked: seq<Blocked>, draw: nat -> Unit, results: seq<Result>)
    requires |results| <= |blocked|
  {
    forall k | 0 <= k < |results| ::
      IsOffer(results[k], blocked[k], LastTime(base, QueuedTimes(results[..k])), RandDelay(draw(k)), w, now)
  }

  lemma OfferedNext(base: int, w: Window, now: int, blocked: seq<Blocked>, draw: nat -> Unit, results: seq<Result>, r: Result)
    requires |results| < |blocked| && Offered(base, w, now, blocked, draw, results)
    requires IsOffer(r, blocked[|results|], LastTime(base, QueuedTimes(results)), RandDelay(draw(|results|)), w, now)
    ensures Offered(base, w, now, blocked, draw, results + [r])
  {
    hide QueuedTimes, LastTime, RandDelay, IsOffer;
    var all := results + [r];
    forall k | 0 <= k < |all| ensures
      IsOffer(all[k], blocked[k], LastTime(base, QueuedTimes(all[..k])), RandDelay(draw(k)), w, now)
    {
      assert all[..k] == results[..k];
      if k == |results| { assert all[..k] == results; }
    }
  }

  lemma OfferedStart(base: int, w: Window, now: int, blocked: seq<Blocked>, draw: nat -> Unit)
    ensures Offered(base, w, now, blocked, draw, [])
  {
  }

  /** What the staging loop has done after its first `|results|` numbers. */
  ghost predicate Staging(base: int, last: int, w: Window, now: int, blocked: seq<Blocked>, results: seq<Result>) {
    && |results| <= |blocked|
    && last == LastTime(base, QueuedTimes(results))
    && Paced(base, QueuedTimes(results), w.endMs)
    && (now >= w.endMs ==> QueuedTimes(results) == [])
    && (forall k | 0 <= k < |results| :: results[k] == Refused(blocked[k]) <==> !blocked[k].Free?)
    && last <= base + 105_000 * Frees(blocked[..|results|])
    && (Roomy(base, w, now, blocked) ==> forall k | 0 <= k < |results| :: blocked[k].Free? ==> results[k].Queued?)
  }

  /** Even with the longest delays everything fits. */
  ghost predicate Roomy(base: int, w: Window, now: int, blocked: seq<Blocked>) {
    now < w.endMs && 105_000 * Frees(blocked) <= w.endMs - base
  }

  lemma StagingNext(base: int, last: int, w: Window, now: int, blocked: seq<Blocked>, results: seq<Result>, r: Result, delay: int)
    requires Staging(base, last, w, now, blocked, results) && |results| < |blocked|
    requires 75_000 <= delay <= 105_000
    requires IsOffer(r, blocked[|results|], last, delay, w, now)
    ensures Staging(base, if r.Queued? then r.at else last, w, now, blocked, results + [r])
    ensures (if r.Queued? then r.at else last) == LastTime(base, QueuedTimes(results + [r]))
  {
    hide Paced, QueuedTimes, LastTime, Frees;
    var i := |results|;
    FreesSnoc(blocked, i);
    FreesMonotone(blocked, i + 1);
    QueuedSnoc(results, r);
    if r.Queued? {
      PacedSnoc(base, QueuedTimes(results), r.at, w.endMs);
    } else {
      assert QueuedTimes(results + [r]) == QueuedTimes(results);
    }
  }

  lemma FreesSnoc(blocked: seq<Blocked>, i: nat)
    requires i < |blocked|
    ensures Frees(blocked[..i + 1]) == Frees(blocked[..i]) + if blocked[i].Free? then 1 else 0
  {
    assert blocked[..i + 1][..i] == blocked[..i];
  }

  lemma {:induction false} FreesMonotone(blocked: seq<Blocked>, k: nat)
    requires k <= |blocked|
    ensures Frees(blocked[..k]) <= Frees(blocked)
  {
    if k == |blocked| {
      assert blocked[..k] == blocked;
    } else {
      assert blocked[..|blocked| - 1][..k] == blocked[..k];
      FreesMonotone(blocked[..|blocked| - 1], k);
    }
  }

  /** The staging loop of `cmdStart`. `blocked` is what the database answers for each number;
      a refused number and one that no longer fits leave the base where it was. */
  method Stage(now: int, tail: Option<int>, blocked: seq<Blocked>, draw: nat -> Unit) returns (results: seq<Result>, base: int)
    ensures |results| == |blocked|
    ensures base == Base(now, tail)
    ensures Paced(base, QueuedTimes(results), IstWindow(now).endMs)
    ensures forall i | 0 <= i < |blocked| :: results[i] == Refused(blocked[i]) <==> !blocked[i].Free?
    ensures QueuedTimes(results) != [] ==> 75_000 * |QueuedTimes(results)| <= IstWindow(now).endMs - base
    ensures Roomy(base, IstWindow(now), now, blocked) ==>
      forall i | 0 <= i < |blocked| :: blocked[i].Free? ==> results[i].Queued?
    ensures Offered(base, IstWindow(now), now, blocked, draw, results)
  {
    hide Base, IstWindow, RandDelay, Staging, Offered, Roomy, QueuedTimes, LastTime, Paced, Frees;
    var w := IstWindow(now);
    base := Base(now, tail);
    var last := base;
    results := [];
    StagingStart(base, w, now, blocked);
    OfferedStart(base, w, now, blocked, draw);
    var i := 0;
    while i < |blocked|
      invariant 0 <= i <= |blocked| && |results| == i
      invariant Staging(base, last, w, now, blocked, results)
      invariant last == LastTime(base, QueuedTimes(results))
      invariant Offered(base, w, now, blocked, draw, results)
    {
      var r, delay := QueueFull, RandDelay(draw(i));
      RandDelayRange(draw(i));
      if !blocked[i].Free? {
        r := Refused(blocked[i]);
      } else if now < w.endMs {
        var at := last + delay;
        if at <= w.endMs {
          r := Queued(at);
        }
      }
      OfferedNext(base, w, now, blocked, draw, results, r);
      StagingNext(base, last, w, now, blocked, results, r, delay);
      last := if r.Queued? then r.at else last;
      results := results + [r];
      i := i + 1;
    }
    StagingEnd(base, last, w, now, blocked, results);
  }

  lemma StagingStart(base: int, w: Window, now: int, blocked: seq<Blocked>)
    ensures Staging(base, base, w, now, blocked, []) && LastTime(base, QueuedTimes([])) == base
  {
  }

  lemma StagingEnd(base: int, last: int, w: Window, now: int, blocked: seq<Blocked>, results: seq<Result>)
    requires Staging(base, last, w, now, blocked, results) && |results| == |blocked|
    ensures Paced(base, QueuedTimes(results), w.endMs)
    ensures forall i | 0 <= i < |blocked| :: results[i] == Refused(blocked[i]) <==> !blocked[i].Free?
    ensures QueuedTimes(results) != [] ==> 75_000 * |QueuedTimes(results)| <= w.endMs - base
    ensures Roomy(base, w, now, blocked) ==>
      forall i | 0 <= i < |blocked| :: blocked[i].Free? ==> results[i].Queued?
  {
    PacedBounds(base, QueuedTimes(results), w.endMs);
  }

  /** The later of now, the start of the window and the last message queued for today. */
  function Base(now: int, tail: Option<int>): (base: int)
    ensures base >= now && base >= IstWindow(now).startMs && (tail.Some? ==> base >= tail.value)
    ensures base == now || base == IstWindow(now).startMs || (tail.Some? && base == tail.value)
  {
    var from := if now >= IstWindow(now).startMs then now else IstWindow(now).startMs;
    if tail.Some? && tail.value > from then tail.value else from
  }

  // ---- Across starts ----

  /** `queueTail`: the latest pending time within today's window. */
  function QueueTail(pending: seq<int>, w: Window): Option<int> {
    if pending == [] then None
    else
      var rest, t := QueueTail(pending[1..], w), pending[0];
      if w.startMs <= t <= w.endMs && (rest.None? || t > rest.value) then Some(t) else rest
  }

  lemma {:induction false} QueueTailIsLatest(pending: seq<int>, w: Window, i: nat)
    requires i < |pending| && w.startMs <= pending[i] <= w.endMs
    ensures QueueTail(pending, w).Some? && pending[i] <= QueueTail(pending, w).value
  {
    if i > 0 { QueueTailIsLatest(pending[1..], w, i - 1); }
  }

  /** And it is one of them. */
  lemma {:induction false} QueueTailIsPending(pending: seq<int>, w: Window)
    requires QueueTail(pending, w).Some?
    ensures QueueTail(pending, w).value in pending && w.startMs <= QueueTail(pending, w).value <= w.endMs
  {
    if QueueTail(pending[1..], w).Some? { QueueTailIsPending(pending[1..], w); }
  }

  ghost predicate Apart(a: int, b: int) { a + 75_000 <= b || b + 75_000 <= a }

  ghost predicate Spaced(times: seq<int>) {
    forall i, j | 0 <= i < j < |times| :: Apart(times[i], times[j])
  }

  /** The pending times, none later than the window of the last start. */
  ghost predicate Staged(pending: seq<int>, last: int) {
    Spaced(pending) && forall i | 0 <= i < |pending| :: pending[i] <= IstWindow(last).endMs
  }

  /** A start with a clock that has not gone back keeps all pending messages at least 75 seconds
      apart. Retries, which pick times of their own, are not starts. */
  lemma StartKeepsSpacing(pending: seq<int>, last: int, now: int, times: seq<int>)
    requires Staged(pending, last) && last <= now
    requires Paced(Base(now, QueueTail(pending, IstWindow(now))), times, IstWindow(now).endMs)
    ensures Staged(pending + times, now)
  {
    var w := IstWindow(now);
    var base := Base(now, QueueTail(pending, w));
    WindowMonotone(last, now);
    PacedBounds(base, times, w.endMs);
    var all := pending + times;
    forall i, j | 0 <= i < j < |all| ensures Apart(all[i], all[j]) {
      if j < |pending| {
        assert Apart(pending[i], pending[j]);
      } else if i < |pending| {
        if w.startMs <= pending[i] { QueueTailIsLatest(pending, w, i); }
        assert pending[i] <= base && base + 75_000 <= times[j - |pending|];
      }
    }
  }

  /** Sending, skipping and failing only take messages out of the pending ones. */
  lemma RemovalKeepsSpacing(pending: seq<int>, last: int, k: nat)
    requires Staged(pending, last) && k < |pending|
    ensures Staged(pending[..k] + pending[k + 1..], last)
  {
    var rest := pending[..k] + pending[k + 1..];
    forall i, j | 0 <= i < j < |rest| ensures Apart(rest[i], rest[j]) {
      assert rest[i] == pending[if i < k then i else i + 1] && rest[j] == pending[if j < k then j else j + 1];
    }
  }

  /** What happens to the pending messages: a start adds its queued times, and sending, skipping or
      failing takes one out. */
  datatype Change = Started(now: int, times: seq<int>) | Gone(k: nat)

  function PendingAfter(changes: seq<Change>): seq<int> {
    if changes == [] then []
    else
      var pending := PendingAfter(changes[..|changes| - 1]);
      match changes[|changes| - 1]
      case Started(_, times) => pending + times
      case Gone(k) => if k < |pending| then pending[..k] + pending[k + 1..] else pending
  }

  /** The clock at the last start, from `origin` on. */
  function LastStart(origin: int, changes: seq<Change>): int {
    if changes == [] then origin
    else if changes[|changes| - 1].Started? then changes[|changes| - 1].now
    else LastStart(origin, changes[..|changes| - 1])
  }

  /** The clock does not go back from start to start, and each start paces its times from its base. */
  ghost predicate Regular(origin: int, changes: seq<Change>) {
    changes == [] ||
    (var init, last := changes[..|changes| - 1], changes[|changes| - 1];
     && Regular(origin, init)
     && (last.Started? ==>
       && LastStart(origin, init) <= last.now
       && Paced(Base(last.now, QueueTail(PendingAfter(init), IstWindow(last.now))), last.times, IstWindow(last.now).endMs)))
  }

  /** Whatever the starts and removals, all pending messages are at least 75 seconds apart. */
  lemma {:induction false} AlwaysSpaced(origin: int, changes: seq<Change>)
    requires Regular(origin, changes)
    ensures Staged(PendingAfter(changes), LastStart(origin, changes))
  {
    if changes != [] {
      var init, last := changes[..|changes| - 1], changes[|changes| - 1];
      AlwaysSpaced(origin, init);
      var pending := PendingAfter(init);
      hide Staged, Paced, Base, QueueTail, IstWindow;
      match last {
        case Started(now, times) => StartKeepsSpacing(pending, LastStart(origin, init), now, times);
        case Gone(k) => if k < |pending| { RemovalKeepsSpacing(pending, LastStart(origin, init), k); }
      }
    }
  }
}
