/**
 What the checks of the dispatcher (`cmdDispatch`) and of a start (`blockReason`) give: when a tick is
 held back for good, what it claims, sends and writes down, and when a start inserts a message. All
 conditions are on the rows and the clock, in milliseconds.
 */
module DispatchLaws {
  import opened Basics
  import opened BulkStaging
  import opened BulkDispatch

  // ---- Being held back ----

  /** In this continuation no step of tick `p` changes a row, and none really sends. */
  ghost predicate Silent(s: State, p: nat, more: seq<Step>) {
    forall i | 0 <= i < |more| && OfTick(more[i], p) ::
      var t := Run(s, more[..i]);
      Do(t, more[i]).rows == t.rows && Do(t, more[i]).log == t.log
  }

  ghost predicate OverAt(s: State, p: nat) { p in s.ticks && (s.ticks[p].pc.Done? || s.ticks[p].pc.Offline?) }

  lemma StaysOver(s: State, step: Step, p: nat)
    requires OverAt(s, p)
    ensures OverAt(Do(s, step), p)
    ensures OfTick(step, p) ==> Do(s, step).rows == s.rows && Do(s, step).log == s.log
  {
    hide InWindow, SentWithin, Recent, HasPending, IsDue, Earliest, Outcome;
  }

  lemma {:induction false} OverAlong(s: State, p: nat, more: seq<Step>)
    requires OverAt(s, p)
    ensures OverAt(Run(s, more), p)
  {
    hide OverAt, Do;
    if more != [] {
      OverAlong(s, p, more[..|more| - 1]);
      StaysOver(Run(s, more[..|more| - 1]), more[|more| - 1], p);
    }
  }

  lemma SilentWhenOver(s: State, p: nat, more: seq<Step>)
    requires OverAt(s, p)
    ensures Silent(s, p, more)
  {
    hide OverAt, Do, Run;
    forall i | 0 <= i < |more| && OfTick(more[i], p)
      ensures var t := Run(s, more[..i]); Do(t, more[i]).rows == t.rows && Do(t, more[i]).log == t.log
    {
      OverAlong(s, p, more[..i]);
      StaysOver(Run(s, more[..i]), more[i], p);
    }
  }

  /** A tick begins only from 9:00 to 19:30 Indian time. */
  lemma BeginsInWindow(s: State, p: nat, now: int)
    requires p !in s.ticks
    ensures var time := (now + 19_800_000) % 86_400_000;
      if 32_400_000 <= time < 70_200_000 then Do(s, Begin(p, now)) == s.(ticks := s.ticks[p := Tick(now, Begun, true)])
      else Do(s, Begin(p, now)) == s
  {
    DayParts(now + 19_800_000);
  }

  lemma DayParts(t: int)
    ensures t == t / DAY_MS * DAY_MS + t % DAY_MS
  {
  }

  /** With nothing due a tick is over; otherwise it asks whether there is a link. */
  lemma PeekHoldsBack(s: State, p: nat, more: seq<Step>)
    requires At(s, p) && s.ticks[p].pc.Begun?
    ensures var due := exists id | id in s.rows :: s.rows[id].status.Scheduled? && s.rows[id].scheduledAt <= s.ticks[p].now;
      if due then Do(s, Peek(p)) == Goto(s, p, Due) else Silent(Do(s, Peek(p)), p, more)
  {
    hide Silent, Run;
    if forall id | id in s.rows :: !(s.rows[id].status.Scheduled? && s.rows[id].scheduledAt <= s.ticks[p].now) {
      assert Do(s, Peek(p)) == Goto(s, p, Done);
      SilentWhenOver(Do(s, Peek(p)), p, more);
    } else {
      var id :| id in s.rows && s.rows[id].status.Scheduled? && s.rows[id].scheduledAt <= s.ticks[p].now;
      assert IsDue(s, id, s.ticks[p].now);
    }
  }

  /** Without a link a tick is over; otherwise it looks at the gap. */
  lemma ProbeHoldsBack(s: State, p: nat, connected: bool, more: seq<Step>)
    requires At(s, p) && s.ticks[p].pc.Due?
    ensures if connected then Do(s, Probe(p, connected)) == Goto(s, p, Linked) else Silent(Do(s, Probe(p, connected)), p, more)
  {
    hide Silent, Run;
    if !connected { SilentWhenOver(Do(s, Probe(p, connected)), p, more); }
  }

  /** The gap check: if any sent message was created less than 75 seconds ago, the tick changes and
      sends nothing, whatever happens later; otherwise it goes on to claim. */
  lemma GapHoldsBack(s: State, p: nat, more: seq<Step>)
    requires At(s, p) && s.ticks[p].pc.Linked?
    ensures var recent := exists id | id in s.rows :: s.rows[id].status.Sent? && s.ticks[p].now - s.rows[id].createdAt < 75_000;
      if recent then Silent(Do(s, Gap(p)), p, more) else Do(s, Gap(p)) == Goto(s, p, Ready(0))
  {
    hide Silent, Run;
    if exists id | id in s.rows :: s.rows[id].status.Sent? && s.ticks[p].now - s.rows[id].createdAt < 75_000 {
      assert Do(s, Gap(p)) == Goto(s, p, Done);
      SilentWhenOver(Do(s, Gap(p)), p, more);
    }
  }

  // ---- Claiming, sending and writing down ----

  /** The row is due, and no other due row was scheduled earlier. */
  ghost predicate FirstDue(rows: map<nat, Row>, id: nat, now: int) {
    && id in rows && rows[id].status.Scheduled? && rows[id].scheduledAt <= now
    && forall other | other in rows && rows[other].status.Scheduled? :: rows[id].scheduledAt <= rows[other].scheduledAt
  }

  lemma FirstDueIsEarliest(s: State, id: nat, now: int)
    ensures FirstDue(s.rows, id, now) <==> Earliest(s, id, now)
  {
    if Earliest(s, id, now) {
      forall other | other in s.rows && s.rows[other].status.Scheduled? ensures s.rows[id].scheduledAt <= s.rows[other].scheduledAt {
        if s.rows[other].scheduledAt <= now { assert IsDue(s, other, now); }
      }
    }
  }

  /** A tick claims a row exactly if that is the first one due and it has skipped fewer than 50. */
  lemma ClaimsFirstDue(s: State, p: nat, id: nat)
    requires At(s, p) && s.ticks[p].pc.Ready?
    ensures var t, s' := s.ticks[p], Do(s, Claim(p, id));
      if t.pc.guard < 50 && FirstDue(s.rows, id, t.now) then
        && s'.rows == s.rows[id := s.rows[id].(status := Sending)] && s'.log == s.log
        && s'.ticks[p].pc == Claimed(t.pc.guard, id, s.rows[id].attempts)
      else s'.rows == s.rows && s'.log == s.log
  {
    FirstDueIsEarliest(s, id, s.ticks[p].now);
    assert IsDue(s, id, s.ticks[p].now) || !Earliest(s, id, s.ticks[p].now);
  }

  /** The number of the row has a sent message created less than three hours ago. */
  ghost predicate InCooldown(rows: map<nat, Row>, phone: string, now: int) {
    exists id | id in rows :: rows[id].phone == phone && rows[id].status.Sent? && now - rows[id].createdAt < 10_800_000
  }

  /** A claimed row whose number is in its cooldown is skipped for good, without a send, and the tick
      goes on; otherwise it is really sent. */
  lemma CooldownDecides(s: State, p: nat, ok: bool)
    requires At(s, p) && s.ticks[p].pc.Claimed? && s.ticks[p].pc.id in s.rows
    ensures var Tick(now, Claimed(guard, id, attempts), _) := s.ticks[p];
      var cooled := Do(s, Cool(p));
      if InCooldown(s.rows, s.rows[id].phone, now) then
        && Do(cooled, Transmit(p, ok)) == cooled
        && Do(cooled, Skip(p)).rows == s.rows[id := s.rows[id].(status := SkippedCooldown)]
        && Do(cooled, Skip(p)).log == s.log && Do(cooled, Skip(p)).ticks[p].pc == Ready(guard + 1)
      else
        && Do(cooled, Skip(p)) == cooled
        && Do(cooled, Transmit(p, ok)).rows == s.rows
        && Do(cooled, Transmit(p, ok)).log == s.log + [Send(p, id, now, ok)]
        && Do(cooled, Transmit(p, ok)).ticks[p].pc == Answered(id, attempts, ok)
  {
    hide InWindow, SentWithin, HasPending, IsDue, Earliest, Outcome;
    var now, id := s.ticks[p].now, s.ticks[p].pc.id;
    assert Recent(s, s.rows[id].phone, now) <==> InCooldown(s.rows, s.rows[id].phone, now);
  }

  /** What a tick writes down: a success, a retry 75 to 105 seconds from now, or after the third
      attempt a failure. */
  ghost predicate Settled(r: Row, r': Row, attempts: nat, ok: bool, now: int) {
    && r'.phone == r.phone && r'.createdAt == r.createdAt && r'.attempts == attempts + 1
    && (if ok then r'.status.Sent? && r'.scheduledAt == r.scheduledAt
        else if attempts + 1 < 3 then r'.status.Scheduled? && 75_000 <= r'.scheduledAt - now <= 105_000
        else r'.status.Failed? && r'.scheduledAt == r.scheduledAt)
  }

  lemma RecordSettlesRow(s: State, p: nat, draw: Unit)
    requires At(s, p) && s.ticks[p].pc.Answered? && s.ticks[p].pc.id in s.rows
    ensures var t, s' := s.ticks[p], Do(s, Record(p, draw));
      && s'.rows.Keys == s.rows.Keys && s'.log == s.log && OverAt(s', p)
      && (forall other | other in s.rows && other != t.pc.id :: s'.rows[other] == s.rows[other])
      && Settled(s.rows[t.pc.id], s'.rows[t.pc.id], t.pc.attempts, t.pc.ok, t.now)
  {
    RandDelayRange(draw);
    hide InWindow, SentWithin, HasPending, IsDue, Earliest, Recent, RandDelay;
  }

  /** An undisturbed tick sends the first row that is due, if it is within its hours, no sent message is
      younger than 75 seconds and the number is not in its cooldown; and it writes down what came of it. */
  lemma TickSendsFirstDue(s: State, p: nat, now: int, id: nat, ok: bool, draw: Unit)
    requires p !in s.ticks && 32_400_000 <= (now + 19_800_000) % 86_400_000 < 70_200_000
    requires FirstDue(s.rows, id, now) && !InCooldown(s.rows, s.rows[id].phone, now)
    requires forall other | other in s.rows && s.rows[other].status.Sent? :: now - s.rows[other].createdAt >= 75_000
    ensures var s' := Run(s, SendingTick(p, now, id, ok, draw));
      && s'.log == s.log + [Send(p, id, now, ok)] && s'.rows.Keys == s.rows.Keys
      && (forall other | other in s.rows && other != id :: s'.rows[other] == s.rows[other])
      && Settled(s.rows[id], s'.rows[id], s.rows[id].attempts, ok, now)
  {
    DayParts(now + 19_800_000);
    assert InWindow(now);
    FirstDueIsEarliest(s, id, now);
    RandDelayRange(draw);
    hide InWindow, Earliest, Run, SendingTick, RandDelay;
    TickSends(s, p, now, id, ok, draw);
  }

  // ---- Sent when due ----

  /** What a tick holds was due when the tick began. */
  ghost predicate HeldDue(s: State) {
    forall p | p in s.ticks && Held(s.ticks[p].pc).Some? && Held(s.ticks[p].pc).value in s.rows ::
      s.rows[Held(s.ticks[p].pc).value].scheduledAt <= s.ticks[p].now
  }

  /** What a tick comes to hold was due. */
  lemma HeldBefore(s: State, step: Step, p: nat)
    requires p in Do(s, step).ticks && Held(Do(s, step).ticks[p].pc).Some?
    ensures p in s.ticks && s.ticks[p].now == Do(s, step).ticks[p].now
    ensures var id := Held(Do(s, step).ticks[p].pc).value;
      Held(s.ticks[p].pc) == Some(id) || (id in s.rows && s.rows[id].scheduledAt <= s.ticks[p].now)
  {
    hide InWindow, SentWithin, Recent, HasPending, Outcome;
  }

  /** While a row is in `sending` it keeps its time. */
  lemma SendingKeepsTime(s: State, step: Step, id: nat)
    requires id in Do(s, step).rows && Do(s, step).rows[id].status.Sending?
    ensures id in s.rows && Do(s, step).rows[id].scheduledAt == s.rows[id].scheduledAt
  {
    hide InWindow, SentWithin, Recent, HasPending, RandDelay;
  }

  lemma HeldIsSending(s: State, p: nat)
    requires Valid(s) && p in s.ticks && Held(s.ticks[p].pc).Some?
    ensures Held(s.ticks[p].pc).value in s.rows && s.rows[Held(s.ticks[p].pc).value].status.Sending?
  {
    hide Counted, Sparing;
  }

  lemma DoHeldDue(s: State, step: Step)
    requires Valid(s) && HeldDue(s)
    ensures HeldDue(Do(s, step))
  {
    hide Do, Valid;
    var s' := Do(s, step);
    DoKeeps(s, step);
    forall p | p in s'.ticks && Held(s'.ticks[p].pc).Some? && Held(s'.ticks[p].pc).value in s'.rows
      ensures s'.rows[Held(s'.ticks[p].pc).value].scheduledAt <= s'.ticks[p].now
    {
      HeldBefore(s, step, p);
      HeldIsSending(s', p);
      SendingKeepsTime(s, step, Held(s'.ticks[p].pc).value);
    }
  }

  lemma {:induction false} RunHeldDue(steps: seq<Step>)
    ensures Valid(Run(EMPTY, steps)) && HeldDue(Run(EMPTY, steps))
  {
    hide Valid, Do, HeldDue;
    if steps == [] {
      NothingHeld();
    } else {
      RunHeldDue(steps[..|steps| - 1]);
      DoKeeps(Run(EMPTY, steps[..|steps| - 1]), steps[|steps| - 1]);
      DoHeldDue(Run(EMPTY, steps[..|steps| - 1]), steps[|steps| - 1]);
    }
  }

  lemma NothingHeld()
    ensures Valid(EMPTY) && HeldDue(EMPTY) && Run(EMPTY, []) == EMPTY
  {
    EmptyValid();
  }

  /** Over every run: what is really sent is a row in `sending` that had come due, within the hours for
      sending. */
  lemma SentWhenDue(steps: seq<Step>, step: Step)
    ensures var s := Run(EMPTY, steps);
      Do(s, step).log != s.log ==>
        && step.Transmit? && At(s, step.p) && s.ticks[step.p].pc.Clear? && s.ticks[step.p].pc.id in s.rows
        && var Tick(now, Clear(id, _), _) := s.ticks[step.p];
        && Do(s, step).log == s.log + [Send(step.p, id, now, step.ok)]
        && s.rows[id].status.Sending? && s.rows[id].scheduledAt <= now
        && 32_400_000 <= (now + 19_800_000) % 86_400_000 < 70_200_000
  {
    hide Run, Valid, HeldDue;
    RunHeldDue(steps);
    var s := Run(EMPTY, steps);
    if Do(s, step).log != s.log {
      OnlyTransmitSends(s, step);
      TransmitSends(s, step.p, step.ok);
      ClearIsHeld(s, step.p);
      DayParts(s.ticks[step.p].now + 19_800_000);
    }
  }

  lemma OnlyTransmitSends(s: State, step: Step)
    requires Do(s, step).log != s.log
    ensures step.Transmit? && At(s, step.p) && s.ticks[step.p].pc.Clear?
    ensures var t := s.ticks[step.p]; Do(s, step).log == s.log + [Send(step.p, t.pc.id, t.now, step.ok)]
  {
    hide InWindow, SentWithin, Recent, HasPending, IsDue, Earliest, Outcome;
  }

  lemma ClearIsHeld(s: State, p: nat)
    requires Valid(s) && HeldDue(s) && At(s, p) && s.ticks[p].pc.Clear? && s.ticks[p].pc.id in s.rows
    ensures s.rows[s.ticks[p].pc.id].status.Sending? && s.rows[s.ticks[p].pc.id].scheduledAt <= s.ticks[p].now
    ensures InWindow(s.ticks[p].now)
  {
    hide Counted, InWindow;
    HeldIsSending(s, p);
  }

  // ---- Starts ----

  /** An undisturbed start inserts a message for a number exactly if no message for it is scheduled or
      being sent, and none was sent that was created less than three hours ago. */
  lemma StartInserts(s: State, k: nat, phone: string, now: int, id: nat, at: int, createdAt: int)
    requires k !in s.starts && id !in s.rows
    ensures var free := !InCooldown(s.rows, phone, now) &&
        forall other | other in s.rows && s.rows[other].phone == phone ::
          !s.rows[other].status.Scheduled? && !s.rows[other].status.Sending?;
      var s' := Do(Do(Do(s, AskPending(k, phone, now)), AskCooldown(k)), Insert(k, id, at, createdAt));
      s'.rows == if free then s.rows[id := Row(phone, Scheduled, at, createdAt, 0)] else s.rows
  {
    assert Recent(s, phone, now) <==> InCooldown(s.rows, phone, now);
    var asked := Do(s, AskPending(k, phone, now));
    assert asked.rows == s.rows && (Recent(asked, phone, now) <==> Recent(s, phone, now));
    hide Recent, InCooldown, InWindow;
  }

  // ---- Over every run ----

  /** No number ever has two messages that are scheduled or being sent, as long as no two starts are at
      the same number at a time. */
  lemma NumbersWaitOnce(steps: seq<Step>)
    requires AlwaysAlone(steps)
    ensures var rows := Run(EMPTY, steps).rows;
      forall i, j | i in rows && j in rows && i != j && rows[i].phone == rows[j].phone ::
        !((rows[i].status.Scheduled? || rows[i].status.Sending?) && (rows[j].status.Scheduled? || rows[j].status.Sending?))
  {
    OnePendingPerNumber(steps);
    hide Run, AlwaysAlone;
  }

  /** Whatever is really sent goes to a number that is not in its cooldown, as long as no start doubles
      a number. */
  lemma CooldownKept(steps: seq<Step>, step: Step)
    requires NeverDoubles(steps)
    ensures var s := Run(EMPTY, steps);
      Do(s, step).log != s.log ==>
        && step.Transmit? && At(s, step.p) && s.ticks[step.p].pc.Clear? && s.ticks[step.p].pc.id in s.rows
        && !InCooldown(s.rows, s.rows[s.ticks[step.p].pc.id].phone, s.ticks[step.p].now)
  {
    hide Run, NeverDoubles, Do;
    var s := Run(EMPTY, steps);
    if Do(s, step).log != s.log {
      OnlyTransmitSends(s, step);
      CooldownRespected(steps, step.p, step.ok);
    }
  }
}
