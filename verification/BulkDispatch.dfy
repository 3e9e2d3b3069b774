/**
 The message table of the bulk sender under any number of dispatcher ticks (`cmdDispatch`), starts
 (`cmdStart`) and crashes, interleaved at SQL statements. The table is a map from row ids; each
 statement, status probe and real send is one atomic step.
 */
module BulkDispatch {
  import opened Basics
  import opened BulkStaging

  const COOLDOWN_MS := 10_800_000
  const MIN_SEND_GAP_MS := 75_000
  const MAX_ATTEMPTS := 3
  const GUARD := 50

  datatype Status = Scheduled | Sending | Sent | Failed | SkippedCooldown

  datatype Row = Row(phone: string, status: Status, scheduledAt: int, createdAt: int, attempts: nat)

  predicate Pending(r: Row) { r.status.Scheduled? || r.status.Sending? }

  // ---- Ticks ----

  /** Where a tick stands in `cmdDispatch`. */
  datatype Pc =
    | Begun
    | Due
    | Linked
    | Ready(guard: nat)
    | Claimed(guard: nat, id: nat, attempts: nat)
    | Cooling(guard: nat, id: nat, attempts: nat)
    | Clear(id: nat, attempts: nat)
    | Answered(id: nat, attempts: nat, ok: bool)
    | Offline
    | Done

  /** A tick reads the clock once; `alive` turns false when its process dies. */
  datatype Tick = Tick(now: int, pc: Pc, alive: bool)

  /** The row that a tick has claimed and not let go. */
  function Held(pc: Pc): Option<nat> {
    match pc
    case Claimed(_, id, _) => Some(id)
    case Cooling(_, id, _) => Some(id)
    case Clear(id, _) => Some(id)
    case Answered(id, _, _) => Some(id)
    case _ => None
  }

  /** Before a tick can have claimed anything. */
  predicate Early(pc: Pc) { pc.Begun? || pc.Due? || pc.Offline? }

  predicate InWindow(now: int) {
    IstWindow(now).startMs <= now < IstWindow(now).dispatchEndMs
  }

  // ---- Starts ----

  /** A start at one number: no pending row seen, then no recent send seen either. */
  datatype Start = Unpending(phone: string, now: int) | Open(phone: string)

  // ---- The whole system ----

  /** A real send, by one tick for one row. */
  datatype Send = Send(tick: nat, id: nat, now: int, ok: bool)

  /** `claims` (the tick that claimed a row in `sending`) and `log` are history: no process reads them. */
  datatype State = State(
    rows: map<nat, Row>,
    ticks: map<nat, Tick>,
    starts: map<nat, Start>,
    claims: map<nat, nat>,
    log: seq<Send>)

  const EMPTY := State(map[], map[], map[], map[], [])

  datatype Step =
    | Begin(p: nat, now: int)
    | Peek(p: nat)
    | Probe(p: nat, connected: bool)
    | Gap(p: nat)
    | Claim(p: nat, id: nat)
    | Cool(p: nat)
    | Skip(p: nat)
    | Transmit(p: nat, ok: bool)
    | Record(p: nat, draw: Unit)
    | Crash(p: nat)
    | AskPending(k: nat, phone: string, now: int)
    | AskCooldown(k: nat)
    | Insert(k: nat, id: nat, at: int, createdAt: int)
    | Leave(k: nat)

  ghost predicate IsDue(s: State, id: nat, now: int) {
    id in s.rows && s.rows[id].status.Scheduled? && s.rows[id].scheduledAt <= now
  }

  ghost predicate Earliest(s: State, id: nat, now: int) {
    IsDue(s, id, now) && forall other | IsDue(s, other, now) :: s.rows[id].scheduledAt <= s.rows[other].scheduledAt
  }

  ghost predicate SentWithin(s: State, now: int, ms: int) {
    exists id | id in s.rows :: s.rows[id].status.Sent? && now - s.rows[id].createdAt < ms
  }

  ghost predicate Recent(s: State, phone: string, now: int) {
    exists id | id in s.rows :: s.rows[id].phone == phone && s.rows[id].status.Sent? && now - s.rows[id].createdAt < COOLDOWN_MS
  }

  ghost predicate HasPending(s: State, phone: string) {
    exists id | id in s.rows :: s.rows[id].phone == phone && Pending(s.rows[id])
  }

  ghost predicate At(s: State, p: nat) { p in s.ticks && s.ticks[p].alive }

  function Goto(s: State, p: nat, pc: Pc): State
    requires p in s.ticks
  {
    s.(ticks := s.ticks[p := s.ticks[p].(pc := pc)])
  }

  /** Writes the claimed row back and lets it go. */
  function Release(s: State, id: nat, r: Row): State {
    s.(rows := s.rows[id := r], claims := s.claims - {id})
  }

  /** The row after a send: sent, put back for a retry, or failed for good. */
  function Outcome(r: Row, attempts: nat, ok: bool, now: int, draw: Unit): Row {
    if ok then r.(status := Sent, attempts := attempts + 1)
    else if attempts + 1 < MAX_ATTEMPTS then
      r.(status := Scheduled, attempts := attempts + 1, scheduledAt := now + RandDelay(draw))
    else r.(status := Failed, attempts := attempts + 1)
  }

  ghost function DoClaim(s: State, p: nat, id: nat): State
    requires At(s, p) && s.ticks[p].pc.Ready?
  {
    var t := s.ticks[p];
    if t.pc.guard >= GUARD || (forall other | other in s.rows :: !IsDue(s, other, t.now)) then Goto(s, p, Done)
    else if Earliest(s, id, t.now) then
      Goto(s.(rows := s.rows[id := s.rows[id].(status := Sending)], claims := s.claims[id := p]),
        p, Claimed(t.pc.guard, id, s.rows[id].attempts))
    else s
  }

  /** One step of a live tick; one that the tick is not at leaves everything as it is. */
  ghost function DoTick(s: State, step: Step): State
    requires step.Peek? || step.Probe? || step.Gap? || step.Claim? || step.Cool? || step.Skip? || step.Transmit? || step.Record? || step.Crash?
  {
    var p := step.p;
    if !At(s, p) then s
    else
      var t := s.ticks[p];
      match step
      case Peek(_) =>
        if !t.pc.Begun? then s
        else Goto(s, p, if exists id | id in s.rows :: IsDue(s, id, t.now) then Due else Done)
      case Probe(_, connected) =>
        if !t.pc.Due? then s else Goto(s, p, if connected then Linked else Offline)
      case Gap(_) =>
        if !t.pc.Linked? then s else Goto(s, p, if SentWithin(s, t.now, MIN_SEND_GAP_MS) then Done else Ready(0))
      case Claim(_, id) =>
        if !t.pc.Ready? then s else DoClaim(s, p, id)
      case Cool(_) =>
        if !t.pc.Claimed? || t.pc.id !in s.rows then s
        else if Recent(s, s.rows[t.pc.id].phone, t.now) then Goto(s, p, Cooling(t.pc.guard, t.pc.id, t.pc.attempts))
        else Goto(s, p, Clear(t.pc.id, t.pc.attempts))
      case Skip(_) =>
        if !t.pc.Cooling? || t.pc.id !in s.rows then s
        else Goto(Release(s, t.pc.id, s.rows[t.pc.id].(status := SkippedCooldown)), p, Ready(t.pc.guard + 1))
      case Transmit(_, ok) =>
        if !t.pc.Clear? then s
        else Goto(s.(log := s.log + [Send(p, t.pc.id, t.now, ok)]), p, Answered(t.pc.id, t.pc.attempts, ok))
      case Record(_, draw) =>
        if !t.pc.Answered? || t.pc.id !in s.rows then s
        else Goto(Release(s, t.pc.id, Outcome(s.rows[t.pc.id], t.pc.attempts, t.pc.ok, t.now, draw)), p, Done)
      case Crash(_) =>
        s.(ticks := s.ticks[p := t.(alive := false)])
  }

  ghost function DoStart(s: State, step: Step): State
    requires step.AskPending? || step.AskCooldown? || step.Insert? || step.Leave?
  {
    var k := step.k;
    match step
    case AskPending(_, phone, now) =>
      if k in s.starts || HasPending(s, phone) then s else s.(starts := s.starts[k := Unpending(phone, now)])
    case AskCooldown(_) =>
      if k !in s.starts || !s.starts[k].Unpending? then s
      else if Recent(s, s.starts[k].phone, s.starts[k].now) then s.(starts := s.starts - {k})
      else s.(starts := s.starts[k := Open(s.starts[k].phone)])
    case Insert(_, id, at, createdAt) =>
      if k !in s.starts || !s.starts[k].Open? || id in s.rows then s
      else s.(rows := s.rows[id := Row(s.starts[k].phone, Scheduled, at, createdAt, 0)], starts := s.starts - {k})
    case Leave(_) => s.(starts := s.starts - {k})
  }

  predicate ByStart(step: Step) { step.AskPending? || step.AskCooldown? || step.Insert? || step.Leave? }

  ghost function Do(s: State, step: Step): State {
    if step.Begin? then
      if step.p in s.ticks || !InWindow(step.now) then s
      else s.(ticks := s.ticks[step.p := Tick(step.now, Begun, true)])
    else if ByStart(step) then DoStart(s, step)
    else DoTick(s, step)
  }

  ghost function Run(s: State, steps: seq<Step>): State {
    if steps == [] then s else Do(Run(s, steps[..|steps| - 1]), steps[|steps| - 1])
  }

  // ---- Counting real sends ----

  datatype Query = OfRow(id: nat) | GoodOfRow(id: nat) | ByTick(p: nat)

  predicate Matches(q: Query, e: Send) {
    match q
    case OfRow(id) => e.id == id
    case GoodOfRow(id) => e.id == id && e.ok
    case ByTick(p) => e.tick == p
  }

  function Count(log: seq<Send>, q: Query): nat {
    if log == [] then 0
    else Count(log[..|log| - 1], q) + if Matches(q, log[|log| - 1]) then 1 else 0
  }

  lemma CountSnoc(log: seq<Send>, e: Send, q: Query)
    ensures Count(log + [e], q) == Count(log, q) + if Matches(q, e) then 1 else 0
  {
    assert (log + [e])[..|log|] == log;
  }

  // ---- The invariant ----

  /** The rows in `sending` are those claimed, each by the one tick that holds it. */
  ghost predicate Owned(s: State) {
    && (forall id | id in s.rows && s.rows[id].status.Sending? :: id in s.claims)
    && (forall id | id in s.claims ::
      && id in s.rows && s.rows[id].status.Sending?
      && s.claims[id] in s.ticks && Held(s.ticks[s.claims[id]].pc) == Some(id)
      && s.ticks[s.claims[id]].pc.attempts == s.rows[id].attempts)
    && (forall p | p in s.ticks && Held(s.ticks[p].pc).Some? ::
      Held(s.ticks[p].pc).value in s.claims && s.claims[Held(s.ticks[p].pc).value] == p)
  }

  /** The answer to a send that the row does not show yet. */
  function Unrecorded(s: State, id: nat): Option<bool> {
    if id in s.claims && s.claims[id] in s.ticks && s.ticks[s.claims[id]].pc.Answered?
    then Some(s.ticks[s.claims[id]].pc.ok) else None
  }

  /** Every real send is counted, and a row counts only real sends. */
  ghost predicate CountedRow(s: State, id: nat)
    requires id in s.rows
  {
    var r := s.rows[id];
    && Count(s.log, OfRow(id)) == r.attempts + (if Unrecorded(s, id).Some? then 1 else 0)
    && Count(s.log, GoodOfRow(id)) == (if r.status.Sent? || Unrecorded(s, id) == Some(true) then 1 else 0)
    && match r.status
       case Sent => 1 <= r.attempts <= MAX_ATTEMPTS
       case Failed => r.attempts == MAX_ATTEMPTS
       case _ => r.attempts < MAX_ATTEMPTS
  }

  ghost predicate Counted(s: State) {
    && (forall id | id in s.rows :: CountedRow(s, id))
    && (forall id: nat | id !in s.rows :: Count(s.log, OfRow(id)) == 0 && Count(s.log, GoodOfRow(id)) == 0)
  }

  /** At most one real send a tick, and none before the tick has its answer. */
  ghost predicate Sparing(s: State) {
    && (forall p: nat :: Count(s.log, ByTick(p)) <= 1)
    && (forall p: nat | Count(s.log, ByTick(p)) == 1 :: p in s.ticks && (s.ticks[p].pc.Answered? || s.ticks[p].pc.Done?))
    && (forall p | p in s.ticks :: InWindow(s.ticks[p].now) && (s.ticks[p].pc.Ready? ==> s.ticks[p].pc.guard <= GUARD))
    && (forall p | p in s.ticks && s.ticks[p].pc.Cooling? :: s.ticks[p].pc.guard < GUARD)
    && (forall p | p in s.ticks && s.ticks[p].pc.Claimed? :: s.ticks[p].pc.guard < GUARD)
    && (forall i | 0 <= i < |s.log| :: InWindow(s.log[i].now))
  }

  ghost predicate Valid(s: State) { Owned(s) && Counted(s) && Sparing(s) }

  lemma EmptyValid()
    ensures Valid(EMPTY)
  {
  }

  /** A step that touches no row and no claim: a tick may move, hold what it held, and learn nothing
      about a send. */
  ghost predicate Quiet(s: State, s': State) {
    && s'.rows == s.rows && s'.claims == s.claims && s'.log == s.log
    && (forall p | p in s.ticks :: p in s'.ticks && SameHold(s.ticks[p], s'.ticks[p]))
    && (forall p | p in s'.ticks && p !in s.ticks :: s'.ticks[p].pc.Begun? && InWindow(s'.ticks[p].now))
  }

  ghost predicate SameHold(t: Tick, t': Tick) {
    && t'.now == t.now
    && Held(t'.pc) == Held(t.pc)
    && (Held(t.pc).Some? ==> t'.pc.attempts == t.pc.attempts)
    && (t.pc.Answered? || t'.pc.Answered? ==> t'.pc == t.pc)
    && (t.pc.Done? ==> t'.pc.Done?)
    && (t'.pc.Ready? ==> t'.pc == Ready(0) || t'.pc == t.pc)
    && (t'.pc.Cooling? || t'.pc.Claimed? ==> t'.pc == t.pc || (t.pc.Claimed? && t'.pc.guard == t.pc.guard))
  }

  lemma QuietKeeps(s: State, s': State)
    requires Valid(s) && Quiet(s, s')
    ensures Valid(s')
  {
    hide InWindow;
    assert Owned(s');
    forall id | id in s.rows ensures CountedRow(s', id) {
      assert CountedRow(s, id);
    }
  }

  predicate Writes(s: State, step: Step) {
    || step.Insert? || step.Skip? || step.Transmit? || step.Record?
    || (step.Claim? && step.p in s.ticks && s.ticks[step.p].pc.Ready? && s.ticks[step.p].pc.guard < GUARD)
  }

  /** Moving a tick on is quiet if it holds what it held. */
  lemma GotoQuiet(s: State, p: nat, pc: Pc)
    requires p in s.ticks && SameHold(s.ticks[p], s.ticks[p].(pc := pc))
    ensures Quiet(s, Goto(s, p, pc))
  {
    hide InWindow;
  }

  lemma NothingQuiet(s: State, s': State)
    requires s'.rows == s.rows && s'.claims == s.claims && s'.log == s.log && s'.ticks == s.ticks
    ensures Quiet(s, s')
  {
  }

  lemma QuietStep(s: State, step: Step)
    requires !Writes(s, step)
    ensures Quiet(s, Do(s, step))
  {
    hide InWindow, SentWithin, Recent, HasPending, IsDue, Earliest, Quiet;
    var s' := Do(s, step);
    if s'.ticks == s.ticks {
      NothingQuiet(s, s');
    } else if step.Begin? || step.Crash? {
      TickQuiet(s, step);
    } else {
      assert exists pc :: s' == Goto(s, step.p, pc) && SameHold(s.ticks[step.p], s.ticks[step.p].(pc := pc)) by {
        assert s' == Goto(s, step.p, s'.ticks[step.p].pc);
      }
      var pc :| s' == Goto(s, step.p, pc) && SameHold(s.ticks[step.p], s.ticks[step.p].(pc := pc));
      GotoQuiet(s, step.p, pc);
    }
  }

  lemma TickQuiet(s: State, step: Step)
    requires step.Begin? || step.Crash?
    ensures Quiet(s, Do(s, step))
  {
    hide InWindow;
  }

  /** The state after a tick claims a row. */
  function Taken(s: State, p: nat, id: nat): State
    requires p in s.ticks && s.ticks[p].pc.Ready? && id in s.rows
  {
    Goto(s.(rows := s.rows[id := s.rows[id].(status := Sending)], claims := s.claims[id := p]),
      p, Claimed(s.ticks[p].pc.guard, id, s.rows[id].attempts))
  }

  lemma TakenOwned(s: State, p: nat, id: nat)
    requires Owned(s) && p in s.ticks && s.ticks[p].pc.Ready? && id in s.rows && s.rows[id].status.Scheduled?
    ensures Owned(Taken(s, p, id))
  {
    assert id !in s.claims;
  }

  lemma TakenCounted(s: State, p: nat, id: nat)
    requires Owned(s) && Counted(s) && p in s.ticks && s.ticks[p].pc.Ready? && id in s.rows && s.rows[id].status.Scheduled?
    ensures Counted(Taken(s, p, id))
  {
    var s' := Taken(s, p, id);
    assert id !in s.claims;
    forall other | other in s.rows ensures CountedRow(s', other) {
      assert CountedRow(s, other);
      UnrecordedSame(s, s', p, other);
    }
    hide CountedRow;
  }

  /** A tick that has no answer before and after says nothing about any row. */
  lemma UnrecordedSame(s: State, s': State, p: nat, other: nat)
    requires forall q | q in s.ticks :: q in s'.ticks && (q != p ==> s'.ticks[q] == s.ticks[q])
    requires forall q | q in s'.ticks :: q in s.ticks
    requires p in s.ticks && !s.ticks[p].pc.Answered? && !s'.ticks[p].pc.Answered?
    requires forall id | id in s.claims :: id in s'.claims && s'.claims[id] == s.claims[id]
    requires forall id | id in s'.claims :: (id in s.claims || s'.claims[id] == p)
    ensures Unrecorded(s', other) == Unrecorded(s, other)
  {
  }

  lemma TakenSparing(s: State, p: nat, id: nat)
    requires Sparing(s) && p in s.ticks && s.ticks[p].pc.Ready? && id in s.rows && s.ticks[p].pc.guard < GUARD
    ensures Sparing(Taken(s, p, id))
  {
    hide InWindow, Count;
  }

  lemma ClaimKeeps(s: State, p: nat, id: nat)
    requires Valid(s) && At(s, p) && s.ticks[p].pc.Ready? && s.ticks[p].pc.guard < GUARD
    ensures Valid(DoClaim(s, p, id))
  {
    hide Owned, Counted, Sparing;
    var t := s.ticks[p];
    if forall other | other in s.rows :: !IsDue(s, other, t.now) {
      NothingDueQuiet(s, p);
      QuietKeeps(s, Goto(s, p, Done));
    } else if Earliest(s, id, t.now) {
      TakenOwned(s, p, id);
      TakenCounted(s, p, id);
      TakenSparing(s, p, id);
    }
  }

  lemma NothingDueQuiet(s: State, p: nat)
    requires p in s.ticks && s.ticks[p].pc.Ready?
    ensures Quiet(s, Goto(s, p, Done))
  {
    hide InWindow;
  }

  lemma InsertKeeps(s: State, step: Step)
    requires Valid(s) && step.Insert?
    ensures Valid(Do(s, step))
  {
  }

  /** The state after a real send. */
  function Answer(s: State, p: nat, ok: bool): State
    requires p in s.ticks && s.ticks[p].pc.Clear?
  {
    var t := s.ticks[p];
    Goto(s.(log := s.log + [Send(p, t.pc.id, t.now, ok)]), p, Answered(t.pc.id, t.pc.attempts, ok))
  }

  lemma AnswerCounts(s: State, p: nat, ok: bool, q: Query)
    requires p in s.ticks && s.ticks[p].pc.Clear?
    ensures Count(Answer(s, p, ok).log, q) ==
      Count(s.log, q) + if Matches(q, Send(p, s.ticks[p].pc.id, s.ticks[p].now, ok)) then 1 else 0
  {
    CountSnoc(s.log, Send(p, s.ticks[p].pc.id, s.ticks[p].now, ok), q);
  }

  lemma AnswerCounted(s: State, p: nat, ok: bool)
    requires Owned(s) && Counted(s) && p in s.ticks && s.ticks[p].pc.Clear?
    ensures Counted(Answer(s, p, ok))
  {
    hide Count;
    var s' := Answer(s, p, ok);
    forall id | id in s.rows ensures CountedRow(s', id) {
      assert CountedRow(s, id);
      AnswerCounts(s, p, ok, OfRow(id));
      AnswerCounts(s, p, ok, GoodOfRow(id));
    }
    forall id: nat | id !in s.rows ensures Count(s'.log, OfRow(id)) == 0 && Count(s'.log, GoodOfRow(id)) == 0 {
      AnswerCounts(s, p, ok, OfRow(id));
      AnswerCounts(s, p, ok, GoodOfRow(id));
    }
  }

  lemma AnswerSparing(s: State, p: nat, ok: bool)
    requires Sparing(s) && p in s.ticks && s.ticks[p].pc.Clear?
    ensures Sparing(Answer(s, p, ok))
  {
    hide Count, InWindow;
    forall q: nat ensures Count(Answer(s, p, ok).log, ByTick(q)) == Count(s.log, ByTick(q)) + if q == p then 1 else 0 {
      AnswerCounts(s, p, ok, ByTick(q));
    }
  }

  lemma AnswerOwned(s: State, p: nat, ok: bool)
    requires Owned(s) && p in s.ticks && s.ticks[p].pc.Clear?
    ensures Owned(Answer(s, p, ok))
  {
  }

  /** A row is let go with what its send came to, or with no send at all. */
  ghost predicate Settles(s: State, p: nat, r: Row, pc: Pc)
    requires p in s.ticks
  {
    && Held(s.ticks[p].pc).Some? && !r.status.Sending? && Held(pc).None?
    && (pc.Done? || (pc.Ready? && pc.guard <= GUARD && s.ticks[p].pc.Cooling?))
    && var id := Held(s.ticks[p].pc).value;
    && r.attempts == s.ticks[p].pc.attempts + (if s.ticks[p].pc.Answered? then 1 else 0)
    && (r.status.Sent? <==> s.ticks[p].pc.Answered? && s.ticks[p].pc.ok)
    && match r.status
       case Sent => true
       case Failed => r.attempts == MAX_ATTEMPTS
       case _ => r.attempts < MAX_ATTEMPTS
  }

  function Settled(s: State, p: nat, r: Row, pc: Pc): State
    requires p in s.ticks && Held(s.ticks[p].pc).Some?
  {
    Goto(Release(s, Held(s.ticks[p].pc).value, r), p, pc)
  }

  lemma SettledOwned(s: State, p: nat, r: Row, pc: Pc)
    requires Owned(s) && p in s.ticks && Settles(s, p, r, pc)
    ensures Owned(Settled(s, p, r, pc))
  {
  }

  lemma SettledCounted(s: State, p: nat, r: Row, pc: Pc)
    requires Owned(s) && Counted(s) && p in s.ticks && Settles(s, p, r, pc)
    ensures Counted(Settled(s, p, r, pc))
  {
    hide Count;
    var s', id := Settled(s, p, r, pc), Held(s.ticks[p].pc).value;
    forall other | other in s'.rows ensures CountedRow(s', other) {
      assert CountedRow(s, other);
      if other == id {
        assert Unrecorded(s', id).None?;
      } else {
        assert Unrecorded(s', other) == Unrecorded(s, other);
      }
    }
  }

  lemma SettledSparing(s: State, p: nat, r: Row, pc: Pc)
    requires Sparing(s) && p in s.ticks && Settles(s, p, r, pc)
    ensures Sparing(Settled(s, p, r, pc))
  {
    hide Count, InWindow;
  }

  lemma RecordSettles(s: State, p: nat, draw: Unit)
    requires Valid(s) && p in s.ticks && s.ticks[p].pc.Answered?
    ensures var t := s.ticks[p];
      t.pc.id in s.rows && Settles(s, p, Outcome(s.rows[t.pc.id], t.pc.attempts, t.pc.ok, t.now, draw), Done)
  {
    hide Count, InWindow;
    assert CountedRow(s, s.ticks[p].pc.id);
  }

  lemma SkipSettles(s: State, p: nat)
    requires Valid(s) && p in s.ticks && s.ticks[p].pc.Cooling?
    ensures var t := s.ticks[p];
      t.pc.id in s.rows && Settles(s, p, s.rows[t.pc.id].(status := SkippedCooldown), Ready(t.pc.guard + 1))
  {
    hide Count, InWindow;
    assert CountedRow(s, s.ticks[p].pc.id);
  }

  lemma SettlesKeeps(s: State, p: nat, r: Row, pc: Pc)
    requires Valid(s) && p in s.ticks && Settles(s, p, r, pc)
    ensures Valid(Settled(s, p, r, pc))
  {
    hide Owned, Counted, Sparing;
    SettledOwned(s, p, r, pc);
    SettledCounted(s, p, r, pc);
    SettledSparing(s, p, r, pc);
  }

  lemma TransmitKeeps(s: State, p: nat, ok: bool)
    requires Valid(s)
    ensures Valid(Do(s, Transmit(p, ok)))
  {
    hide Owned, Counted, Sparing;
    if At(s, p) && s.ticks[p].pc.Clear? {
      AnswerOwned(s, p, ok);
      AnswerCounted(s, p, ok);
      AnswerSparing(s, p, ok);
    }
  }

  lemma RecordKeeps(s: State, p: nat, draw: Unit)
    requires Valid(s)
    ensures Valid(Do(s, Record(p, draw)))
  {
    hide Owned, Counted, Sparing, Settles;
    if At(s, p) && s.ticks[p].pc.Answered? {
      var t := s.ticks[p];
      RecordSettles(s, p, draw);
      SettlesKeeps(s, p, Outcome(s.rows[t.pc.id], t.pc.attempts, t.pc.ok, t.now, draw), Done);
    }
  }

  lemma SkipKeeps(s: State, p: nat)
    requires Valid(s)
    ensures Valid(Do(s, Skip(p)))
  {
    hide Owned, Counted, Sparing, Settles;
    if At(s, p) && s.ticks[p].pc.Cooling? {
      var t := s.ticks[p];
      SkipSettles(s, p);
      SettlesKeeps(s, p, s.rows[t.pc.id].(status := SkippedCooldown), Ready(t.pc.guard + 1));
    }
  }

  /** The invariant holds after every step of every process. */
  lemma DoKeeps(s: State, step: Step)
    requires Valid(s)
    ensures Valid(Do(s, step))
  {
    hide Valid;
    if !Writes(s, step) {
      QuietStep(s, step);
      QuietKeeps(s, Do(s, step));
    } else {
      match step
      case Insert(_, _, _, _) => InsertKeeps(s, step);
      case Transmit(p, ok) => TransmitKeeps(s, p, ok);
      case Record(p, draw) => RecordKeeps(s, p, draw);
      case Skip(p) => SkipKeeps(s, p);
      case Claim(p, id) => if At(s, p) { ClaimKeeps(s, p, id); }
    }
  }

  lemma {:induction false} RunKeeps(s: State, steps: seq<Step>)
    requires Valid(s)
    ensures Valid(Run(s, steps))
  {
    if steps != [] {
      hide Valid;
      RunKeeps(s, steps[..|steps| - 1]);
      DoKeeps(Run(s, steps[..|steps| - 1]), steps[|steps| - 1]);
    }
  }

  // ---- What holds in every reachable state ----

  /** Exactly one tick holds a row in `sending`, and only such rows are held. */
  lemma OneOwner(s: State, id: nat)
    requires Valid(s) && id in s.rows
    ensures s.rows[id].status.Sending? <==> exists p | p in s.ticks :: Held(s.ticks[p].pc) == Some(id)
    ensures forall p, q | p in s.ticks && q in s.ticks && Held(s.ticks[p].pc) == Held(s.ticks[q].pc) == Some(id) :: p == q
  {
    hide Counted, Sparing;
    if s.rows[id].status.Sending? { assert Held(s.ticks[s.claims[id]].pc) == Some(id); }
  }

  /** A row is sent at most three times, at most once with success, and what it says of itself is
      true: the sends are its attempts, and one more while its owner has an answer to write down. */
  lemma SendsAreAttempts(s: State, id: nat)
    requires Valid(s) && id in s.rows
    ensures Count(s.log, OfRow(id)) <= MAX_ATTEMPTS && Count(s.log, GoodOfRow(id)) <= 1
    ensures Count(s.log, OfRow(id)) == s.rows[id].attempts +
      if exists p | p in s.ticks :: s.ticks[p].pc.Answered? && s.ticks[p].pc.id == id then 1 else 0
    ensures s.rows[id].status.Sent? ==> Count(s.log, GoodOfRow(id)) == 1
    ensures s.rows[id].status.Failed? ==> Count(s.log, OfRow(id)) == MAX_ATTEMPTS && Count(s.log, GoodOfRow(id)) == 0
    ensures s.rows[id].status.Scheduled? || s.rows[id].status.SkippedCooldown? ==> Count(s.log, GoodOfRow(id)) == 0
  {
    hide Count, Sparing;
    assert CountedRow(s, id);
    OneOwner(s, id);
    if p :| p in s.ticks && s.ticks[p].pc.Answered? && s.ticks[p].pc.id == id {
      assert Held(s.ticks[p].pc) == Some(id);
      assert Unrecorded(s, id).Some?;
    }
  }

  /** At most one real send a tick, and none outside the hours for sending. */
  lemma OneSendPerTick(s: State, p: nat)
    requires Valid(s)
    ensures Count(s.log, ByTick(p)) <= 1
    ensures forall i | 0 <= i < |s.log| :: InWindow(s.log[i].now)
  {
    hide InWindow, Count, Owned, Counted;
  }

  // ---- Rows over a run ----

  predicate Terminal(r: Row) { r.status.Sent? || r.status.Failed? || r.status.SkippedCooldown? }

  /** A row keeps its number and birth date, never forgets an attempt, and never leaves a final status. */
  predicate Ages(r: Row, r': Row) {
    && r'.phone == r.phone && r'.createdAt == r.createdAt && r.attempts <= r'.attempts
    && (Terminal(r) ==> r' == r)
  }

  lemma DoAges(s: State, step: Step, id: nat)
    requires Valid(s) && id in s.rows
    ensures id in Do(s, step).rows && Ages(s.rows[id], Do(s, step).rows[id])
  {
    hide InWindow, Counted, Sparing, SentWithin, Recent, HasPending;
    if !Writes(s, step) { QuietStep(s, step); }
  }

  lemma {:induction false} TerminalForGood(s: State, steps: seq<Step>, id: nat)
    requires Valid(s) && id in s.rows
    ensures id in Run(s, steps).rows && Ages(s.rows[id], Run(s, steps).rows[id])
  {
    if steps != [] {
      var init := Run(s, steps[..|steps| - 1]);
      TerminalForGood(s, steps[..|steps| - 1], id);
      RunKeeps(s, steps[..|steps| - 1]);
      DoAges(init, steps[|steps| - 1], id);
      hide Valid, Do;
    }
  }

  // ---- A dead link ----

  predicate OfTick(step: Step, p: nat) { !ByStart(step) && step.p == p }

  ghost predicate EarlyAt(s: State, p: nat) { p in s.ticks ==> Early(s.ticks[p].pc) }

  /** A tick that ends without a link has changed no row, at any of its steps. */
  lemma {:induction false} OfflineChangesNothing(s: State, steps: seq<Step>, p: nat, i: nat)
    requires EarlyAt(Run(s, steps), p) && i < |steps| && OfTick(steps[i], p)
    ensures Do(Run(s, steps[..i]), steps[i]).rows == Run(s, steps[..i]).rows
  {
    var init, step := Run(s, steps[..|steps| - 1]), steps[|steps| - 1];
    EarlyBefore(init, step, p);
    if i < |steps| - 1 {
      assert steps[..|steps| - 1][..i] == steps[..i];
      OfflineChangesNothing(s, steps[..|steps| - 1], p, i);
    }
  }

  lemma EarlyBefore(s: State, step: Step, p: nat)
    requires EarlyAt(Do(s, step), p)
    ensures EarlyAt(s, p)
    ensures OfTick(step, p) ==> Do(s, step).rows == s.rows
  {
    hide InWindow, SentWithin, Recent, HasPending, IsDue, Earliest;
  }

  // ---- One message at a time for a number ----

  /** No number has two pending messages. */
  ghost predicate NoDuplicates(s: State) {
    forall i, j | i in s.rows && j in s.rows && Pending(s.rows[i]) && Pending(s.rows[j]) && s.rows[i].phone == s.rows[j].phone :: i == j
  }

  /** A start inserts a message for a number although, by now, one is pending. */
  ghost predicate Doubles(s: State, step: Step) {
    && step.Insert? && step.k in s.starts && s.starts[step.k].Open? && step.id !in s.rows
    && HasPending(s, s.starts[step.k].phone)
  }

  lemma OnlyInsertAdds(s: State, step: Step)
    requires Valid(s) && !step.Insert?
    ensures forall id | id in Do(s, step).rows :: id in s.rows
    ensures !ByStart(step) ==> Do(s, step).starts == s.starts
  {
    hide InWindow, Counted, Sparing, SentWithin, Recent, HasPending;
  }

  /** Only an insertion brings a new pending message. */
  lemma PendingBefore(s: State, step: Step)
    requires Valid(s) && !step.Insert?
    ensures forall id | id in Do(s, step).rows && Pending(Do(s, step).rows[id]) ::
      id in s.rows && Pending(s.rows[id]) && s.rows[id].phone == Do(s, step).rows[id].phone
  {
    var s' := Do(s, step);
    OnlyInsertAdds(s, step);
    forall id | id in s'.rows && Pending(s'.rows[id])
      ensures id in s.rows && Pending(s.rows[id]) && s.rows[id].phone == s'.rows[id].phone
    {
      DoAges(s, step, id);
      hide Do, Valid;
    }
  }

  lemma DoDuplicates(s: State, step: Step)
    requires Valid(s) && NoDuplicates(s)
    ensures NoDuplicates(Do(s, step)) <==> !Doubles(s, step)
  {
    if step.Insert? {
      InsertDuplicates(s, step);
    } else {
      PendingBefore(s, step);
      hide Do, Valid;
    }
  }

  lemma InsertDuplicates(s: State, step: Step)
    requires NoDuplicates(s) && step.Insert?
    ensures NoDuplicates(Do(s, step)) <==> !Doubles(s, step)
  {
    var s' := Do(s, step);
    if Doubles(s, step) {
      var id :| id in s.rows && s.rows[id].phone == s.starts[step.k].phone && Pending(s.rows[id]);
      assert Pending(s'.rows[id]) && Pending(s'.rows[step.id]) && s'.rows[id].phone == s'.rows[step.id].phone;
    }
  }

  ghost predicate NeverDuplicates(steps: seq<Step>) {
    forall k | 0 <= k <= |steps| :: NoDuplicates(Run(EMPTY, steps[..k]))
  }

  ghost predicate NeverDoubles(steps: seq<Step>) {
    forall k | 0 <= k < |steps| :: !Doubles(Run(EMPTY, steps[..k]), steps[k])
  }

  lemma NeverDoublesPrefix(steps: seq<Step>, k: nat)
    requires NeverDoubles(steps) && k <= |steps|
    ensures NeverDoubles(steps[..k])
  {
    hide Doubles, Run;
    forall i | 0 <= i < k ensures !Doubles(Run(EMPTY, steps[..k][..i]), steps[..k][i]) {
      assert steps[..k][..i] == steps[..i];
      assert !Doubles(Run(EMPTY, steps[..i]), steps[i]);
    }
  }

  lemma RunNext(s: State, steps: seq<Step>, k: nat)
    requires k < |steps|
    ensures Run(s, steps[..k + 1]) == Do(Run(s, steps[..k]), steps[k])
  {
    assert steps[..k + 1][..k] == steps[..k];
  }

  lemma {:induction false} NoDuplicatesUpTo(steps: seq<Step>, k: nat)
    requires NeverDoubles(steps) && k <= |steps|
    ensures Valid(Run(EMPTY, steps[..k])) && NoDuplicates(Run(EMPTY, steps[..k]))
  {
    EmptyValid();
    RunKeeps(EMPTY, steps[..k]);
    if k > 0 {
      NoDuplicatesUpTo(steps, k - 1);
      RunNext(EMPTY, steps, k - 1);
      assert !Doubles(Run(EMPTY, steps[..k - 1]), steps[k - 1]);
      hide Valid, NoDuplicates, Doubles, Do, Run, NeverDoubles;
      DoDuplicates(Run(EMPTY, steps[..k - 1]), steps[k - 1]);
    }
  }

  /** Throughout a run no number has two pending messages, if and only if no start inserts a message
      for a number that by then has one pending. */
  lemma NoDuplicatesIff(steps: seq<Step>)
    ensures NeverDuplicates(steps) <==> NeverDoubles(steps)
  {
    EmptyValid();
    if NeverDoubles(steps) {
      forall k | 0 <= k <= |steps| ensures NoDuplicates(Run(EMPTY, steps[..k])) {
        NoDuplicatesUpTo(steps, k);
      }
    }
    if NeverDuplicates(steps) {
      forall k | 0 <= k < |steps| ensures !Doubles(Run(EMPTY, steps[..k]), steps[k]) {
        var s := Run(EMPTY, steps[..k]);
        RunKeeps(EMPTY, steps[..k]);
        RunNext(EMPTY, steps, k);
        assert NoDuplicates(s) && NoDuplicates(Run(EMPTY, steps[..k + 1]));
        hide Valid, NoDuplicates, Doubles, Do, Run, NeverDuplicates, NeverDoubles;
        DoDuplicates(s, steps[k]);
      }
    }
  }

  /** It is enough that a start looks at a number only while no other start is at that number. */
  ghost predicate AloneAt(s: State, step: Step) {
    step.AskPending? ==> forall k | k in s.starts && k != step.k :: s.starts[k].phone != step.phone
  }

  ghost predicate AlwaysAlone(steps: seq<Step>) {
    forall k | 0 <= k < |steps| :: AloneAt(Run(EMPTY, steps[..k]), steps[k])
  }

  /** The starts are at different numbers, and what each has seen still holds. */
  ghost predicate Separate(s: State) {
    && (forall k, k' | k in s.starts && k' in s.starts && s.starts[k].phone == s.starts[k'].phone :: k == k')
    && (forall k | k in s.starts :: !HasPending(s, s.starts[k].phone))
  }

  lemma SeparateStart(s: State, step: Step)
    requires Separate(s) && ByStart(step) && AloneAt(s, step)
    ensures Separate(Do(s, step)) && !Doubles(s, step)
  {
    hide Recent;
  }

  lemma DoSeparate(s: State, step: Step)
    requires Valid(s) && Separate(s) && AloneAt(s, step)
    ensures Separate(Do(s, step)) && !Doubles(s, step)
  {
    if ByStart(step) {
      SeparateStart(s, step);
    } else {
      OnlyInsertAdds(s, step);
      PendingBefore(s, step);
      hide Do, Valid;
    }
  }

  lemma {:induction false} AloneIsEnough(steps: seq<Step>, k: nat)
    requires AlwaysAlone(steps) && k <= |steps|
    ensures Separate(Run(EMPTY, steps[..k]))
    ensures k < |steps| ==> !Doubles(Run(EMPTY, steps[..k]), steps[k])
  {
    EmptyValid();
    if k > 0 {
      AloneIsEnough(steps, k - 1);
      RunNext(EMPTY, steps, k - 1);
      RunKeeps(EMPTY, steps[..k - 1]);
      assert AloneAt(Run(EMPTY, steps[..k - 1]), steps[k - 1]);
    }
    RunKeeps(EMPTY, steps[..k]);
    if k < |steps| { assert AloneAt(Run(EMPTY, steps[..k]), steps[k]); }
    hide Valid, Separate, Doubles, Do, Run, AlwaysAlone, AloneAt;
    if k > 0 { DoSeparate(Run(EMPTY, steps[..k - 1]), steps[k - 1]); } else { NothingIsSeparate(steps); }
    if k < |steps| { DoSeparate(Run(EMPTY, steps[..k]), steps[k]); }
  }

  lemma NothingIsSeparate(steps: seq<Step>)
    ensures Separate(Run(EMPTY, steps[..0]))
  {
  }

  /** No number has two pending messages, as long as no two starts are at the same number at a time. */
  lemma OnePendingPerNumber(steps: seq<Step>)
    requires AlwaysAlone(steps)
    ensures NeverDoubles(steps) && NeverDuplicates(steps) && NoDuplicates(Run(EMPTY, steps))
  {
    hide Doubles, Run, NoDuplicates;
    forall k | 0 <= k < |steps| ensures !Doubles(Run(EMPTY, steps[..k]), steps[k]) {
      AloneIsEnough(steps, k);
    }
    NoDuplicatesIff(steps);
    assert steps[..|steps|] == steps;
  }

  // ---- The cooldown ----

  /** A tick about to send has found its number rested, and nobody else can have sent to it since. */
  ghost predicate Rested(s: State) {
    forall p | p in s.ticks && s.ticks[p].pc.Clear? && s.ticks[p].pc.id in s.rows ::
      !Recent(s, s.rows[s.ticks[p].pc.id].phone, s.ticks[p].now)
  }

  lemma ClearBefore(s: State, step: Step, p: nat)
    requires p in Do(s, step).ticks && Do(s, step).ticks[p].pc.Clear?
    ensures p in s.ticks && s.ticks[p].now == Do(s, step).ticks[p].now
    ensures
      || s.ticks[p].pc == Do(s, step).ticks[p].pc
      || (Do(s, step).rows == s.rows && Do(s, step).ticks[p].pc.id in s.rows
          && !Recent(s, s.rows[Do(s, step).ticks[p].pc.id].phone, s.ticks[p].now))
  {
    hide InWindow, SentWithin, Recent, HasPending, IsDue, Earliest;
  }

  lemma DoRested(s: State, step: Step)
    requires Valid(s) && NoDuplicates(s) && Rested(s)
    ensures Rested(Do(s, step))
  {
    var s' := Do(s, step);
    DoKeeps(s, step);
    hide Do, Valid, NoDuplicates, Recent;
    forall p | p in s'.ticks && s'.ticks[p].pc.Clear? && s'.ticks[p].pc.id in s'.rows
      ensures !Recent(s', s'.rows[s'.ticks[p].pc.id].phone, s'.ticks[p].now)
    {
      ClearBefore(s, step, p);
      if s.ticks[p].pc == s'.ticks[p].pc {
        RestedStays(s, step, p);
      }
    }
  }

  lemma RestedStays(s: State, step: Step, p: nat)
    requires Valid(s) && Valid(Do(s, step)) && NoDuplicates(s) && Rested(s)
    requires p in s.ticks && s.ticks[p].pc.Clear? && p in Do(s, step).ticks && Do(s, step).ticks[p].pc == s.ticks[p].pc
    ensures s.ticks[p].pc.id in Do(s, step).rows
    ensures !Recent(Do(s, step), Do(s, step).rows[s.ticks[p].pc.id].phone, s.ticks[p].now)
  {
    var s', id := Do(s, step), s.ticks[p].pc.id;
    assert id in s.rows by { hide Do, Counted, Sparing; assert Held(s.ticks[p].pc) == Some(id); }
    DoAges(s, step, id);
    hide Do, Valid, NoDuplicates;
    forall other | other in s'.rows && s'.rows[other].phone == s'.rows[id].phone && s'.rows[other].status.Sent?
      ensures other in s.rows && s.rows[other] == s'.rows[other]
    {
      NotSentMeanwhile(s, step, p, other);
    }
  }

  lemma NotSentMeanwhile(s: State, step: Step, p: nat, other: nat)
    requires Valid(s) && Valid(Do(s, step)) && NoDuplicates(s)
    requires p in s.ticks && s.ticks[p].pc.Clear? && p in Do(s, step).ticks && Do(s, step).ticks[p].pc == s.ticks[p].pc
    requires s.ticks[p].pc.id in s.rows && s.ticks[p].pc.id in Do(s, step).rows
    requires other in Do(s, step).rows && Do(s, step).rows[other].status.Sent?
    requires Do(s, step).rows[other].phone == Do(s, step).rows[s.ticks[p].pc.id].phone
    ensures other in s.rows && s.rows[other] == Do(s, step).rows[other]
  {
    hide Do, Counted, Sparing;
    var s', id := Do(s, step), s.ticks[p].pc.id;
    SentBefore(s, step, other);
    DoAges(s, step, other);
    DoAges(s, step, id);
    assert Held(s.ticks[p].pc) == Some(id) && s.rows[id].status.Sending?;
    assert Held(s'.ticks[p].pc) == Some(id) && s'.rows[id].status.Sending?;
  }

  lemma SentBefore(s: State, step: Step, id: nat)
    requires id in Do(s, step).rows && Do(s, step).rows[id].status.Sent?
    ensures id in s.rows
  {
    hide InWindow, SentWithin, Recent, HasPending, Earliest;
  }

  lemma {:induction false} RestedRun(steps: seq<Step>)
    requires NeverDoubles(steps)
    ensures var s := Run(EMPTY, steps); Valid(s) && Rested(s)
  {
    EmptyValid();
    RunKeeps(EMPTY, steps);
    if steps != [] {
      var n := |steps| - 1;
      NeverDoublesPrefix(steps, n);
      RestedRun(steps[..n]);
      NoDuplicatesUpTo(steps, n);
      hide Valid, NoDuplicates, Rested, Do, NeverDoubles;
      DoRested(Run(EMPTY, steps[..n]), steps[n]);
    }
  }

  /** A message that is really sent goes to a number that, at that moment, has no sent message less
      than three hours old, however many ticks run, as long as no start doubles a number. */
  lemma CooldownRespected(steps: seq<Step>, p: nat, ok: bool)
    requires NeverDoubles(steps)
    ensures var s := Run(EMPTY, steps);
      Do(s, Transmit(p, ok)).log != s.log ==>
        && At(s, p) && s.ticks[p].pc.Clear? && s.ticks[p].pc.id in s.rows
        && !Recent(s, s.rows[s.ticks[p].pc.id].phone, s.ticks[p].now)
  {
    hide Run, Recent, NeverDoubles;
    RestedRun(steps);
    var s := Run(EMPTY, steps);
    if Do(s, Transmit(p, ok)).log != s.log {
      TransmitSends(s, p, ok);
      hide Do, Valid;
    }
  }

  lemma TransmitSends(s: State, p: nat, ok: bool)
    requires Valid(s) && Do(s, Transmit(p, ok)).log != s.log
    ensures At(s, p) && s.ticks[p].pc.Clear? && s.ticks[p].pc.id in s.rows
  {
    hide Counted, Sparing;
    assert At(s, p) && s.ticks[p].pc.Clear?;
    hide Do;
    assert Held(s.ticks[p].pc) == Some(s.ticks[p].pc.id);
  }

  // ---- What the checks do not give ----

  lemma RunSnoc(s: State, steps: seq<Step>, step: Step)
    ensures Run(s, steps + [step]) == Do(Run(s, steps), step)
  {
    assert (steps + [step])[..|steps|] == steps;
  }

  /** Two starts side by side at the same number: both look before either inserts, and it waits twice. */
  lemma TwoStartsDuplicate(at: int, phone: string)
    ensures exists steps: seq<Step> :: var rows := Run(EMPTY, steps).rows;
      0 in rows && 1 in rows && Pending(rows[0]) && Pending(rows[1]) && rows[0].phone == rows[1].phone == phone
  {
    var t1 := [AskPending(0, phone, at)];
    var t2 := t1 + [AskPending(1, phone, at)];
    var t3 := t2 + [AskCooldown(0)];
    var t4 := t3 + [AskCooldown(1)];
    var t5 := t4 + [Insert(0, 0, at, at)];
    var t6 := t5 + [Insert(1, 1, at, at)];
    var none: map<nat, Row> := map[];
    assert [] + t1 == t1;
    RunSnoc(EMPTY, [], AskPending(0, phone, at));
    RunSnoc(EMPTY, t1, AskPending(1, phone, at));
    RunSnoc(EMPTY, t2, AskCooldown(0));
    RunSnoc(EMPTY, t3, AskCooldown(1));
    RunSnoc(EMPTY, t4, Insert(0, 0, at, at));
    RunSnoc(EMPTY, t5, Insert(1, 1, at, at));
    assert Run(EMPTY, []) == EMPTY;
    hide Run;
    assert Run(EMPTY, t2).rows == none && Run(EMPTY, t2).starts == map[0 := Unpending(phone, at), 1 := Unpending(phone, at)];
    assert Run(EMPTY, t4).rows == none && Run(EMPTY, t4).starts == map[0 := Open(phone), 1 := Open(phone)];
    assert Run(EMPTY, t6).rows == map[0 := Row(phone, Scheduled, at, at, 0), 1 := Row(phone, Scheduled, at, at, 0)];
  }

  lemma RunJoin(s: State, a: seq<Step>, b: seq<Step>)
    ensures Run(s, a + b) == Run(Run(s, a), b)
  {
    if b == [] {
      assert a + b == a;
    } else {
      assert (a + b)[..|a + b| - 1] == a + b[..|b| - 1];
      RunJoin(s, a, b[..|b| - 1]);
    }
  }

  lemma RunTwo(s: State, a: Step, b: Step)
    ensures Run(s, [a, b]) == Do(Do(s, a), b)
  {
    RunSnoc(s, [], a);
    RunSnoc(s, [a], b);
    assert [] + [a] == [a] && [a] + [b] == [a, b];
  }

  /** All the steps of a tick that sends a row. */
  function SendingTick(p: nat, now: int, id: nat, ok: bool, draw: Unit): seq<Step> {
    [Begin(p, now), Peek(p), Probe(p, true), Gap(p), Claim(p, id), Cool(p), Transmit(p, ok), Record(p, draw)]
  }

  /** The three parts of a sending tick. */
  function Asking(p: nat, now: int): seq<Step> { [Begin(p, now), Peek(p), Probe(p, true), Gap(p)] }
  function Claiming(p: nat, id: nat): seq<Step> { [Claim(p, id), Cool(p)] }
  function Delivering(p: nat, ok: bool, draw: Unit): seq<Step> { [Transmit(p, ok), Record(p, draw)] }

  lemma SendingTickRuns(s: State, p: nat, now: int, id: nat, ok: bool, draw: Unit)
    ensures Run(s, SendingTick(p, now, id, ok, draw)) ==
      Run(Run(Run(s, Asking(p, now)), Claiming(p, id)), Delivering(p, ok, draw))
  {
    hide Run;
    assert SendingTick(p, now, id, ok, draw) == Asking(p, now) + (Claiming(p, id) + Delivering(p, ok, draw));
    RunJoin(s, Asking(p, now), Claiming(p, id) + Delivering(p, ok, draw));
    RunJoin(Run(s, Asking(p, now)), Claiming(p, id), Delivering(p, ok, draw));
  }

  lemma AskingRuns(s: State, p: nat, now: int)
    ensures Run(s, Asking(p, now)) == Do(Do(Do(Do(s, Begin(p, now)), Peek(p)), Probe(p, true)), Gap(p))
  {
    hide Run, Do;
    var a, b := [Begin(p, now), Peek(p)], [Probe(p, true), Gap(p)];
    assert a + b == Asking(p, now);
    RunJoin(s, a, b);
    RunTwo(s, Begin(p, now), Peek(p));
    RunTwo(Run(s, a), Probe(p, true), Gap(p));
  }

  lemma TickAsks(s: State, p: nat, now: int, id: nat)
    requires p !in s.ticks && InWindow(now) && IsDue(s, id, now) && !SentWithin(s, now, MIN_SEND_GAP_MS)
    ensures Run(s, Asking(p, now)) == s.(ticks := s.ticks[p := Tick(now, Ready(0), true)])
  {
    AskingRuns(s, p, now);
    var mid := s.(ticks := s.ticks[p := Tick(now, Due, true)]);
    hide Run, InWindow, SentWithin;
    assert Do(Do(s, Begin(p, now)), Peek(p)) == mid;
    hide IsDue;
    var linked := s.(ticks := s.ticks[p := Tick(now, Linked, true)]);
    SameTable(s, linked, now, id, "");
    assert Do(mid, Probe(p, true)) == linked;
    assert Do(linked, Gap(p)) == s.(ticks := s.ticks[p := Tick(now, Ready(0), true)]);
  }

  lemma SameTable(s: State, s': State, now: int, id: nat, phone: string)
    requires s.rows == s'.rows
    ensures SentWithin(s, now, MIN_SEND_GAP_MS) == SentWithin(s', now, MIN_SEND_GAP_MS)
    ensures Earliest(s, id, now) == Earliest(s', id, now)
    ensures Recent(s, phone, now) == Recent(s', phone, now)
  {
    assert forall other :: IsDue(s, other, now) == IsDue(s', other, now);
    hide IsDue;
  }

  /** The state while tick `p` holds row `id`. */
  function Holding(s: State, p: nat, id: nat, pc: Pc, now: int): State
    requires id in s.rows
  {
    State(s.rows[id := s.rows[id].(status := Sending)], s.ticks[p := Tick(now, pc, true)], s.starts, s.claims[id := p], s.log)
  }

  /** The state when tick `p` has sent row `id` and written down what came of it. */
  function Delivered(s: State, p: nat, id: nat, ok: bool, now: int, draw: Unit): State
    requires id in s.rows
  {
    State(s.rows[id := Outcome(s.rows[id], s.rows[id].attempts, ok, now, draw)],
      s.ticks[p := Tick(now, Done, true)], s.starts, s.claims - {id}, s.log + [Send(p, id, now, ok)])
  }

  lemma TickClaims(s: State, p: nat, now: int, id: nat)
    requires p in s.ticks && s.ticks[p] == Tick(now, Ready(0), true) && Earliest(s, id, now) && !Recent(s, s.rows[id].phone, now)
    ensures Run(s, Claiming(p, id)) == Holding(s, p, id, Clear(id, s.rows[id].attempts), now)
  {
    var n := s.rows[id].attempts;
    var taken := Holding(s, p, id, Claimed(0, id, n), now);
    RunTwo(s, Claim(p, id), Cool(p));
    hide Run;
    ClaimHolds(s, p, now, id);
    hide Earliest;
    HoldingRests(s, p, id, Claimed(0, id, n), now);
    hide Recent;
    assert Do(taken, Cool(p)) == Holding(s, p, id, Clear(id, n), now);
  }

  lemma ClaimHolds(s: State, p: nat, now: int, id: nat)
    requires p in s.ticks && s.ticks[p] == Tick(now, Ready(0), true) && Earliest(s, id, now)
    ensures Do(s, Claim(p, id)) == Holding(s, p, id, Claimed(0, id, s.rows[id].attempts), now)
  {
  }

  lemma HoldingRests(s: State, p: nat, id: nat, pc: Pc, now: int)
    requires id in s.rows && !Recent(s, s.rows[id].phone, now)
    ensures !Recent(Holding(s, p, id, pc, now), s.rows[id].phone, now)
  {
  }

  lemma TickDelivers(s: State, p: nat, now: int, id: nat, ok: bool, draw: Unit)
    requires id in s.rows
    ensures Run(Holding(s, p, id, Clear(id, s.rows[id].attempts), now), Delivering(p, ok, draw)) ==
      Delivered(s, p, id, ok, now, draw)
  {
    hide Run;
    var n := s.rows[id].attempts;
    var start := Holding(s, p, id, Clear(id, n), now);
    var sent := Holding(s, p, id, Answered(id, n, ok), now).(log := s.log + [Send(p, id, now, ok)]);
    RunTwo(start, Transmit(p, ok), Record(p, draw));
    assert Do(start, Transmit(p, ok)) == sent;
    TickRecords(s, p, now, id, ok, draw);
  }

  lemma TickRecords(s: State, p: nat, now: int, id: nat, ok: bool, draw: Unit)
    requires id in s.rows
    ensures var n := s.rows[id].attempts;
      Do(Holding(s, p, id, Answered(id, n, ok), now).(log := s.log + [Send(p, id, now, ok)]), Record(p, draw)) ==
      Delivered(s, p, id, ok, now, draw)
  {
    var n := s.rows[id].attempts;
    assert Outcome(s.rows[id].(status := Sending), n, ok, now, draw) == Outcome(s.rows[id], n, ok, now, draw);
    hide Outcome;
  }

  /** A tick that is let through sends the earliest row that is due, and writes down what came of it. */
  lemma TickSends(s: State, p: nat, now: int, id: nat, ok: bool, draw: Unit)
    requires p !in s.ticks && InWindow(now) && Earliest(s, id, now)
    requires !SentWithin(s, now, MIN_SEND_GAP_MS) && !Recent(s, s.rows[id].phone, now)
    ensures Run(s, SendingTick(p, now, id, ok, draw)) == Delivered(s, p, id, ok, now, draw)
  {
    hide Run, Recent, InWindow, SentWithin, Holding, SendingTick, Asking, Claiming, Delivering, Outcome;
    var mid := s.(ticks := s.ticks[p := Tick(now, Ready(0), true)]);
    assert IsDue(s, id, now);
    SendingTickRuns(s, p, now, id, ok, draw);
    TickAsks(s, p, now, id);
    hide Earliest, IsDue;
    assert Delivered(mid, p, id, ok, now, draw) == Delivered(s, p, id, ok, now, draw);
    hide Delivered;
    SameTable(s, mid, now, id, s.rows[id].phone);
    TickClaims(mid, p, now, id);
    TickDelivers(mid, p, now, id, ok, draw);
  }

  /** The gap check looks at when sent messages were created, not at when they were sent: after a
      send it holds the next tick back exactly as long as that message is less than 75 seconds old. */
  lemma GapLooksAtCreation(s: State, p: nat, now: int, id: nat, draw: Unit, later: int)
    requires id in s.rows && !s.rows[id].status.Sent?
    ensures SentWithin(Delivered(s, p, id, true, now, draw), later, MIN_SEND_GAP_MS)
      <==> SentWithin(s, later, MIN_SEND_GAP_MS) || later - s.rows[id].createdAt < MIN_SEND_GAP_MS
  {
    var s' := Delivered(s, p, id, true, now, draw);
    assert s'.rows[id].status.Sent? && s'.rows[id].createdAt == s.rows[id].createdAt;
    forall other | other in s.rows && other != id ensures s'.rows[other] == s.rows[other] {}
    assert s'.rows.Keys == s.rows.Keys;
  }

  /** So two ticks, one after the other, can send within the same millisecond. */
  lemma NoGapBetweenSends(s: State, now: int, a: nat, b: nat, p: nat, q: nat, draw: Unit)
    requires InWindow(now) && p != q && p !in s.ticks && q !in s.ticks
    requires Earliest(s, a, now) && IsDue(s, b, now) && a != b
    requires forall id | IsDue(s, id, now) && id != a :: s.rows[b].scheduledAt <= s.rows[id].scheduledAt
    requires s.rows[a].phone != s.rows[b].phone && now - s.rows[a].createdAt >= MIN_SEND_GAP_MS
    requires !SentWithin(s, now, MIN_SEND_GAP_MS) && !Recent(s, s.rows[a].phone, now) && !Recent(s, s.rows[b].phone, now)
    ensures Run(s, SendingTick(p, now, a, true, draw) + SendingTick(q, now, b, true, draw)).log ==
      s.log + [Send(p, a, now, true), Send(q, b, now, true)]
  {
    hide Run, SentWithin, InWindow, SendingTick;
    var s' := Delivered(s, p, a, true, now, draw);
    TickSends(s, p, now, a, true, draw);
    GapLooksAtCreation(s, p, now, a, draw, now);
    RunJoin(s, SendingTick(p, now, a, true, draw), SendingTick(q, now, b, true, draw));
    assert s'.rows[b] == s.rows[b] && !IsDue(s', a, now);
    assert forall id | id in s'.rows && id != a :: s'.rows[id] == s.rows[id];
    assert Earliest(s', b, now);
    assert !Recent(s', s'.rows[b].phone, now);
    TickSends(s', q, now, b, true, draw);
    assert s.log + [Send(p, a, now, true)] + [Send(q, b, now, true)] == s.log + [Send(p, a, now, true), Send(q, b, now, true)];
  }
}
