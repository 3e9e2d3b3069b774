/**
 The event stream between a producer and one asynchronous consumer (`EventStream`). The
 consumer's request for the next value is an operation like `push` and `end`; it is answered
 at once, or it waits for the producer.
 */
module EventStreams {
  import opened Basics

  datatype Op<T, R> = Push(event: T) | End(result: Option<R>) | Request

  /** Whether the stream accepts no more events. */
  predicate Closed<T, R>(isComplete: T -> bool, ops: seq<Op<T, R>>) {
    && ops != []
    && var last := ops[|ops| - 1];
       || Closed(isComplete, ops[..|ops| - 1])
       || last.End?
       || (last.Push? && isComplete(last.event))
  }

  /** The events pushed while the stream was open. */
  function Accepted<T, R>(isComplete: T -> bool, ops: seq<Op<T, R>>): seq<T> {
    if ops == [] then []
    else
      var init, last := ops[..|ops| - 1], ops[|ops| - 1];
      Accepted(isComplete, init) + if last.Push? && !Closed(isComplete, init) then [last.event] else []
  }

  function Pushed<T, R>(ops: seq<Op<T, R>>): seq<T> {
    if ops == [] then []
    else Pushed(ops[..|ops| - 1]) + if ops[|ops| - 1].Push? then [ops[|ops| - 1].event] else []
  }

  /** The first value that the promise of the final result is resolved with. */
  function Final<T, R>(isComplete: T -> bool, extract: T -> R, ops: seq<Op<T, R>>): Option<R> {
    if ops == [] then None
    else
      var init, last := ops[..|ops| - 1], ops[|ops| - 1];
      if Final(isComplete, extract, init).Some? then Final(isComplete, extract, init)
      else if last.End? then last.result
      else if last.Push? && !Closed(isComplete, init) && isComplete(last.event) then Some(extract(last.event))
      else None
  }

  lemma OpsSnoc<T, R>(isComplete: T -> bool, extract: T -> R, ops: seq<Op<T, R>>, op: Op<T, R>)
    ensures var all := ops + [op];
      var closed := Closed(isComplete, ops);
      && Closed(isComplete, all) == (closed || op.End? || (op.Push? && isComplete(op.event)))
      && Accepted(isComplete, all) == (if op.Push? && !closed then Accepted(isComplete, ops) + [op.event] else Accepted(isComplete, ops))
      && Final(isComplete, extract, all) ==
        (if Final(isComplete, extract, ops).Some? then Final(isComplete, extract, ops)
         else if op.End? then op.result
         else if op.Push? && !closed && isComplete(op.event) then Some(extract(op.event))
         else None)
  {
    assert (ops + [op])[..|ops|] == ops;
  }

  /** Once closed, always closed, and nothing more is accepted. */
  lemma {:induction false} ClosedForGood<T, R>(isComplete: T -> bool, ops: seq<Op<T, R>>, k: nat)
    requires k <= |ops| && Closed(isComplete, ops[..k])
    ensures Closed(isComplete, ops) && Accepted(isComplete, ops) == Accepted(isComplete, ops[..k])
  {
    if k == |ops| {
      assert ops[..k] == ops;
    } else {
      assert ops[..|ops| - 1][..k] == ops[..k];
      ClosedForGood(isComplete, ops[..|ops| - 1], k);
    }
  }

  lemma {:induction false} OpenAcceptsAll<T, R>(isComplete: T -> bool, ops: seq<Op<T, R>>)
    requires !Closed(isComplete, ops)
    ensures Accepted(isComplete, ops) == Pushed(ops)
  {
    if ops != [] { OpenAcceptsAll(isComplete, ops[..|ops| - 1]); }
  }

  /** The events accepted are those pushed up to and including the first completing one, or up
      to the first `end`. */
  lemma AcceptedUpToFirst<T, R>(isComplete: T -> bool, ops: seq<Op<T, R>>, k: nat)
    requires k < |ops| && !Closed(isComplete, ops[..k])
    requires ops[k].End? || (ops[k].Push? && isComplete(ops[k].event))
    ensures Accepted(isComplete, ops) == Pushed(ops[..k]) + if ops[k].Push? then [ops[k].event] else []
  {
    assert ops[..k + 1][..k] == ops[..k];
    OpenAcceptsAll(isComplete, ops[..k]);
    ClosedForGood(isComplete, ops, k + 1);
  }

  predicate Closes<T, R>(isComplete: T -> bool, op: Op<T, R>) {
    op.End? || (op.Push? && isComplete(op.event))
  }

  /** The stream is closed once some operation has closed it. */
  lemma {:induction false} ClosedIff<T, R>(isComplete: T -> bool, ops: seq<Op<T, R>>)
    ensures Closed(isComplete, ops) <==> exists i | 0 <= i < |ops| :: Closes(isComplete, ops[i])
  {
    if ops != [] {
      var init := ops[..|ops| - 1];
      ClosedIff(isComplete, init);
      assert forall i | 0 <= i < |init| :: init[i] == ops[i];
      assert Closes(isComplete, ops[|ops| - 1]) || !Closes(isComplete, ops[|ops| - 1]);
    }
  }

  /** What operation `k` offers as the final result: the one `end` is given, or that of the event which
      completes a stream still open. */
  ghost predicate Offers<T, R(!new)>(isComplete: T -> bool, extract: T -> R, ops: seq<Op<T, R>>, k: nat, result: R)
    requires k < |ops|
  {
    || ops[k] == Op.End(Some(result))
    || (ops[k].Push? && isComplete(ops[k].event) && extract(ops[k].event) == result
        && forall i | 0 <= i < k :: !Closes(isComplete, ops[i]))
  }

  /** None of the first `n` operations offers a result. */
  ghost predicate NoOffer<T, R(!new)>(isComplete: T -> bool, extract: T -> R, ops: seq<Op<T, R>>, n: nat)
    requires n <= |ops|
  {
    forall k, result | 0 <= k < n :: !Offers(isComplete, extract, ops, k, result)
  }

  /** Operations that come later do not matter for what is offered. */
  lemma OffersPrefix<T, R(!new)>(isComplete: T -> bool, extract: T -> R, ops: seq<Op<T, R>>, k: nat, n: nat, result: R)
    requires k < n <= |ops|
    ensures Offers(isComplete, extract, ops, k, result) <==> Offers(isComplete, extract, ops[..n], k, result)
  {
    assert forall i | 0 <= i < n :: ops[..n][i] == ops[i];
  }

  lemma NoOfferPrefix<T, R(!new)>(isComplete: T -> bool, extract: T -> R, ops: seq<Op<T, R>>, k: nat, n: nat)
    requires k <= n <= |ops|
    ensures NoOffer(isComplete, extract, ops, k) <==> NoOffer(isComplete, extract, ops[..n], k)
  {
    forall j, result | 0 <= j < k
      ensures Offers(isComplete, extract, ops, j, result) <==> Offers(isComplete, extract, ops[..n], j, result)
    {
      OffersPrefix(isComplete, extract, ops, j, n, result);
    }
  }

  /** The final result is the first one offered, and there is none as long as none is. */
  lemma {:induction false} FinalIsFirst<T, R(!new)>(isComplete: T -> bool, extract: T -> R, ops: seq<Op<T, R>>) returns (k: nat)
    ensures k <= |ops| && NoOffer(isComplete, extract, ops, k)
    ensures match Final(isComplete, extract, ops)
      case Some(result) => k < |ops| && Offers(isComplete, extract, ops, k, result)
      case None => k == |ops|
  {
    k := 0;
    if ops != [] {
      var n := |ops| - 1;
      var init := ops[..n];
      k := FinalIsFirst(isComplete, extract, init);
      NoOfferPrefix(isComplete, extract, ops, k, n);
      ClosedIff(isComplete, init);
      assert forall i | 0 <= i < n :: init[i] == ops[i];
      match Final(isComplete, extract, init) {
        case Some(result) => OffersPrefix(isComplete, extract, ops, k, n, result);
        case None => if Final(isComplete, extract, ops).None? { k := |ops|; }
      }
    }
  }

  class EventStream<T, R> {
    const isComplete: T -> bool
    const extractResult: T -> R
    var queue: seq<T>
    var waiting: nat             // requests not answered yet
    var done: bool
    var finalResult: Option<R>
    ghost var delivered: seq<T>  // the values handed to the consumer
    ghost var history: seq<Op<T, R>>

    /** Queue and waiters are never both non-empty; what was delivered and what is queued are
        the events accepted, in order; the result is the first one given. */
    ghost predicate Valid()
      reads this
    {
      && (queue == [] || waiting == 0)
      && (done ==> waiting == 0)
      && done == Closed(isComplete, history)
      && delivered + queue == Accepted(isComplete, history)
      && finalResult == Final(isComplete, extractResult, history)
    }

    constructor (isComplete: T -> bool, extractResult: T -> R)
      ensures Valid() && history == [] && delivered == []
    {
      this.isComplete, this.extractResult := isComplete, extractResult;
      queue, waiting, done, finalResult := [], 0, false, None;
      delivered, history := [], [];
    }

    method Resolve(result: R)
      modifies this`finalResult
      ensures finalResult == if old(finalResult).Some? then old(finalResult) else Some(result)
    {
      if finalResult.None? {
        finalResult := Some(result);
      }
    }

    method Push(event: T)
      requires Valid() && waiting <= 1
      modifies this
      ensures Valid() && waiting <= 1 && history == old(history) + [Op.Push(event)]
      ensures delivered == old(delivered) + if !old(done) && old(waiting) > 0 then [event] else []
      ensures waiting == if !old(done) && old(waiting) > 0 then old(waiting) - 1 else old(waiting)
    {
      hide Closed, Accepted, Final;
      OpsSnoc(isComplete, extractResult, history, Op.Push(event));
      history := history + [Op.Push(event)];
      if done {
        return;
      }
      if isComplete(event) {
        done := true;
        Resolve(extractResult(event));
      }
      if waiting > 0 {
        waiting := waiting - 1;
        delivered := delivered + [event];
      } else {
        queue := queue + [event];
      }
    }

    method End(result: Option<R>)
      requires Valid() && waiting <= 1
      modifies this
      ensures Valid() && waiting == 0 && history == old(history) + [Op.End(result)]
      ensures delivered == old(delivered)
    {
      hide Closed, Accepted, Final;
      OpsSnoc(isComplete, extractResult, history, Op.End(result));
      history := history + [Op.End(result)];
      done := true;
      if result.Some? {
        Resolve(result.value);
      }
      while waiting > 0
        invariant queue == [] || waiting == 0
        modifies this`waiting
      {
        waiting := waiting - 1;
      }
    }

    /** The iterator asks for the next value: `Some` value, the end, or it has to wait. With one
        consumer there is at most one request at a time. */
    method Next() returns (value: Option<T>, finished: bool)
      requires Valid() && waiting == 0
      modifies this
      ensures Valid() && waiting <= 1 && history == old(history) + [Request]
      ensures value.Some? ==> !finished && delivered == old(delivered) + [value.value]
      ensures value.None? ==> delivered == old(delivered)
      ensures finished <==> old(done) && old(queue) == []
      ensures value.Some? <==> old(queue) != []
      ensures waiting == if value.None? && !finished then 1 else 0
      ensures finished ==> delivered == Accepted(isComplete, history)
    {
      hide Closed, Accepted, Final;
      OpsSnoc(isComplete, extractResult, history, Request);
      history := history + [Request];
      if |queue| > 0 {
        value, finished := Some(queue[0]), false;
        delivered := delivered + [queue[0]];
        queue := queue[1..];
      } else if done {
        value, finished := None, true;
      } else {
        waiting := waiting + 1;
        value, finished := None, false;
      }
    }
  }
}
