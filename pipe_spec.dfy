/**
 * The state machine behind the bounded hand-off pipe: its abstract state, the
 * invariant every reachable state keeps, and one step function per operation
 * of the Java class `Pipe`. The class in pipe.dfy is proved against these
 * functions; the trace lemmas in pipe_traces.dfy are proved about them.
 */
module PipeSpec {

  datatype Option<T> = None | Some(value: T)

  /** The three error values the pipe hands back to its callers. */
  datatype PipeError =
    | ClosedPipe       // produce on a pipe whose close flag is set
    | ClosedEmptyPipe  // consumeData on a pipe whose queue was torn down
    | TimedOut         // the wait for space or for an item ended without success

  /** What `produce` returns: nothing on success, an error value otherwise. */
  datatype Status = Done | Failed(error: PipeError)

  /** What `consumeData` returns: the head item, or an error value. */
  datatype Result<T> = Ok(value: T) | Err(error: PipeError)

  /** How a graceful close ended. */
  datatype CloseReport<T> =
    | Drained                   // the queue was empty when the wait ended: at once, or after
                                //   consumers emptied it during the window
    | Discarded(items: seq<T>)  // the grace window elapsed; these items were dropped
    | NullQueue                 // the queue had already been torn down (the wait dereferences null)

  /**
   * The fields of a pipe: the FIFO queue (None once it is torn down, the
   * Java `null`), the fixed limit, and the close flag.
   */
  datatype PipeState<T> = PipeState(queue: Option<seq<T>>, limit: int, closed: bool)

  /** The queued items, none once the queue is torn down. */
  function Items<T>(s: PipeState<T>): seq<T> {
    if s.queue.Some? then s.queue.value else []
  }

  /** The wait in `produce` is entered exactly when the size equals the limit. */
  predicate Full<T>(s: PipeState<T>)
    requires s.queue.Some?
  {
    |s.queue.value| == s.limit
  }

  /**
   * What holds of every reachable state: the queue is only torn down after
   * the close flag is set, and with a non-negative limit the queue never
   * holds more than `limit` items.
   */
  predicate Invariant<T>(s: PipeState<T>) {
    && (s.queue.None? ==> s.closed)
    && (s.queue.Some? && s.limit >= 0 ==> |s.queue.value| <= s.limit)
  }

  /** A fresh pipe: open, with an empty queue and the given limit. */
  function Init<T>(limit: int): (s: PipeState<T>)
    ensures Invariant(s)
    ensures !s.closed && s.queue.Some? && Items(s) == [] && s.limit == limit
  {
    PipeState(Some([]), limit, false)
  }

  /**
   * `produce(data, timeout)`: rejected at once when the pipe is closed; a
   * full queue makes the call wait, and since nothing else runs while it
   * waits the wait ends in a timeout; otherwise the item goes to the tail.
   */
  function ProduceStep<T>(s: PipeState<T>, x: T): (r: (PipeState<T>, Status))
    requires Invariant(s)
    ensures Invariant(r.0)
    ensures s.closed ==> r == (s, Failed(ClosedPipe))
    ensures !s.closed && |Items(s)| == s.limit ==> r == (s, Failed(TimedOut))
    ensures r.1 == Done <==> !s.closed && |Items(s)| != s.limit
    ensures r.1 == Done ==>
      && r.0.queue.Some?
      && Items(r.0) == Items(s) + [x]
      && r.0.closed == s.closed && r.0.limit == s.limit
  {
    if s.closed then (s, Failed(ClosedPipe))
    else if Full(s) then (s, Failed(TimedOut))
    else (s.(queue := Some(s.queue.value + [x])), Done)
  }

  /**
   * `consumeData(timeout)`: rejected at once when the queue is torn down (the
   * close flag alone does not stop it); an empty queue makes the call wait,
   * which ends in a timeout; otherwise the head item is removed and returned.
   */
  function ConsumeStep<T>(s: PipeState<T>): (r: (PipeState<T>, Result<T>))
    requires Invariant(s)
    ensures Invariant(r.0)
    ensures s.queue.None? ==> r == (s, Err(ClosedEmptyPipe))
    ensures s.queue == Some([]) ==> r == (s, Err(TimedOut))
    ensures r.1.Ok? <==> Items(s) != []
    ensures r.1.Ok? ==>
      && r.0.queue.Some?
      && Items(s) == [r.1.value] + Items(r.0)
      && r.0.closed == s.closed && r.0.limit == s.limit
  {
    if s.queue.None? then (s, Err(ClosedEmptyPipe))
    else if s.queue.value == [] then (s, Err(TimedOut))
    else (s.(queue := Some(s.queue.value[1..])), Ok(s.queue.value[0]))
  }

  /** `immediateClose()`: sets the close flag and discards the queue. */
  function ImmediateCloseStep<T>(s: PipeState<T>): (r: PipeState<T>)
    ensures Invariant(r)
    ensures r.closed && r.queue.None? && Items(r) == [] && r.limit == s.limit
  {
    s.(closed := true, queue := None)
  }

  /** First half of `gracefulClose()`: sets the close flag, keeps the queue. */
  function BeginGracefulCloseStep<T>(s: PipeState<T>): (r: PipeState<T>)
    requires Invariant(s)
    ensures Invariant(r)
    ensures r.closed && r.queue == s.queue && r.limit == s.limit
  {
    s.(closed := true)
  }

  /**
   * Second half of `gracefulClose()`, reached only after the first: the drain
   * wait is over (skipped on an empty queue; otherwise, since nothing signals
   * it, it lasts the whole window, during which consumers may run) and the
   * queue is discarded whatever it still holds. On an already torn-down queue
   * the wait's size check fails, and the queue is set to null all the same.
   */
  function FinishGracefulCloseStep<T>(s: PipeState<T>): (r: (PipeState<T>, CloseReport<T>))
    requires Invariant(s) && s.closed
    ensures Invariant(r.0)
    ensures r.0.closed && r.0.queue.None? && r.0.limit == s.limit
    ensures r.1 == NullQueue <==> s.queue.None?
    ensures r.1 == Drained <==> s.queue == Some([])
    ensures r.1.Discarded? ==> r.1.items == Items(s) && r.1.items != []
  {
    var report :=
      if s.queue.None? then NullQueue
      else if s.queue.value == [] then Drained
      else Discarded(s.queue.value);
    (s.(queue := None), report)
  }

  /** Calling `immediateClose()` a second time changes nothing. */
  lemma ImmediateCloseIdempotent<T>(s: PipeState<T>)
    ensures ImmediateCloseStep(ImmediateCloseStep(s)) == ImmediateCloseStep(s)
  {
  }

  /**
   * Between the two halves of a graceful close the pipe is closed but still
   * drainable: produce is rejected while consume still hands out the head.
   */
  lemma DrainableWhileClosing<T>(s: PipeState<T>, x: T)
    requires Invariant(s) && Items(s) != []
    ensures var c := BeginGracefulCloseStep(s);
      && ProduceStep(c, x) == (c, Failed(ClosedPipe))
      && ConsumeStep(c).1 == Ok(Items(s)[0])
  {
  }

  /**
   * A negative limit is never equal to a size, so `produce` on an open pipe
   * never waits: the bound holds only for a non-negative limit.
   */
  lemma NegativeLimitNeverFull<T>(s: PipeState<T>, x: T)
    requires Invariant(s) && !s.closed && s.limit < 0
    ensures ProduceStep(s, x).1 == Done
  {
  }
}
