/**
 * The Java class `Pipe` as a Dafny class: the same three fields, updated in
 * place by the same methods. Each method is proved to move the object from
 * `old(State())` to the state its step function in PipeSpec prescribes and
 * to return what that function returns, so every lemma about the step
 * functions (pipe_spec.dfy, pipe_traces.dfy) applies to the object.
 */
module Pipes {
  import opened PipeSpec

  class Pipe<T> {
    /** The FIFO buffer; None once it is torn down (the Java field set to null). */
    var queue: Option<seq<T>>
    /** The capacity fixed at construction. */
    const limit: int
    /** Set by both close paths, never cleared. */
    var isClosed: bool

    ghost function State(): PipeState<T>
      reads this
    {
      PipeState(queue, limit, isClosed)
    }

    ghost predicate Valid()
      reads this
    {
      Invariant(State())
    }

    /** An open pipe with an empty queue; any limit is accepted, as in the source. */
    constructor (limit: int)
      ensures Valid()
      ensures State() == Init(limit)
    {
      this.limit := limit;
      queue := Some([]);
      isClosed := false;
    }

    /**
     * `produce(data, timeout)`. The wait on a full queue is a timeout: in a
     * sequential model no consumer can run while this call waits.
     */
    method Produce(item: T) returns (status: Status)
      requires Valid()
      modifies this
      ensures Valid()
      ensures (State(), status) == ProduceStep(old(State()), item)
      ensures status.Failed? ==> State() == old(State())
    {
      if isClosed {
        return Failed(ClosedPipe);
      }
      if |queue.value| == limit {
        return Failed(TimedOut);
      }
      queue := Some(queue.value + [item]);
      status := Done;
    }

    /**
     * `consumeData(timeout)`. Checks only that the queue is not torn down,
     * so a pipe that is closing still hands out its items. The wait on an
     * empty queue is a timeout: no producer can run while this call waits.
     */
    method ConsumeData() returns (result: Result<T>)
      requires Valid()
      modifies this
      ensures Valid()
      ensures (State(), result) == ConsumeStep(old(State()))
      ensures result.Ok? ==> result.value == Items(old(State()))[0]
    {
      if queue.None? {
        return Err(ClosedEmptyPipe);
      }
      if queue.value == [] {
        return Err(TimedOut);
      }
      result := Ok(queue.value[0]);
      queue := Some(queue.value[1..]);
    }

    /** `isClosed()`: true after either close path has begun; always true once the queue is gone. */
    method IsClosed() returns (closed: bool)
      requires Valid()
      ensures closed == isClosed
      ensures queue.None? ==> closed
    {
      closed := isClosed;
    }

    /** `immediateClose()`: sets the flag and discards the queue at once. */
    method ImmediateClose()
      modifies this
      ensures Valid()
      ensures State() == ImmediateCloseStep(old(State()))
      ensures isClosed && queue.None?
    {
      isClosed := true;
      queue := None;
    }

    /** `gracefulClose()` up to its wait: from here on produce is rejected. */
    method BeginGracefulClose()
      requires Valid()
      modifies this
      ensures Valid()
      ensures State() == BeginGracefulCloseStep(old(State()))
      ensures isClosed && queue == old(queue)
    {
      isClosed := true;
    }

    /**
     * `gracefulClose()` from its wait on: unless the queue is already empty,
     * the wait lasts the whole window (the drain signal is never sent), after
     * which the queue is discarded whatever it still holds.
     */
    method FinishGracefulClose() returns (report: CloseReport<T>)
      requires Valid() && isClosed
      modifies this
      ensures Valid()
      ensures (State(), report) == FinishGracefulCloseStep(old(State()))
      ensures isClosed && queue.None?
    {
      if queue.None? {
        report := NullQueue;
      } else if queue.value == [] {
        report := Drained;
      } else {
        report := Discarded(queue.value);
      }
      queue := None;
    }

    /** `gracefulClose()`: both halves in one call; the pipe ends closed and torn down. */
    method GracefulClose() returns (report: CloseReport<T>)
      requires Valid()
      modifies this
      ensures Valid()
      ensures (State(), report) == FinishGracefulCloseStep(BeginGracefulCloseStep(old(State())))
      ensures isClosed && queue.None?
      ensures report.Discarded? ==> report.items == old(Items(State()))
    {
      BeginGracefulClose();
      report := FinishGracefulClose();
    }
  }

  /**
   * A client of the class: capacity 1, produce A, a second produce times
   * out, consume returns A, then the pending item B goes in; after an
   * immediate close, produce and consume are both rejected.
   */
  method Scenario<T>(a: T, b: T) returns (first: Result<T>, second: Status, third: Status, last: Result<T>)
    ensures first == Ok(a) && second == Failed(TimedOut) && third == Done
    ensures last == Err(ClosedEmptyPipe)
  {
    var p := new Pipe<T>(1);
    var s := p.Produce(a);
    assert s == Done;
    second := p.Produce(b);
    assert Items(p.State()) == [a];
    first := p.ConsumeData();
    assert Items(p.State()) == [];
    third := p.Produce(b);
    assert Items(p.State()) == [b];
    p.ImmediateClose();
    var closed := p.IsClosed();
    assert closed;
    var rejected := p.Produce(a);
    assert rejected == Failed(ClosedPipe);
    last := p.ConsumeData();
  }
}
