# Bounded hand-off pipe

A Dafny model of `Pipe`, the bounded, lock-guarded FIFO queue through which
producers hand data items to consumers. The pipe holds a queue, a fixed
`limit` and a close flag:

- `produce` rejects on a closed pipe and waits while the queue is full.
- `consumeData` rejects once the queue has been torn down (set to null) and
  waits while the queue is empty.
- `immediateClose` sets the flag and discards the queue.
- `gracefulClose` sets the flag, waits for the queue to drain, then discards
  it.

The model is sequential. While a caller waits, no other party runs, so a wait
on a full or empty queue ends in its timeout outcome with the state unchanged.
`gracefulClose` is split at its wait into `BeginGracefulClose` and
`FinishGracefulClose`. Consumers may run between the two, which is the
"closed but still drainable" window of the source.

Files:

- `pipe_spec.dfy` (module `PipeSpec`): the state (`PipeState`: queue or
  torn down, limit, close flag), the error values, the invariant of every
  reachable state, and one step function per operation.
- `pipe_traces.dfy` (module `PipeTraces`): sequences of calls (`Run`) and the
  order guarantee. Consumers receive a prefix of the produced items in
  production order. Until teardown, received items followed by the queue are
  exactly the produced items.
- `pipe.dfy` (module `Pipes`): class `Pipe<T>` with the source's three fields,
  updated in place. Each method is proved to perform its step function, so the
  lemmas above apply to the object.

Where the pipe's intended behaviour and its code differ, the model follows the code:

- The code accepts any `limit`. A negative limit never equals a size, so the
  queue is then unbounded (`PipeSpec.NegativeLimitNeverFull`). The capacity
  bound is proved for `limit >= 0`.
- `consumeData` checks only for a torn-down queue, not the close flag. After
  `immediateClose` it therefore rejects, while during a graceful close it
  still hands out items.
- The code does not wake waiters on close. In a sequential model this makes
  no difference.
- A graceful close never learns that the queue drained, because the drain
  signal is never sent. Unless the queue is already empty at its size check,
  it waits out its window and then discards what is left. `FinishGracefulClose`
  reports whether anything was left to discard (`Discarded(items)`) or not
  (`Drained`), as an outcome the Java method does not return.
- `produce` checks the close flag only once, before its wait for space. A
  producer already waiting on a full queue when a graceful close sets the flag
  can still be woken by a consumer running during the close's wait, and then
  appends its item after the flag is set. The pipe's intended behaviour asks
  waiters to re-check that the pipe is still open; the code does not. The
  model's `Produce` is atomic and cannot express this, so "nothing is accepted
  after a close" (`PipeTraces.Run`) holds of the model only. Likewise
  `immediateClose` holds only the object monitor, never the lock that
  `produce` and `consumeData` take, so in the code it is not excluded from a
  running produce or consume; the model runs every call to completion.

## Model

| member | source | states |
|---|---|---|
| PipeSpec.Init | native/src/main/java/pipe/Pipe.java:33-38 | a new pipe is open, its queue is empty, it keeps the given limit, and it satisfies the invariant (torn down implies closed; size at most limit when limit >= 0) |
| PipeSpec.ProduceStep | native/src/main/java/pipe/Pipe.java:41-58 | keeps the invariant; on a closed pipe returns the closed-pipe error with the state unchanged; on a full queue returns the timeout error with the state unchanged; succeeds exactly when open and not full, and then the queue is the old queue plus the item at the tail, with flag and limit unchanged |
| PipeSpec.ConsumeStep | native/src/main/java/pipe/Pipe.java:61-77 | keeps the invariant; on a torn-down queue returns the closed-empty error with no change; on an empty queue returns the timeout error with no change; succeeds exactly when items are queued (whatever the close flag), returning the old head, and the old queue is that head followed by the new queue |
| PipeSpec.ImmediateCloseStep | native/src/main/java/pipe/Pipe.java:85-88 | afterwards the pipe is closed and its queue is torn down, the limit is kept, and the invariant holds from any state |
| PipeSpec.BeginGracefulCloseStep | native/src/main/java/pipe/Pipe.java:91-93 | sets the close flag and keeps the queue and the limit; the invariant is kept |
| PipeSpec.FinishGracefulCloseStep | native/src/main/java/pipe/Pipe.java:94-103 | always ends closed with the queue torn down; reports NullQueue exactly when the queue was already torn down, Drained exactly when it was empty, and otherwise the non-empty list of items it dropped |
| PipeSpec.ImmediateCloseIdempotent | native/src/main/java/pipe/Pipe.java:85-88 | closing immediately twice gives the same state as closing once |
| PipeSpec.DrainableWhileClosing | native/src/main/java/pipe/Pipe.java:43-64 | after the flag is set by a graceful close but before teardown, produce is rejected while consume still returns the head item |
| PipeSpec.NegativeLimitNeverFull | native/src/main/java/pipe/Pipe.java:47 | with a negative limit, produce on an open pipe always succeeds: the equality test never sees a full queue |
| PipeTraces.Drain | native/src/main/java/pipe/Pipe.java:61-77 | k consume calls deliver the first min(k, size) items in queue order and leave the rest queued; the flag, the limit and teardown are unchanged and nothing is accepted |
| PipeTraces.Apply | native/src/main/java/pipe/Pipe.java:41-104 | one call of any operation keeps the invariant and the limit; a closed pipe accepts nothing and stays closed; a torn-down pipe is inert; delivered items are a prefix of the old queue plus accepted items, and equal them minus the new queue while not torn down |
| PipeTraces.Run | native/src/main/java/pipe/Pipe.java:41-104 | for any sequence of produces, consumes and closes: the invariant (capacity bound, teardown implies closed) holds at the end; after a close nothing is accepted (in the model: see the note on `produce` above); consumers receive a prefix of (initial queue ++ produced items), in order; and until teardown nothing is lost or reordered |
| PipeTraces.GracefulDrain | native/src/main/java/pipe/Pipe.java:91-104 | a graceful close with `window` consumes during its wait delivers all queued items in order and reports Drained when the window covers the queue, and otherwise delivers the first `window` items and reports the rest as discarded; it always ends closed and torn down |
| PipeTraces.PutsAccepted | native/src/main/java/pipe/Pipe.java:47-52 | on an open pipe with room, a run of produce calls all succeed and append their items at the tail in call order |
| PipeTraces.TakesDrain | native/src/main/java/pipe/Pipe.java:67-73 | a run of n consume calls behaves as Drain of n |
| PipeTraces.Fifo | native/src/main/java/pipe/Pipe.java:52-73 | on a fresh pipe with room, producing x1..xn then consuming n times accepts x1..xn, delivers x1..xn in that order, and leaves the queue empty |
| Pipes.Pipe.constructor | native/src/main/java/pipe/Pipe.java:33-38 | the object starts in the initial state with the given limit |
| Pipes.Pipe.Produce | native/src/main/java/pipe/Pipe.java:41-58 | updates the fields as ProduceStep prescribes and returns its status; a failed call leaves the object unchanged |
| Pipes.Pipe.ConsumeData | native/src/main/java/pipe/Pipe.java:61-77 | updates the fields as ConsumeStep prescribes and returns its result, which on success is the old head |
| Pipes.Pipe.IsClosed | native/src/main/java/pipe/Pipe.java:80-82 | returns the close flag, which is always set once the queue is torn down |
| Pipes.Pipe.ImmediateClose | native/src/main/java/pipe/Pipe.java:85-88 | leaves the object closed with its queue torn down, as ImmediateCloseStep prescribes |
| Pipes.Pipe.BeginGracefulClose | native/src/main/java/pipe/Pipe.java:91-93 | sets the flag and keeps the queue, as BeginGracefulCloseStep prescribes |
| Pipes.Pipe.FinishGracefulClose | native/src/main/java/pipe/Pipe.java:94-103 | tears down the queue and reports what happened, as FinishGracefulCloseStep prescribes |
| Pipes.Pipe.GracefulClose | native/src/main/java/pipe/Pipe.java:91-104 | ends closed and torn down, reporting any dropped items as the queue held them before the call |
| Pipes.Scenario | native/src/main/java/pipe/Pipe.java:41-88 | with limit 1: produce A succeeds, a second produce times out, consume returns A, produce B then succeeds; after an immediate close, consume returns the closed-empty error |

## Left out

- Locking and signalling (`ReentrantLock`, the conditions `notFull`, `notEmpty` and `close`, `synchronized`, `signal`/`await`): concurrency machinery. The model is sequential, so each wait is represented only by its timeout outcome.
- The wait loops around `await` in `produce` and `consumeData`: in a sequential model nothing changes the queue while such a call waits, so each loop ends on its first timeout and is modelled as a single check.
- The wait loop in `gracefulClose`: the `close` condition is never signalled, so the loop ends on its first timeout, with no separate loop in the model. Consumers may run during that wait (between `BeginGracefulClose` and `FinishGracefulClose`, and in the `window` of `CloseGracefully`). An empty queue at the size check skips the wait, while a queue that consumers empty during the window still waits out the window; the model does not tell these two apart, as only the elapsed time differs and both end with the same state and the `Drained` report.
- Timeout durations and the float-to-long conversion of the timeout: wall-clock time, not modelled; the timeout argument is dropped.
- `InterruptedException` from a blocking wait: a runtime cancellation channel with no sequential counterpart.
- The lock leaks: the early returns in `produce` and `consumeData` never release the lock, and `gracefulClose` never unlocks. These need threads to observe.
- `isClosed()` is read without the lock that guards the other operations: a data race, not observable sequentially.
- The 30-second grace window: treated as elapsed, since the drain signal is never sent; `FinishGracefulClose` discards whatever remains.
- `gracefulClose` on an already torn-down queue throws a `NullPointerException` from the size check (the `finally` still nulls the queue): modelled as the `NullQueue` report with the state unchanged, not as an exception.
- A `null` limit, and the 32-bit `int` size returned by the Java list: the model uses unbounded integers.
- Error message strings built through the host runtime's error and string helpers: replaced by the constructors of `PipeError`.
- The static adapters `consumeStream` and `consume`: host-runtime object and stream bridging, not part of this model.
