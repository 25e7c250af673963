/**
 * Sequences of calls on one pipe, and the order guarantee they give: every
 * item a consumer receives was produced earlier, in production order, and
 * while the queue is not torn down the received items followed by the queue
 * are exactly the produced ones.
 */
module PipeTraces {
  import opened PipeSpec

  /** One call on the pipe. */
  datatype Op<T> =
    | Put(item: T)                  // produce(item, timeout)
    | Take                          // consumeData(timeout)
    | CloseNow                      // immediateClose()
    | CloseGracefully(window: nat)  // gracefulClose(), with `window` consume calls served while it waits

  /**
   * The outcome of some calls: the final state, the items the pipe accepted
   * from producers and the items it delivered to consumers, each in order.
   */
  datatype Trace<T> = Trace(final: PipeState<T>, accepted: seq<T>, delivered: seq<T>)

  ghost predicate IsPrefix<T>(a: seq<T>, b: seq<T>) {
    |a| <= |b| && b[..|a|] == a
  }

  lemma {:induction false} PrefixExtend<T>(c: seq<T>, a: seq<T>, b: seq<T>)
    requires IsPrefix(a, b)
    ensures IsPrefix(c + a, c + b)
  {
    assert (c + b)[..|c + a|] == c + b[..|a|];
  }

  lemma ConcatAssoc<T>(x: seq<T>, y: seq<T>, z: seq<T>)
    ensures x + (y + z) == (x + y) + z
  {
  }

  function Min(a: nat, b: nat): nat {
    if a < b then a else b
  }

  /**
   * `k` consume calls in a row: the first min(k, |queue|) items come out in
   * queue order and the rest of the queue stays; the close flag, the limit
   * and whether the queue is torn down do not change.
   */
  function Drain<T>(s: PipeState<T>, k: nat): (r: Trace<T>)
    requires Invariant(s)
    ensures Invariant(r.final)
    ensures r.accepted == []
    ensures r.final.closed == s.closed && r.final.limit == s.limit
    ensures r.final.queue.Some? <==> s.queue.Some?
    ensures |r.delivered| == Min(k, |Items(s)|)
    ensures Items(s) == r.delivered + Items(r.final)
    decreases k
  {
    if k == 0 then Trace(s, [], [])
    else
      var (s1, res) := ConsumeStep(s);
      var rest := Drain(s1, k - 1);
      var got := if res.Ok? then [res.value] else [];
      ConcatAssoc(got, rest.delivered, Items(rest.final));
      Trace(rest.final, [], got + rest.delivered)
  }

  /**
   * One call. The item order is kept: what is delivered followed by the
   * queue left behind is the queue before followed by what is accepted.
   * A closed pipe accepts nothing and stays closed; a torn-down pipe is inert.
   */
  function Apply<T>(s: PipeState<T>, op: Op<T>): (r: Trace<T>)
    requires Invariant(s)
    ensures Invariant(r.final) && r.final.limit == s.limit
    ensures s.closed ==> r.final.closed && r.accepted == []
    ensures s.queue.None? ==> r == Trace(s, [], [])
    ensures IsPrefix(r.delivered, Items(s) + r.accepted)
    ensures r.final.queue.Some? ==> r.delivered + Items(r.final) == Items(s) + r.accepted
  {
    match op
    case Put(x) =>
      var (s1, st) := ProduceStep(s, x);
      Trace(s1, if st == Done then [x] else [], [])
    case Take =>
      var (s1, res) := ConsumeStep(s);
      Trace(s1, [], if res.Ok? then [res.value] else [])
    case CloseNow =>
      Trace(ImmediateCloseStep(s), [], [])
    case CloseGracefully(window) =>
      var d := Drain(BeginGracefulCloseStep(s), window);
      var (s1, _) := FinishGracefulCloseStep(d.final);
      Trace(s1, [], d.delivered)
  }

  /**
   * A sequence of calls. Whatever the interleaving of produces, consumes and
   * closes, consumers receive a prefix of the produced items in production
   * order, and until the queue is torn down nothing is lost: received items
   * followed by the queue are the produced items. Once closed, nothing more
   * is accepted; the limit bound and "torn down implies closed" hold
   * throughout.
   */
  function Run<T>(s: PipeState<T>, ops: seq<Op<T>>): (r: Trace<T>)
    requires Invariant(s)
    ensures Invariant(r.final) && r.final.limit == s.limit
    ensures s.closed ==> r.final.closed && r.accepted == []
    ensures s.queue.None? ==> r == Trace(s, [], [])
    ensures IsPrefix(r.delivered, Items(s) + r.accepted)
    ensures r.final.queue.Some? ==> r.delivered + Items(r.final) == Items(s) + r.accepted
    decreases |ops|
  {
    if ops == [] then Trace(s, [], [])
    else
      var t := Apply(s, ops[0]);
      var u := Run(t.final, ops[1..]);
      RunStepOrder(s, t, u);
      Trace(u.final, t.accepted + u.accepted, t.delivered + u.delivered)
  }

  /** Glues the order guarantee of one call to that of the calls after it. */
  lemma RunStepOrder<T>(s: PipeState<T>, t: Trace<T>, u: Trace<T>)
    requires IsPrefix(t.delivered, Items(s) + t.accepted)
    requires t.final.queue.Some? ==> t.delivered + Items(t.final) == Items(s) + t.accepted
    requires t.final.queue.None? ==> u == Trace(t.final, [], [])
    requires IsPrefix(u.delivered, Items(t.final) + u.accepted)
    requires u.final.queue.Some? ==> u.delivered + Items(u.final) == Items(t.final) + u.accepted
    ensures IsPrefix(t.delivered + u.delivered, Items(s) + (t.accepted + u.accepted))
    ensures u.final.queue.Some? ==>
      (t.delivered + u.delivered) + Items(u.final) == Items(s) + (t.accepted + u.accepted)
  {
    var q0, q1, q2 := Items(s), Items(t.final), Items(u.final);
    if t.final.queue.Some? {
      PrefixCompose(q0, t.accepted, t.delivered, q1, u.accepted, u.delivered);
      if u.final.queue.Some? {
        EqualCompose(q0, t.accepted, t.delivered, q1, u.accepted, u.delivered, q2);
      }
    } else {
      PrefixTail(q0, t.accepted, t.delivered, u.accepted);
      assert t.delivered + u.delivered == t.delivered;
    }
  }

  lemma PrefixCompose<T>(q0: seq<T>, a1: seq<T>, d1: seq<T>, q1: seq<T>, a2: seq<T>, d2: seq<T>)
    requires d1 + q1 == q0 + a1
    requires IsPrefix(d2, q1 + a2)
    ensures IsPrefix(d1 + d2, q0 + (a1 + a2))
  {
    PrefixExtend(d1, d2, q1 + a2);
    ConcatAssoc(d1, q1, a2);
    ConcatAssoc(q0, a1, a2);
  }

  lemma EqualCompose<T>(q0: seq<T>, a1: seq<T>, d1: seq<T>, q1: seq<T>, a2: seq<T>, d2: seq<T>, q2: seq<T>)
    requires d1 + q1 == q0 + a1
    requires d2 + q2 == q1 + a2
    ensures (d1 + d2) + q2 == q0 + (a1 + a2)
  {
    ConcatAssoc(d1, d2, q2);
    ConcatAssoc(d1, q1, a2);
    ConcatAssoc(q0, a1, a2);
  }

  lemma PrefixTail<T>(q0: seq<T>, a1: seq<T>, d1: seq<T>, a2: seq<T>)
    requires IsPrefix(d1, q0 + a1)
    ensures IsPrefix(d1, q0 + (a1 + a2))
  {
    ConcatAssoc(q0, a1, a2);
    assert (q0 + (a1 + a2))[..|d1|] == (q0 + a1)[..|d1|];
  }

  /**
   * A graceful close with `window` consume calls served during its wait: if
   * the window covers the queue, consumers receive every queued item in
   * order and the close reports `Drained`; otherwise they receive the first
   * `window` items and the rest is dropped. Either way the pipe ends closed
   * and torn down.
   */
  lemma GracefulDrain<T>(s: PipeState<T>, window: nat)
    requires Invariant(s) && s.queue.Some?
    ensures var d := Drain(BeginGracefulCloseStep(s), window);
      var f := FinishGracefulCloseStep(d.final);
      && f.0.closed && f.0.queue.None?
      && (window >= |Items(s)| ==> d.delivered == Items(s) && f.1 == Drained)
      && (window < |Items(s)| ==>
            d.delivered == Items(s)[..window] && f.1 == Discarded(Items(s)[window..]))
  {
    var b := BeginGracefulCloseStep(s);
    var d := Drain(b, window);
    assert Items(b) == Items(s);
    var q := Items(s);
    assert q == d.delivered + Items(d.final);
    assert d.delivered == q[..|d.delivered|] && Items(d.final) == q[|d.delivered|..];
  }

  /** Running two call sequences one after the other is running their concatenation. */
  lemma {:induction false} RunAppend<T>(s: PipeState<T>, a: seq<Op<T>>, b: seq<Op<T>>)
    requires Invariant(s)
    ensures var t := Run(s, a);
      var u := Run(t.final, b);
      Run(s, a + b) == Trace(u.final, t.accepted + u.accepted, t.delivered + u.delivered)
    decreases |a|
  {
    if a == [] {
      assert a + b == b;
    } else {
      var ab := a + b;
      assert ab[0] == a[0] && ab[1..] == a[1..] + b;
      var t0 := Apply(s, a[0]);
      RunAppend(t0.final, a[1..], b);
      var t1 := Run(t0.final, a[1..]);
      var u := Run(t1.final, b);
      var rest := Run(t0.final, ab[1..]);
      assert rest == Trace(u.final, t1.accepted + u.accepted, t1.delivered + u.delivered);
      assert Run(s, ab) == Trace(rest.final, t0.accepted + rest.accepted, t0.delivered + rest.delivered);
      assert Run(s, a) == Trace(t1.final, t0.accepted + t1.accepted, t0.delivered + t1.delivered);
      ConcatAssoc(t0.accepted, t1.accepted, u.accepted);
      ConcatAssoc(t0.delivered, t1.delivered, u.delivered);
    }
  }

  /** One produce call per item, in order. */
  function Puts<T>(xs: seq<T>): (ops: seq<Op<T>>)
    ensures |ops| == |xs|
    ensures forall i :: 0 <= i < |xs| ==> ops[i] == Put(xs[i])
  {
    if xs == [] then [] else [Put(xs[0])] + Puts(xs[1..])
  }

  /** `n` consume calls. */
  function Takes<T>(n: nat): (ops: seq<Op<T>>)
    ensures |ops| == n
    ensures forall i :: 0 <= i < n ==> ops[i] == Take
  {
    if n == 0 then [] else [Take] + Takes(n - 1)
  }

  /**
   * On an open pipe with room for them, produce calls all succeed and append
   * their items at the tail in call order.
   */
  lemma {:induction false} PutsAccepted<T>(s: PipeState<T>, xs: seq<T>)
    requires Invariant(s) && !s.closed && s.queue.Some?
    requires s.limit < 0 || |Items(s)| + |xs| <= s.limit
    ensures Run(s, Puts(xs)) == Trace(s.(queue := Some(Items(s) + xs)), xs, [])
    decreases |xs|
  {
    if xs == [] {
      assert Items(s) + xs == Items(s);
    } else {
      var ops := Puts(xs);
      assert ops[0] == Put(xs[0]) && ops[1..] == Puts(xs[1..]);
      var s1 := s.(queue := Some(Items(s) + [xs[0]]));
      assert Apply(s, Put(xs[0])) == Trace(s1, [xs[0]], []);
      PutsAccepted(s1, xs[1..]);
      ConcatAssoc(Items(s), [xs[0]], xs[1..]);
      assert [xs[0]] + xs[1..] == xs;
      assert s1.(queue := Some(Items(s1) + xs[1..])) == s.(queue := Some(Items(s) + xs));
    }
  }

  /** `n` consume calls are `Drain(s, n)`, whatever the state. */
  lemma {:induction false} TakesDrain<T>(s: PipeState<T>, n: nat)
    requires Invariant(s)
    ensures Run(s, Takes<T>(n)) == Drain(s, n)
    decreases n
  {
    if n > 0 {
      var ops: seq<Op<T>> := Takes(n);
      assert ops[0] == Take;
      assert ops[1..] == Takes<T>(n - 1);
      var (s1, res) := ConsumeStep(s);
      TakesDrain(s1, n - 1);
    }
  }

  /**
   * FIFO: on a fresh pipe, producing x1..xn (with room for them) and then
   * consuming n times yields x1..xn in that order and leaves the queue empty.
   */
  lemma Fifo<T>(limit: int, xs: seq<T>)
    requires limit < 0 || |xs| <= limit
    ensures var r := Run(Init(limit), Puts(xs) + Takes<T>(|xs|));
      r.accepted == xs && r.delivered == xs && r.final.queue == Some([])
  {
    var s: PipeState<T> := Init(limit);
    RunAppend(s, Puts(xs), Takes<T>(|xs|));
    PutsAccepted(s, xs);
    assert Items(s) + xs == xs;
    var t := Run(s, Puts(xs));
    TakesDrain<T>(t.final, |xs|);
    var u := Drain(t.final, |xs|);
    assert u.delivered + Items(u.final) == xs;
    assert xs + [] == xs;
  }
}
