/** The dispatch queue of rate-limited.js. `rateLimited(func, rate)` returns a
    function that binds its arguments into a closure, pushes the closure onto a
    private queue and, unless the queue is already being emptied, starts
    `emptyQueue`. `emptyQueue` arms a timer while the queue is non-empty; when
    the timer fires, the front closure is shifted off and called, and
    `emptyQueue` runs again.

    A closure `func.bind(this, args...)` is represented by its captured
    arguments: the limiter is generic in their type `A`, and the caller applies
    `func` to what `Fire` returns. Time is abstract: a timer is either pending
    or not, and its firing is a `Fire` event. */
module RateLimited {

  /** The closure-held state: `queue`, `currentlyEmptyingQueue` (`draining`)
      and whether a `_delay` timer is armed and has not fired yet. */
  datatype LimiterState<A> = LimiterState(queue: seq<A>, draining: bool, timerPending: bool)

  /** Between events: a timer is pending exactly while the queue is being
      emptied, and that is exactly while the queue is non-empty. */
  predicate Inv<A>(s: LimiterState<A>)
  {
    s.timerPending == s.draining && (s.draining <==> |s.queue| > 0)
  }

  /** The state of a freshly created limiter. */
  function Idle<A>(): (r: LimiterState<A>)
    ensures Inv(r) && r.queue == []
  {
    LimiterState([], false, false)
  }

  /** `emptyQueue`: with work left, set the flag and arm one timer; otherwise
      clear the flag. Arming is only allowed when no timer is pending, so every
      call site below proves that a second timer is never armed. */
  function EmptyQueueStep<A>(s: LimiterState<A>): (r: LimiterState<A>)
    requires !s.timerPending
    ensures Inv(r) && r.queue == s.queue
    ensures r.timerPending <==> |s.queue| > 0
  {
    if |s.queue| > 0 then s.(draining := true, timerPending := true)
    else s.(draining := false)
  }

  /** The returned enqueue function: push the bound closure, then start
      `emptyQueue` unless it is already running. Nothing is called. */
  function SubmitStep<A>(s: LimiterState<A>, a: A): (r: LimiterState<A>)
    requires Inv(s)
    ensures Inv(r) && r.queue == s.queue + [a] && r.timerPending
    ensures s.draining ==> r.draining == s.draining && r.timerPending == s.timerPending
  {
    var pushed := s.(queue := s.queue + [a]);
    if !s.draining then EmptyQueueStep(pushed) else pushed
  }

  /** The timer callback: shift the front closure (returned, to be called) and
      run `emptyQueue` again. */
  function FireStep<A>(s: LimiterState<A>): (r: (A, LimiterState<A>))
    requires Inv(s) && s.timerPending
    ensures Inv(r.1) && [r.0] + r.1.queue == s.queue
    ensures r.1.draining <==> |s.queue| > 1
  {
    var fired := s.(timerPending := false);
    (fired.queue[0], EmptyQueueStep(fired.(queue := fired.queue[1..])))
  }

  /** Events a limiter sees: a call of the enqueue function, or a moment at
      which a timer that is armed would fire. */
  datatype Event<A> = Submit(arg: A) | Tick

  datatype Trace<A> = Trace(state: LimiterState<A>, dispatched: seq<A>)

  /** The arguments submitted by a sequence of events, in order. */
  function Submissions<A>(evs: seq<Event<A>>): (r: seq<A>)
    ensures |r| <= |evs|
  {
    if evs == [] then []
    else (if evs[0].Submit? then [evs[0].arg] else []) + Submissions(evs[1..])
  }

  function CountTicks<A>(evs: seq<Event<A>>): nat
  {
    if evs == [] then 0 else (if evs[0].Tick? then 1 else 0) + CountTicks(evs[1..])
  }

  /** Runs a limiter through a sequence of events; a tick with no timer armed
      does nothing. The contract is the FIFO property: everything queued or
      submitted comes out in that order, and what has not come out yet is
      still queued. */
  function Run<A>(s: LimiterState<A>, evs: seq<Event<A>>): (r: Trace<A>)
    requires Inv(s)
    ensures Inv(r.state)
    ensures s.queue + Submissions(evs) == r.dispatched + r.state.queue
    decreases |evs|
  {
    if evs == [] then Trace(s, [])
    else
      var rest := evs[1..];
      assert Submissions(evs) == (if evs[0].Submit? then [evs[0].arg] else []) + Submissions(rest);
      if evs[0].Submit? then
        var t := Run(SubmitStep(s, evs[0].arg), rest);
        assert s.queue + Submissions(evs) == (s.queue + [evs[0].arg]) + Submissions(rest);
        t
      else if s.timerPending then
        var (op, s') := FireStep(s);
        var t := Run(s', rest);
        assert s.queue + Submissions(evs) == [op] + (s'.queue + Submissions(rest));
        Trace(t.state, [op] + t.dispatched)
      else Run(s, rest)
  }

  /** Each tick dispatches at most one closure. */
  lemma {:induction false} OnePerTick<A>(s: LimiterState<A>, evs: seq<Event<A>>)
    requires Inv(s)
    ensures |Run(s, evs).dispatched| <= CountTicks(evs)
    decreases |evs|
  {
    if evs != [] {
      if evs[0].Submit? {
        OnePerTick(SubmitStep(s, evs[0].arg), evs[1..]);
      } else if s.timerPending {
        OnePerTick(FireStep(s).1, evs[1..]);
      } else {
        OnePerTick(s, evs[1..]);
      }
    }
  }

  function Ticks<A>(n: nat): (r: seq<Event<A>>)
    ensures |r| == n && forall i :: 0 <= i < n ==> r[i] == Tick
  {
    if n == 0 then [] else [Tick] + Ticks(n - 1)
  }

  /** Left alone, a limiter with k closures queued dispatches all of them, in
      order, one per tick, with exactly k ticks, and is idle right after the
      last one: the flag is cleared and no timer stays armed. */
  lemma {:induction false} DrainsInOrder<A>(s: LimiterState<A>)
    requires Inv(s)
    ensures Run(s, Ticks(|s.queue|)) == Trace(Idle(), s.queue)
    decreases |s.queue|
  {
    if |s.queue| > 0 {
      var (op, s') := FireStep(s);
      assert Ticks<A>(|s.queue|)[1..] == Ticks(|s'.queue|);
      DrainsInOrder(s');
    }
  }

  /** The k-th closure dispatched is the k-th one queued or submitted. */
  lemma DispatchOrder<A>(s: LimiterState<A>, evs: seq<Event<A>>, k: nat)
    requires Inv(s)
    requires k < |Run(s, evs).dispatched|
    ensures Run(s, evs).dispatched[k] == (s.queue + Submissions(evs))[k]
  {
    var r := Run(s, evs);
    assert (r.dispatched + r.state.queue)[k] == r.dispatched[k];
  }

  /** Submitting never calls anything at once: even on an idle limiter the
      first closure is dispatched by the tick after it, not before. */
  lemma {:induction false} FirstSubmissionWaits<A>(a: A)
    ensures Run(Idle(), [Submit(a)]) == Trace(LimiterState([a], true, true), [])
    ensures Run(Idle(), [Submit(a), Tick]) == Trace(Idle(), [a])
  {
    assert [Submit(a)][1..] == [];
    assert [Submit(a), Tick][1..] == [Tick];
    var tick: seq<Event<A>> := [Tick];
    assert tick[1..] == [];
  }

  /** The mutable limiter object: one per `rateLimited(func, rate)` call, so
      every limiter owns its own queue and flag. */
  class RateLimiter<A> {
    /** The `_delay` interval in milliseconds; time is abstract here. */
    const rate: nat
    var queue: seq<A>
    var draining: bool
    var timerPending: bool

    function State(): LimiterState<A>
      reads this
    {
      LimiterState(queue, draining, timerPending)
    }

    ghost predicate Valid()
      reads this
    {
      Inv(State())
    }

    constructor (rate: nat)
      ensures Valid() && State() == Idle() && this.rate == rate
    {
      this.rate := rate;
      queue := [];
      draining := false;
      timerPending := false;
    }

    /** `emptyQueue`. */
    method EmptyQueue()
      requires !timerPending
      modifies this
      ensures State() == EmptyQueueStep(old(State()))
    {
      if |queue| > 0 {
        draining := true;
        timerPending := true;
      } else {
        draining := false;
      }
    }

    /** The enqueue function returned by `rateLimited`. */
    method Submit(a: A)
      requires Valid()
      modifies this
      ensures Valid() && State() == SubmitStep(old(State()), a)
    {
      queue := queue + [a];
      if !draining {
        EmptyQueue();
      }
    }

    /** The `_delay` callback: the armed timer fires, the front closure is
      shifted off and returned for the caller to run, and `emptyQueue`
      re-arms the timer or clears the flag. */
    method Fire() returns (op: A)
      requires Valid() && timerPending
      modifies this
      ensures Valid() && (op, State()) == FireStep(old(State()))
    {
      timerPending := false;
      op := queue[0];
      queue := queue[1..];
      EmptyQueue();
    }
  }

  /** Two limiters do not share pacing: submitting to one leaves the other's
      queue, flag and timer as they were. */
  method SubmitToOne<A>(one: RateLimiter<A>, other: RateLimiter<A>, a: A)
    requires one != other && one.Valid() && other.Valid()
    modifies one
    ensures one.State() == SubmitStep(old(one.State()), a)
    ensures other.State() == old(other.State())
  {
    one.Submit(a);
  }
}
