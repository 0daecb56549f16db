/**
 * The frame loop of the SDL window, `SdlWindow::start_loop`, as a generator
 * of the trace of steps it takes. The callbacks are closures over the
 * caller's state, so the model takes their answers as functions of where
 * they are asked: the iteration, and for the event handler the event's
 * position in that iteration's queue. The events SDL has queued when
 * iteration `k` polls are `queue(k)`. The loop runs until a callback asks
 * it to stop, so the model runs at most `fuel` iterations.
 */
module Window {
  import opened Ints
  import opened Wrappers

  datatype Keycode = Escape | OtherKey(code: nat)

  datatype WindowEvent = Resized(width: i32, height: i32) | Close | OtherWindowEvent(code: nat)

  /** The SDL events the loop tells apart; every other kind is `OtherEvent`. */
  datatype Event =
    | Window(winEvent: WindowEvent)
    | KeyDown(keycode: Option<Keycode>)
    | OtherEvent(code: nat)

  datatype WindowError = InitEventPumpFailed(message: string)

  /** One step of the loop: a callback invoked, the buffer swap, or the viewport update on a resize. */
  datatype Step =
    | PreRender(iteration: nat)
    | SwapWindow(iteration: nat)
    | PostRender(iteration: nat)
    | Viewport(x: i32, y: i32, width: i32, height: i32)
    | HandleEvent(iteration: nat, index: nat, event: Event)

  /** The answers of `pre_render`, `post_render` and `event_handler`: true asks the loop to stop. */
  datatype Callbacks = Callbacks(
    preRender: nat -> bool,
    postRender: nat -> bool,
    handleEvent: (nat, nat, Event) -> bool)

  /** What `start_loop` has done so far: it returned (with this result), or it is still running. */
  datatype Outcome = Returned(result: Result<(), WindowError>) | StillRunning

  /** A trace and whether it ended on a stop request. */
  datatype Progress = Progress(trace: seq<Step>, stopped: bool)

  datatype LoopResult = LoopResult(trace: seq<Step>, outcome: Outcome)

  function IsResize(e: Event): bool {
    e.Window? && e.winEvent.Resized?
  }

  /** The viewport call a resize triggers: the whole new window. */
  function ResizeViewport(e: Event): Step
    requires IsResize(e)
  {
    Viewport(0, 0, e.winEvent.width, e.winEvent.height)
  }

  /** Delivering event `e`, the `j`-th of iteration `k`: the viewport update if it is a resize, then the handler. */
  function EventSteps(k: nat, j: nat, e: Event): seq<Step> {
    (if IsResize(e) then [ResizeViewport(e)] else []) + [HandleEvent(k, j, e)]
  }

  /** The inner `for` over the polled events of iteration `k`, up to the first handler that asks to stop. */
  function Deliver(cb: Callbacks, k: nat, events: seq<Event>): Progress
    decreases |events|
  {
    if |events| == 0 then Progress([], false)
    else
      var p := Deliver(cb, k, events[..|events| - 1]);
      if p.stopped then p
      else
        var j := |events| - 1;
        Progress(p.trace + EventSteps(k, j, events[j]), cb.handleEvent(k, j, events[j]))
  }

  /** One pass of the `'running` loop: pre-render, swap, post-render, then the events. */
  function Iteration(cb: Callbacks, k: nat, events: seq<Event>): Progress {
    if cb.preRender(k) then Progress([PreRender(k)], true)
    else if cb.postRender(k) then Progress([PreRender(k), SwapWindow(k), PostRender(k)], true)
    else
      var d := Deliver(cb, k, events);
      Progress([PreRender(k), SwapWindow(k), PostRender(k)] + d.trace, d.stopped)
  }

  /** The first `n` iterations, or fewer if one of them stops the loop. */
  function Run(cb: Callbacks, queue: nat -> seq<Event>, n: nat): Progress {
    if n == 0 then Progress([], false)
    else
      var p := Run(cb, queue, n - 1);
      if p.stopped then p
      else
        var it := Iteration(cb, n - 1, queue(n - 1));
        Progress(p.trace + it.trace, it.stopped)
  }

  /**
   * `start_loop` given whether creating the event pump fails (and with what
   * message): a failure returns the error before any callback runs; otherwise
   * the loop runs, and every stop returns `Ok(())`.
   */
  function Loop(pumpError: Option<string>, cb: Callbacks, queue: nat -> seq<Event>, fuel: nat): LoopResult {
    if pumpError.Some? then LoopResult([], Returned(Err(InitEventPumpFailed(pumpError.value))))
    else
      var p := Run(cb, queue, fuel);
      LoopResult(p.trace, if p.stopped then Returned(Ok(())) else StillRunning)
  }

  /** Once the loop has stopped, further iterations add nothing. */
  lemma {:induction false} RunStaysStopped(cb: Callbacks, queue: nat -> seq<Event>, n: nat, m: nat)
    requires n <= m && Run(cb, queue, n).stopped
    ensures Run(cb, queue, m) == Run(cb, queue, n)
    decreases m
  {
    if n < m {
      RunStaysStopped(cb, queue, n, m - 1);
    }
  }

  /**
   * `SdlWindow::start_loop`: the labelled loop runs pre-render, swap and
   * post-render, then delivers the polled events; any callback answering
   * true breaks out of the whole loop.
   */
  method StartLoop(pumpError: Option<string>, cb: Callbacks, queue: nat -> seq<Event>, fuel: nat)
    returns (trace: seq<Step>, outcome: Outcome)
    ensures LoopResult(trace, outcome) == Loop(pumpError, cb, queue, fuel)
  {
    trace := [];
    if pumpError.Some? {
      return [], Returned(Err(InitEventPumpFailed(pumpError.value)));
    }
    var k := 0;
    while k < fuel
      invariant k <= fuel
      invariant Run(cb, queue, k) == Progress(trace, false)
    {
      var steps, stop := RunIteration(cb, k, queue(k));
      trace := trace + steps;
      if stop {
        RunStaysStopped(cb, queue, k + 1, fuel);
        return trace, Returned(Ok(()));
      }
      k := k + 1;
    }
    return trace, StillRunning;
  }

  /** One pass of the `'running` loop body; `stopped` says whether it breaks out. */
  method RunIteration(cb: Callbacks, k: nat, events: seq<Event>) returns (steps: seq<Step>, stopped: bool)
    ensures Progress(steps, stopped) == Iteration(cb, k, events)
  {
    steps := [PreRender(k)];
    if cb.preRender(k) {
      return steps, true;
    }
    steps := steps + [SwapWindow(k)];
    steps := steps + [PostRender(k)];
    if cb.postRender(k) {
      return steps, true;
    }
    var delivered;
    delivered, stopped := PollEvents(cb, k, events);
    steps := steps + delivered;
  }

  /**
   * The inner `for` over `event_pump.poll_iter()`: a resize first updates the
   * viewport to the new size, then the handler sees the event; a handler
   * answering true ends the delivery (and the loop).
   */
  method PollEvents(cb: Callbacks, k: nat, events: seq<Event>) returns (steps: seq<Step>, stopped: bool)
    ensures Progress(steps, stopped) == Deliver(cb, k, events)
  {
    steps := [];
    var j := 0;
    while j < |events|
      invariant j <= |events|
      invariant Deliver(cb, k, events[..j]) == Progress(steps, false)
    {
      var e := events[j];
      assert events[..j + 1][..j] == events[..j];
      ghost var before := steps;
      if e.Window? && e.winEvent.Resized? {
        steps := steps + [Viewport(0, 0, e.winEvent.width, e.winEvent.height)];
      }
      steps := steps + [HandleEvent(k, j, e)];
      assert steps == before + EventSteps(k, j, e);
      if cb.handleEvent(k, j, e) {
        assert Deliver(cb, k, events[..j + 1]) == Progress(steps, true);
        if j + 1 < |events| {
          DeliverStaysStopped(cb, k, events, j + 1);
        } else {
          assert events[..j + 1] == events;
        }
        return steps, true;
      }
      j := j + 1;
    }
    assert events[..j] == events;
    return steps, false;
  }

  /** Once a handler has stopped the delivery, later events add nothing. */
  lemma {:induction false} DeliverStaysStopped(cb: Callbacks, k: nat, events: seq<Event>, j: nat)
    requires j <= |events| && Deliver(cb, k, events[..j]).stopped
    ensures Deliver(cb, k, events) == Deliver(cb, k, events[..j])
    decreases |events| - j
  {
    if j < |events| {
      assert events[..j + 1][..j] == events[..j];
      DeliverStaysStopped(cb, k, events, j + 1);
      if j + 1 == |events| {
        assert events[..j + 1] == events;
      }
    } else {
      assert events[..j] == events;
    }
  }

  // Properties of the trace

  /** A step at which a callback asked the loop to stop. */
  predicate IsStop(cb: Callbacks, s: Step) {
    match s
    case PreRender(k) => cb.preRender(k)
    case PostRender(k) => cb.postRender(k)
    case HandleEvent(k, j, e) => cb.handleEvent(k, j, e)
    case _ => false
  }

  /** No step but the last asked to stop, and the last did exactly when the progress is stopped. */
  predicate StopsOnlyAtEnd(cb: Callbacks, p: Progress) {
    (forall i :: 0 <= i < |p.trace| - 1 ==> !IsStop(cb, p.trace[i]))
    && (p.stopped <==> |p.trace| > 0 && IsStop(cb, p.trace[|p.trace| - 1]))
  }

  lemma StopConcat(cb: Callbacks, a: Progress, b: Progress)
    requires StopsOnlyAtEnd(cb, a) && !a.stopped && StopsOnlyAtEnd(cb, b)
    ensures StopsOnlyAtEnd(cb, Progress(a.trace + b.trace, b.stopped))
  {
    var t := a.trace + b.trace;
    forall i | 0 <= i < |t| - 1
      ensures !IsStop(cb, t[i])
    {
      if i >= |a.trace| {
        assert t[i] == b.trace[i - |a.trace|];
      }
    }
    if |b.trace| == 0 {
      assert t == a.trace;
    } else {
      assert t[|t| - 1] == b.trace[|b.trace| - 1];
    }
  }

  lemma {:induction false} DeliverStopsAtEnd(cb: Callbacks, k: nat, events: seq<Event>)
    ensures StopsOnlyAtEnd(cb, Deliver(cb, k, events))
    decreases |events|
  {
    if |events| > 0 {
      var j := |events| - 1;
      var p := Deliver(cb, k, events[..j]);
      DeliverStopsAtEnd(cb, k, events[..j]);
      if !p.stopped {
        var e := Progress(EventSteps(k, j, events[j]), cb.handleEvent(k, j, events[j]));
        assert StopsOnlyAtEnd(cb, e);
        StopConcat(cb, p, e);
      }
    }
  }

  lemma {:induction false} IterationStopsAtEnd(cb: Callbacks, k: nat, events: seq<Event>)
    ensures StopsOnlyAtEnd(cb, Iteration(cb, k, events))
  {
    if !cb.preRender(k) && !cb.postRender(k) {
      var front := Progress([PreRender(k), SwapWindow(k), PostRender(k)], false);
      assert StopsOnlyAtEnd(cb, front);
      DeliverStopsAtEnd(cb, k, events);
      StopConcat(cb, front, Deliver(cb, k, events));
    }
  }

  lemma {:induction false} RunStopsAtEnd(cb: Callbacks, queue: nat -> seq<Event>, n: nat)
    ensures StopsOnlyAtEnd(cb, Run(cb, queue, n))
  {
    if n > 0 {
      RunStopsAtEnd(cb, queue, n - 1);
      if !Run(cb, queue, n - 1).stopped {
        IterationStopsAtEnd(cb, n - 1, queue(n - 1));
        StopConcat(cb, Run(cb, queue, n - 1), Iteration(cb, n - 1, queue(n - 1)));
      }
    }
  }

  /**
   * `start_loop` returns an error exactly when the event pump fails, and then
   * has run nothing. Every other return is `Ok(())` and comes right after the
   * first callback that asked to stop: that request is the last step. While
   * the loop is still running no callback has asked to stop.
   */
  lemma {:induction false} LoopStopsImmediately(pumpError: Option<string>, cb: Callbacks, queue: nat -> seq<Event>, fuel: nat)
    ensures var r := Loop(pumpError, cb, queue, fuel);
      (r.outcome.Returned? && r.outcome.result.Err?) <==> pumpError.Some?
    ensures pumpError.Some? ==> Loop(pumpError, cb, queue, fuel).trace == []
    ensures var r := Loop(pumpError, cb, queue, fuel);
      r.outcome == Returned(Ok(())) ==>
        |r.trace| > 0 && IsStop(cb, r.trace[|r.trace| - 1]) && forall i :: 0 <= i < |r.trace| - 1 ==> !IsStop(cb, r.trace[i])
    ensures var r := Loop(pumpError, cb, queue, fuel);
      r.outcome == StillRunning ==> forall i :: 0 <= i < |r.trace| ==> !IsStop(cb, r.trace[i])
  {
    if pumpError.None? {
      RunStopsAtEnd(cb, queue, fuel);
    }
  }

  /** Pre-render, swap and post-render of an iteration are consecutive: a passed pre-render is followed by the swap, which is followed by post-render. */
  predicate RenderStepsAdjacent(cb: Callbacks, t: seq<Step>) {
    (forall i :: 0 <= i < |t| && t[i].PreRender? && !cb.preRender(t[i].iteration) ==>
      i + 1 < |t| && t[i + 1] == SwapWindow(t[i].iteration))
    && (forall i :: 0 <= i < |t| && t[i].SwapWindow? ==>
      0 < i && t[i - 1] == PreRender(t[i].iteration) && i + 1 < |t| && t[i + 1] == PostRender(t[i].iteration))
    && (forall i :: 0 <= i < |t| && t[i].PostRender? ==>
      0 < i && t[i - 1] == SwapWindow(t[i].iteration))
  }

  /** A handled resize is immediately preceded by the viewport update to its size, and a viewport update occurs nowhere else. */
  predicate ViewportsBeforeResizes(t: seq<Step>) {
    (forall i :: 0 <= i < |t| && t[i].Viewport? ==>
      i + 1 < |t| && t[i + 1].HandleEvent? && IsResize(t[i + 1].event) && t[i] == ResizeViewport(t[i + 1].event))
    && (forall i :: 0 <= i < |t| && t[i].HandleEvent? && IsResize(t[i].event) ==>
      0 < i && t[i - 1] == ResizeViewport(t[i].event))
  }

  /** A step that may start a piece of trace: not one that needs a predecessor. */
  predicate Opens(s: Step) {
    !s.SwapWindow? && !s.PostRender? && !(s.HandleEvent? && IsResize(s.event))
  }

  /** A step that may end a piece of trace: not one that needs a successor. */
  predicate Closes(cb: Callbacks, s: Step) {
    !(s.PreRender? && !cb.preRender(s.iteration)) && !s.SwapWindow? && !s.Viewport?
  }

  /** What two neighbouring steps `x`, `y` demand of each other. */
  predicate PairOk(cb: Callbacks, x: Step, y: Step) {
    (x.PreRender? && !cb.preRender(x.iteration) ==> y == SwapWindow(x.iteration))
    && (y.SwapWindow? ==> x == PreRender(y.iteration))
    && (x.SwapWindow? ==> y == PostRender(x.iteration))
    && (y.PostRender? ==> x == SwapWindow(y.iteration))
    && (x.Viewport? ==> y.HandleEvent? && IsResize(y.event) && x == ResizeViewport(y.event))
    && (y.HandleEvent? && IsResize(y.event) ==> x == ResizeViewport(y.event))
  }

  /** A stretch of trace whose neighbours all fit and that starts and ends where a stretch may. */
  predicate Piece(cb: Callbacks, t: seq<Step>) {
    (|t| > 0 ==> Opens(t[0]) && Closes(cb, t[|t| - 1]))
    && forall i :: 0 <= i < |t| - 1 ==> PairOk(cb, t[i], t[i + 1])
  }

  /** Pieces joined are a piece: where they meet, the end of one and the start of the other fit. */
  lemma PieceConcat(cb: Callbacks, a: seq<Step>, b: seq<Step>)
    requires Piece(cb, a) && Piece(cb, b)
    ensures Piece(cb, a + b)
  {
    var t := a + b;
    if |a| > 0 && |b| > 0 {
      forall i | 0 <= i < |t| - 1
        ensures PairOk(cb, t[i], t[i + 1])
      {
        if i < |a| - 1 {
          assert t[i] == a[i] && t[i + 1] == a[i + 1];
        } else if i == |a| - 1 {
          assert t[i] == a[|a| - 1] && t[i + 1] == b[0];
        } else {
          assert t[i] == b[i - |a|] && t[i + 1] == b[i + 1 - |a|];
        }
      }
      assert t[0] == a[0] && t[|t| - 1] == b[|b| - 1];
    } else if |a| == 0 {
      assert t == b;
    } else {
      assert t == a;
    }
  }

  /** A piece has both adjacency properties. */
  lemma PieceAdjacent(cb: Callbacks, t: seq<Step>)
    requires Piece(cb, t)
    ensures RenderStepsAdjacent(cb, t)
    ensures ViewportsBeforeResizes(t)
  {
    forall i | 0 <= i < |t| && t[i].PreRender? && !cb.preRender(t[i].iteration)
      ensures i + 1 < |t| && t[i + 1] == SwapWindow(t[i].iteration)
    {
      assert i < |t| - 1 && PairOk(cb, t[i], t[i + 1]);
    }
    forall i | 0 <= i < |t| && t[i].SwapWindow?
      ensures 0 < i && t[i - 1] == PreRender(t[i].iteration) && i + 1 < |t| && t[i + 1] == PostRender(t[i].iteration)
    {
      assert 0 < i && PairOk(cb, t[i - 1], t[i]);
      assert i < |t| - 1 && PairOk(cb, t[i], t[i + 1]);
    }
    forall i | 0 <= i < |t| && t[i].PostRender?
      ensures 0 < i && t[i - 1] == SwapWindow(t[i].iteration)
    {
      assert 0 < i && PairOk(cb, t[i - 1], t[i]);
    }
    forall i | 0 <= i < |t| && t[i].Viewport?
      ensures i + 1 < |t| && t[i + 1].HandleEvent? && IsResize(t[i + 1].event) && t[i] == ResizeViewport(t[i + 1].event)
    {
      assert i < |t| - 1 && PairOk(cb, t[i], t[i + 1]);
    }
    forall i | 0 <= i < |t| && t[i].HandleEvent? && IsResize(t[i].event)
      ensures 0 < i && t[i - 1] == ResizeViewport(t[i].event)
    {
      assert 0 < i && PairOk(cb, t[i - 1], t[i]);
    }
  }

  lemma EventStepsPiece(cb: Callbacks, k: nat, j: nat, e: Event)
    ensures Piece(cb, EventSteps(k, j, e))
  {
  }

  lemma {:induction false} DeliverPiece(cb: Callbacks, k: nat, events: seq<Event>)
    ensures Piece(cb, Deliver(cb, k, events).trace)
    decreases |events|
  {
    if |events| > 0 {
      var j := |events| - 1;
      DeliverPiece(cb, k, events[..j]);
      if !Deliver(cb, k, events[..j]).stopped {
        EventStepsPiece(cb, k, j, events[j]);
        PieceConcat(cb, Deliver(cb, k, events[..j]).trace, EventSteps(k, j, events[j]));
      }
    }
  }

  lemma {:induction false} IterationPiece(cb: Callbacks, k: nat, events: seq<Event>)
    ensures Piece(cb, Iteration(cb, k, events).trace)
  {
    if !cb.preRender(k) {
      var front := [PreRender(k), SwapWindow(k), PostRender(k)];
      assert Piece(cb, front);
      if !cb.postRender(k) {
        DeliverPiece(cb, k, events);
        PieceConcat(cb, front, Deliver(cb, k, events).trace);
      }
    }
  }

  lemma {:induction false} RunPiece(cb: Callbacks, queue: nat -> seq<Event>, n: nat)
    ensures Piece(cb, Run(cb, queue, n).trace)
  {
    if n > 0 {
      var p := Run(cb, queue, n - 1);
      RunPiece(cb, queue, n - 1);
      if !p.stopped {
        var it := Iteration(cb, n - 1, queue(n - 1));
        IterationPiece(cb, n - 1, queue(n - 1));
        PieceConcat(cb, p.trace, it.trace);
        assert Run(cb, queue, n).trace == p.trace + it.trace;
      }
    }
  }

  /**
   * In the trace of `start_loop`, every pre-render that lets the frame go on
   * is followed at once by the swap and the swap by post-render, and the
   * viewport is updated to a resize's size right before the handler sees
   * that resize, and at no other time.
   */
  lemma {:induction false} LoopStepsAdjacent(pumpError: Option<string>, cb: Callbacks, queue: nat -> seq<Event>, fuel: nat)
    ensures RenderStepsAdjacent(cb, Loop(pumpError, cb, queue, fuel).trace)
    ensures ViewportsBeforeResizes(Loop(pumpError, cb, queue, fuel).trace)
  {
    RunPiece(cb, queue, fuel);
    PieceAdjacent(cb, Loop(pumpError, cb, queue, fuel).trace);
  }

  /** Each step but a viewport update belongs to an iteration and has a rank in it: pre-render, swap, post-render, then the events in queue order. */
  function Rank(s: Step): nat
    requires !s.Viewport?
  {
    match s
    case PreRender(_) => 0
    case SwapWindow(_) => 1
    case PostRender(_) => 2
    case HandleEvent(_, j, _) => 3 + j
  }

  predicate Earlier(x: Step, y: Step)
    requires !x.Viewport? && !y.Viewport?
  {
    x.iteration < y.iteration || (x.iteration == y.iteration && Rank(x) < Rank(y))
  }

  /** The steps other than viewport updates come in strictly increasing (iteration, rank) order. */
  predicate Ordered(t: seq<Step>) {
    forall i, j :: 0 <= i < j < |t| && !t[i].Viewport? && !t[j].Viewport? ==> Earlier(t[i], t[j])
  }

  /** Every ranked step belongs to iteration `k` with rank in `[lo, hi)`. */
  predicate InIteration(t: seq<Step>, k: nat, lo: nat, hi: nat) {
    forall i :: 0 <= i < |t| && !t[i].Viewport? ==> t[i].iteration == k && lo <= Rank(t[i]) < hi
  }

  /** Every ranked step belongs to an iteration before `n`. */
  predicate BeforeIteration(t: seq<Step>, n: nat) {
    forall i :: 0 <= i < |t| && !t[i].Viewport? ==> t[i].iteration < n
  }

  /** Two ordered stretches where every step of the first precedes every step of the second join into an ordered one. */
  lemma OrderedConcat(a: seq<Step>, b: seq<Step>)
    requires Ordered(a) && Ordered(b)
    requires forall i, j :: 0 <= i < |a| && 0 <= j < |b| && !a[i].Viewport? && !b[j].Viewport? ==> Earlier(a[i], b[j])
    ensures Ordered(a + b)
  {
    var t := a + b;
    forall i, j | 0 <= i < j < |t| && !t[i].Viewport? && !t[j].Viewport?
      ensures Earlier(t[i], t[j])
    {
      if j < |a| {
        assert t[i] == a[i] && t[j] == a[j];
      } else if i < |a| {
        assert t[i] == a[i] && t[j] == b[j - |a|];
      } else {
        assert t[i] == b[i - |a|] && t[j] == b[j - |a|];
      }
    }
  }

  lemma InIterationConcat(a: seq<Step>, b: seq<Step>, k: nat, lo: nat, mid: nat, hi: nat)
    requires Ordered(a) && Ordered(b) && InIteration(a, k, lo, mid) && InIteration(b, k, mid, hi) && lo <= mid <= hi
    ensures Ordered(a + b) && InIteration(a + b, k, lo, hi)
  {
    OrderedConcat(a, b);
    var t := a + b;
    forall i | 0 <= i < |t| && !t[i].Viewport?
      ensures t[i].iteration == k && lo <= Rank(t[i]) < hi
    {
      if i >= |a| {
        assert t[i] == b[i - |a|];
      }
    }
  }

  lemma BeforeIterationConcat(a: seq<Step>, b: seq<Step>, k: nat, hi: nat)
    requires Ordered(a) && Ordered(b) && BeforeIteration(a, k) && InIteration(b, k, 0, hi)
    ensures Ordered(a + b) && BeforeIteration(a + b, k + 1)
  {
    OrderedConcat(a, b);
    var t := a + b;
    forall i | 0 <= i < |t| && !t[i].Viewport?
      ensures t[i].iteration < k + 1
    {
      if i >= |a| {
        assert t[i] == b[i - |a|];
      }
    }
  }

  lemma {:induction false} DeliverOrdered(cb: Callbacks, k: nat, events: seq<Event>)
    ensures Ordered(Deliver(cb, k, events).trace)
    ensures InIteration(Deliver(cb, k, events).trace, k, 3, 3 + |events|)
    decreases |events|
  {
    if |events| > 0 {
      var j := |events| - 1;
      var p := Deliver(cb, k, events[..j]);
      DeliverOrdered(cb, k, events[..j]);
      if !p.stopped {
        var e := EventSteps(k, j, events[j]);
        assert Ordered(e) && InIteration(e, k, 3 + j, 3 + |events|);
        InIterationConcat(p.trace, e, k, 3, 3 + j, 3 + |events|);
      } else {
        assert InIteration(p.trace, k, 3, 3 + |events|);
      }
    }
  }

  lemma {:induction false} IterationOrdered(cb: Callbacks, k: nat, events: seq<Event>)
    ensures Ordered(Iteration(cb, k, events).trace)
    ensures InIteration(Iteration(cb, k, events).trace, k, 0, 3 + |events|)
  {
    var front := [PreRender(k), SwapWindow(k), PostRender(k)];
    assert Ordered(front) && InIteration(front, k, 0, 3);
    if !cb.preRender(k) && !cb.postRender(k) {
      DeliverOrdered(cb, k, events);
      InIterationConcat(front, Deliver(cb, k, events).trace, k, 0, 3, 3 + |events|);
    }
  }

  lemma {:induction false} RunOrdered(cb: Callbacks, queue: nat -> seq<Event>, n: nat)
    ensures Ordered(Run(cb, queue, n).trace) && BeforeIteration(Run(cb, queue, n).trace, n)
  {
    if n > 0 {
      RunOrdered(cb, queue, n - 1);
      var p := Run(cb, queue, n - 1);
      if !p.stopped {
        IterationOrdered(cb, n - 1, queue(n - 1));
        BeforeIterationConcat(p.trace, Iteration(cb, n - 1, queue(n - 1)).trace, n - 1, 3 + |queue(n - 1)|);
      } else {
        assert BeforeIteration(p.trace, n);
      }
    }
  }

  /**
   * The trace of `start_loop` keeps a strict order: iteration after
   * iteration, and inside each the pre-render, the swap, the post-render,
   * then the events in the order they were polled.
   */
  lemma {:induction false} LoopStepsInOrder(pumpError: Option<string>, cb: Callbacks, queue: nat -> seq<Event>, fuel: nat)
    ensures Ordered(Loop(pumpError, cb, queue, fuel).trace)
  {
    RunOrdered(cb, queue, fuel);
  }

  /** Every event the handler sees is the one queued for that iteration at that position. */
  predicate HandledAsQueued(queue: nat -> seq<Event>, t: seq<Step>) {
    forall i :: 0 <= i < |t| && t[i].HandleEvent? ==>
      t[i].index < |queue(t[i].iteration)| && queue(t[i].iteration)[t[i].index] == t[i].event
  }

  /** Every event the handler sees in `t` is from iteration `k`, at its position in `events`. */
  predicate HandledFrom(t: seq<Step>, k: nat, events: seq<Event>) {
    forall i :: 0 <= i < |t| && t[i].HandleEvent? ==>
      t[i].iteration == k && t[i].index < |events| && events[t[i].index] == t[i].event
  }

  /** Unless the handler stops, it sees every event of `events`, each at its position. */
  predicate DeliveredAll(t: seq<Step>, k: nat, events: seq<Event>) {
    forall j :: 0 <= j < |events| ==> HandleEvent(k, j, events[j]) in t
  }

  lemma {:induction false} DeliverFaithful(cb: Callbacks, k: nat, events: seq<Event>)
    ensures HandledFrom(Deliver(cb, k, events).trace, k, events)
    ensures !Deliver(cb, k, events).stopped ==> DeliveredAll(Deliver(cb, k, events).trace, k, events)
    decreases |events|
  {
    if |events| > 0 {
      var j := |events| - 1;
      var prefix := events[..j];
      var p := Deliver(cb, k, prefix);
      DeliverFaithful(cb, k, prefix);
      var t := Deliver(cb, k, events).trace;
      forall i | 0 <= i < |t| && t[i].HandleEvent?
        ensures t[i].iteration == k && t[i].index < |events| && events[t[i].index] == t[i].event
      {
        if i < |p.trace| {
          assert t[i] == p.trace[i];
          assert prefix[t[i].index] == events[t[i].index];
        }
      }
      if !p.stopped {
        forall x | 0 <= x < |events|
          ensures HandleEvent(k, x, events[x]) in t
        {
          if x < j {
            assert prefix[x] == events[x];
            assert HandleEvent(k, x, events[x]) in p.trace;
          } else {
            assert t[|t| - 1] == HandleEvent(k, j, events[j]);
          }
        }
      }
    }
  }

  lemma {:induction false} IterationFaithful(cb: Callbacks, k: nat, events: seq<Event>)
    ensures HandledFrom(Iteration(cb, k, events).trace, k, events)
    ensures !Iteration(cb, k, events).stopped ==> DeliveredAll(Iteration(cb, k, events).trace, k, events)
  {
    if !cb.preRender(k) && !cb.postRender(k) {
      var front := [PreRender(k), SwapWindow(k), PostRender(k)];
      var d := Deliver(cb, k, events).trace;
      DeliverFaithful(cb, k, events);
      var t := front + d;
      forall i | 0 <= i < |t| && t[i].HandleEvent?
        ensures t[i].iteration == k && t[i].index < |events| && events[t[i].index] == t[i].event
      {
        assert t[i] == d[i - 3];
      }
      assert forall x :: x in d ==> x in t;
    }
  }

  lemma {:induction false} RunHandledAsQueued(cb: Callbacks, queue: nat -> seq<Event>, n: nat)
    ensures HandledAsQueued(queue, Run(cb, queue, n).trace)
  {
    if n > 0 {
      var p := Run(cb, queue, n - 1);
      RunHandledAsQueued(cb, queue, n - 1);
      if !p.stopped {
        var it := Iteration(cb, n - 1, queue(n - 1));
        IterationFaithful(cb, n - 1, queue(n - 1));
        var t := p.trace + it.trace;
        forall i | 0 <= i < |t| && t[i].HandleEvent?
          ensures t[i].index < |queue(t[i].iteration)| && queue(t[i].iteration)[t[i].index] == t[i].event
        {
          if i >= |p.trace| {
            assert t[i] == it.trace[i - |p.trace|];
          }
        }
        assert Run(cb, queue, n).trace == t;
      }
    }
  }

  lemma DeliveredAllConcat(a: seq<Step>, b: seq<Step>, k: nat, events: seq<Event>)
    requires DeliveredAll(a, k, events) || DeliveredAll(b, k, events)
    ensures DeliveredAll(a + b, k, events)
  {
    assert forall x :: x in a ==> x in a + b;
    assert forall x :: x in b ==> x in a + b;
  }

  lemma {:induction false} RunLosesNothing(cb: Callbacks, queue: nat -> seq<Event>, n: nat)
    ensures !Run(cb, queue, n).stopped ==>
      forall k :: 0 <= k < n ==> DeliveredAll(Run(cb, queue, n).trace, k, queue(k))
  {
    if n > 0 {
      var p := Run(cb, queue, n - 1);
      RunLosesNothing(cb, queue, n - 1);
      if !p.stopped {
        var it := Iteration(cb, n - 1, queue(n - 1));
        IterationFaithful(cb, n - 1, queue(n - 1));
        assert Run(cb, queue, n).trace == p.trace + it.trace;
        if !it.stopped {
          forall k | 0 <= k < n
            ensures DeliveredAll(p.trace + it.trace, k, queue(k))
          {
            DeliveredAllConcat(p.trace, it.trace, k, queue(k));
          }
        }
      }
    }
  }

  /**
   * The handler sees exactly the polled events: each event it is given is
   * the one queued for that iteration at that position, and when the loop
   * runs out of fuel without being stopped, every event queued for an
   * iteration that ran was delivered.
   */
  lemma {:induction false} LoopDeliversQueue(pumpError: Option<string>, cb: Callbacks, queue: nat -> seq<Event>, fuel: nat)
    ensures HandledAsQueued(queue, Loop(pumpError, cb, queue, fuel).trace)
    ensures Loop(pumpError, cb, queue, fuel).outcome.StillRunning? ==>
      forall k, j :: 0 <= k < fuel && 0 <= j < |queue(k)| ==> HandleEvent(k, j, queue(k)[j]) in Loop(pumpError, cb, queue, fuel).trace
  {
    RunHandledAsQueued(cb, queue, fuel);
    RunLosesNothing(cb, queue, fuel);
  }

  function SwapCount(t: seq<Step>): nat {
    if |t| == 0 then 0 else SwapCount(t[..|t| - 1]) + if t[|t| - 1].SwapWindow? then 1 else 0
  }

  /** The pre-render calls in `t` that let the frame go on. */
  function PassedPreRenders(cb: Callbacks, t: seq<Step>): nat {
    if |t| == 0 then 0
    else PassedPreRenders(cb, t[..|t| - 1]) + if t[|t| - 1].PreRender? && !cb.preRender(t[|t| - 1].iteration) then 1 else 0
  }

  lemma {:induction false} CountsConcat(cb: Callbacks, a: seq<Step>, b: seq<Step>)
    ensures SwapCount(a + b) == SwapCount(a) + SwapCount(b)
    ensures PassedPreRenders(cb, a + b) == PassedPreRenders(cb, a) + PassedPreRenders(cb, b)
    decreases |b|
  {
    if |b| == 0 {
      assert a + b == a;
    } else {
      var b' := b[..|b| - 1];
      assert (a + b)[..|a + b| - 1] == a + b';
      CountsConcat(cb, a, b');
    }
  }

  /** A stretch of trace with neither a pre-render nor a swap counts zero of each. */
  lemma {:induction false} NoRenderStepsCountZero(cb: Callbacks, t: seq<Step>)
    requires forall i :: 0 <= i < |t| ==> !t[i].PreRender? && !t[i].SwapWindow?
    ensures SwapCount(t) == 0 && PassedPreRenders(cb, t) == 0
    decreases |t|
  {
    if |t| > 0 {
      NoRenderStepsCountZero(cb, t[..|t| - 1]);
    }
  }

  lemma {:induction false} IterationSwapCount(cb: Callbacks, k: nat, events: seq<Event>)
    ensures SwapCount(Iteration(cb, k, events).trace) == PassedPreRenders(cb, Iteration(cb, k, events).trace)
  {
    var a := [PreRender(k)];
    assert a[..|a| - 1] == [];
    assert PassedPreRenders(cb, a[..|a| - 1]) == 0 && SwapCount(a[..|a| - 1]) == 0;
    if !cb.preRender(k) {
      var b := a + [SwapWindow(k)];
      var front := b + [PostRender(k)];
      assert b[..|b| - 1] == a;
      assert front[..|front| - 1] == b;
      assert a[|a| - 1] == PreRender(k) && !cb.preRender(a[|a| - 1].iteration);
      assert SwapCount(a) == 0 && PassedPreRenders(cb, a) == 1;
      assert SwapCount(b) == 1 && PassedPreRenders(cb, b) == 1;
      assert SwapCount(front) == 1 && PassedPreRenders(cb, front) == 1;
      assert front == [PreRender(k), SwapWindow(k), PostRender(k)];
      if !cb.postRender(k) {
        var d := Deliver(cb, k, events).trace;
        DeliverOrdered(cb, k, events);
        forall i | 0 <= i < |d|
          ensures !d[i].PreRender? && !d[i].SwapWindow?
        {
          if !d[i].Viewport? {
            assert 3 <= Rank(d[i]);
          }
        }
        NoRenderStepsCountZero(cb, d);
        CountsConcat(cb, front, d);
      }
    }
  }

  predicate SwapsMatch(cb: Callbacks, t: seq<Step>) {
    SwapCount(t) == PassedPreRenders(cb, t)
  }

  lemma SwapsMatchConcat(cb: Callbacks, a: seq<Step>, b: seq<Step>)
    requires SwapsMatch(cb, a) && SwapsMatch(cb, b)
    ensures SwapsMatch(cb, a + b)
  {
    CountsConcat(cb, a, b);
  }

  lemma {:induction false} RunSwapCount(cb: Callbacks, queue: nat -> seq<Event>, n: nat)
    ensures SwapsMatch(cb, Run(cb, queue, n).trace)
  {
    if n > 0 {
      var p := Run(cb, queue, n - 1);
      RunSwapCount(cb, queue, n - 1);
      if !p.stopped {
        var it := Iteration(cb, n - 1, queue(n - 1));
        IterationSwapCount(cb, n - 1, queue(n - 1));
        SwapsMatchConcat(cb, p.trace, it.trace);
        assert Run(cb, queue, n).trace == p.trace + it.trace;
      }
    }
  }

  /** `start_loop` swaps the window once for every pre-render call that answered false, and never otherwise. */
  lemma {:induction false} LoopSwapsMatchPassedPreRenders(pumpError: Option<string>, cb: Callbacks, queue: nat -> seq<Event>, fuel: nat)
    ensures SwapCount(Loop(pumpError, cb, queue, fuel).trace) == PassedPreRenders(cb, Loop(pumpError, cb, queue, fuel).trace)
  {
    RunSwapCount(cb, queue, fuel);
  }
}
