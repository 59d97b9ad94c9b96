/** The bounded batch writer of cmd/collector/bar_writer.go as a machine over its atomic steps.

    Producers, the parent context and the clock may act between any two steps of the writer.  `Select`
    choices that are not ready leave the state alone, so an arbitrary sequence of events is an
    arbitrary run.  A persist call may fail at any time. */
module BatchWriter {
  import Seqs

  const SHUTDOWN_WINDOW: nat := 5_000_000_000

  datatype Result = Completed | DeadlineExceeded
  datatype Control = Top | Selecting | AwaitingRetry | Returned(result: Result)
  datatype Choice = ParentDone | ShutdownDone | Receive | Tick

  datatype Event<T> =
    | Send(row: T)
    | Close
    | Cancel
    | Advance(nanos: nat)
    | Write(choice: Choice, persistOk: bool)

  /** One persist call: the rows offered, whether the parent context was used and whether that context
      was already cancelled, and the outcome. */
  datatype Attempt<T> = Attempt(rows: seq<T>, underParent: bool, parentCancelled: bool, ok: bool)

  /** The rows the store has acknowledged, in order. */
  ghost function Acknowledged<T>(attempts: seq<Attempt<T>>): seq<T> {
    if attempts == [] then []
    else
      var last := attempts[|attempts| - 1];
      var before := Acknowledged(attempts[..|attempts| - 1]);
      if last.ok then before + last.rows else before
  }

  /** The rows a producer manages to send: those before it closes the channel. */
  ghost function Accepted<T>(events: seq<Event<T>>): seq<T> {
    if events == [] then []
    else
      var earlier, last := events[..|events| - 1], events[|events| - 1];
      if last.Send? && Event.Close !in earlier then Accepted(earlier) + [last.row] else Accepted(earlier)
  }

  ghost function Elapsed<T>(events: seq<Event<T>>): nat {
    if events == [] then 0
    else
      var last := events[|events| - 1];
      Elapsed(events[..|events| - 1]) + if last.Advance? then last.nanos else 0
  }

  /** Nothing sent is lost, repeated or reordered. */
  ghost predicate Conserved<T>(attempts: seq<Attempt<T>>, buffer: seq<T>, queue: seq<T>, sent: seq<T>) {
    Acknowledged(attempts) + buffer + queue == sent
  }

  /** Every attempt is a bounded batch under a context that shutdown has not cancelled, and whatever a
      failed attempt offered heads what is offered next: the next attempt, or in the end `pending`. */
  ghost predicate Orderly<T>(attempts: seq<Attempt<T>>, pending: seq<T>, batchSize: nat) {
    attempts != [] ==>
      var last := attempts[|attempts| - 1];
      && 1 <= |last.rows| <= batchSize
      && (last.underParent ==> !last.parentCancelled)
      && (!last.ok ==> last.rows <= pending)
      && Orderly(attempts[..|attempts| - 1], last.rows, batchSize)
  }

  /** The rows on their way: none lost, the buffer bounded, the attempts in order. */
  ghost predicate Flow<T>(attempts: seq<Attempt<T>>, buffer: seq<T>, queue: seq<T>, sent: seq<T>, batchSize: nat) {
    |buffer| <= batchSize && Conserved(attempts, buffer, queue, sent) && Orderly(attempts, buffer, batchSize)
  }

  lemma Attempted<T>(attempts: seq<Attempt<T>>, a: Attempt<T>, queue: seq<T>, sent: seq<T>, batchSize: nat)
    requires Flow(attempts, a.rows, queue, sent, batchSize) && a.rows != [] && (a.underParent ==> !a.parentCancelled)
    ensures Flow(attempts + [a], if a.ok then [] else a.rows, queue, sent, batchSize)
  {
    Seqs.Snoc(attempts, attempts, a);
    Seqs.Empty(Acknowledged(attempts) + a.rows);
  }

  lemma Received<T>(attempts: seq<Attempt<T>>, buffer: seq<T>, queue: seq<T>, sent: seq<T>, batchSize: nat)
    requires Flow(attempts, buffer, queue, sent, batchSize) && queue != [] && |buffer| < batchSize
    ensures Flow(attempts, buffer + [queue[0]], queue[1..], sent, batchSize)
  {
    Seqs.Shift(Acknowledged(attempts), buffer, queue);
    StillOrderly(attempts, buffer, queue[0], batchSize);
  }

  lemma StillOrderly<T>(attempts: seq<Attempt<T>>, pending: seq<T>, row: T, batchSize: nat)
    requires Orderly(attempts, pending, batchSize)
    ensures Orderly(attempts, pending + [row], batchSize)
  {
  }

  lemma Enqueued<T>(attempts: seq<Attempt<T>>, buffer: seq<T>, queue: seq<T>, sent: seq<T>, batchSize: nat, row: T)
    requires Flow(attempts, buffer, queue, sent, batchSize)
    ensures Flow(attempts, buffer, queue + [row], sent + [row], batchSize)
  {
    Seqs.Snoc(Acknowledged(attempts) + buffer, queue, row);
  }

  /** The writer's variables and the world around it.  `sent` and `shutdownStart` only serve the proofs. */
  datatype Writer<T> = Writer(batchSize: nat, buffer: seq<T>, draining: bool, deadline: int, control: Control,
                              queue: seq<T>, closed: bool, cancelled: bool, now: int, attempts: seq<Attempt<T>>,
                              sent: seq<T>, shutdownStart: int)

  function Started<T>(batchSize: nat, now: int): Writer<T> {
    Writer(batchSize, [], false, 0, Top, [], false, false, now, [], [], 0)
  }

  predicate Expired<T>(w: Writer<T>) {
    w.draining && w.deadline <= w.now
  }

  ghost predicate Window<T>(w: Writer<T>) {
    w.draining ==> w.cancelled && w.shutdownStart <= w.now && w.deadline == w.shutdownStart + 5_000_000_000
  }

  ghost predicate Ended<T>(w: Writer<T>) {
    && (w.control == Returned(Completed) ==> w.closed && w.buffer == [] && w.queue == [])
    && (w.control == Returned(DeadlineExceeded) ==> w.draining && w.deadline <= w.now)
    && (w.control == AwaitingRetry ==> w.closed && w.queue == [])
  }

  ghost predicate Flows<T>(w: Writer<T>) {
    1 <= w.batchSize && Flow(w.attempts, w.buffer, w.queue, w.sent, w.batchSize)
  }

  ghost predicate Valid<T>(w: Writer<T>) {
    Flows(w) && Window(w) && Ended(w)
  }

  /** The world has not moved, and the shutdown window is where it was or has opened just now. */
  ghost predicate OneStep<T>(w: Writer<T>, r: Writer<T>) {
    && r.batchSize == w.batchSize && r.closed == w.closed && r.cancelled == w.cancelled && r.now == w.now && r.sent == w.sent
    && (w.draining ==> r.draining) && (r.draining ==> r.shutdownStart == if w.draining then w.shutdownStart else w.now)
  }

  /** The shutdown window opens once, at the first look after cancellation. */
  method BeginShutdown<T>(w: Writer<T>) returns (r: Writer<T>)
    requires Window(w)
    ensures Window(r) && OneStep(w, r) && r.draining == (w.draining || w.cancelled)
    ensures r == w.(draining := r.draining, deadline := r.deadline, shutdownStart := r.shutdownStart)
  {
    r := w;
    if r.cancelled && !r.draining {
      r := r.(draining := true, deadline := r.now + SHUTDOWN_WINDOW, shutdownStart := r.now);
    }
  }

  /** One attempt over the whole buffer, none when it is empty, under a context that shutdown has not cancelled; a
      failure keeps the rows. */
  ghost predicate FlushedTo<T>(w: Writer<T>, persistOk: bool, r: Writer<T>) {
    && OneStep(w, r) && r.draining == (w.draining || w.cancelled) && r.queue == w.queue && r.control == w.control
    && r.buffer == (if persistOk then [] else w.buffer)
    && r.attempts == if w.buffer == [] then w.attempts
                     else w.attempts + [Attempt(w.buffer, !w.cancelled && !w.draining, w.cancelled, persistOk)]
  }

  /** The flush closure: at most one persist call, over the whole buffer. */
  method Flush<T>(w: Writer<T>, persistOk: bool) returns (r: Writer<T>, ok: bool)
    requires Flows(w) && Window(w)
    ensures Flows(r) && Window(r) && FlushedTo(w, persistOk, r) && ok == (w.buffer == [] || persistOk)
  {
    r := BeginShutdown(w);
    if |r.buffer| == 0 {
      return r, true;
    }
    var attempt := Attempt(r.buffer, !r.draining, r.cancelled, persistOk);
    Attempted(r.attempts, attempt, r.queue, r.sent, r.batchSize);
    r := r.(attempts := r.attempts + [attempt], buffer := if persistOk then [] else r.buffer);
    ok := persistOk;
  }

  /** The row moves to the buffer, which is flushed when full and only then. */
  method ReceiveRow<T>(w: Writer<T>, persistOk: bool) returns (r: Writer<T>)
    requires Valid(w) && |w.buffer| < w.batchSize && w.queue != []
    ensures Valid(r) && OneStep(w, r) && r.control == Top && r.queue == w.queue[1..]
    ensures var more := w.(buffer := w.buffer + [w.queue[0]], queue := w.queue[1..], control := Top);
            if |more.buffer| < w.batchSize then r == more else FlushedTo(more, persistOk, r)
  {
    Received(w.attempts, w.buffer, w.queue, w.sent, w.batchSize);
    r := w.(buffer := w.buffer + [w.queue[0]], queue := w.queue[1..]);
    if |r.buffer| >= r.batchSize {
      var ok;
      r, ok := Flush(r, persistOk);
    }
    r := r.(control := Top);
  }

  /** The closed-channel case: the last partial batch, retried on a later tick when it fails. */
  method FinishInput<T>(w: Writer<T>, persistOk: bool) returns (r: Writer<T>)
    requires Valid(w) && w.queue == [] && w.closed
    ensures Valid(r) && OneStep(w, r) && FlushedTo(w.(control := r.control), persistOk, r)
    ensures r.control == if persistOk || w.buffer == [] then Returned(Completed) else AwaitingRetry
  {
    var ok;
    r, ok := Flush(w, persistOk);
    r := r.(control := if ok then Returned(Completed) else AwaitingRetry);
  }

  /** The context in use has ended: the shutdown window once it is open, the parent's before. */
  predicate ContextEnded<T>(w: Writer<T>) {
    if w.draining then w.deadline <= w.now else w.cancelled
  }

  /** What one pass of the select may do; a choice that is not ready changes nothing. */
  ghost predicate Selected<T>(w: Writer<T>, choice: Choice, persistOk: bool, r: Writer<T>) {
    match choice
    case ParentDone =>
      if w.cancelled && !w.draining then
        OneStep(w, r) && r.draining && r.control == Top && r.buffer == w.buffer && r.queue == w.queue && r.attempts == w.attempts
      else r == w
    case ShutdownDone => r == w.(control := if w.draining && w.deadline <= w.now then Returned(DeadlineExceeded) else w.control)
    case Receive =>
      if |w.buffer| >= w.batchSize || (w.queue == [] && !w.closed) then r == w
      else if w.queue == [] then
        && FlushedTo(w.(control := r.control), persistOk, r)
        && r.control == if persistOk || w.buffer == [] then Returned(Completed) else AwaitingRetry
      else
        var more := w.(buffer := w.buffer + [w.queue[0]], queue := w.queue[1..], control := Top);
        if |more.buffer| < w.batchSize then r == more else FlushedTo(more, persistOk, r)
    case Tick => FlushedTo(w.(control := Top), persistOk, r)
  }

  /** What the loop head does, and the inner select that awaits a retry: it is left on a tick or when the context in use
      has ended, and then only. */
  ghost predicate Stepped<T>(w: Writer<T>, choice: Choice, r: Writer<T>) {
    && OneStep(w, r) && r.buffer == w.buffer && r.queue == w.queue && r.attempts == w.attempts
    && (w.control == Top ==>
          && r.draining == (w.draining || w.cancelled)
          && r.control == if r.draining && r.deadline <= r.now then Returned(DeadlineExceeded) else Selecting)
    && (w.control == AwaitingRetry ==>
          if choice == Tick then r == w.(control := Top)
          else if choice != Receive && ((w.draining && w.deadline <= w.now) || (!w.draining && w.cancelled)) then
            r.control == Top && r.draining == (w.draining || w.cancelled)
          else r == w)
    && (w.control.Returned? ==> r == w)
  }

  /** The select statement. */
  method Select<T>(w: Writer<T>, choice: Choice, persistOk: bool) returns (r: Writer<T>)
    requires Valid(w) && w.control == Selecting
    ensures Valid(r) && OneStep(w, r) && Selected(w, choice, persistOk, r)
  {
    r := w;
    match choice
    case ParentDone =>
      if w.cancelled && !w.draining {
        r := BeginShutdown(w);
        r := r.(control := Top);
      }
    case ShutdownDone =>
      if Expired(w) {
        r := w.(control := Returned(DeadlineExceeded));
      }
    case Receive =>
      if |w.buffer| < w.batchSize && w.queue != [] {
        r := ReceiveRow(w, persistOk);
      } else if |w.buffer| < w.batchSize && w.closed {
        r := FinishInput(w, persistOk);
      }
    case Tick =>
      var ok;
      r, ok := Flush(w, persistOk);
      r := r.(control := Top);
  }

  /** One step of the writer's loop outside its select. */
  method Step<T>(w: Writer<T>, choice: Choice) returns (r: Writer<T>)
    requires Valid(w) && w.control != Selecting
    ensures Valid(r) && Stepped(w, choice, r)
  {
    r := w;
    match w.control
    case Top =>
      r := BeginShutdown(w);
      r := r.(control := if Expired(r) then Returned(DeadlineExceeded) else Selecting);
    case AwaitingRetry =>
      // The inner select waits for a tick or for the end of the context in use.
      if choice == Tick {
        r := w.(control := Top);
      } else if choice != Receive && ContextEnded(w) {
        r := BeginShutdown(w);
        r := r.(control := Top);
      }
    case Returned(_) =>
  }

  /** Anything that can happen between two steps of the writer, or one such step. */
  method Apply<T>(w: Writer<T>, event: Event<T>) returns (r: Writer<T>)
    requires Valid(w)
    ensures Valid(r) && r.batchSize == w.batchSize
    ensures r.closed == (w.closed || event.Close?) && r.cancelled == (w.cancelled || event.Cancel?)
    ensures r.sent == if event.Send? && !w.closed then w.sent + [event.row] else w.sent
    ensures r.draining ==> r.shutdownStart == if w.draining then w.shutdownStart else w.now
    ensures r.now == w.now + if event.Advance? then event.nanos else 0
    ensures w.control.Returned? ==> r.control == w.control
    ensures event.Write? ==> if w.control == Selecting then Selected(w, event.choice, event.persistOk, r)
                             else Stepped(w, event.choice, r)
    ensures !event.Write? ==>
              r.control == w.control && r.buffer == w.buffer && r.attempts == w.attempts && r.draining == w.draining
    ensures r.queue == w.queue || event.Write? || (event.Send? && !w.closed && r.queue == w.queue + [event.row])
  {
    match event
    case Send(row) =>
      r := w;
      if !w.closed {
        Enqueued(w.attempts, w.buffer, w.queue, w.sent, w.batchSize, row);
        r := w.(queue := w.queue + [row], sent := w.sent + [row]);
      }
    case Close => r := w.(closed := true);
    case Cancel => r := w.(cancelled := true);
    case Advance(nanos) => r := w.(now := w.now + nanos);
    case Write(choice, persistOk) =>
      if w.control == Selecting {
        r := Select(w, choice, persistOk);
      } else {
        r := Step(w, choice);
      }
  }

  /** How far a writer is from its end: rows to receive, a full buffer to flush, and the way to the select. */
  function Distance<T>(w: Writer<T>): nat {
    3 * (|w.queue| + 1 + if |w.buffer| >= w.batchSize then 1 else 0)
    + match w.control
      case Selecting => 0
      case Top => 1
      case AwaitingRetry => 2
      case Returned(_) => 0
  }

  /** What the writer's own side chooses while the store answers: a flush when the buffer is full or a retry is due, and
      receiving otherwise. */
  function Working<T>(w: Writer<T>): Choice {
    if w.control == AwaitingRetry || |w.buffer| >= w.batchSize then Tick else Receive
  }

  /** A step of the writer by a tick or a received row, with a store that answers. */
  ghost predicate Works<T>(w: Writer<T>, r: Writer<T>) {
    var choice := Working(w);
    && (choice == Tick || choice == Receive)
    && if w.control == Selecting then Selected(w, choice, true, r) else Stepped(w, choice, r)
  }

  /** Once the channel is closed, a store that answers lets the writer finish inside the shutdown window, whatever it is
      doing and whatever failed before, with every row acknowledged: ticks and receives lead there in a bounded number of
      steps. */
  method Drain<T>(w: Writer<T>) returns (r: Writer<T>, ghost path: seq<Writer<T>>)
    requires Valid(w) && OnItsWay(w)
    ensures Valid(r) && r.control == Returned(Completed)
    ensures Acknowledged(r.attempts) == r.sent == w.sent
    ensures path != [] && path[0] == w && path[|path| - 1] == r && |path| <= 3 * |w.queue| + 9
    ensures forall i :: 0 <= i < |path| - 1 ==> Works(path[i], path[i + 1])
  {
    r, path := w, [w];
    while !r.control.Returned?
      invariant Valid(r) && r.sent == w.sent && (OnItsWay(r) || r.control == Returned(Completed))
      invariant path != [] && path[0] == w && path[|path| - 1] == r
      invariant |path| + (if r.control.Returned? then 0 else Distance(r)) <= 1 + Distance(w)
      invariant forall i :: 0 <= i < |path| - 1 ==> Works(path[i], path[i + 1])
      decreases if r.control.Returned? then 0 else 1 + Distance(r)
    {
      r := Work(r);
      path := path + [r];
    }
    Seqs.Empty(Acknowledged(r.attempts));
  }

  predicate OnItsWay<T>(w: Writer<T>) {
    w.closed && !w.control.Returned? && !(w.draining && w.deadline <= w.now)
  }

  method Work<T>(w: Writer<T>) returns (r: Writer<T>)
    requires Valid(w) && OnItsWay(w)
    ensures Valid(r) && r.sent == w.sent && Works(w, r)
    ensures r.control == Returned(Completed) || (OnItsWay(r) && Distance(r) < Distance(w))
    ensures Distance(w) > 0
  {
    r := Apply(w, Write(Working(w), true));
  }

  /** What holds after some events; `c` is the first cancellation, if there was one. */
  ghost predicate After<T>(w: Writer<T>, events: seq<Event<T>>, start: int, c: nat) {
    && Valid(w)
    && w.sent == Accepted(events) && w.closed == (Event.Close in events) && w.now == start + Elapsed(events)
    && (w.cancelled ==> c < |events| && events[c] == Event.Cancel && start + Elapsed(events[..c]) <= w.now)
    && (w.draining ==> start + Elapsed(events[..c]) <= w.shutdownStart)
  }

  lemma AfterOne<T>(w: Writer<T>, events: seq<Event<T>>, start: int, c: nat, event: Event<T>, r: Writer<T>)
    requires After(w, events, start, c) && Valid(r)
    requires r.closed == (w.closed || event.Close?) && r.cancelled == (w.cancelled || event.Cancel?)
    requires r.sent == if event.Send? && !w.closed then w.sent + [event.row] else w.sent
    requires r.draining ==> r.shutdownStart == if w.draining then w.shutdownStart else w.now
    requires r.now == w.now + if event.Advance? then event.nanos else 0
    ensures After(r, events + [event], start, if event.Cancel? && !w.cancelled then |events| else c)
  {
    Seqs.Snoc(events, events, event);
    if w.cancelled {
      Seqs.PrefixOfMore(events, event, c);
    }
  }

  /** For every run: acknowledged rows, then the buffer, then the channel, are the rows sent, in order. */
  method Run<T>(batchSize: nat, events: seq<Event<T>>, start: int)
    returns (control: Control, attempts: seq<Attempt<T>>, buffer: seq<T>, queue: seq<T>)
    requires batchSize >= 1
    ensures Acknowledged(attempts) + buffer + queue == Accepted(events)
    ensures |buffer| <= batchSize
    ensures Orderly(attempts, buffer, batchSize)
    ensures control == Returned(Completed) ==> Event.Close in events && Acknowledged(attempts) == Accepted(events)
    ensures control == Returned(DeadlineExceeded) ==>
              exists c :: 0 <= c < |events| && events[c] == Event.Cancel
                          && Elapsed(events) >= Elapsed(events[..c]) + 5_000_000_000
  {
    var w, c := RunWriter(batchSize, events, start);
    control, attempts, buffer, queue := w.control, w.attempts, w.buffer, w.queue;
  }

  method RunWriter<T>(batchSize: nat, events: seq<Event<T>>, start: int) returns (w: Writer<T>, ghost c: nat)
    requires batchSize >= 1
    ensures After(w, events, start, c) && w.batchSize == batchSize
  {
    w := Started(batchSize, start);
    c := 0;
    for i := 0 to |events|
      invariant After(w, events[..i], start, c) && w.batchSize == batchSize
    {
      ghost var before := w;
      w := Apply(w, events[i]);
      AfterOne(before, events[..i], start, c, events[i], w);
      c := if events[i].Cancel? && !before.cancelled then i else c;
      Seqs.Prefix(events, i);
    }
    Seqs.All(events);
  }

  /** After any run that closed the channel, however many attempts failed, ticks and receives with an answering store end
      it: with everything acknowledged unless the shutdown window has passed, so always when nothing was cancelled. */
  method RunThenDrain<T>(batchSize: nat, events: seq<Event<T>>, start: int) returns (result: Result, attempts: seq<Attempt<T>>)
    requires batchSize >= 1 && Event.Close in events
    ensures result == Completed ==> Acknowledged(attempts) == Accepted(events)
    ensures result == DeadlineExceeded ==>
              exists c :: 0 <= c < |events| && events[c] == Event.Cancel
                          && Elapsed(events) >= Elapsed(events[..c]) + 5_000_000_000
  {
    var w, c := RunWriter(batchSize, events, start);
    if w.control.Returned? {
      Seqs.Empty(Acknowledged(w.attempts));
      return w.control.result, w.attempts;
    }
    if Expired(w) {
      return DeadlineExceeded, w.attempts;
    }
    ghost var path;
    w, path := Drain(w);
    result, attempts := Completed, w.attempts;
  }
}
