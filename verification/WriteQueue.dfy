/** The write queue of a `WebSocketSession`: at most one asynchronous write at a time, in order, and
    what a write error does to the session. */
module WriteQueue {
  import opened Numbers

  // ------------------------------------------------------------------ specification

  datatype Outcome = Outcome(text: string, written: bool)

  /** The queue, the text being written, and the history of what came in and what became of it. */
  datatype View = View(queue: seq<string>, inFlight: Option<string>, submitted: seq<string>, outcomes: seq<Outcome>)

  const FRESH := View([], None, [], [])

  datatype Event = Submit(text: string) | Complete(ok: bool)

  function Texts(outcomes: seq<Outcome>): seq<string> {
    seq(|outcomes|, i requires 0 <= i < |outcomes| => outcomes[i].text)
  }

  /** Only the front of the queue is ever being written, and nothing is lost, doubled or reordered
      between submission, outcome and queue. */
  ghost predicate Consistent(v: View) {
    && (v.inFlight.Some? ==> v.queue != [] && v.inFlight.value == v.queue[0])
    && Texts(v.outcomes) + v.queue == v.submitted
  }

  /** A completion can only be reported for a write that was started. */
  predicate Possible(v: View, e: Event) {
    e.Submit? || v.inFlight.Some?
  }

  function Started(v: View): View {
    if v.queue == [] then v else v.(inFlight := Some(v.queue[0]))
  }

  function After(v: View, e: Event): View
    requires Possible(v, e) && (v.inFlight.Some? ==> v.queue != [])
  {
    match e
    case Submit(text) =>
      var u := v.(queue := v.queue + [text], submitted := v.submitted + [text]);
      if v.queue == [] then Started(u) else u
    case Complete(ok) =>
      var u := v.(queue := v.queue[1..], inFlight := None, outcomes := v.outcomes + [Outcome(v.queue[0], ok)]);
      if ok then Started(u) else u
  }

  lemma AfterConsistent(v: View, e: Event)
    requires Consistent(v) && Possible(v, e)
    ensures Consistent(After(v, e))
  {
    match e
    case Submit(text) =>
      assert Texts(v.outcomes) + (v.queue + [text]) == Texts(v.outcomes) + v.queue + [text];
    case Complete(ok) =>
      var last := Outcome(v.queue[0], ok);
      assert Texts(v.outcomes + [last]) == Texts(v.outcomes) + [v.queue[0]];
      assert v.queue == [v.queue[0]] + v.queue[1..];
      assert Texts(v.outcomes) + [v.queue[0]] + v.queue[1..] == Texts(v.outcomes) + ([v.queue[0]] + v.queue[1..]);
  }

  // ------------------------------------------------------------------ runs

  ghost predicate Feasible(events: seq<Event>)
    decreases |events|, 0
  {
    events == [] || (Feasible(events[..|events| - 1]) && Possible(Run(events[..|events| - 1]), events[|events| - 1]))
  }

  ghost function Run(events: seq<Event>): (v: View)
    requires Feasible(events)
    ensures Consistent(v)
    decreases |events|, 1
  {
    if events == [] then FRESH
    else
      AfterConsistent(Run(events[..|events| - 1]), events[|events| - 1]);
      After(Run(events[..|events| - 1]), events[|events| - 1])
  }

  /** Messages wait, and nothing is being written. */
  predicate Stalled(v: View) {
    v.queue != [] && v.inFlight.None?
  }

  /** A write failed while another message was already waiting behind it. */
  ghost predicate FailedBehind(events: seq<Event>)
    requires Feasible(events)
    decreases |events|
  {
    events != [] &&
      (FailedBehind(events[..|events| - 1]) ||
       (events[|events| - 1] == Complete(false) && |Run(events[..|events| - 1]).queue| >= 2))
  }

  /** A session is stalled exactly when a write once failed with more messages waiting; a failure
      with nothing behind it costs its message only. Otherwise a write is outstanding exactly when
      the queue is not empty. */
  lemma {:induction false} StalledIff(events: seq<Event>)
    requires Feasible(events)
    ensures var v := Run(events);
      && (Stalled(v) <==> FailedBehind(events)) && (!FailedBehind(events) ==> (v.inFlight.Some? <==> v.queue != []))
    decreases |events|
  {
    if events != [] {
      StalledIff(events[..|events| - 1]);
    }
  }

  /** A stalled session never writes again, whatever is submitted. */
  lemma {:induction false} StalledForever(events: seq<Event>, more: seq<Event>)
    requires Feasible(events + more) && Feasible(events) && Stalled(Run(events))
    ensures Run(events + more).outcomes == Run(events).outcomes && Run(events + more).inFlight.None?
    ensures Run(events).queue <= Run(events + more).queue
    decreases |more|
  {
    if more == [] {
      assert events + more == events;
    } else {
      var front := more[..|more| - 1];
      assert (events + more)[..|events + more| - 1] == events + front;
      StalledForever(events, front);
    }
  }

  /** Without write errors, a write is outstanding exactly while something is queued, it is the one
      at the front, and what was written and what is queued are what was submitted, in order. */
  lemma {:induction false} NoErrors(events: seq<Event>)
    requires Feasible(events) && Complete(false) !in events
    ensures var v := Run(events);
      && v.inFlight == (if v.queue == [] then None else Some(v.queue[0]))
      && Texts(v.outcomes) + v.queue == v.submitted
      && forall i :: 0 <= i < |v.outcomes| ==> v.outcomes[i].written
    decreases |events|
  {
    if events != [] {
      var front, last := events[..|events| - 1], events[|events| - 1];
      assert last in events && forall e :: e in front ==> e in events;
      NoErrors(front);
    }
  }

  // ------------------------------------------------------------------ the session

  class WebSocketSession {
    var writeQueue: seq<string>
    var inFlight: Option<string>
    ghost var submitted: seq<string>
    ghost var outcomes: seq<Outcome>

    ghost function Now(): View
      reads this
    {
      View(writeQueue, inFlight, submitted, outcomes)
    }

    constructor ()
      ensures Now() == FRESH
    {
      writeQueue, inFlight, submitted, outcomes := [], None, [], [];
    }

    method SendMessage(message: string)
      requires Consistent(Now())
      modifies this
      ensures Now() == After(old(Now()), Submit(message)) && Consistent(Now())
    {
      AfterConsistent(Now(), Submit(message));
      var writeInProgress := writeQueue != [];
      writeQueue := writeQueue + [message];
      submitted := submitted + [message];
      if !writeInProgress {
        DoWrite();
      }
    }

    method DoWrite()
      modifies `inFlight
      ensures Now() == Started(old(Now()))
    {
      if writeQueue != [] {
        inFlight := Some(writeQueue[0]);
      }
    }

    /** The completion handler of the write in flight. */
    method OnWrite(error: bool)
      requires Consistent(Now()) && inFlight.Some?
      modifies this
      ensures Now() == After(old(Now()), Complete(!error)) && Consistent(Now())
    {
      AfterConsistent(Now(), Complete(!error));
      outcomes := outcomes + [Outcome(writeQueue[0], !error)];
      inFlight := None;
      writeQueue := writeQueue[1..];
      if error {
        return;
      }
      DoWrite();
    }
  }
}
