/** What a worker sees of its broadcast queue, as a small state machine.
  *
  * The log grows at its end; an answered delivery moves forward by one entry; an attempt reaches the
  * worker but its answer is lost, so the same entry is delivered again; trimming moves the point
  * from which a restart resumes, never past the next entry to deliver; a restart falls back to it.
  * The entries of one file lie between that point and the next delivery, so a file's limit bounds their distance.
  */
module QueueProtocol {
  import opened Numbers
  import opened Options

  datatype View<T> = View(log: seq<T>, base: nat, pos: nat, high: nat)
  {
    ghost predicate Ok(limit: nat) {
      base <= pos <= high <= |log| && high <= base + limit
    }

    /** The entry at the current position. */
    function Next(): Option<T> {
      if pos < |log| then Some(log[pos]) else None
    }
  }

  datatype Event<T> = Enqueue(entry: T) | Attempt | Deliver | Trim(point: nat) | Restart
  {
    /** The worker carries out the entry at the current position. */
    predicate ReachesWorker() {
      Attempt? || Deliver?
    }
  }

  ghost predicate Enabled<T>(limit: nat, v: View<T>, e: Event<T>) {
    match e
    case Enqueue(_) => true
    case Attempt => v.pos < |v.log| && v.pos < v.base + limit
    case Deliver => v.pos < |v.log| && v.pos < v.base + limit
    case Trim(point) => v.base <= point <= v.pos
    case Restart => true
  }

  function After<T>(v: View<T>, e: Event<T>): View<T> {
    match e
    case Enqueue(entry) => v.(log := v.log + [entry])
    case Attempt => v.(high := Max(v.high, v.pos + 1))
    case Deliver => v.(pos := v.pos + 1, high := Max(v.high, v.pos + 1))
    case Trim(point) => v.(base := point)
    case Restart => v.(pos := v.base)
  }

  ghost predicate Possible<T>(limit: nat, v: View<T>, events: seq<Event<T>>) {
    events == [] || (Possible(limit, v, events[..|events| - 1]) && Enabled(limit, Run(v, events[..|events| - 1]), events[|events| - 1]))
  }

  function Run<T>(v: View<T>, events: seq<Event<T>>): View<T> {
    if events == [] then v else After(Run(v, events[..|events| - 1]), events[|events| - 1])
  }

  /** The log positions that reached the worker during a run, in order and with repetitions. */
  function Deliveries<T>(v: View<T>, events: seq<Event<T>>): seq<nat> {
    if events == [] then []
    else
      var before := Deliveries(v, events[..|events| - 1]);
      if events[|events| - 1].ReachesWorker() then before + [Run(v, events[..|events| - 1]).pos] else before
  }

  lemma {:induction false} RunKeepsOk<T>(limit: nat, events: seq<Event<T>>)
    requires Possible(limit, View([], 0, 0, 0), events)
    ensures Run(View([], 0, 0, 0), events).Ok(limit)
  {
    if events != [] {
      RunKeepsOk(limit, events[..|events| - 1]);
    }
  }

  /** A restart falls back by at most the limit. */
  lemma FallbackIsBounded<T>(limit: nat, events: seq<Event<T>>)
    requires Possible(limit, View([], 0, 0, 0), events + [Restart])
    ensures var v, v' := Run(View([], 0, 0, 0), events), Run(View([], 0, 0, 0), events + [Restart]);
      v'.pos <= v.pos <= v'.pos + limit
  {
    Snoc(limit, View([], 0, 0, 0), events, Restart);
    RunKeepsOk(limit, events);
  }

  /** In every run the positions delivered at least once form an initial segment of the log. */
  lemma {:induction false} DeliveredIsInitialSegment<T>(limit: nat, events: seq<Event<T>>, i: nat)
    requires Possible(limit, View([], 0, 0, 0), events)
    ensures i in Deliveries(View([], 0, 0, 0), events) <==> i < Run(View([], 0, 0, 0), events).high
  {
    if events != [] {
      DeliveredIsInitialSegment(limit, events[..|events| - 1], i);
      RunKeepsOk(limit, events[..|events| - 1]);
    }
  }

  /** Those of them that were answered. */
  function Answered<T>(v: View<T>, events: seq<Event<T>>): seq<nat> {
    if events == [] then []
    else
      var before := Answered(v, events[..|events| - 1]);
      if events[|events| - 1].Deliver? then before + [Run(v, events[..|events| - 1]).pos] else before
  }

  /** A sequence that never goes back and stays within a bound. */
  ghost predicate Rising(s: seq<nat>, bound: nat) {
    && (forall i | 0 <= i < |s| :: s[i] <= bound)
    && (forall i, j | 0 <= i < j < |s| :: s[i] <= s[j])
  }

  lemma RisingSnoc(s: seq<nat>, bound: nat, bound': nat)
    requires Rising(s, bound) && bound <= bound'
    ensures Rising(s, bound') && Rising(s + [bound], bound')
  {
  }

  /** Without a restart every entry is answered once and in order. Lost answers repeat the entry at hand and
    * no other: what reaches the worker never goes back, and is at most one entry ahead of the answers.
    */
  lemma {:induction false} InOrderWithoutRestart<T>(limit: nat, events: seq<Event<T>>)
    requires Possible(limit, View([], 0, 0, 0), events)
    requires Restart !in events
    ensures var v := Run(View([], 0, 0, 0), events);
      && Answered(View([], 0, 0, 0), events) == seq(v.pos, i => i)
      && v.pos <= v.high <= v.pos + 1
      && Rising(Deliveries(View([], 0, 0, 0), events), v.pos)
  {
    if events != [] {
      var init, last := events[..|events| - 1], events[|events| - 1];
      assert last in events && forall e | e in init :: e in events;
      InOrderWithoutRestart(limit, init);
      RisingSnoc(Deliveries(View([], 0, 0, 0), init), Run(View([], 0, 0, 0), init).pos, Run(View([], 0, 0, 0), events).pos);
    }
  }

  /** When no answer is lost either, every entry reaches the worker exactly once. */
  lemma {:induction false} ExactlyOnceWithoutRestart<T>(limit: nat, events: seq<Event<T>>)
    requires Possible(limit, View([], 0, 0, 0), events)
    requires Restart !in events && Attempt !in events
    ensures var v := Run(View([], 0, 0, 0), events);
      v.pos == v.high && Deliveries(View([], 0, 0, 0), events) == seq(v.pos, i => i)
  {
    if events != [] {
      var init, last := events[..|events| - 1], events[|events| - 1];
      assert last in events && forall e | e in init :: e in events;
      ExactlyOnceWithoutRestart(limit, init);
    }
  }

  /** Nothing that a restart could still need is trimmed: what lies before the restart point was delivered. */
  lemma TrimmedWasDelivered<T>(limit: nat, events: seq<Event<T>>, i: nat)
    requires Possible(limit, View([], 0, 0, 0), events)
    requires i < Run(View([], 0, 0, 0), events).base
    ensures i in Deliveries(View([], 0, 0, 0), events)
  {
    RunKeepsOk(limit, events);
    DeliveredIsInitialSegment(limit, events, i);
  }

  lemma Snoc<T>(limit: nat, v: View<T>, events: seq<Event<T>>, e: Event<T>)
    ensures Run(v, events + [e]) == After(Run(v, events), e)
    ensures Possible(limit, v, events + [e]) <==> Possible(limit, v, events) && Enabled(limit, Run(v, events), e)
  {
    assert (events + [e])[..|events|] == events;
  }
}
