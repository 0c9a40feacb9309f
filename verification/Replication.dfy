/** The queue and the worker together: at-least-once delivery end to end, over every run of the queue. */
module Replication {
  import opened GraphModel
  import opened Options
  import Protocol = QueueProtocol
  import Queue = BroadcastQueue
  import Replay = WorkerReplay

  function Request(e: Queue.Event): Protocol.Event<Op> {
    match e
    case Enqueue(entry) => Protocol.Enqueue(entry.request)
    case Attempt => Protocol.Attempt
    case Deliver => Protocol.Deliver
    case Trim(point) => Protocol.Trim(point)
    case Restart => Protocol.Restart
  }

  function Requests(events: seq<Queue.Event>): seq<Protocol.Event<Op>> {
    seq(|events|, i requires 0 <= i < |events| => Request(events[i]))
  }

  /** The operations queued for a worker. */
  function Ops(log: seq<Queue.Entry>): seq<Op> {
    seq(|log|, i requires 0 <= i < |log| => log[i].request)
  }

  lemma RequestsSnoc(events: seq<Queue.Event>, e: Queue.Event)
    ensures Requests(events + [e]) == Requests(events) + [Request(e)]
  {
  }

  function Carried(v: Protocol.View<Queue.Entry>): Protocol.View<Op> {
    Protocol.View(Ops(v.log), v.base, v.pos, v.high)
  }

  lemma StepOfRequest(limit: nat, v: Protocol.View<Queue.Entry>, e: Queue.Event)
    ensures Protocol.Enabled(limit, v, e) <==> Protocol.Enabled(limit, Carried(v), Request(e))
    ensures Carried(Protocol.After(v, e)) == Protocol.After(Carried(v), Request(e))
  {
    if e.Enqueue? {
      assert Ops(v.log + [e.entry]) == Ops(v.log) + [e.entry.request];
    }
  }

  lemma NextRequest(limit: nat, v: Protocol.View<Queue.Entry>, init: seq<Queue.Event>, last: Queue.Event)
    requires Protocol.Possible(limit, v, init + [last]) && Protocol.Possible(limit, Carried(v), Requests(init))
    requires Protocol.Run(Carried(v), Requests(init)) == Carried(Protocol.Run(v, init))
    ensures Protocol.Possible(limit, Carried(v), Requests(init + [last]))
    ensures Protocol.Run(Carried(v), Requests(init + [last])) == Carried(Protocol.Run(v, init + [last]))
  {
    RequestsSnoc(init, last);
    Protocol.Snoc(limit, v, init, last);
    Protocol.Snoc(limit, Carried(v), Requests(init), Request(last));
    StepOfRequest(limit, Protocol.Run(v, init), last);
  }

  lemma {:induction false} RequestsFrom(limit: nat, v: Protocol.View<Queue.Entry>, events: seq<Queue.Event>)
    requires Protocol.Possible(limit, v, events)
    ensures Protocol.Possible(limit, Carried(v), Requests(events))
    ensures Protocol.Run(Carried(v), Requests(events)) == Carried(Protocol.Run(v, events))
    decreases |events|
  {
    if events == [] {
      assert Requests(events) == [];
    } else {
      var init, last := events[..|events| - 1], events[|events| - 1];
      assert events == init + [last];
      RequestsFrom(limit, v, init);
      NextRequest(limit, v, init, last);
    }
  }

  lemma RunOfRequests(limit: nat, events: seq<Queue.Event>)
    requires Protocol.Possible(limit, Protocol.View([], 0, 0, 0), events)
    ensures Protocol.Possible(limit, Protocol.View([], 0, 0, 0), Requests(events))
    ensures Protocol.Run(Protocol.View([], 0, 0, 0), Requests(events)) == Carried(Protocol.Run(Protocol.View([], 0, 0, 0), events))
  {
    RequestsFrom(limit, Protocol.View([], 0, 0, 0), events);
    assert Carried(Protocol.View([], 0, 0, 0)) == Protocol.View([], 0, 0, 0);
  }

  /** What happened to one worker's queue, seen through the requests. */
  ghost function EventsOf(c: Queue.Cluster, node: Queue.Node): seq<Protocol.Event<Op>> {
    Requests(Queue.TraceOf(c.traces, node).events)
  }

  /** The worker's queue holds exactly this log and all of it was delivered. */
  ghost predicate Drained(c: Queue.Cluster, node: Queue.Node, log: seq<Op>) {
    Ops(Queue.ViewIn(c, node).log) == log && Queue.ViewIn(c, node).pos == |log|
  }

  lemma EventsMore(c: Queue.Cluster, c': Queue.Cluster, node: Queue.Node, e: Queue.Event, request: Protocol.Event<Op>)
    requires Queue.TraceOf(c'.traces, node).events == Queue.TraceOf(c.traces, node).events + [e] && request == Request(e)
    ensures EventsOf(c', node) == EventsOf(c, node) + [request]
  {
    RequestsSnoc(Queue.TraceOf(c.traces, node).events, e);
  }

  lemma EventsAreARun(c: Queue.Cluster, node: Queue.Node)
    requires Queue.Consistent(c)
    ensures Protocol.Possible(c.max, Protocol.View([], 0, 0, 0), EventsOf(c, node))
    ensures var v, r := Queue.ViewIn(c, node), Protocol.Run(Protocol.View([], 0, 0, 0), EventsOf(c, node));
      r.log == Ops(v.log) && r.base == v.base && r.pos == v.pos
  {
    var files, t := Queue.FilesOf(c.state, node), Queue.TraceOf(c.traces, node);
    assert Queue.NodeOk(c.disk, c.max, c.clock, node, files, t);
    RunOfRequests(c.max, t.events);
  }

  /** In every reachable state of the queue, a worker whose queue is drained holds exactly the master's vertices and
    * edges, whatever restarts, lost answers and removed files lie behind, and none of the operations it carried
    * out stopped half way, for all logs of a master that are within the borders of the queue's own file limit.
    */
  lemma DrainedReplicaEqualsMaster(c: Queue.Cluster, node: Queue.Node, log: seq<Op>, start: State)
    requires Queue.Consistent(c) && Drained(c, node, log)
    requires Replay.ValidLog(log, start) && Replay.NoLateLoop(log, c.max) && Replay.Borders(log, c.max)
    ensures Replay.Arrived(log, start, EventsOf(c, node))
  {
    EventsAreARun(c, node);
    Replay.DrainedWorkerEqualsMaster(log, start, c.max, EventsOf(c, node));
  }

  // ── Every run of the queue ────────────────────────────────────────────────

  /** A step of the queue, as its methods make it. */
  datatype Call =
    | EnqueueEntry(file: Queue.QueueFile, entry: Queue.Entry, outcome: Queue.Append)
    | DropFile(node: Queue.Node)
    | Acknowledge(node: Queue.Node)
    | LoseAnswer(node: Queue.Node)
    | RestartMaster

  ghost predicate Step(c: Queue.Cluster, call: Call, c': Queue.Cluster) {
    match call
    case EnqueueEntry(file, entry, outcome) =>
      c.clock <= file.stamp && file.node == entry.target && c' == Queue.AfterEnqueue(c, file, entry, outcome)
    case DropFile(node) => Queue.Spent(c, node) && c' == Queue.AfterDrop(c, node)
    case Acknowledge(node) =>
      Queue.FilesOf(c.state, node) != [] && !Queue.Spent(c, node) && c' == Queue.AfterDelivery(c, node)
    case LoseAnswer(node) =>
      Queue.FilesOf(c.state, node) != [] && !Queue.Spent(c, node) && c' == Queue.AfterAttempt(c, node)
    case RestartMaster => c' == Queue.AfterRestart(c)
  }

  /** The queue of a new master. */
  ghost function NewQueue(max: nat): Queue.Cluster {
    Queue.Cluster(map[], max, 0, map[], map[])
  }

  ghost predicate IsHistory(max: nat, calls: seq<Call>, states: seq<Queue.Cluster>) {
    && |states| == |calls| + 1 && states[0] == NewQueue(max)
    && forall i | 0 <= i < |calls| :: Step(states[i], calls[i], states[i + 1])
  }

  ghost predicate Reachable(max: nat, c: Queue.Cluster) {
    exists calls, states :: IsHistory(max, calls, states) && states[|calls|] == c
  }

  lemma NewIsReachable(max: nat)
    ensures Reachable(max, NewQueue(max))
  {
    assert IsHistory(max, [], [NewQueue(max)]);
  }

  lemma ReachMore(max: nat, c: Queue.Cluster, call: Call, c': Queue.Cluster)
    requires Reachable(max, c) && Step(c, call, c')
    ensures Reachable(max, c')
  {
    var calls, states :| IsHistory(max, calls, states) && states[|calls|] == c;
    assert IsHistory(max, calls + [call], states + [c']);
  }

  lemma StepKeepsConsistent(c: Queue.Cluster, call: Call, c': Queue.Cluster)
    requires Queue.Consistent(c) && Step(c, call, c')
    ensures Queue.Consistent(c') && c'.max == c.max
  {
    match call
    case EnqueueEntry(file, entry, outcome) => Queue.EnqueueOk(c, file, entry, outcome);
    case DropFile(node) => Queue.DropWholeOk(c, node);
    case Acknowledge(node) => Queue.DeliveryOk(c, node);
    case LoseAnswer(node) => Queue.AttemptKeepsConsistent(c, node);
    case RestartMaster => Queue.RestartOk(c);
  }

  lemma {:induction false} HistoryIsConsistent(max: nat, calls: seq<Call>, states: seq<Queue.Cluster>, i: nat)
    requires max >= 1 && IsHistory(max, calls, states) && i <= |calls|
    ensures Queue.Consistent(states[i]) && states[i].max == max
  {
    if i > 0 {
      HistoryIsConsistent(max, calls, states, i - 1);
      assert Step(states[i - 1], calls[i - 1], states[i - 1 + 1]);
      StepKeepsConsistent(states[i - 1], calls[i - 1], states[i]);
    }
  }

  lemma ReachableIsConsistent(max: nat, c: Queue.Cluster)
    requires max >= 1 && Reachable(max, c)
    ensures Queue.Consistent(c) && c.max == max
  {
    var calls, states :| IsHistory(max, calls, states) && states[|calls|] == c;
    HistoryIsConsistent(max, calls, states, |calls|);
  }

  // ── Following one worker through calls of the queue ───────────────────────

  /** A reachable queue, and where its worker is. */
  ghost predicate Stage(max: nat, c: Queue.Cluster, node: Queue.Node, start: State, log: seq<Op>, base: nat, pos: nat,
                        w: State, broken: bool)
  {
    max >= 1 && Reachable(max, c) && Replay.At(start, EventsOf(c, node), log, base, pos, w, broken)
  }

  /** The worker has no file, or one that is so far consumed and written. */
  ghost predicate OneFile(c: Queue.Cluster, node: Queue.Node, consumed: nat, written: nat) {
    var files := Queue.FilesOf(c.state, node);
    if written == 0 then files == [] && consumed == 0
    else |files| == 1 && files[0].consumed == consumed && files[0].written == written
  }

  lemma StageView(max: nat, c: Queue.Cluster, node: Queue.Node, start: State, log: seq<Op>, base: nat, pos: nat, w: State, broken: bool)
    requires Stage(max, c, node, start, log, base, pos, w, broken)
    ensures Queue.Consistent(c) && c.max == max
    ensures var v := Queue.ViewIn(c, node); Ops(v.log) == log && v.base == base && v.pos == pos
  {
    ReachableIsConsistent(max, c);
    EventsAreARun(c, node);
  }

  lemma QueueEnqueues(max: nat, c: Queue.Cluster, node: Queue.Node, consumed: nat, written: nat, op: Op) returns (c': Queue.Cluster)
    requires Reachable(max, c) && OneFile(c, node, consumed, written) && written < max && c.max == max
    ensures Reachable(max, c') && OneFile(c', node, consumed, written + 1)
    ensures EventsOf(c', node) == EventsOf(c, node) + [Protocol.Enqueue(op)]
  {
    var file, entry := Queue.QueueFile(node, c.clock), Queue.Entry(node, op);
    c' := Queue.AfterEnqueue(c, file, entry, Queue.Appended);
    ReachMore(max, c, EnqueueEntry(file, entry, Queue.Appended), c');
    RequestsSnoc(Queue.TraceOf(c.traces, node).events, Protocol.Enqueue(entry));
  }

  /** The one file of a worker is as long as it is written, and its next entry is the log's next entry. */
  lemma OneFileIsNext(c: Queue.Cluster, node: Queue.Node, consumed: nat, written: nat)
    requires Queue.Consistent(c) && OneFile(c, node, consumed, written) && written > 0
    ensures var file := Queue.FilesOf(c.state, node)[0].file;
      |Queue.Content(c.disk, file)| == written && Queue.ViewIn(c, node).pos == Queue.ViewIn(c, node).base + consumed
    ensures consumed < written ==> !Queue.Spent(c, node) && Queue.ViewIn(c, node).pos < |Queue.ViewIn(c, node).log|
  {
    var files, t := Queue.FilesOf(c.state, node), Queue.TraceOf(c.traces, node);
    assert Queue.NodeOk(c.disk, c.max, c.clock, node, files, t);
    assert Queue.FileOk(c.disk, c.max, node, files[0]);
    if consumed < written {
      Queue.NextEntry(c, node);
    }
  }

  lemma QueueAcknowledges(max: nat, c: Queue.Cluster, node: Queue.Node, consumed: nat, written: nat) returns (c': Queue.Cluster)
    requires Reachable(max, c) && OneFile(c, node, consumed, written) && written > 0 && !Queue.Spent(c, node)
    ensures Reachable(max, c') && OneFile(c', node, consumed + 1, written)
    ensures EventsOf(c', node) == EventsOf(c, node) + [Protocol.Deliver]
  {
    c' := Queue.AfterDelivery(c, node);
    ReachMore(max, c, Acknowledge(node), c');
    RequestsSnoc(Queue.TraceOf(c.traces, node).events, Protocol.Deliver);
  }

  lemma QueueDrops(max: nat, c: Queue.Cluster, node: Queue.Node, written: nat, pos: nat) returns (c': Queue.Cluster)
    requires Reachable(max, c) && Queue.Consistent(c) && OneFile(c, node, written, written) && written > 0
    requires pos == Queue.ViewIn(c, node).pos
    ensures Reachable(max, c') && OneFile(c', node, 0, 0)
    ensures EventsOf(c', node) == EventsOf(c, node) + [Protocol.Trim(pos)]
  {
    OneFileIsNext(c, node, written, written);
    c' := DropsOneFile(max, c, node, written, pos);
    EventsMore(c, c', node, Protocol.Trim(pos), Protocol.Trim(pos));
  }

  lemma DropsOneFile(max: nat, c: Queue.Cluster, node: Queue.Node, written: nat, pos: nat) returns (c': Queue.Cluster)
    requires Reachable(max, c) && OneFile(c, node, written, written) && written > 0
    requires |Queue.Content(c.disk, Queue.FilesOf(c.state, node)[0].file)| == written && pos == Queue.ViewIn(c, node).pos
    ensures Reachable(max, c') && OneFile(c', node, 0, 0)
    ensures Queue.TraceOf(c'.traces, node).events == Queue.TraceOf(c.traces, node).events + [Protocol.Trim(pos)]
  {
    c' := Queue.AfterDrop(c, node);
    ReachMore(max, c, DropFile(node), c');
  }

  lemma QueueRestarts(max: nat, c: Queue.Cluster, node: Queue.Node, consumed: nat, written: nat) returns (c': Queue.Cluster)
    requires Reachable(max, c) && Queue.Consistent(c) && OneFile(c, node, consumed, written) && written > 0
    ensures Reachable(max, c') && OneFile(c', node, 0, written)
    ensures EventsOf(c', node) == EventsOf(c, node) + [Protocol.Restart]
  {
    OneFileIsNext(c, node, consumed, written);
    c' := RestartsOneFile(max, c, node, consumed, written);
    EventsMore(c, c', node, Protocol.Restart, Protocol.Restart);
  }

  lemma RestartsOneFile(max: nat, c: Queue.Cluster, node: Queue.Node, consumed: nat, written: nat) returns (c': Queue.Cluster)
    requires Reachable(max, c) && OneFile(c, node, consumed, written) && written > 0
    requires |Queue.Content(c.disk, Queue.FilesOf(c.state, node)[0].file)| == written
    ensures Reachable(max, c') && OneFile(c', node, 0, written)
    ensures Queue.TraceOf(c'.traces, node).events == Queue.TraceOf(c.traces, node).events + [Protocol.Restart]
  {
    OneFileReloads(c.disk, Queue.FilesOf(c.state, node));
    Queue.RestartFiles(c, node);
    Queue.RestartTraces(c, node);
    c' := Queue.AfterRestart(c);
    ReachMore(max, c, RestartMaster, c');
  }

  lemma OneFileReloads(disk: Queue.Disk, files: seq<Queue.FileProgress>)
    requires |files| == 1 && Queue.Content(disk, files[0].file) != []
    ensures Queue.Reloaded(disk, files) == [Queue.FileProgress(files[0].file, 0, |Queue.Content(disk, files[0].file)|)]
  {
    assert files[1..] == [] && Queue.Reloaded(disk, []) == [];
  }

  lemma StageEnqueue(max: nat, c: Queue.Cluster, node: Queue.Node, start: State, log: seq<Op>, base: nat, pos: nat,
                     w: State, broken: bool, consumed: nat, written: nat, op: Op)
    returns (c': Queue.Cluster)
    requires Stage(max, c, node, start, log, base, pos, w, broken) && OneFile(c, node, consumed, written) && written < max
    ensures Stage(max, c', node, start, log + [op], base, pos, w, broken) && OneFile(c', node, consumed, written + 1)
  {
    ReachableIsConsistent(max, c);
    c' := QueueEnqueues(max, c, node, consumed, written, op);
    Replay.AtEnqueue(start, EventsOf(c, node), log, base, pos, w, broken, op);
  }

  lemma StageAcknowledge(max: nat, c: Queue.Cluster, node: Queue.Node, start: State, log: seq<Op>, base: nat, pos: nat,
                         w: State, broken: bool, aborts: bool, consumed: nat, written: nat)
    returns (c': Queue.Cluster)
    requires Stage(max, c, node, start, log, base, pos, w, broken) && OneFile(c, node, consumed, written) && consumed < written
    requires aborts ==> pos < |log| && Aborts(w, log[pos])
    ensures pos < |log|
    ensures Stage(max, c', node, start, log, base, pos + 1, Apply(w, log[pos]), broken || aborts)
    ensures OneFile(c', node, consumed + 1, written)
  {
    StageView(max, c, node, start, log, base, pos, w, broken);
    OneFileIsNext(c, node, consumed, written);
    c' := QueueAcknowledges(max, c, node, consumed, written);
    Replay.AtDeliver(start, EventsOf(c, node), log, base, pos, w, broken);
  }

  lemma StageDrop(max: nat, c: Queue.Cluster, node: Queue.Node, start: State, log: seq<Op>, base: nat, pos: nat,
                  w: State, broken: bool, written: nat)
    returns (c': Queue.Cluster)
    requires Stage(max, c, node, start, log, base, pos, w, broken) && OneFile(c, node, written, written) && written > 0
    ensures Stage(max, c', node, start, log, pos, pos, w, broken) && OneFile(c', node, 0, 0)
  {
    StageView(max, c, node, start, log, base, pos, w, broken);
    c' := QueueDrops(max, c, node, written, pos);
    Replay.AtTrim(start, EventsOf(c, node), log, base, pos, w, broken, pos);
  }

  lemma StageRestart(max: nat, c: Queue.Cluster, node: Queue.Node, start: State, log: seq<Op>, base: nat, pos: nat,
                     w: State, broken: bool, consumed: nat, written: nat)
    returns (c': Queue.Cluster)
    requires Stage(max, c, node, start, log, base, pos, w, broken) && OneFile(c, node, consumed, written) && written > 0
    ensures Stage(max, c', node, start, log, base, base, w, broken) && OneFile(c', node, 0, written)
  {
    ReachableIsConsistent(max, c);
    c' := QueueRestarts(max, c, node, consumed, written);
    Replay.AtRestart(start, EventsOf(c, node), log, base, pos, w, broken);
  }

  // ── A run that redelivers ─────────────────────────────────────────────────

  lemma TakeNext(log: seq<Op>, k: nat)
    requires 0 < k <= |log|
    ensures log[..k - 1] + [log[k - 1]] == log[..k]
  {
  }

  lemma KeepUpOne(max: nat, c: Queue.Cluster, node: Queue.Node, start: State, log: seq<Op>, k: nat, w: State, broken: bool, op: Op,
                  log': seq<Op>, w': State)
    returns (c': Queue.Cluster)
    requires |log| == k && Stage(max, c, node, start, log, k, k, w, broken) && OneFile(c, node, 0, 0)
    requires log' == log + [op] && w' == Apply(w, op)
    ensures Stage(max, c', node, start, log', k + 1, k + 1, w', broken) && OneFile(c', node, 0, 0)
  {
    c' := StageEnqueue(max, c, node, start, log, k, k, w, broken, 0, 0, op);
    c' := StageAcknowledge(max, c', node, start, log', k, k, w, broken, false, 0, 1);
    c' := StageDrop(max, c', node, start, log', k, k + 1, w', broken, 1);
  }

  lemma KeepUpNext(max: nat, c: Queue.Cluster, node: Queue.Node, start: State, log: seq<Op>, k: nat, w: State, broken: bool, w': State)
    returns (c': Queue.Cluster)
    requires k < |log| && Stage(max, c, node, start, log[..k], k, k, w, broken) && OneFile(c, node, 0, 0) && w' == Apply(w, log[k])
    ensures Stage(max, c', node, start, log[..k + 1], k + 1, k + 1, w', broken) && OneFile(c', node, 0, 0)
  {
    TakeNext(log, k + 1);
    c' := KeepUpOne(max, c, node, start, log[..k], k, w, broken, log[k], log[..k + 1], w');
  }

  /** The worker has delivered everything, and its queue is empty. */
  ghost predicate CaughtUp(max: nat, c: Queue.Cluster, node: Queue.Node, start: State, log: seq<Op>, w: State, broken: bool) {
    Stage(max, c, node, start, log, |log|, |log|, w, broken) && OneFile(c, node, 0, 0)
  }

  lemma CatchUpNext(max: nat, c: Queue.Cluster, node: Queue.Node, start: State, log: seq<Op>, k: nat, w: State, broken: bool,
                    log': seq<Op>, w': State)
    returns (c': Queue.Cluster)
    requires k < |log| && CaughtUp(max, c, node, start, log[..k], w, broken)
    requires log' == log[..k + 1] && w' == Apply(w, log[k])
    ensures CaughtUp(max, c', node, start, log', w', broken)
  {
    c' := KeepUpNext(max, c, node, start, log, k, w, broken, w');
  }

  lemma {:induction false} CatchUp(max: nat, c: Queue.Cluster, node: Queue.Node, start: State, log: seq<Op>, i: nat, k: nat,
                                   w: State, broken: bool, log': seq<Op>, w': State)
    returns (c': Queue.Cluster)
    requires i <= k <= |log| && CaughtUp(max, c, node, start, log[..i], w, broken)
    requires log' == log[..k] && w' == Exec(log, i, k, w)
    ensures CaughtUp(max, c', node, start, log', w', broken)
    decreases k - i
  {
    if i == k {
      c' := c;
    } else {
      c' := CatchUp(max, c, node, start, log, i, k - 1, w, broken, log[..k - 1], Exec(log, i, k - 1, w));
      c' := CatchUpNext(max, c', node, start, log, k - 1, Exec(log, i, k - 1, w), broken, log', w');
    }
  }

  /** The consumer keeps up: each entry is delivered and its file removed before the next one is queued. */
  lemma KeepUp(max: nat, c: Queue.Cluster, node: Queue.Node, start: State, log: seq<Op>, i: nat, k: nat, w: State, broken: bool)
    returns (c': Queue.Cluster)
    requires i <= k <= |log| && Stage(max, c, node, start, log[..i], i, i, w, broken) && OneFile(c, node, 0, 0)
    ensures Stage(max, c', node, start, log[..k], k, k, Exec(log, i, k, w), broken) && OneFile(c', node, 0, 0)
  {
    c' := CatchUp(max, c, node, start, log, i, k, w, broken, log[..k], Exec(log, i, k, w));
  }

  /** One file takes the next entries. */
  lemma {:induction false} FillFile(max: nat, c: Queue.Cluster, node: Queue.Node, start: State, log: seq<Op>, i: nat, k: nat,
                                    w: State, broken: bool)
    returns (c': Queue.Cluster)
    requires i <= k <= |log| && k <= i + max
    requires Stage(max, c, node, start, log[..i], i, i, w, broken) && OneFile(c, node, 0, 0)
    ensures Stage(max, c', node, start, log[..k], i, i, w, broken) && OneFile(c', node, 0, k - i)
    decreases k - i
  {
    c' := c;
    if i < k {
      TakeNext(log, k);
      c' := FillFile(max, c, node, start, log, i, k - 1, w, broken);
      c' := StageEnqueue(max, c', node, start, log[..k - 1], i, i, w, broken, 0, k - 1 - i, log[k - 1]);
    }
  }

  lemma DeliverNext(max: nat, c: Queue.Cluster, node: Queue.Node, start: State, log: seq<Op>, i: nat, j: nat, w: State,
                    broken: bool, aborts: bool, w': State, broken': bool)
    returns (c': Queue.Cluster)
    requires i <= j < |log| && OneFile(c, node, j - i, |log| - i) && Stage(max, c, node, start, log, i, j, w, broken)
    requires (aborts ==> Aborts(w, log[j])) && w' == Apply(w, log[j]) && broken' == (broken || aborts)
    ensures Stage(max, c', node, start, log, i, j + 1, w', broken') && OneFile(c', node, j + 1 - i, |log| - i)
  {
    c' := StageAcknowledge(max, c, node, start, log, i, j, w, broken, aborts, j - i, |log| - i);
  }

  /** Deliver the first entries of the file. */
  lemma {:induction false} DeliverFile(max: nat, c: Queue.Cluster, node: Queue.Node, start: State, log: seq<Op>, i: nat, j: nat,
                                       w: State, aborts: bool)
    returns (c': Queue.Cluster)
    requires i <= j <= |log| && OneFile(c, node, 0, |log| - i) && Stage(max, c, node, start, log, i, i, w, false)
    requires aborts ==> i < |log| && Aborts(w, log[i])
    ensures Stage(max, c', node, start, log, i, j, Exec(log, i, j, w), aborts && i < j) && OneFile(c', node, j - i, |log| - i)
    decreases j - i
  {
    c' := c;
    if i < j {
      c' := DeliverFile(max, c, node, start, log, i, j - 1, w, aborts);
      c' := DeliverNext(max, c', node, start, log, i, j - 1, Exec(log, i, j - 1, w), aborts && i < j - 1, aborts && i == j - 1,
                        Exec(log, i, j, w), aborts);
    }
  }

  /** The consumer keeps up to `i`, delivers on to `k` from one file, is restarted, and delivers the rest. */
  lemma Redelivers(max: nat, node: Queue.Node, start: State, log: seq<Op>, i: nat, k: nat, w: State, aborts: bool)
    returns (c: Queue.Cluster)
    requires max >= 1 && i < k <= |log| && k <= i + max && w == Exec(log, 0, k, start)
    requires aborts ==> Aborts(w, log[i])
    ensures Stage(max, c, node, start, log, |log|, |log|, Exec(log, i, |log|, w), aborts)
  {
    c := UpToRestart(max, node, start, log, i, k);
    c := FromRestart(max, c, node, start, log, i, k, w, aborts);
  }

  lemma UpToRestart(max: nat, node: Queue.Node, start: State, log: seq<Op>, i: nat, k: nat) returns (c: Queue.Cluster)
    requires max >= 1 && i < k <= |log| && k <= i + max
    ensures Stage(max, c, node, start, log[..k], i, i, Exec(log, 0, k, start), false) && OneFile(c, node, 0, k - i)
  {
    c := NewQueue(max);
    NewIsReachable(max);
    assert Requests([]) == [] && log[..0] == [];
    c := KeepUp(max, c, node, start, log, 0, i, start, false);
    var w := Exec(log, 0, i, start);
    c := FillFile(max, c, node, start, log, i, k, w, false);
    c := DeliverFile(max, c, node, start, log[..k], i, k, w, false);
    ExecPrefix(log[..k], log, i, k, w);
    ExecSplit(log, 0, i, k, start);
    var w' := Exec(log, 0, k, start);
    assert Stage(max, c, node, start, log[..k], i, k, w', false);
    c := StageRestart(max, c, node, start, log[..k], i, k, w', false, k - i, k - i);
  }

  lemma FromRestart(max: nat, before: Queue.Cluster, node: Queue.Node, start: State, log: seq<Op>, i: nat, k: nat, w: State, aborts: bool)
    returns (c: Queue.Cluster)
    requires max >= 1 && i < k <= |log| && (aborts ==> Aborts(w, log[i]))
    requires Stage(max, before, node, start, log[..k], i, i, w, false) && OneFile(before, node, 0, k - i)
    ensures Stage(max, c, node, start, log, |log|, |log|, Exec(log, i, |log|, w), aborts)
  {
    c := DeliverFile(max, before, node, start, log[..k], i, k, w, aborts);
    ExecPrefix(log[..k], log, i, k, w);
    var w' := Exec(log, i, k, w);
    c := StageDrop(max, c, node, start, log[..k], i, k, w', aborts, k - i);
    c := KeepUp(max, c, node, start, log, k, |log|, w', aborts);
    ExecSplit(log, i, k, |log|, w);
    assert log[..|log|] == log;
  }
}
