/** The two-lane job queue: a semaphore, two first-in first-out lanes and one worker. A step is
    what happens between two awaits. */
module JobQueue {
  import opened Prelude

  datatype Priority = High | Low

  /** A queued runner; `arrival` counts all entries ever queued. */
  datatype Entry = Entry(id: string, priority: Priority, arrival: nat)

  /** A worker task: waiting for the semaphore, awaiting a runner, or finished. */
  datatype Task = Parked | Busy(entry: Entry) | Exited

  /** A record of what happened: entries queued and taken, permits released by stops, workers
      that exited, and wakeups that found both lanes empty. */
  datatype Past = Past(enqueued: seq<Entry>, popped: seq<Entry>, stopReleases: nat, exits: nat, emptyPops: nat)

  /** `stops` lists the `stop()` calls in progress by the worker each is awaiting. */
  datatype State = State(
    high: seq<Entry>,
    low: seq<Entry>,
    permits: int,
    pending: set<string>,
    tasks: seq<Task>,
    handle: Option<nat>,
    stopSet: bool,
    stops: seq<nat>,
    past: Past)

  datatype Op =
    | StartOp
    | Enqueue(id: string, priority: Priority)
    | CancelQueued(id: string)
    | Wake(task: nat, stillQueued: bool)
    | RunnerDone(task: nat)
    | StopBegin
    | StopEnd(k: nat)

  const INITIAL := State([], [], 0, {}, [], None, false, [], Past([], [], 0, 0, 0))

  predicate Live(s: State, t: nat) {
    t < |s.tasks| && !s.tasks[t].Exited?
  }

  /** `_worker_task is not None and not _worker_task.done()` */
  predicate HasWorker(s: State) {
    s.handle.Some? && Live(s, s.handle.value)
  }

  function StartStep(s: State): State {
    if HasWorker(s) then s
    else s.(stopSet := false, tasks := s.tasks + [Parked], handle := Some(|s.tasks|))
  }

  function EnqueueStep(s: State, id: string, priority: Priority): State {
    Appended(StartStep(s), id, priority)
  }

  function Appended(s: State, id: string, priority: Priority): State {
    var entry := Entry(id, priority, |s.past.enqueued|);
    s.(pending := s.pending + {id},
       high := if priority == High then s.high + [entry] else s.high,
       low := if priority == Low then s.low + [entry] else s.low,
       permits := s.permits + 1,
       past := s.past.(enqueued := s.past.enqueued + [entry]))
  }

  /** `_high.popleft()` when there is one, else `_low.popleft()`. */
  function PopStep(s: State): State
    requires s.high != [] || s.low != []
  {
    var entry := if s.high != [] then s.high[0] else s.low[0];
    s.(high := if s.high != [] then s.high[1..] else s.high,
       low := if s.high != [] then s.low else s.low[1..],
       pending := s.pending - {entry.id},
       past := s.past.(popped := s.past.popped + [entry]))
  }

  /** Worker `t` gets a permit: it exits when a stop is set, else takes the next entry, runs it
      unless it was cancelled on disk, and otherwise waits again. */
  function WakeStep(s0: State, t: nat, stillQueued: bool): State {
    if t >= |s0.tasks| || s0.tasks[t] != Parked || s0.permits <= 0 then s0
    else
      var s := s0.(permits := s0.permits - 1);
      if s.stopSet then s.(tasks := s.tasks[t := Exited], past := s.past.(exits := s.past.exits + 1))
      else if s.high == [] && s.low == [] then s.(past := s.past.(emptyPops := s.past.emptyPops + 1))
      else TakeStep(s, t, stillQueued)
  }

  function TakeStep(s: State, t: nat, stillQueued: bool): State
    requires t < |s.tasks| && (s.high != [] || s.low != [])
  {
    var s' := PopStep(s);
    if stillQueued then s'.(tasks := s.tasks[t := Busy(if s.high != [] then s.high[0] else s.low[0])]) else s'
  }

  function Next(s: State, op: Op): State {
    match op
    case StartOp => StartStep(s)
    case Enqueue(id, priority) => EnqueueStep(s, id, priority)
    case CancelQueued(id) => s.(pending := s.pending - {id})
    case Wake(t, stillQueued) => WakeStep(s, t, stillQueued)
    case RunnerDone(t) =>
      if t < |s.tasks| && s.tasks[t].Busy? then s.(tasks := s.tasks[t := Parked]) else s
    case StopBegin =>
      if s.handle.None? then s
      else s.(stopSet := true, permits := s.permits + 1, stops := s.stops + [s.handle.value],
              past := s.past.(stopReleases := s.past.stopReleases + 1))
    case StopEnd(k) =>
      if k < |s.stops| && !Live(s, s.stops[k]) then s.(handle := None, stops := s.stops[..k] + s.stops[k + 1..]) else s
  }

  function Run(ops: seq<Op>): State {
    if ops == [] then INITIAL else Next(Run(ops[..|ops| - 1]), ops[|ops| - 1])
  }

  // ---- what holds in every interleaving ----

  function Lane(entries: seq<Entry>, priority: Priority): seq<Entry> {
    if entries == [] then []
    else
      var last := entries[|entries| - 1];
      Lane(entries[..|entries| - 1], priority) + (if last.priority == priority then [last] else [])
  }

  /** One lane: its entries carry its priority and stand in order of arrival. */
  ghost predicate LaneOk(lane: seq<Entry>, priority: Priority, arrivals: nat) {
    && (forall i :: 0 <= i < |lane| ==> lane[i].priority == priority && lane[i].arrival < arrivals)
    && (forall i, j :: 0 <= i < j < |lane| ==> lane[i].arrival < lane[j].arrival)
  }

  ghost predicate Queued(s: State, e: Entry) {
    e in s.high || e in s.low
  }

  function IdsOf(entries: seq<Entry>): set<string> {
    set i | 0 <= i < |entries| :: entries[i].id
  }

  /** Per lane, what was enqueued is what was popped followed by what is still queued. */
  ghost predicate Fifo(enqueued: seq<Entry>, popped: seq<Entry>, queued: seq<Entry>, priority: Priority) {
    && LaneOk(queued, priority, |enqueued|)
    && Lane(enqueued, priority) == Lane(popped, priority) + queued
  }

  ghost predicate QueueInv(s: State) {
    && Fifo(s.past.enqueued, s.past.popped, s.high, High)
    && Fifo(s.past.enqueued, s.past.popped, s.low, Low)
    && s.permits == |s.high| + |s.low| + s.past.stopReleases - s.past.exits - s.past.emptyPops
    && s.pending <= IdsOf(s.high) + IdsOf(s.low)
  }

  /** `e` comes before `f` in the single list the queue stands for. */
  predicate Before(e: Entry, f: Entry) {
    (e.priority == High && f.priority == Low) || (e.priority == f.priority && e.arrival < f.arrival)
  }

  lemma {:induction false} LaneSnoc(entries: seq<Entry>, e: Entry, priority: Priority)
    ensures Lane(entries + [e], priority) == Lane(entries, priority) + (if e.priority == priority then [e] else [])
  {
    assert (entries + [e])[..|entries|] == entries;
  }

  lemma {:induction false} FifoEnqueue(enqueued: seq<Entry>, popped: seq<Entry>, queued: seq<Entry>, priority: Priority, e: Entry)
    requires Fifo(enqueued, popped, queued, priority) && e.arrival == |enqueued|
    ensures Fifo(enqueued + [e], popped, if e.priority == priority then queued + [e] else queued, priority)
  {
    LaneSnoc(enqueued, e, priority);
    hide Lane;
    var done := Lane(popped, priority);
    assert done + (queued + [e]) == (done + queued) + [e];
    LaneGrows(queued, priority, |enqueued|, e);
  }

  lemma {:induction false} LaneGrows(lane: seq<Entry>, priority: Priority, arrivals: nat, e: Entry)
    requires LaneOk(lane, priority, arrivals)
    ensures LaneOk(lane, priority, arrivals + 1)
    ensures e.priority == priority && e.arrival == arrivals ==> LaneOk(lane + [e], priority, arrivals + 1)
    ensures lane != [] ==> LaneOk(lane[1..], priority, arrivals)
  {
  }

  lemma {:induction false} FifoPop(enqueued: seq<Entry>, popped: seq<Entry>, queued: seq<Entry>, priority: Priority, e: Entry)
    requires Fifo(enqueued, popped, queued, priority)
    requires e.priority == priority ==> queued != [] && queued[0] == e
    ensures Fifo(enqueued, popped + [e], if e.priority == priority then queued[1..] else queued, priority)
  {
    LaneSnoc(popped, e, priority);
    LaneGrows(queued, priority, |enqueued|, e);
    hide Lane, LaneOk;
    if e.priority == priority {
      HeadMoves(Lane(popped, priority), queued);
    }
  }

  lemma {:induction false} HeadMoves(done: seq<Entry>, queued: seq<Entry>)
    requires queued != []
    ensures done + queued == (done + [queued[0]]) + queued[1..]
  {
  }

  lemma {:induction false} IdsGrow(entries: seq<Entry>, e: Entry)
    ensures IdsOf(entries + [e]) == IdsOf(entries) + {e.id}
    ensures entries != [] ==> IdsOf(entries) == IdsOf(entries[1..]) + {entries[0].id}
  {
    var longer := entries + [e];
    assert longer[|entries|] == e && forall i :: 0 <= i < |entries| ==> longer[i] == entries[i];
    if entries != [] {
      assert forall i :: 1 <= i < |entries| ==> entries[i] == entries[1..][i - 1];
      assert forall i :: 0 <= i < |entries| - 1 ==> entries[1..][i] == entries[i + 1];
    }
  }

  lemma {:induction false} EnqueueKeeps(s: State, id: string, priority: Priority)
    requires QueueInv(s)
    ensures QueueInv(EnqueueStep(s, id, priority))
  {
    hide Fifo, IdsOf;
    var entry := Entry(id, priority, |s.past.enqueued|);
    FifoEnqueue(s.past.enqueued, s.past.popped, s.high, High, entry);
    FifoEnqueue(s.past.enqueued, s.past.popped, s.low, Low, entry);
    IdsGrow(s.high, entry);
    IdsGrow(s.low, entry);
  }

  /** The head of the lane that is served comes before every other queued entry. */
  lemma {:induction false} HeadIsLeast(high: seq<Entry>, low: seq<Entry>, arrivals: nat)
    requires LaneOk(high, High, arrivals) && LaneOk(low, Low, arrivals) && (high != [] || low != [])
    ensures var e := if high != [] then high[0] else low[0];
      && (forall f :: (f in high || f in low) && f != e ==> Before(e, f))
      && (high != [] ==> e !in low && forall f :: f in high[1..] <==> f in high && f != e)
      && (high == [] ==> forall f :: f in low[1..] <==> f in low && f != e)
  {
    var e := if high != [] then high[0] else low[0];
    var lane := if high != [] then high else low;
    assert lane == [e] + lane[1..];
    forall f | (f in high || f in low) && f != e
      ensures Before(e, f)
    {
      if f in high {
        var i :| 0 <= i < |high| && high[i] == f;
      } else {
        var i :| 0 <= i < |low| && low[i] == f;
      }
    }
  }

  /** Taking an entry: it is the least of all queued ones by (priority, arrival), nothing else
      leaves, and a low entry leaves only when no high one is queued. */
  lemma {:induction false} PopIsLeast(s: State)
    requires QueueInv(s.(permits := s.permits + 1)) && (s.high != [] || s.low != [])
    ensures var s' := PopStep(s);
      var e := s'.past.popped[|s.past.popped|];
      && e == (if s.high != [] then s.high[0] else s.low[0])
      && s'.past.popped == s.past.popped + [e] && Queued(s, e)
      && (forall f :: Queued(s, f) && f != e ==> Before(e, f))
      && (forall f :: Queued(s', f) <==> Queued(s, f) && f != e)
      && (e.priority == Low ==> s.high == [])
  {
    HeadIsLeast(s.high, s.low, |s.past.enqueued|);
    assert s.high != [] ==> s.high[0].priority == High;
    hide QueueInv, Before;
  }

  lemma {:induction false} PopKeeps(s: State)
    requires QueueInv(s.(permits := s.permits + 1)) && (s.high != [] || s.low != [])
    ensures QueueInv(PopStep(s))
  {
    var e := if s.high != [] then s.high[0] else s.low[0];
    assert s.high == [] ==> e.priority == Low;
    assert s.high != [] ==> e.priority == High;
    hide Fifo, IdsOf;
    FifoPop(s.past.enqueued, s.past.popped, s.high, High, e);
    FifoPop(s.past.enqueued, s.past.popped, s.low, Low, e);
    IdsGrow(s.high, e);
    IdsGrow(s.low, e);
  }

  lemma {:induction false} NextKeepsQueue(s: State, op: Op)
    requires QueueInv(s)
    ensures QueueInv(Next(s, op))
  {
    hide Fifo, IdsOf;
    match op
    case Enqueue(id, priority) => EnqueueKeeps(s, id, priority);
    case Wake(t, stillQueued) =>
      if s.permits > 0 && !s.stopSet && (s.high != [] || s.low != []) {
        PopKeeps(s.(permits := s.permits - 1));
      }
    case _ =>
  }

  /** Lane order and permits in every interleaving, however stops and restarts fall. */
  lemma {:induction false} RunKeepsQueue(ops: seq<Op>)
    ensures QueueInv(Run(ops))
  {
    if ops == [] {
    } else {
      hide QueueInv, Next;
      RunKeepsQueue(ops[..|ops| - 1]);
      NextKeepsQueue(Run(ops[..|ops| - 1]), ops[|ops| - 1]);
    }
  }

  // ---- who runs what ----

  /** The enqueues of a run. */
  function Requests(ops: seq<Op>): seq<(string, Priority)> {
    if ops == [] then []
    else
      var op := ops[|ops| - 1];
      Requests(ops[..|ops| - 1]) + (if op.Enqueue? then [(op.id, op.priority)] else [])
  }

  lemma {:induction false} NextEnqueues(s: State, op: Op)
    ensures Next(s, op).past.enqueued ==
      if op.Enqueue? then s.past.enqueued + [Entry(op.id, op.priority, |s.past.enqueued|)] else s.past.enqueued
  {
  }

  /** The entries ever queued are the enqueues of the run, each with its lane, in order. */
  lemma {:induction false} EnqueuedAre(ops: seq<Op>)
    ensures var (all, requests) := (Run(ops).past.enqueued, Requests(ops));
      |all| == |requests| && forall i :: 0 <= i < |all| ==> all[i] == Entry(requests[i].0, requests[i].1, i)
  {
    if ops != [] {
      hide Next;
      EnqueuedAre(ops[..|ops| - 1]);
      NextEnqueues(Run(ops[..|ops| - 1]), ops[|ops| - 1]);
    }
  }

  /** No entry is taken twice, and what was taken was queued before and is not queued any more. */
  ghost predicate TakenOnce(s: State) {
    && Distinct(s.past.popped)
    && (forall e :: e in s.past.popped ==> e.arrival < |s.past.enqueued| && !Queued(s, e))
  }

  /** `e` is the least entry queued in `s`, and `s'` is what is left when it was taken. */
  ghost predicate Takes(s: State, e: Entry, s': State) {
    && Queued(s, e) && (forall f :: Queued(s, f) && f != e ==> Before(e, f))
    && s'.past.popped == s.past.popped + [e] && (forall f :: Queued(s', f) <==> Queued(s, f) && f != e)
    && s'.past.enqueued == s.past.enqueued
  }

  lemma {:induction false} PopTakes(s: State) returns (e: Entry)
    requires QueueInv(s.(permits := s.permits + 1)) && (s.high != [] || s.low != [])
    ensures e == (if s.high != [] then s.high[0] else s.low[0]) && Takes(s, e, PopStep(s))
    ensures e.arrival < |s.past.enqueued|
  {
    hide *;
    e := if s.high != [] then s.high[0] else s.low[0];
    PopIsLeast(s);
    HeadArrived(s);
    OnlyPopped(s);
    TakesFrom(s, e, PopStep(s));
  }

  lemma {:induction false} TakesFrom(s: State, e: Entry, s': State)
    requires Queued(s, e) && (forall f :: Queued(s, f) && f != e ==> Before(e, f))
    requires s'.past.popped == s.past.popped + [e] && (forall f :: Queued(s', f) <==> Queued(s, f) && f != e)
    requires s'.past.enqueued == s.past.enqueued
    ensures Takes(s, e, s')
  {
    hide Queued, Before;
  }

  lemma {:induction false} PopTakesOnce(s: State)
    requires QueueInv(s.(permits := s.permits + 1)) && TakenOnce(s) && (s.high != [] || s.low != [])
    ensures TakenOnce(PopStep(s))
  {
    hide *;
    var e := PopTakes(s);
    TakenGrows(s, e, PopStep(s));
  }

  lemma {:induction false} TakenGrows(s: State, e: Entry, s': State)
    requires TakenOnce(s) && Takes(s, e, s') && e.arrival < |s.past.enqueued|
    ensures TakenOnce(s')
  {
    hide Queued, Before;
    assert e !in s.past.popped;
    assert forall f :: f in s'.past.popped <==> f in s.past.popped || f == e;
    assert forall i :: 0 <= i < |s.past.popped| ==> s.past.popped[i] in s.past.popped;
  }

  lemma {:induction false} HeadArrived(s: State)
    requires QueueInv(s.(permits := s.permits + 1))
    ensures s.high != [] ==> s.high[0].arrival < |s.past.enqueued|
    ensures s.low != [] ==> s.low[0].arrival < |s.past.enqueued|
  {
  }

  lemma {:induction false} OnlyPopped(s: State)
    requires s.high != [] || s.low != []
    ensures PopStep(s).past.enqueued == s.past.enqueued
  {
  }

  lemma {:induction false} NextTakesOnce(s: State, op: Op)
    requires QueueInv(s) && TakenOnce(s)
    ensures TakenOnce(Next(s, op))
  {
    hide Fifo, IdsOf;
    if op.Wake? {
      if s.permits > 0 && !s.stopSet && (s.high != [] || s.low != []) {
        PopTakesOnce(s.(permits := s.permits - 1));
      }
    }
    hide PopStep;
  }

  lemma {:induction false} RunTakesOnce(ops: seq<Op>)
    ensures TakenOnce(Run(ops))
  {
    if ops != [] {
      hide QueueInv, Next, TakenOnce;
      RunTakesOnce(ops[..|ops| - 1]);
      RunKeepsQueue(ops[..|ops| - 1]);
      NextTakesOnce(Run(ops[..|ops| - 1]), ops[|ops| - 1]);
    }
  }

  /** What a worker does with a permit: it exits if a stop is set; with both lanes empty it waits
      again; else it takes the least entry queued, and runs that one if it is still queued on
      disk. No other worker is touched. */
  ghost predicate WakesTo(s: State, t: nat, stillQueued: bool, s': State)
    requires t < |s.tasks|
  {
    && |s'.tasks| == |s.tasks| && (forall u :: 0 <= u < |s.tasks| && u != t ==> s'.tasks[u] == s.tasks[u])
    && s'.permits == s.permits - 1
    && if s.stopSet then s'.tasks[t] == Exited && s'.past.popped == s.past.popped && s'.high == s.high && s'.low == s.low
       else if s.high == [] && s.low == [] then s'.tasks[t] == Parked && s'.past.popped == s.past.popped
       else exists e :: Takes(s, e, s') && s'.tasks[t] == if stillQueued then Busy(e) else Parked
  }

  lemma {:induction false} WakeStepIs(s: State, t: nat, stillQueued: bool)
    requires QueueInv(s) && t < |s.tasks| && s.tasks[t] == Parked && s.permits > 0
    ensures WakesTo(s, t, stillQueued, WakeStep(s, t, stillQueued))
  {
    var s0 := s.(permits := s.permits - 1);
    if !s.stopSet && (s.high != [] || s.low != []) {
      TakeIs(s0, t, stillQueued);
      assert s0.(permits := s0.permits + 1) == s;
      hide QueueInv, PopStep, TakeStep;
      var e := PopTakes(s0);
      SameQueued(s0, PopStep(s0), s, TakeStep(s0, t, stillQueued), e);
      hide Takes;
    }
    hide QueueInv;
  }

  lemma {:induction false} SameQueued(a: State, a': State, b: State, b': State, e: Entry)
    requires Takes(a, e, a') && a.high == b.high && a.low == b.low && a.past == b.past
    requires a'.high == b'.high && a'.low == b'.low && a'.past == b'.past
    ensures Takes(b, e, b')
  {
    hide Before;
    assert forall f :: Queued(a, f) <==> Queued(b, f);
    assert forall f :: Queued(a', f) <==> Queued(b', f);
    hide Queued;
  }

  lemma {:induction false} TakeIs(s: State, t: nat, stillQueued: bool)
    requires t < |s.tasks| && (s.high != [] || s.low != [])
    ensures var (s', p) := (TakeStep(s, t, stillQueued), PopStep(s));
      && s'.high == p.high && s'.low == p.low && s'.past == p.past && s'.permits == s.permits
      && s'.tasks == if stillQueued then s.tasks[t := Busy(if s.high != [] then s.high[0] else s.low[0])] else s.tasks
  {
  }

  /** The whole life of workers and entries, step by step. A parked worker with a permit wakes
      as above; a running one goes back to waiting exactly when its runner is done; workers appear
      only at a start or an enqueue; entries are taken only by a wakeup. */
  lemma {:induction false} StepOfWorkers(ops: seq<Op>, op: Op)
    ensures var (s, s') := (Run(ops), Run(ops + [op]));
      && (op.Wake? && op.task < |s.tasks| && s.tasks[op.task] == Parked && s.permits > 0 ==>
          WakesTo(s, op.task, op.stillQueued, s'))
      && (!(op.Wake? && op.task < |s.tasks| && s.tasks[op.task] == Parked && s.permits > 0) ==>
          && s'.past.popped == s.past.popped && |s'.tasks| >= |s.tasks|
          && (forall t :: 0 <= t < |s.tasks| ==>
              s'.tasks[t] == if op == RunnerDone(t) && s.tasks[t].Busy? then Parked else s.tasks[t])
          && s'.tasks[|s.tasks|..] ==
             (if (op.StartOp? || op.Enqueue?) && !(s.handle.Some? && s.handle.value < |s.tasks| && s.tasks[s.handle.value] != Exited)
              then [Parked] else []))
  {
    var s, longer := Extend(ops, op);
    RunKeepsQueue(ops);
    hide Run, QueueInv, WakesTo;
    if op.Wake? && op.task < |Run(ops).tasks| && Run(ops).tasks[op.task] == Parked && Run(ops).permits > 0 {
      WakeStepIs(Run(ops), op.task, op.stillQueued);
    }
    hide WakeStep;
  }

  /** Each entry is run at most once: whatever runs was taken from the queue, and nothing is
      taken from it twice. Its id is what the enqueue gave. */
  lemma {:induction false} RunsOnce(ops: seq<Op>)
    ensures var s := Run(ops);
      && Distinct(s.past.popped)
      && (forall e :: e in s.past.popped ==> !Queued(s, e))
      && (forall t :: 0 <= t < |s.tasks| && s.tasks[t].Busy? ==> s.tasks[t].entry in s.past.popped)
      && (forall t, u :: 0 <= t < u < |s.tasks| && s.tasks[t].Busy? && s.tasks[u].Busy? ==> s.tasks[t].entry != s.tasks[u].entry)
  {
    hide *;
    RunTakesOnce(ops);
    RunKeepsBusy(ops);
    OnceMeans(Run(ops));
  }

  lemma {:induction false} OnceMeans(s: State)
    requires TakenOnce(s) && BusyOk(s)
    ensures Distinct(s.past.popped) && (forall e :: e in s.past.popped ==> !Queued(s, e))
    ensures forall t :: 0 <= t < |s.tasks| && s.tasks[t].Busy? ==> s.tasks[t].entry in s.past.popped
    ensures forall t, u :: 0 <= t < u < |s.tasks| && s.tasks[t].Busy? && s.tasks[u].Busy? ==> s.tasks[t].entry != s.tasks[u].entry
  {
    hide Queued, Distinct;
  }

  ghost predicate BusyOk(s: State) {
    && (forall t :: 0 <= t < |s.tasks| && s.tasks[t].Busy? ==> s.tasks[t].entry in s.past.popped)
    && (forall t, u :: 0 <= t < u < |s.tasks| && s.tasks[t].Busy? && s.tasks[u].Busy? ==> s.tasks[t].entry != s.tasks[u].entry)
  }

  lemma {:induction false} RunKeepsBusy(ops: seq<Op>)
    ensures BusyOk(Run(ops))
  {
    if ops == [] {
      hide Next;
    } else {
      var front, op := ops[..|ops| - 1], ops[|ops| - 1];
      assert ops == front + [op];
      hide *;
      RunKeepsBusy(front);
      RunTakesOnce(front);
      StepOfWorkers(front, op);
      BusyStays(Run(front), op, Run(ops));
    }
  }

  lemma {:induction false} BusyStays(s: State, op: Op, s': State)
    requires BusyOk(s) && TakenOnce(s)
    requires op.Wake? && op.task < |s.tasks| && s.tasks[op.task] == Parked && s.permits > 0 ==>
      WakesTo(s, op.task, op.stillQueued, s')
    requires !(op.Wake? && op.task < |s.tasks| && s.tasks[op.task] == Parked && s.permits > 0) ==>
      && s'.past.popped == s.past.popped && |s'.tasks| >= |s.tasks|
      && (forall t :: 0 <= t < |s.tasks| ==>
          s'.tasks[t] == if op == RunnerDone(t) && s.tasks[t].Busy? then Parked else s.tasks[t])
      && (s'.tasks[|s.tasks|..] == [] || s'.tasks[|s.tasks|..] == [Parked])
    ensures BusyOk(s')
  {
    hide Queued, Before, Distinct;
    if op.Wake? && op.task < |s.tasks| && s.tasks[op.task] == Parked && s.permits > 0 {
      WokenBusy(s, op.task, op.stillQueued, s');
    } else {
      assert forall t :: |s.tasks| <= t < |s'.tasks| ==> s'.tasks[t] == s'.tasks[|s.tasks|..][t - |s.tasks|] == Parked;
    }
  }

  lemma {:induction false} WokenBusy(s: State, t: nat, stillQueued: bool, s': State)
    requires BusyOk(s) && TakenOnce(s) && t < |s.tasks| && WakesTo(s, t, stillQueued, s')
    ensures BusyOk(s')
  {
    hide Queued, Before, Distinct;
    assert forall e :: e in s.past.popped ==> e in s'.past.popped;
    if !s.stopSet && (s.high != [] || s.low != []) {
      var e :| Takes(s, e, s') && s'.tasks[t] == if stillQueued then Busy(e) else Parked;
      assert e !in s.past.popped && e in s'.past.popped;
    }
  }

  /** An id is pending from its enqueue until it is cancelled or an entry of that id is taken. */
  lemma {:induction false} PendingStep(s: State, op: Op, id: string)
    requires QueueInv(s)
    ensures var s' := Next(s, op);
      id in s'.pending <==>
        (op.Enqueue? && op.id == id)
        || (id in s.pending && op != CancelQueued(id)
            && (s'.past.popped != s.past.popped ==> s'.past.popped[|s'.past.popped| - 1].id != id))
  {
    hide QueueInv;
  }

  // ---- what needs stops and restarts to stay apart ----

  /** The discipline: a stop is not issued while another one is in progress, and no worker is
      started between the exit of a stopped worker and the end of that stop. */
  predicate Allowed(s: State, op: Op) {
    match op
    case StopBegin => s.stops == []
    case StartOp => s.stops == [] || HasWorker(s)
    case Enqueue(_, _) => s.stops == [] || HasWorker(s)
    case _ => true
  }

  predicate Disciplined(ops: seq<Op>) {
    ops != [] ==> Disciplined(ops[..|ops| - 1]) && Allowed(Run(ops[..|ops| - 1]), ops[|ops| - 1])
  }

  /** One worker at most; it is the one the queue knows, and a stop is pending exactly while
      the stop flag is set and its extra permit not yet consumed. */
  ghost predicate WorkerInv(s: State) {
    && (s.handle.Some? ==> s.handle.value < |s.tasks|)
    && (forall t: nat :: Live(s, t) ==> s.handle == Some(t))
    && (s.stops == [] ==> (s.handle.Some? ==> HasWorker(s) && !s.stopSet) && s.past.stopReleases == s.past.exits)
    && (s.stops != [] ==>
        && |s.stops| == 1 && s.handle == Some(s.stops[0]) && s.stopSet
        && s.past.stopReleases == s.past.exits + (if HasWorker(s) then 1 else 0))
    && s.past.emptyPops == 0
  }

  lemma {:induction false} NextKeepsWorker(s: State, op: Op)
    requires WorkerInv(s) && QueueInv(s) && Allowed(s, op)
    ensures WorkerInv(Next(s, op))
  {
    hide Fifo, IdsOf;
    var s' := Next(s, op);
    match op
    case Wake(t, stillQueued) =>
      if t < |s.tasks| && s.tasks[t] == Parked && s.permits > 0 {
        assert Live(s, t);
        assert forall u: nat :: Live(s', u) ==> Live(s, u);
      }
    case RunnerDone(t) =>
      assert forall u: nat :: Live(s', u) <==> Live(s, u);
    case StopEnd(k) =>
      assert forall u: nat :: Live(s', u) ==> Live(s, u);
    case StopBegin =>
      assert forall u: nat :: Live(s', u) ==> Live(s, u);
    case CancelQueued(_) =>
      assert forall u: nat :: Live(s', u) ==> Live(s, u);
    case _ =>
      assert forall u: nat :: Live(s', u) ==> Live(s, u) || u == |s.tasks|;
  }

  lemma {:induction false} RunKeepsWorker(ops: seq<Op>)
    requires Disciplined(ops)
    ensures QueueInv(Run(ops)) && WorkerInv(Run(ops))
  {
    RunKeepsQueue(ops);
    if ops != [] {
      hide QueueInv, Next, Allowed;
      RunKeepsWorker(ops[..|ops| - 1]);
      RunKeepsQueue(ops[..|ops| - 1]);
      NextKeepsWorker(Run(ops[..|ops| - 1]), ops[|ops| - 1]);
    }
  }

  /** Permits are the queued entries, plus one while a stop waits for its worker to exit. */
  ghost predicate PermitsExact(s: State) {
    s.permits == |s.high| + |s.low| + (if s.stops != [] && HasWorker(s) then 1 else 0)
  }

  /** What the queue is meant to guarantee: exact permits, so that a waiting worker with work to
      do has one (no wakeup is lost), the empty-pop branch never taken, and one runner at most. */
  ghost predicate Promise(s: State) {
    && PermitsExact(s)
    && s.past.emptyPops == 0
    && (forall t: nat, u: nat :: Live(s, t) && Live(s, u) ==> t == u)
    && ((s.high != [] || s.low != []) ==> s.permits > 0)
  }

  lemma {:induction false} WorkerInvPromises(s: State)
    requires QueueInv(s) && WorkerInv(s)
    ensures Promise(s)
  {
    hide Fifo, IdsOf;
  }

  /** One step out of a good state: the permits stay exact if and only if the step respects the
      discipline. */
  lemma {:induction false} AllowedIffExact(s: State, op: Op)
    requires QueueInv(s) && WorkerInv(s)
    ensures Allowed(s, op) <==> PermitsExact(Next(s, op))
  {
    NextKeepsQueue(s, op);
    if Allowed(s, op) {
      NextKeepsWorker(s, op);
      WorkerInvPromises(Next(s, op));
    }
    hide Fifo, IdsOf;
  }

  ghost predicate PromiseAt(ops: seq<Op>, n: nat)
    requires n <= |ops|
  {
    Promise(Run(ops[..n]))
  }

  lemma {:induction false} PrefixesOfFront(ops: seq<Op>)
    requires ops != []
    ensures var front := ops[..|ops| - 1];
      (forall n: nat :: n <= |ops| ==> PromiseAt(ops, n))
      <==> Promise(Run(ops)) && forall n: nat :: n <= |front| ==> PromiseAt(front, n)
  {
    hide Promise, Run;
    var front := ops[..|ops| - 1];
    assert forall n: nat :: n <= |front| ==> front[..n] == ops[..n];
    assert ops[..|ops|] == ops;
    assert forall n: nat :: n <= |front| ==> (PromiseAt(front, n) <==> PromiseAt(ops, n));
    assert PromiseAt(ops, |ops|) <==> Promise(Run(ops));
  }

  /** The promise for a disciplined run. */
  lemma {:induction false} SingleWorkerQueue(ops: seq<Op>)
    requires Disciplined(ops)
    ensures Promise(Run(ops))
  {
    RunKeepsWorker(ops);
    WorkerInvPromises(Run(ops));
  }

  /** The queue keeps its promise at every moment of a run if and only if the run respects the
      discipline: no stop during a stop, no start between the exit of a stopped worker and the
      end of that stop. */
  lemma {:induction false} DisciplinedIffPromise(ops: seq<Op>)
    ensures Disciplined(ops) <==> forall n: nat :: n <= |ops| ==> PromiseAt(ops, n)
  {
    if ops == [] {
      SingleWorkerQueue(ops);
      assert forall n: nat :: n <= |ops| ==> ops[..n] == ops;
    } else {
      var front, op := ops[..|ops| - 1], ops[|ops| - 1];
      DisciplinedIffPromise(front);
      PrefixesOfFront(ops);
      if Disciplined(front) {
        RunKeepsWorker(front);
        AllowedIffExact(Run(front), op);
        if Disciplined(ops) {
          SingleWorkerQueue(ops);
        }
      }
      hide QueueInv, WorkerInv, Next, Allowed, PromiseAt;
    }
  }

  /** What breaks without the discipline: two overlapping stops leave a permit behind, and a
      later worker wakes up to empty lanes. */
  lemma {:induction false} DoubleStopEmptyPop()
    ensures exists ops :: Run(ops).past.emptyPops == 1
  {
    var s, ops := StoppedTwice();
    hide Run;
    s, ops := Extend(ops, StopEnd(0));
    assert s.stops == [0];
    s, ops := Extend(ops, StopEnd(0));
    assert s == State([], [], 1, {}, [Exited], None, true, [], s.past);
    s, ops := Extend(ops, StartOp);
    assert s == State([], [], 1, {}, [Exited, Parked], Some(1), false, [], s.past);
    s, ops := Extend(ops, Wake(1, true));
  }

  lemma {:induction false} StoppedTwice() returns (s: State, ops: seq<Op>)
    ensures s == Run(ops) == State([], [], 1, {}, [Exited], Some(0), true, [0, 0], Past([], [], 2, 1, 0))
  {
    hide Run;
    s, ops := Extend([], StartOp);
    s, ops := Extend(ops, StopBegin);
    s, ops := Extend(ops, StopBegin);
    s, ops := Extend(ops, Wake(0, true));
  }

  /** A job queued between the exit of a stopped worker and the end of that stop starts a
      worker the queue then forgets; the next job starts a second one, and two runners are
      active at once. */
  lemma {:induction false} RestartDuringStopRunsTwo()
    ensures exists ops :: var s := Run(ops);
      |s.tasks| == 3 && s.tasks[1].Busy? && s.tasks[2].Busy?
  {
    var s, ops := WorkerForgotten();
    hide Run;
    s, ops := Extend(ops, Enqueue("b", High));
    assert s.tasks == [Exited, Parked, Parked] && |s.high| == 2 && s.permits == 2;
    s, ops := Extend(ops, Wake(1, true));
    assert s.tasks[1].Busy? && s.tasks[2] == Parked && |s.tasks| == 3 && s.permits == 1 && |s.high| == 1;
    s, ops := Extend(ops, Wake(2, true));
  }

  lemma {:induction false} WorkerForgotten() returns (s: State, ops: seq<Op>)
    ensures s == Run(ops) && s.tasks == [Exited, Parked] && s.handle == None && s.stops == []
    ensures |s.high| == 1 && s.permits == 1 && !s.stopSet
  {
    hide Run;
    s, ops := Extend([], StartOp);
    s, ops := Extend(ops, StopBegin);
    s, ops := Extend(ops, Wake(0, true));
    assert s.tasks == [Exited] && s.permits == 0 && s.stops == [0] && s.handle == Some(0);
    s, ops := Extend(ops, Enqueue("a", High));
    assert s.tasks == [Exited, Parked] && s.handle == Some(1) && !s.stopSet && |s.high| == 1;
    s, ops := Extend(ops, StopEnd(0));
  }

  lemma {:induction false} Extend(ops: seq<Op>, op: Op) returns (s: State, longer: seq<Op>)
    ensures longer == ops + [op] && s == Run(longer) == Next(Run(ops), op)
    ensures ops == [] ==> Run(ops) == INITIAL
  {
    s, longer := Run(ops + [op]), ops + [op];
    assert (ops + [op])[..|ops|] == ops;
  }

  // ---- the queue as an object ----

  /** `JobQueue`. The awaits of `stop` and of the worker loop split them into the methods
      below; a runner is whatever happens between `Wake` and `RunnerReturns`. */
  class Queue {
    var high: seq<Entry>
    var low: seq<Entry>
    var permits: int
    var pending: set<string>
    var tasks: seq<Task>
    var handle: Option<nat>
    var stopSet: bool
    var stops: seq<nat>
    ghost var past: Past
    var arrivals: nat

    ghost function View(): State
      reads this
    {
      State(high, low, permits, pending, tasks, handle, stopSet, stops, past)
    }

    ghost predicate Valid()
      reads this
    {
      QueueInv(View()) && arrivals == |past.enqueued|
    }

    constructor ()
      ensures View() == INITIAL && Valid()
    {
      high, low, permits, pending, tasks, handle, stopSet, stops := [], [], 0, {}, [], None, false, [];
      past, arrivals := Past([], [], 0, 0, 0), 0;
    }

    method Start()
      requires Valid()
      modifies this
      ensures Valid() && View() == StartStep(old(View()))
    {
      NextKeepsQueue(View(), StartOp);
      hide QueueInv;
      if handle.Some? && handle.value < |tasks| && !tasks[handle.value].Exited? {
        return;
      }
      stopSet := false;
      handle := Some(|tasks|);
      tasks := tasks + [Parked];
    }

    method EnqueueJob(id: string, priority: Priority)
      requires Valid()
      modifies this
      ensures Valid() && View() == EnqueueStep(old(View()), id, priority)
    {
      hide QueueInv, StartStep;
      EnqueueKeeps(View(), id, priority);
      Start();
      Append(id, priority);
    }

    /** What `enqueue` does once a worker is there. */
    method Append(id: string, priority: Priority)
      requires arrivals == |past.enqueued|
      modifies this
      ensures arrivals == |past.enqueued| && View() == Appended(old(View()), id, priority)
    {
      pending := pending + {id};
      var entry := Entry(id, priority, arrivals);
      if priority == High {
        high := high + [entry];
      } else {
        low := low + [entry];
      }
      permits := permits + 1;
      past := past.(enqueued := past.enqueued + [entry]);
      arrivals := arrivals + 1;
    }

    method Cancel(id: string) returns (found: bool)
      requires Valid()
      modifies this`pending
      ensures Valid() && View() == Next(old(View()), CancelQueued(id))
      ensures found <==> id in old(pending)
      ensures pending == old(pending) - {id}
    {
      NextKeepsQueue(View(), CancelQueued(id));
      found := id in pending;
      pending := pending - {id};
    }

    /** One pass of the worker loop up to its next await; `stillQueued` is what the job's status
        file says. */
    method Wake(t: nat, stillQueued: bool)
      requires Valid() && t < |tasks| && tasks[t] == Parked && permits > 0
      modifies this
      ensures Valid() && View() == WakeStep(old(View()), t, stillQueued)
    {
      NextKeepsQueue(View(), Op.Wake(t, stillQueued));
      hide QueueInv, TakeStep;
      Acquire();
      if stopSet {
        Exit(t);
      } else if high == [] && low == [] {
        past := past.(emptyPops := past.emptyPops + 1);
      } else {
        var _ := Take(t, stillQueued);
      }
    }

    /** `await self._avail.acquire()` */
    method Acquire()
      modifies this`permits
      ensures View() == old(View()).(permits := old(permits) - 1)
    {
      permits := permits - 1;
    }

    method Exit(t: nat)
      requires t < |tasks|
      modifies this`tasks, this`past
      ensures View() == old(View()).(tasks := old(tasks)[t := Exited], past := old(past).(exits := old(past).exits + 1))
    {
      tasks := tasks[t := Exited];
      past := past.(exits := past.exits + 1);
    }

    /** Takes an entry, the least one queued, and runs it unless it was cancelled on disk. */
    method Take(t: nat, stillQueued: bool) returns (entry: Entry)
      requires t < |tasks| && (high != [] || low != [])
      modifies this
      ensures View() == TakeStep(old(View()), t, stillQueued) && arrivals == old(arrivals)
      ensures entry == (if old(high) != [] then old(high[0]) else old(low[0]))
    {
      hide PopStep;
      entry := Pop();
      if stillQueued {
        tasks := tasks[t := Busy(entry)];
      }
    }

    /** `_high.popleft() if _high else _low.popleft()` */
    method Pop() returns (entry: Entry)
      requires high != [] || low != []
      modifies this`high, this`low, this`pending, this`past
      ensures View() == PopStep(old(View()))
      ensures entry == (if old(high) != [] then old(high[0]) else old(low[0]))
    {
      if high != [] {
        entry := high[0];
        high := high[1..];
      } else {
        entry := low[0];
        low := low[1..];
      }
      past := past.(popped := past.popped + [entry]);
      pending := pending - {entry.id};
    }

    method RunnerReturns(t: nat)
      requires Valid() && t < |tasks| && tasks[t].Busy?
      modifies this`tasks
      ensures Valid() && View() == Next(old(View()), RunnerDone(t))
    {
      NextKeepsQueue(View(), RunnerDone(t));
      tasks := tasks[t := Parked];
    }

    /** `stop` up to its await. */
    method BeginStop()
      requires Valid()
      modifies this
      ensures Valid() && View() == Next(old(View()), StopBegin)
    {
      NextKeepsQueue(View(), StopBegin);
      hide QueueInv;
      if handle.None? {
        return;
      }
      stopSet := true;
      permits := permits + 1;
      stops := stops + [handle.value];
      past := past.(stopReleases := past.stopReleases + 1);
    }

    /** The rest of `stop`, once the worker it awaits has finished. */
    method FinishStop(k: nat)
      requires Valid() && k < |stops| && !Live(View(), stops[k])
      modifies this
      ensures Valid() && View() == Next(old(View()), StopEnd(k))
    {
      NextKeepsQueue(View(), StopEnd(k));
      hide QueueInv;
      handle := None;
      stops := stops[..k] + stops[k + 1..];
    }
  }
}
