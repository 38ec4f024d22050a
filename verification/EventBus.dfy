/** The per-job event bus: history, replay to late subscribers, live delivery. */
module EventBus {
  import opened Prelude

  const MAX_HISTORY := 5000
  const MAX_SUBSCRIBERS := 8

  datatype Event = Event(kind: string, seqNo: int, payload: string)

  /** An entry of a subscriber's queue. */
  datatype Item = Live(event: Event) | Sentinel

  datatype Ending = SawClose | CutOff | SnapshotOnly | Left

  datatype Phase = Replay | Tail | Over(ending: Ending)

  /** One call of `subscribe`: its local snapshot, how far the replay got, its queue, and the
      events it has yielded. `first` is the number of events emitted before its snapshot. */
  datatype Subscription = Subscription(
    first: nat,
    snapshot: seq<Event>,
    pos: nat,
    queue: seq<Item>,
    phase: Phase,
    capped: bool,
    delivered: seq<Event>)

  /** The bus, its registered subscribers by index into `subs`, and for the record every
      subscription ever started and every event ever emitted. */
  datatype State = State(
    history: seq<Event>,
    seqNo: nat,
    closed: bool,
    registered: seq<nat>,
    subs: seq<Subscription>,
    emitted: seq<Event>)

  datatype Op =
    | Emit(kind: string, payload: string)
    | Open
    | Pull(sub: nat)
    | Leave(sub: nat)
    | Close

  const INITIAL := State([], 0, false, [], [], [])

  // ---- the steps ----

  /** Every registered queue gets `item`. */
  function Broadcast(subs: seq<Subscription>, registered: seq<nat>, item: Item): (r: seq<Subscription>)
    ensures |r| == |subs|
  {
    seq(|subs|, i requires 0 <= i < |subs| =>
      if i in registered then subs[i].(queue := subs[i].queue + [item]) else subs[i])
  }

  function Unregister(registered: seq<nat>, h: nat): seq<nat> {
    if registered == [] then []
    else if registered[0] == h then registered[1..]
    else [registered[0]] + Unregister(registered[1..], h)
  }

  function EmitStep(s: State, kind: string, payload: string): State {
    if s.closed then s
    else
      var event := Event(kind, s.seqNo + 1, payload);
      s.(seqNo := s.seqNo + 1,
         history := (if |s.history| >= MAX_HISTORY then s.history[1..] else s.history) + [event],
         subs := Broadcast(s.subs, s.registered, Live(event)),
         emitted := s.emitted + [event])
  }

  function OpenStep(s: State): State
    requires |s.history| <= s.seqNo
  {
    var capped := |s.registered| >= MAX_SUBSCRIBERS;
    var sub := Subscription(s.seqNo - |s.history|, s.history, 0, [], Replay, capped, []);
    s.(subs := s.subs + [sub],
       registered := if capped then s.registered else s.registered + [|s.subs|])
  }

  function End(s: State, h: nat, sub: Subscription, ending: Ending): State
    requires h < |s.subs|
  {
    s.(subs := s.subs[h := sub.(phase := Over(ending))], registered := Unregister(s.registered, h))
  }

  /** Resuming subscriber `h` until it yields, ends or has to wait. */
  function PullStep(s: State, h: nat): State {
    if h >= |s.subs| then s
    else
      var sub := s.subs[h];
      match sub.phase
      case Over(_) => s
      case Tail => TailStep(s, h, sub)
      case Replay =>
        if sub.pos < |sub.snapshot| then
          s.(subs := s.subs[h := sub.(pos := sub.pos + 1, delivered := sub.delivered + [sub.snapshot[sub.pos]])])
        else if sub.capped then End(s, h, sub, SnapshotOnly)
        else if s.closed then End(s, h, sub, CutOff)
        else TailStep(s, h, sub.(phase := Tail))
  }

  /** The test against `snapshot_seqs`. */
  predicate InSnapshot(sub: Subscription, e: Event) {
    exists k :: 0 <= k < |sub.snapshot| && sub.snapshot[k].seqNo == e.seqNo
  }

  /** `await q.get()` and what follows; without an entry the subscriber waits. */
  function TailStep(s: State, h: nat, sub: Subscription): State
    requires h < |s.subs|
  {
    if sub.queue == [] then s.(subs := s.subs[h := sub])
    else
      var rest := sub.(queue := sub.queue[1..]);
      match sub.queue[0]
      case Sentinel => End(s, h, rest, SawClose)
      case Live(e) =>
        if InSnapshot(sub, e) then s.(subs := s.subs[h := rest])
        else s.(subs := s.subs[h := rest.(delivered := rest.delivered + [e])])
  }

  function LeaveStep(s: State, h: nat): State {
    if h >= |s.subs| || s.subs[h].phase.Over? then s else End(s, h, s.subs[h], Left)
  }

  function CloseStep(s: State): State {
    if s.closed then s else s.(closed := true, subs := Broadcast(s.subs, s.registered, Sentinel))
  }

  function Next(s: State, op: Op): State
    requires |s.history| <= s.seqNo
  {
    match op
    case Emit(kind, payload) => EmitStep(s, kind, payload)
    case Open => OpenStep(s)
    case Pull(h) => PullStep(s, h)
    case Leave(h) => LeaveStep(s, h)
    case Close => CloseStep(s)
  }

  // ---- the invariant ----

  function Events(queue: seq<Item>): seq<Event> {
    if queue == [] then []
    else Events(queue[..|queue| - 1])
         + (match queue[|queue| - 1] case Live(e) => [e] case Sentinel => [])
  }

  function Lives(events: seq<Event>): (r: seq<Item>)
    ensures |r| == |events|
  {
    seq(|events|, i requires 0 <= i < |events| => Live(events[i]))
  }

  /** The queue of a registered subscriber: the events it still has to see, then the sentinel
      once the bus is closed. */
  ghost predicate QueueHolds(queue: seq<Item>, events: seq<Event>, closed: bool) {
    queue == Lives(events) + (if closed then [Sentinel] else [])
  }

  /** What one subscription has seen and will see. */
  ghost predicate SubOk(sub: Subscription, emitted: seq<Event>, closed: bool) {
    && sub.first + |sub.snapshot| <= |emitted|
    && sub.snapshot == emitted[sub.first..sub.first + |sub.snapshot|]
    && sub.pos <= |sub.snapshot|
    && match sub.phase
       case Replay =>
         && sub.delivered == sub.snapshot[..sub.pos]
         && (!sub.capped ==>
             var unseen := emitted[sub.first + |sub.snapshot|..];
             QueueHolds(sub.queue, unseen, false) || (closed && QueueHolds(sub.queue, unseen, true)))
       case Tail =>
         && !sub.capped && sub.first + |sub.delivered| <= |emitted| && |sub.snapshot| <= |sub.delivered|
         && sub.delivered == emitted[sub.first..sub.first + |sub.delivered|]
         && QueueHolds(sub.queue, emitted[sub.first + |sub.delivered|..], closed)
       case Over(SawClose) => closed && sub.delivered == emitted[sub.first..]
       case Over(CutOff) => closed && !sub.capped && sub.delivered == sub.snapshot
       case Over(SnapshotOnly) => sub.capped && sub.delivered == sub.snapshot
       case Over(Left) => sub.delivered <= emitted[sub.first..]
  }

  ghost predicate Consecutive(emitted: seq<Event>) {
    forall i :: 0 <= i < |emitted| ==> emitted[i].seqNo == i + 1
  }

  ghost predicate HistoryOk(s: State) {
    && s.seqNo == |s.emitted| && Consecutive(s.emitted)
    && |s.history| == (if s.seqNo < MAX_HISTORY then s.seqNo else MAX_HISTORY)
    && s.history == s.emitted[|s.emitted| - |s.history|..]
  }

  /** Registered are exactly the running, uncapped subscriptions. */
  ghost predicate RegisteredOk(registered: seq<nat>, subs: seq<Subscription>) {
    && Distinct(registered) && |registered| <= MAX_SUBSCRIBERS
    && (forall h: nat :: h in registered <==> h < |subs| && !subs[h].capped && !subs[h].phase.Over?)
  }

  ghost predicate SubsOk(subs: seq<Subscription>, emitted: seq<Event>, closed: bool) {
    forall h :: 0 <= h < |subs| ==> SubOk(subs[h], emitted, closed)
  }

  ghost predicate Inv(s: State) {
    HistoryOk(s) && RegisteredOk(s.registered, s.subs) && SubsOk(s.subs, s.emitted, s.closed)
  }

  lemma {:induction false} UnregisterKeeps(registered: seq<nat>, h: nat)
    requires Distinct(registered)
    ensures Distinct(Unregister(registered, h)) && |Unregister(registered, h)| <= |registered|
    ensures forall k: nat :: k in Unregister(registered, h) <==> k in registered && k != h
  {
    if registered != [] {
      assert registered == [registered[0]] + registered[1..];
      if registered[0] != h {
        UnregisterKeeps(registered[1..], h);
        var rest := Unregister(registered[1..], h);
        assert registered[0] !in registered[1..];
        assert forall i :: 0 <= i < |rest| ==> rest[i] in registered[1..];
      }
    }
  }

  /** Changing one subscription, possibly ending it, touches nothing else. */
  lemma {:induction false} ReplaceSub(s: State, h: nat, sub: Subscription)
    requires Inv(s) && h < |s.subs| && !s.subs[h].phase.Over?
    requires sub.capped == s.subs[h].capped && SubOk(sub, s.emitted, s.closed)
    ensures !sub.phase.Over? ==> Inv(s.(subs := s.subs[h := sub]))
    ensures sub.phase.Over? ==> Inv(s.(subs := s.subs[h := sub], registered := Unregister(s.registered, h)))
  {
    hide HistoryOk, SubOk;
    UnregisterKeeps(s.registered, h);
    SameHistory(s, s.(subs := s.subs[h := sub]));
    SameHistory(s, s.(subs := s.subs[h := sub], registered := Unregister(s.registered, h)));
  }

  lemma {:induction false} EmitKeepsHistory(s: State, kind: string, payload: string)
    requires HistoryOk(s) && !s.closed
    ensures HistoryOk(EmitStep(s, kind, payload))
  {
    var event := Event(kind, s.seqNo + 1, payload);
    var k := |s.emitted| - |s.history|;
    SuffixSnoc(s.emitted, k, event);
    if |s.history| >= MAX_HISTORY {
      SuffixSnoc(s.emitted, k + 1, event);
      assert s.history[1..] == s.emitted[k + 1..];
    }
  }

  lemma {:induction false} SuffixSnoc(emitted: seq<Event>, k: nat, event: Event)
    requires k <= |emitted|
    ensures (emitted + [event])[k..] == emitted[k..] + [event]
  {
  }

  lemma {:induction false} EmitKeeps(s: State, kind: string, payload: string)
    requires Inv(s)
    ensures Inv(EmitStep(s, kind, payload))
  {
    if !s.closed {
      hide HistoryOk, SubOk, Distinct;
      EmitKeepsHistory(s, kind, payload);
      var s' := EmitStep(s, kind, payload);
      var event := s'.emitted[|s.emitted|];
      forall h | 0 <= h < |s'.subs|
        ensures SubOk(s'.subs[h], s'.emitted, false)
      {
        EmitKeepsSub(s.subs[h], s.emitted, event, h in s.registered);
      }
    }
  }

  lemma {:induction false} EmitKeepsSub(sub: Subscription, emitted: seq<Event>, event: Event, registered: bool)
    requires SubOk(sub, emitted, false)
    requires registered <==> !sub.capped && !sub.phase.Over?
    ensures SubOk(if registered then sub.(queue := sub.queue + [Live(event)]) else sub, emitted + [event], false)
  {
    var longer := emitted + [event];
    var seen := if sub.phase.Tail? then |sub.delivered| else |sub.snapshot|;
    assert longer[sub.first..sub.first + |sub.snapshot|] == emitted[sub.first..sub.first + |sub.snapshot|];
    if sub.first + seen <= |emitted| {
      assert longer[sub.first + seen..] == emitted[sub.first + seen..] + [event];
      assert Lives(emitted[sub.first + seen..] + [event]) == Lives(emitted[sub.first + seen..]) + [Live(event)];
      assert longer[sub.first..sub.first + seen] == emitted[sub.first..sub.first + seen];
    }
    assert longer[sub.first..] == emitted[sub.first..] + [event];
  }

  lemma {:induction false} OpenedOk(emitted: seq<Event>, history: seq<Event>, capped: bool, closed: bool)
    requires |history| <= |emitted| && history == emitted[|emitted| - |history|..]
    ensures SubOk(Subscription(|emitted| - |history|, history, 0, [], Replay, capped, []), emitted, closed)
    ensures |history| <= |emitted|
  {
    assert emitted[|emitted|..] == [];
    assert emitted[|emitted| - |history|..|emitted|] == history;
  }

  lemma {:induction false} OneMoreSub(subs: seq<Subscription>, sub: Subscription, emitted: seq<Event>, closed: bool)
    requires SubsOk(subs, emitted, closed) && SubOk(sub, emitted, closed)
    ensures SubsOk(subs + [sub], emitted, closed)
  {
    hide SubOk;
  }

  lemma {:induction false} OpenKeeps(s: State)
    requires Inv(s)
    ensures Inv(OpenStep(s))
  {
    hide HistoryOk, SubOk, SubsOk, RegisteredOk, QueueHolds, Distinct;
    KnownHistory(s);
    var s' := OpenStep(s);
    SameHistory(s, s');
    var sub := s'.subs[|s.subs|];
    OpenedOk(s.emitted, s.history, sub.capped, s.closed);
    OneMoreSub(s.subs, sub, s.emitted, s.closed);
    RegisterNew(s.registered, s.subs, sub);
  }

  lemma {:induction false} KnownHistory(s: State)
    requires HistoryOk(s)
    ensures s.seqNo == |s.emitted| && |s.history| <= |s.emitted|
    ensures s.history == s.emitted[|s.emitted| - |s.history|..]
  {
  }

  lemma {:induction false} RegisterNew(registered: seq<nat>, subs: seq<Subscription>, sub: Subscription)
    requires RegisteredOk(registered, subs) && !sub.phase.Over?
    ensures sub.capped ==> RegisteredOk(registered, subs + [sub])
    ensures !sub.capped && |registered| < MAX_SUBSCRIBERS ==> RegisteredOk(registered + [|subs|], subs + [sub])
  {
    var longer := registered + [|subs|];
    assert |subs| !in registered;
    assert forall h: nat :: h in longer <==> h in registered || h == |subs|;
  }

  lemma {:induction false} SameHistory(s: State, s': State)
    requires HistoryOk(s) && s'.history == s.history && s'.seqNo == s.seqNo && s'.emitted == s.emitted
    ensures HistoryOk(s')
  {
  }

  lemma {:induction false} CloseKeepsSub(sub: Subscription, emitted: seq<Event>, registered: bool)
    requires SubOk(sub, emitted, false)
    requires registered <==> !sub.capped && !sub.phase.Over?
    ensures SubOk(if registered then sub.(queue := sub.queue + [Sentinel]) else sub, emitted, true)
  {
  }

  lemma {:induction false} CloseKeeps(s: State)
    requires Inv(s)
    ensures Inv(CloseStep(s))
  {
    if !s.closed {
      var s' := CloseStep(s);
      SameHistory(s, s');
      hide HistoryOk, SubOk;
      forall h | 0 <= h < |s'.subs|
        ensures SubOk(s'.subs[h], s'.emitted, true)
      {
        CloseKeepsSub(s.subs[h], s.emitted, h in s.registered);
      }
    }
  }

  lemma {:induction false} ReplayKeeps(sub: Subscription, emitted: seq<Event>, closed: bool)
    requires SubOk(sub, emitted, closed) && sub.phase.Replay?
    ensures sub.pos < |sub.snapshot| ==>
      SubOk(sub.(pos := sub.pos + 1, delivered := sub.delivered + [sub.snapshot[sub.pos]]), emitted, closed)
    ensures sub.pos <= |sub.snapshot|
  {
    hide QueueHolds;
  }

  lemma {:induction false} ReplayEnds(sub: Subscription, emitted: seq<Event>, closed: bool)
    requires SubOk(sub, emitted, closed) && sub.phase.Replay? && sub.pos == |sub.snapshot|
    ensures sub.capped ==> SubOk(sub.(phase := Over(SnapshotOnly)), emitted, closed)
    ensures !sub.capped && closed ==> SubOk(sub.(phase := Over(CutOff)), emitted, closed)
    ensures !sub.capped && !closed ==> SubOk(sub.(phase := Tail), emitted, closed)
  {
    hide QueueHolds;
    assert sub.delivered == sub.snapshot;
  }

  lemma {:induction false} PullKeeps(s: State, h: nat)
    requires Inv(s)
    ensures Inv(PullStep(s, h))
  {
    if h < |s.subs| && !s.subs[h].phase.Over? {
      var sub := s.subs[h];
      assert SubOk(sub, s.emitted, s.closed);
      hide Inv, SubOk, TailStep;
      if sub.phase.Tail? {
        TailKeeps(s, h, sub);
      } else {
        ReplayKeeps(sub, s.emitted, s.closed);
        if sub.pos < |sub.snapshot| {
          ReplaceSub(s, h, sub.(pos := sub.pos + 1, delivered := sub.delivered + [sub.snapshot[sub.pos]]));
        } else if sub.capped {
          ReplayEnds(sub, s.emitted, s.closed);
          ReplaceSub(s, h, sub.(phase := Over(SnapshotOnly)));
        } else if s.closed {
          ReplayEnds(sub, s.emitted, s.closed);
          ReplaceSub(s, h, sub.(phase := Over(CutOff)));
        } else {
          ReplayEnds(sub, s.emitted, s.closed);
          TailKeeps(s, h, sub.(phase := Tail));
        }
      }
    }
  }

  /** The head of a live subscriber's queue is the next event it has to see; it is newer than
      the snapshot, so the duplicate test never applies. The sentinel comes after the last. */
  lemma {:induction false} QueueHead(sub: Subscription, emitted: seq<Event>, closed: bool)
    requires SubOk(sub, emitted, closed) && sub.phase.Tail? && sub.queue != [] && Consecutive(emitted)
    ensures var rest := sub.(queue := sub.queue[1..]);
      match sub.queue[0]
      case Sentinel => SubOk(rest.(phase := Over(SawClose)), emitted, closed)
      case Live(e) => !InSnapshot(sub, e) && SubOk(rest.(delivered := rest.delivered + [e]), emitted, closed)
  {
    var next := sub.first + |sub.delivered|;
    QueueParts(sub.queue, emitted, next, closed);
    if sub.queue[0] == Sentinel {
      assert emitted[sub.first..next] == emitted[sub.first..];
    } else {
      var e := sub.queue[0].event;
      NotInSnapshot(sub, emitted, next);
      hide QueueHolds, InSnapshot;
      assert sub.delivered + [e] == emitted[sub.first..next + 1];
    }
  }

  lemma {:induction false} QueueParts(queue: seq<Item>, emitted: seq<Event>, next: nat, closed: bool)
    requires next <= |emitted| && QueueHolds(queue, emitted[next..], closed) && queue != []
    ensures queue[0] == Sentinel ==> closed && next == |emitted|
    ensures queue[0] != Sentinel ==>
      && next < |emitted| && queue[0] == Live(emitted[next])
      && QueueHolds(queue[1..], emitted[next + 1..], closed)
  {
    var unseen := emitted[next..];
    if unseen != [] {
      assert queue[0] == Live(unseen[0]);
      assert emitted[next + 1..] == unseen[1..];
      assert Lives(unseen)[1..] == Lives(unseen[1..]);
    }
  }

  lemma {:induction false} NotInSnapshot(sub: Subscription, emitted: seq<Event>, next: nat)
    requires next < |emitted| && Consecutive(emitted) && sub.first + |sub.snapshot| <= next
    requires sub.snapshot == emitted[sub.first..sub.first + |sub.snapshot|]
    ensures !InSnapshot(sub, emitted[next])
  {
    forall k | 0 <= k < |sub.snapshot|
      ensures sub.snapshot[k].seqNo < emitted[next].seqNo
    {
      assert sub.snapshot[k] == emitted[sub.first + k];
    }
  }

  lemma {:induction false} TailKeeps(s: State, h: nat, sub: Subscription)
    requires Inv(s) && h < |s.subs| && !s.subs[h].phase.Over?
    requires sub.phase.Tail? && sub.capped == s.subs[h].capped && SubOk(sub, s.emitted, s.closed)
    ensures Inv(TailStep(s, h, sub))
  {
    assert Consecutive(s.emitted);
    hide Inv, SubOk, InSnapshot;
    if sub.queue == [] {
      ReplaceSub(s, h, sub);
    } else {
      QueueHead(sub, s.emitted, s.closed);
      var rest := sub.(queue := sub.queue[1..]);
      if sub.queue[0] == Sentinel {
        ReplaceSub(s, h, rest.(phase := Over(SawClose)));
      } else {
        ReplaceSub(s, h, rest.(delivered := rest.delivered + [sub.queue[0].event]));
      }
    }
  }

  lemma {:induction false} NextKeeps(s: State, op: Op)
    requires Inv(s)
    ensures Inv(Next(s, op))
  {
    match op
    case Emit(kind, payload) => EmitKeeps(s, kind, payload);
    case Open => OpenKeeps(s);
    case Pull(h) => PullKeeps(s, h);
    case Leave(h) =>
      if h < |s.subs| && !s.subs[h].phase.Over? {
        LeaveKeeps(s, h);
      }
    case Close => CloseKeeps(s);
  }

  lemma {:induction false} LeaveKeepsSub(sub: Subscription, emitted: seq<Event>, closed: bool)
    requires SubOk(sub, emitted, closed) && !sub.phase.Over?
    ensures SubOk(sub.(phase := Over(Left)), emitted, closed)
  {
    var all := emitted[sub.first..];
    assert sub.phase.Replay? ==> sub.snapshot[..sub.pos] == all[..sub.pos];
    assert sub.phase.Tail? ==> sub.delivered == all[..|sub.delivered|];
  }

  lemma {:induction false} LeaveKeeps(s: State, h: nat)
    requires Inv(s) && h < |s.subs| && !s.subs[h].phase.Over?
    ensures Inv(LeaveStep(s, h))
  {
    hide SubOk, HistoryOk;
    LeaveKeepsSub(s.subs[h], s.emitted, s.closed);
    ReplaceSub(s, h, s.subs[h].(phase := Over(Left)));
  }

  // ---- every interleaving ----

  ghost function Reach(ops: seq<Op>): (s: State)
    ensures Inv(s)
  {
    if ops == [] then INITIAL
    else
      var before := Reach(ops[..|ops| - 1]);
      NextKeeps(before, ops[|ops| - 1]);
      Next(before, ops[|ops| - 1])
  }

  /** What a subscriber still has to see of its own snapshot. */
  function Unread(sub: Subscription): seq<Event> {
    if sub.phase.Replay? && sub.pos <= |sub.snapshot| then sub.snapshot[sub.pos..] else []
  }

  lemma {:induction false} SubSeesAll(sub: Subscription, emitted: seq<Event>, closed: bool)
    requires SubOk(sub, emitted, closed) && !sub.capped && !sub.phase.Over?
    ensures sub.delivered + Unread(sub) + Events(sub.queue) == emitted[sub.first..]
  {
    var seen := if sub.phase.Tail? then |sub.delivered| else |sub.snapshot|;
    var unseen := emitted[sub.first + seen..];
    assert QueueHolds(sub.queue, unseen, false) || QueueHolds(sub.queue, unseen, true);
    EventsOfHeld(sub.queue, unseen);
    assert sub.delivered + Unread(sub) == emitted[sub.first..sub.first + seen] by {
      SliceJoin(sub.snapshot, 0, sub.pos);
    }
    hide SubOk, Events, QueueHolds, Lives, Unread;
    SliceJoin(emitted, sub.first, seen);
  }

  lemma {:induction false} SliceJoin(events: seq<Event>, i: nat, n: nat)
    requires i + n <= |events|
    ensures events[i..i + n] + events[i + n..] == events[i..]
    ensures events[0..n] == events[..n] && events[0..] == events
  {
  }

  lemma {:induction false} EventsOfHeld(queue: seq<Item>, events: seq<Event>)
    requires QueueHolds(queue, events, false) || QueueHolds(queue, events, true)
    ensures Events(queue) == events
  {
    hide Events, Lives;
    EventsOfQueue(events, false);
    EventsOfQueue(events, true);
  }

  lemma {:induction false} SeesAllSince(ops: seq<Op>, h: nat)
    requires h < |Reach(ops).subs|
    ensures var s := Reach(ops);
      var sub := s.subs[h];
      && sub.first <= |s.emitted|
      && (!sub.capped && !sub.phase.Over? ==> sub.delivered + Unread(sub) + Events(sub.queue) == s.emitted[sub.first..])
      && (forall i :: 0 <= i < |s.emitted| ==> s.emitted[i].seqNo == i + 1)
      && |s.history| == (if s.seqNo < MAX_HISTORY then s.seqNo else MAX_HISTORY) <= |s.emitted|
      && s.history == s.emitted[|s.emitted| - |s.history|..]
  {
    var s := Reach(ops);
    assert SubOk(s.subs[h], s.emitted, s.closed);
    hide Reach;
    if !s.subs[h].capped && !s.subs[h].phase.Over? {
      SubSeesAll(s.subs[h], s.emitted, s.closed);
    }
  }

  lemma {:induction false} PullKeepsStart(s: State, k: nat, h: nat)
    requires h < |s.subs|
    ensures var s' := PullStep(s, k);
      && h < |s'.subs| && s'.subs[h].first == s.subs[h].first && s'.subs[h].snapshot == s.subs[h].snapshot
      && s'.subs[h].capped == s.subs[h].capped && s'.emitted == s.emitted && s'.closed == s.closed
      && |s'.subs| == |s.subs| && (k != h ==> s'.subs[h] == s.subs[h])
  {
    hide InSnapshot, Unregister;
  }

  lemma {:induction false} NextKeepsStart(s: State, op: Op, h: nat)
    requires |s.history| <= s.seqNo && h < |s.subs|
    ensures var s' := Next(s, op);
      && h < |s'.subs| && s'.subs[h].first == s.subs[h].first && s'.subs[h].snapshot == s.subs[h].snapshot
      && s'.subs[h].capped == s.subs[h].capped
  {
    if op.Pull? {
      PullKeepsStart(s, op.sub, h);
    }
    hide PullStep, Unregister;
  }

  lemma {:induction false} KeepsStart(ops: seq<Op>, more: seq<Op>, h: nat)
    requires h < |Reach(ops).subs|
    ensures var (s, s') := (Reach(ops), Reach(ops + more));
      && h < |s'.subs| && s'.subs[h].first == s.subs[h].first && s'.subs[h].snapshot == s.subs[h].snapshot
      && s'.subs[h].capped == s.subs[h].capped
    decreases |more|
  {
    hide *;
    if more == [] {
      assert ops + more == ops;
    } else {
      var front, op := more[..|more| - 1], more[|more| - 1];
      KeepsStart(ops, front, h);
      assert ops + more == (ops + front) + [op];
      EnoughSeen(Reach(ops + front));
      NextKeepsStart(Reach(ops + front), op, h);
      var s, longer := Extend(ops + front, op);
    }
  }

  /** How many of the events emitted so far a new subscriber does not see any more. */
  function Missed(emitted: seq<Event>): nat {
    if |emitted| <= 5000 then 0 else |emitted| - 5000
  }

  /** A subscriber starts with the whole history, the last 5000 events, as its snapshot, and is
      capped exactly when eight uncapped ones are running. Nothing changes that later. */
  lemma {:induction false} StartsWithHistory(ops: seq<Op>, more: seq<Op>)
    ensures var (s, h) := (Reach(ops), |Reach(ops).subs|);
      var subs := Reach(ops + [Open] + more).subs;
      && h < |subs| && subs[h].first == Missed(s.emitted) && subs[h].snapshot == s.history == s.emitted[Missed(s.emitted)..]
      && Distinct(s.registered) && |s.registered| <= 8 && (subs[h].capped <==> |s.registered| == 8)
      && (forall k: nat :: k in s.registered <==> k < |s.subs| && !s.subs[k].capped && !s.subs[k].phase.Over?)
  {
    var s := Reach(ops);
    Opened(s);
    hide Reach, OpenStep;
    var s', longer := Extend(ops, Open);
    KeepsStart(longer, more, |s.subs|);
  }

  lemma {:induction false} Opened(s: State)
    requires Inv(s)
    ensures |s.history| <= s.seqNo
    ensures var (s', h) := (OpenStep(s), |s.subs|);
      && |s'.subs| == h + 1 && s'.subs[h].first == Missed(s.emitted)
      && s'.subs[h].snapshot == s.history == s.emitted[Missed(s.emitted)..]
      && (s'.subs[h].capped <==> |s.registered| == 8) && |s.registered| <= 8 && Distinct(s.registered)
      && (forall k: nat :: k in s.registered <==> k < |s.subs| && !s.subs[k].capped && !s.subs[k].phase.Over?)
  {
    hide SubsOk, Distinct, Consecutive;
  }

  /** Delivered, unread snapshot and queued events of an uncapped subscriber are, at every
      moment of every interleaving, exactly the events emitted from 5000 before its start on:
      no gap, no duplicate. The history is always the last min(seq, 5000) events. */
  lemma {:induction false} NoGapNoDuplicate(ops: seq<Op>, more: seq<Op>)
    ensures var (h, start) := (|Reach(ops).subs|, Missed(Reach(ops).emitted));
      var s := Reach(ops + [Open] + more);
      && h < |s.subs| && start <= |s.emitted|
      && (!s.subs[h].capped && !s.subs[h].phase.Over? ==>
          s.subs[h].delivered + Unread(s.subs[h]) + Events(s.subs[h].queue) == s.emitted[start..])
      && (forall i :: 0 <= i < |s.emitted| ==> s.emitted[i].seqNo == i + 1)
      && s.history == s.emitted[Missed(s.emitted)..]
  {
    StartsWithHistory(ops, more);
    SeesAllSince(ops + [Open] + more, |Reach(ops).subs|);
    hide Reach, Unread, Events;
  }

  // ---- what is emitted ----

  /** The emits of a run that come before any close. */
  function Accepted(ops: seq<Op>): seq<(string, string)> {
    if ops == [] then []
    else
      var front, op := ops[..|ops| - 1], ops[|ops| - 1];
      Accepted(front) + (if op.Emit? && Close !in front then [(op.kind, op.payload)] else [])
  }

  function Opens(ops: seq<Op>): nat {
    if ops == [] then 0 else Opens(ops[..|ops| - 1]) + (if ops[|ops| - 1] == Open then 1 else 0)
  }

  lemma {:induction false} AcceptedSnoc(front: seq<Op>, op: Op)
    ensures Accepted(front + [op]) == Accepted(front) + (if op.Emit? && Close !in front then [(op.kind, op.payload)] else [])
    ensures Opens(front + [op]) == Opens(front) + (if op == Open then 1 else 0)
  {
    assert (front + [op])[..|front|] == front;
  }

  /** The events of a run are its emits before the close, numbered from one; the bus is closed
      once a close came, and every start of a subscription counts. */
  lemma {:induction false} EmittedAre(ops: seq<Op>)
    ensures var (s, accepted) := (Reach(ops), Accepted(ops));
      && |s.emitted| == |accepted|
      && (forall i :: 0 <= i < |accepted| ==> s.emitted[i] == Event(accepted[i].0, i + 1, accepted[i].1))
      && (s.closed <==> Close in ops) && |s.subs| == Opens(ops)
  {
    hide *;
    if ops != [] {
      var front, op := ops[..|ops| - 1], ops[|ops| - 1];
      assert ops == front + [op];
      EmittedAre(front);
      KnownCount(Reach(front));
      NextEmits(Reach(front), op);
      AcceptedSnoc(front, op);
      var s, longer := Extend(front, op);
      CloseSnoc(front, op);
    } else {
      assert ops == [];
      var s, longer := Extend([], Close);
      NothingAccepted();
    }
  }

  lemma {:induction false} NothingAccepted()
    ensures Accepted([]) == [] && Opens([]) == 0
    ensures INITIAL.emitted == [] && !INITIAL.closed && INITIAL.subs == []
  {
  }

  lemma {:induction false} CloseSnoc(front: seq<Op>, op: Op)
    ensures Close in front + [op] <==> Close in front || op == Close
  {
  }

  lemma {:induction false} KnownCount(s: State)
    requires Inv(s)
    ensures s.seqNo == |s.emitted| && |s.history| <= s.seqNo
  {
  }

  lemma {:induction false} NextEmits(s: State, op: Op)
    requires s.seqNo == |s.emitted| && |s.history| <= s.seqNo
    ensures var s' := Next(s, op);
      && s'.emitted == (if op.Emit? && !s.closed then s.emitted + [Event(op.kind, |s.emitted| + 1, op.payload)] else s.emitted)
      && (s'.closed <==> s.closed || op == Close)
      && |s'.subs| == |s.subs| + (if op == Open then 1 else 0)
  {
    hide InSnapshot, Unregister;
  }

  // ---- one read ----

  /** Exactly what one read does: it yields the next event the subscriber has not had, as long as
      there is one it may still see; else it ends on a closed bus, or waits. */
  lemma {:induction false} PullYieldsNext(ops: seq<Op>, h: nat)
    requires h < |Reach(ops).subs| && !Reach(ops).subs[h].phase.Over?
    ensures var (s, s') := (Reach(ops), Reach(ops + [Pull(h)]));
      var sub := s.subs[h];
      && h < |s'.subs| && s'.emitted == s.emitted && sub.first <= |s.emitted|
      && Reads(sub, s.emitted[sub.first..], s.closed, s'.subs[h])
      && forall k :: 0 <= k < |s.subs| && k != h ==> k < |s'.subs| && s'.subs[k] == s.subs[k]
  {
    hide *;
    OneRead(Reach(ops), h);
    OthersKept(Reach(ops), h);
    EnoughSeen(Reach(ops));
    var s', longer := Extend(ops, Pull(h));
    PullIsNext(Reach(ops), h);
  }

  lemma {:induction false} PullIsNext(s: State, h: nat)
    requires |s.history| <= s.seqNo
    ensures Next(s, Pull(h)) == PullStep(s, h)
  {
    hide PullStep;
  }

  lemma {:induction false} OthersKept(s: State, h: nat)
    ensures PullStep(s, h).emitted == s.emitted && |PullStep(s, h).subs| == |s.subs|
    ensures forall k :: 0 <= k < |s.subs| && k != h ==> PullStep(s, h).subs[k] == s.subs[k]
  {
    hide PullStep;
    if s.subs == [] {
      NobodyPulls(s, h);
    } else {
      PullKeepsStart(s, h, 0);
    }
    forall k: nat | k < |s.subs| && k != h
      ensures PullStep(s, h).subs[k] == s.subs[k]
    {
      PullKeepsStart(s, h, k);
    }
  }

  lemma {:induction false} NobodyPulls(s: State, h: nat)
    requires s.subs == []
    ensures PullStep(s, h) == s
  {
  }

  ghost predicate Reads(sub: Subscription, all: seq<Event>, closed: bool, after: Subscription) {
    var d := |sub.delivered|;
    && sub.delivered <= all
    && if d < |sub.snapshot| || (!sub.capped && d < |all| && (!closed || sub.phase.Tail?)) then
         d < |all| && after.delivered == all[..d + 1] && !after.phase.Over?
       else
         && after.delivered == sub.delivered
         && (sub.capped ==> after.phase == Over(SnapshotOnly))
         && (!sub.capped && closed ==> after.phase == Over(if sub.phase.Tail? then SawClose else CutOff))
         && (!sub.capped && !closed ==> after.phase == Tail)
  }

  lemma {:induction false} OneRead(s: State, h: nat)
    requires Inv(s) && h < |s.subs| && !s.subs[h].phase.Over?
    ensures var sub := s.subs[h];
      && sub.first <= |s.emitted| && h < |PullStep(s, h).subs|
      && Reads(sub, s.emitted[sub.first..], s.closed, PullStep(s, h).subs[h])
  {
    var sub := s.subs[h];
    assert SubOk(sub, s.emitted, s.closed) && Consecutive(s.emitted);
    hide Inv, Unregister;
    if sub.phase.Replay? {
      var all := s.emitted[sub.first..];
      assert sub.snapshot == all[..|sub.snapshot|];
      assert sub.snapshot[..sub.pos] == all[..sub.pos];
      if sub.pos < |sub.snapshot| {
        hide InSnapshot, QueueHolds, TailStep;
        assert all[..sub.pos] + [sub.snapshot[sub.pos]] == all[..sub.pos + 1];
      } else if !sub.capped && !s.closed {
        ReplayEnds(sub, s.emitted, s.closed);
        TailRead(s, h, sub.(phase := Tail));
        hide TailStep, SubOk;
      } else {
        hide TailStep;
      }
    } else {
      TailRead(s, h, sub);
      hide TailStep;
    }
  }

  lemma {:induction false} TailRead(s: State, h: nat, sub: Subscription)
    requires h < |s.subs| && SubOk(sub, s.emitted, s.closed) && sub.phase.Tail? && Consecutive(s.emitted)
    ensures var s' := TailStep(s, h, sub);
      && h < |s'.subs| && sub.first <= |s.emitted| && !sub.capped && |sub.snapshot| <= |sub.delivered|
      && Reads(sub, s.emitted[sub.first..], s.closed, s'.subs[h])
  {
    var all, d := s.emitted[sub.first..], |sub.delivered|;
    assert sub.delivered == all[..d];
    if sub.queue != [] {
      QueueParts(sub.queue, s.emitted, sub.first + d, s.closed);
      if sub.queue[0] != Sentinel {
        NotInSnapshot(sub, s.emitted, sub.first + d);
        assert all[..d] + [all[d]] == all[..d + 1];
      }
    }
    hide InSnapshot, Unregister;
  }

  // ---- the end ----

  lemma {:induction false} NextKeepsOver(s: State, op: Op, h: nat)
    requires |s.history| <= s.seqNo && h < |s.subs| && s.subs[h].phase.Over?
    ensures var s' := Next(s, op);
      h < |s'.subs| && s'.subs[h].phase == s.subs[h].phase && s'.subs[h].delivered == s.subs[h].delivered
  {
    hide Unregister, InSnapshot;
  }

  /** What is over stays over and delivers nothing more; a consumer that leaves ends its
      subscription with what it has got, and is not registered any more. */
  lemma {:induction false} OverStaysOver(ops: seq<Op>, more: seq<Op>, h: nat)
    requires h < |Reach(ops).subs| && Reach(ops).subs[h].phase.Over?
    ensures var (s, s') := (Reach(ops), Reach(ops + more));
      && h < |s'.subs| && s'.subs[h].phase == s.subs[h].phase && s'.subs[h].delivered == s.subs[h].delivered
      && h !in s'.registered
    decreases |more|
  {
    hide *;
    if more == [] {
      assert ops + more == ops;
      NotRegistered(Reach(ops), h);
    } else {
      var front, op := more[..|more| - 1], more[|more| - 1];
      OverStaysOver(ops, front, h);
      assert ops + more == (ops + front) + [op];
      EnoughSeen(Reach(ops + front));
      NextKeepsOver(Reach(ops + front), op, h);
      var s, longer := Extend(ops + front, op);
      NotRegistered(s, h);
    }
  }

  lemma {:induction false} NotRegistered(s: State, h: nat)
    requires Inv(s) && h < |s.subs| && s.subs[h].phase.Over?
    ensures h !in s.registered
  {
  }

  lemma {:induction false} LeavingEnds(ops: seq<Op>, h: nat)
    requires h < |Reach(ops).subs|
    ensures var (sub, s') := (Reach(ops).subs[h], Reach(ops + [Leave(h)]));
      && h < |s'.subs| && s'.subs[h].delivered == sub.delivered
      && s'.subs[h].phase == (if sub.phase.Over? then sub.phase else Over(Left))
  {
    hide Reach, Inv;
    var s, longer := Extend(ops, Leave(h));
  }

  lemma {:induction false} EventsOfQueue(events: seq<Event>, closed: bool)
    ensures Events(Lives(events) + (if closed then [Sentinel] else [])) == events
  {
    if closed {
      EventsOfQueue(events, false);
      var q := Lives(events) + [Sentinel];
      assert q[..|q| - 1] == Lives(events) + [];
    } else if events != [] {
      var n := |events| - 1;
      EventsOfQueue(events[..n], false);
      assert Lives(events)[..n] == Lives(events[..n]);
      assert Lives(events) + [] == Lives(events);
      assert Lives(events[..n]) + [] == Lives(events[..n]);
    }
  }

  /** What a finished subscriber received, by the way it ended: at the sentinel everything
      emitted since its snapshot; cut off during the replay exactly its snapshot, which is
      everything exactly when nothing was emitted after it started. `ReaderGetsEverythingIff`
      says who ends which way. */
  lemma {:induction false} FinishedDelivery(ops: seq<Op>, h: nat)
    requires h < |Reach(ops).subs| && Reach(ops).subs[h].phase.Over?
    ensures var s := Reach(ops);
      var sub := s.subs[h];
      && (sub.phase.ending == SawClose ==> s.closed && sub.delivered == s.emitted[sub.first..])
      && (sub.phase.ending == CutOff ==>
          && s.closed && sub.delivered == sub.snapshot
          && (sub.delivered == s.emitted[sub.first..] <==> |s.emitted| == sub.first + |sub.snapshot|))
      && (sub.phase.ending == SnapshotOnly ==> sub.capped && sub.delivered == sub.snapshot)
      && (sub.phase.ending == Left ==> sub.delivered <= s.emitted[sub.first..])
  {
    var s := Reach(ops);
    assert SubOk(s.subs[h], s.emitted, s.closed);
  }

  /** Live, or past it: at the sentinel or dropped by its consumer. */
  predicate WasLive(phase: Phase) {
    phase.Tail? || phase == Over(SawClose) || phase == Over(Left)
  }

  lemma {:induction false} PullKeepsLive(s: State, k: nat, h: nat)
    requires h < |s.subs| && WasLive(s.subs[h].phase)
    ensures var s' := PullStep(s, k);
      h < |s'.subs| && WasLive(s'.subs[h].phase) && s'.subs[h].first == s.subs[h].first
  {
    hide InSnapshot, Unregister;
  }

  lemma {:induction false} NextKeepsLive(s: State, op: Op, h: nat)
    requires |s.history| <= s.seqNo && h < |s.subs| && WasLive(s.subs[h].phase)
    ensures var s' := Next(s, op);
      h < |s'.subs| && WasLive(s'.subs[h].phase) && s'.subs[h].first == s.subs[h].first
  {
    if op.Pull? {
      PullKeepsLive(s, op.sub, h);
    }
    hide PullStep, Unregister;
  }

  lemma {:induction false} EnoughSeen(s: State)
    requires Inv(s)
    ensures |s.history| <= s.seqNo
  {
  }

  /** A subscriber that has reached the live phase is never cut off, whatever happens next: it
      stays live, reads the sentinel, or is dropped. */
  lemma {:induction false} LiveIsNeverCutOff(ops: seq<Op>, more: seq<Op>, h: nat)
    requires h < |Reach(ops).subs| && WasLive(Reach(ops).subs[h].phase)
    ensures h < |Reach(ops + more).subs| && WasLive(Reach(ops + more).subs[h].phase)
    ensures Reach(ops + more).subs[h].first == Reach(ops).subs[h].first
    decreases |more|
  {
    hide *;
    if more == [] {
      assert ops + more == ops;
    } else {
      var front, op := more[..|more| - 1], more[|more| - 1];
      LiveIsNeverCutOff(ops, front, h);
      assert ops + more == (ops + front) + [op];
      EnoughSeen(Reach(ops + front));
      NextKeepsLive(Reach(ops + front), op, h);
      var s, longer := Extend(ops + front, op);
    }
  }

  function Pulls(h: nat, n: nat): seq<Op> {
    if n == 0 then [] else [Pull(h)] + Pulls(h, n - 1)
  }

  /** One resumption on a closed bus: the next event, or at the sentinel the end. */
  lemma {:induction false} PullOnClosed(s: State, h: nat)
    requires Inv(s) && s.closed && h < |s.subs| && s.subs[h].phase.Tail?
    ensures var (sub, s') := (s.subs[h], PullStep(s, h));
      && sub.queue != [] && s'.closed && s'.emitted == s.emitted && h < |s'.subs| && s'.subs[h].first == sub.first
      && s'.subs[h].queue == sub.queue[1..]
      && s'.subs[h].phase == (if |sub.queue| == 1 then Over(SawClose) else Tail)
  {
    var sub := s.subs[h];
    assert SubOk(sub, s.emitted, s.closed);
    QueueParts(sub.queue, s.emitted, sub.first + |sub.delivered|, s.closed);
    hide Inv;
    if sub.queue[0] != Sentinel {
      QueueHead(sub, s.emitted, s.closed);
    }
  }

  /** Subscriber `h` has ended at the sentinel with all of `emitted` from `first` on. */
  ghost predicate GotEverything(s: State, h: nat, first: nat, emitted: seq<Event>) {
    && h < |s.subs| && s.subs[h].phase == Over(SawClose) && s.emitted == emitted
    && first <= |emitted| && s.subs[h].delivered == emitted[first..]
  }

  lemma {:induction false} PullsSplit(ops: seq<Op>, h: nat, n: nat)
    ensures ops + Pulls(h, n + 1) == (ops + [Pull(h)]) + Pulls(h, n) && ops + Pulls(h, 0) == ops
  {
  }

  /** Once the bus is closed, a live subscriber that keeps reading ends at the sentinel with
      everything emitted since its snapshot, after as many reads as its queue is long. */
  lemma {:induction false} LiveGetsEverything(ops: seq<Op>, h: nat)
    requires h < |Reach(ops).subs| && Reach(ops).subs[h].phase.Tail? && Reach(ops).closed
    ensures var (sub, emitted) := (Reach(ops).subs[h], Reach(ops).emitted);
      GotEverything(Reach(ops + Pulls(h, |sub.queue|)), h, sub.first, emitted)
    decreases |Reach(ops).subs[h].queue|
  {
    hide *;
    var s, longer := PullNext(ops, h);
    var n := |Reach(ops).subs[h].queue| - 1;
    PullsSplit(ops, h, n);
    if n > 0 {
      LiveGetsEverything(longer, h);
    } else {
      PullsSplit(longer, h, 0);
      AtSentinel(longer, h);
    }
  }

  lemma {:induction false} PullNext(ops: seq<Op>, h: nat) returns (s: State, longer: seq<Op>)
    requires h < |Reach(ops).subs| && Reach(ops).subs[h].phase.Tail? && Reach(ops).closed
    ensures longer == ops + [Pull(h)] && s == Reach(longer)
    ensures var sub := Reach(ops).subs[h];
      && sub.queue != [] && s.closed && s.emitted == Reach(ops).emitted && h < |s.subs| && s.subs[h].first == sub.first
      && s.subs[h].queue == sub.queue[1..]
      && s.subs[h].phase == (if |sub.queue| == 1 then Over(SawClose) else Tail)
  {
    PullOnClosed(Reach(ops), h);
    hide Reach, PullStep, Inv;
    s, longer := Extend(ops, Pull(h));
  }

  lemma {:induction false} AtSentinel(ops: seq<Op>, h: nat)
    requires h < |Reach(ops).subs| && Reach(ops).subs[h].phase == Over(SawClose)
    ensures GotEverything(Reach(ops), h, Reach(ops).subs[h].first, Reach(ops).emitted)
  {
    FinishedDelivery(ops, h);
    SeesAllSince(ops, h);
    hide Reach;
  }

  /** Still replaying, or ended without ever having been live. */
  predicate NeverLive(phase: Phase) {
    phase.Replay? || phase == Over(CutOff) || phase == Over(Left)
  }

  lemma {:induction false} PullKeepsReplaying(s: State, k: nat, h: nat)
    requires s.closed && h < |s.subs| && !s.subs[h].capped && NeverLive(s.subs[h].phase)
    ensures var s' := PullStep(s, k);
      && s'.closed && s'.emitted == s.emitted && h < |s'.subs|
      && !s'.subs[h].capped && NeverLive(s'.subs[h].phase)
      && s'.subs[h].first == s.subs[h].first && s'.subs[h].snapshot == s.subs[h].snapshot
  {
    hide InSnapshot, Unregister;
  }

  lemma {:induction false} NextKeepsReplaying(s: State, op: Op, h: nat)
    requires |s.history| <= s.seqNo
    requires s.closed && h < |s.subs| && !s.subs[h].capped && NeverLive(s.subs[h].phase)
    ensures var s' := Next(s, op);
      && s'.closed && s'.emitted == s.emitted && h < |s'.subs|
      && !s'.subs[h].capped && NeverLive(s'.subs[h].phase)
      && s'.subs[h].first == s.subs[h].first && s'.subs[h].snapshot == s.subs[h].snapshot
  {
    if op.Pull? {
      PullKeepsReplaying(s, op.sub, h);
    }
    hide PullStep, Unregister, Broadcast;
  }

  /** A subscriber still replaying when the bus is closed never goes live, whatever happens next:
      it goes on replaying its snapshot, is cut off, or is dropped. */
  lemma {:induction false} ReplayingIsNeverLive(ops: seq<Op>, more: seq<Op>, h: nat)
    requires h < |Reach(ops).subs| && Reach(ops).closed && !Reach(ops).subs[h].capped
    requires NeverLive(Reach(ops).subs[h].phase)
    ensures var (s, s') := (Reach(ops), Reach(ops + more));
      && s'.closed && s'.emitted == s.emitted && h < |s'.subs|
      && !s'.subs[h].capped && NeverLive(s'.subs[h].phase)
      && s'.subs[h].first == s.subs[h].first && s'.subs[h].snapshot == s.subs[h].snapshot
    decreases |more|
  {
    hide *;
    if more == [] {
      assert ops + more == ops;
    } else {
      var front, op := more[..|more| - 1], more[|more| - 1];
      ReplayingIsNeverLive(ops, front, h);
      assert ops + more == (ops + front) + [op];
      EnoughSeen(Reach(ops + front));
      NextKeepsReplaying(Reach(ops + front), op, h);
      var s, longer := Extend(ops + front, op);
    }
  }

  /** How many reads end an uncapped subscriber of a closed bus. */
  function ReadsLeft(sub: Subscription): nat {
    if !sub.phase.Replay? then |sub.queue|
    else if sub.pos < |sub.snapshot| then |sub.snapshot| - sub.pos + 1
    else 1
  }

  lemma {:induction false} ReplayPulled(s: State, h: nat)
    requires s.closed && h < |s.subs| && !s.subs[h].capped && s.subs[h].phase.Replay?
    ensures var (sub, s') := (s.subs[h], PullStep(s, h));
      && h < |s'.subs|
      && (if ReadsLeft(sub) > 1 then s'.subs[h].phase.Replay? && ReadsLeft(s'.subs[h]) == ReadsLeft(sub) - 1
          else s'.subs[h].phase == Over(CutOff))
  {
    hide Unregister, TailStep;
  }

  lemma {:induction false} PullReplaying(ops: seq<Op>, h: nat) returns (s: State, longer: seq<Op>)
    requires h < |Reach(ops).subs| && Reach(ops).closed && !Reach(ops).subs[h].capped && Reach(ops).subs[h].phase.Replay?
    ensures longer == ops + [Pull(h)] && s == Reach(longer)
    ensures var sub := Reach(ops).subs[h];
      && s.closed && s.emitted == Reach(ops).emitted && h < |s.subs| && !s.subs[h].capped
      && s.subs[h].first == sub.first && s.subs[h].snapshot == sub.snapshot
      && (if ReadsLeft(sub) > 1 then s.subs[h].phase.Replay? && ReadsLeft(s.subs[h]) == ReadsLeft(sub) - 1
          else s.subs[h].phase == Over(CutOff))
  {
    hide Reach, Inv, PullStep, ReadsLeft;
    PullKeepsReplaying(Reach(ops), h, h);
    ReplayPulled(Reach(ops), h);
    s, longer := Extend(ops, Pull(h));
  }

  /** Reading on from a replay on a closed bus ends in the cut-off. */
  lemma {:induction false} ReplayIsCutOff(ops: seq<Op>, h: nat)
    requires h < |Reach(ops).subs| && Reach(ops).closed && !Reach(ops).subs[h].capped && Reach(ops).subs[h].phase.Replay?
    ensures var (s, s') := (Reach(ops), Reach(ops + Pulls(h, ReadsLeft(Reach(ops).subs[h]))));
      && h < |s'.subs| && s'.subs[h].phase == Over(CutOff) && s'.emitted == s.emitted
      && s'.subs[h].first == s.subs[h].first && s'.subs[h].snapshot == s.subs[h].snapshot
    decreases ReadsLeft(Reach(ops).subs[h])
  {
    var n := ReadsLeft(Reach(ops).subs[h]);
    assert n > 0;
    hide *;
    var s, longer := PullReplaying(ops, h);
    PullsSplit(ops, h, n - 1);
    PullsSplit(longer, h, 0);
    if n > 1 {
      ReplayIsCutOff(longer, h);
    }
  }

  /** Exactly who loses events: on a closed bus an uncapped subscriber that keeps reading gets
      everything emitted since its snapshot if and only if it is live, which by
      `LiveIsNeverCutOff` and `ReplayingIsNeverLive` is to say it was live at the close, or
      nothing was emitted since its snapshot. */
  lemma {:induction false} ReaderGetsEverythingIff(ops: seq<Op>, h: nat)
    requires h < |Reach(ops).subs| && Reach(ops).closed
    requires !Reach(ops).subs[h].capped && !Reach(ops).subs[h].phase.Over?
    ensures var (sub, emitted) := (Reach(ops).subs[h], Reach(ops).emitted);
      var s := Reach(ops + Pulls(h, ReadsLeft(sub)));
      && h < |s.subs| && s.subs[h].phase.Over? && s.emitted == emitted && sub.first <= |emitted|
      && (s.subs[h].delivered == emitted[sub.first..] <==>
          sub.phase.Tail? || |emitted| == sub.first + |sub.snapshot|)
  {
    var sub := Reach(ops).subs[h];
    SeesAllSince(ops, h);
    hide Reach, Pulls, Inv;
    if sub.phase.Tail? {
      LiveGetsEverything(ops, h);
    } else {
      ReplayIsCutOff(ops, h);
      FinishedDelivery(ops + Pulls(h, ReadsLeft(sub)), h);
    }
  }

  /** The loss is real: an event emitted during the replay never reaches a subscriber whose bus
      closes before the replay ends. */
  lemma {:induction false} CloseDuringReplayLosesEvents()
    ensures exists ops :: var s := Reach(ops);
      |s.emitted| == 2 && |s.subs| == 1 && s.subs[0].phase == Over(CutOff) && |s.subs[0].delivered| == 1
  {
    hide Reach, Next;
    var a, b := Event("a", 1, ""), Event("b", 2, "");
    var started := Subscription(0, [a], 0, [], Replay, false, []);
    var read := started.(pos := 1, delivered := [a]);
    var ops: seq<Op>;
    var s: State;
    s, ops := Extend([], Emit("a", ""));
    LossStart(a);
    s, ops := Extend(ops, Open);
    s, ops := Extend(ops, Pull(0));
    s, ops := Extend(ops, Emit("b", ""));
    LossEmit(a, b, read);
    s, ops := Extend(ops, Close);
    LossClose(a, b, read);
    s, ops := Extend(ops, Pull(0));
  }

  lemma {:induction false} LossStart(a: Event)
    requires a == Event("a", 1, "")
    ensures Next(INITIAL, Emit("a", "")) == State([a], 1, false, [], [], [a])
    ensures var started := Subscription(0, [a], 0, [], Replay, false, []);
      && Next(State([a], 1, false, [], [], [a]), Open) == State([a], 1, false, [0], [started], [a])
      && Next(State([a], 1, false, [0], [started], [a]), Pull(0))
         == State([a], 1, false, [0], [started.(pos := 1, delivered := [a])], [a])
  {
  }

  lemma {:induction false} LossEmit(a: Event, b: Event, read: Subscription)
    requires b == Event("b", 2, "") && read.queue == []
    ensures Next(State([a], 1, false, [0], [read], [a]), Emit("b", ""))
         == State([a, b], 2, false, [0], [read.(queue := [Live(b)])], [a, b])
  {
    assert 0 in [0] && read.queue + [Live(b)] == [Live(b)];
    assert Broadcast([read], [0], Live(b)) == [read.(queue := [Live(b)])];
  }

  lemma {:induction false} LossClose(a: Event, b: Event, read: Subscription)
    requires read.phase == Replay && read.pos == |read.snapshot| && !read.capped
    requires read.queue == []
    ensures var closed := State([a, b], 2, true, [0], [read.(queue := [Live(b), Sentinel])], [a, b]);
      && Next(State([a, b], 2, false, [0], [read.(queue := [Live(b)])], [a, b]), Close) == closed
      && Next(closed, Pull(0)).emitted == [a, b]
      && Next(closed, Pull(0)).subs == [read.(queue := [Live(b), Sentinel], phase := Over(CutOff))]
  {
    assert 0 in [0] && [Live(b)] + [Sentinel] == [Live(b), Sentinel];
    assert Broadcast([read.(queue := [Live(b)])], [0], Sentinel) == [read.(queue := [Live(b), Sentinel])];
  }

  lemma {:induction false} Extend(ops: seq<Op>, op: Op) returns (s: State, longer: seq<Op>)
    ensures longer == ops + [op] && s == Reach(longer) == Next(Reach(ops), op)
    ensures ops == [] ==> Reach(ops) == INITIAL
  {
    s, longer := Reach(ops + [op]), ops + [op];
    assert (ops + [op])[..|ops|] == ops;
  }

  // ---- the bus as an object ----

  lemma {:induction false} BroadcastNext(subs: seq<Subscription>, registered: seq<nat>, i: nat, item: Item)
    requires i < |registered| && registered[i] < |subs| && Distinct(registered)
    ensures var soFar := Broadcast(subs, registered[..i], item);
      && registered[i] < |soFar| && soFar[registered[i]] == subs[registered[i]]
      && soFar[registered[i] := subs[registered[i]].(queue := subs[registered[i]].queue + [item])]
         == Broadcast(subs, registered[..i + 1], item)
  {
    assert registered[i] !in registered[..i];
    assert forall h: nat :: h in registered[..i + 1] <==> h in registered[..i] || h == registered[i];
  }

  lemma {:induction false} RegisteredKnown(s: State)
    requires Inv(s)
    ensures Distinct(s.registered) && forall h: nat :: h in s.registered ==> h < |s.subs|
  {
  }

  /** `EventBus`. A subscription handle stands for one running `subscribe` generator; between
      two of its resumptions anything may happen to the bus. */
  class Bus {
    var history: seq<Event>
    var seqNo: nat
    var closed: bool
    var registered: seq<nat>
    var subs: seq<Subscription>
    ghost var emitted: seq<Event>

    ghost function View(): State
      reads this
    {
      State(history, seqNo, closed, registered, subs, emitted)
    }

    constructor ()
      ensures View() == INITIAL && Inv(View())
    {
      history, seqNo, closed, registered, subs, emitted := [], 0, false, [], [], [];
    }

    /** An event emitted on a closed bus is handed back with number -1 and goes nowhere. */
    method EmitEvent(kind: string, payload: string) returns (event: Event)
      requires Inv(View())
      modifies this
      ensures View() == EmitStep(old(View()), kind, payload) && Inv(View())
      ensures event == Event(kind, if old(closed) then -1 else old(seqNo) + 1, payload)
      ensures emitted == if old(closed) then old(emitted) else old(emitted) + [event]
    {
      EmitKeeps(View(), kind, payload);
      RegisteredKnown(View());
      hide Inv, HistoryOk, RegisteredOk, SubsOk, Broadcast, Distinct;
      if closed {
        return Event(kind, -1, payload);
      }
      seqNo := seqNo + 1;
      event := Event(kind, seqNo, payload);
      if |history| >= MAX_HISTORY {
        history := history[1..];
      }
      history := history + [event];
      emitted := emitted + [event];
      PutAll(Live(event));
    }

    /** The loop over `_subscribers`. */
    method PutAll(item: Item)
      requires Distinct(registered) && forall h: nat :: h in registered ==> h < |subs|
      modifies this`subs
      ensures subs == Broadcast(old(subs), registered, item)
    {
      ghost var before := subs;
      assert before == Broadcast(before, registered[..0], item);
      for i := 0 to |registered|
        invariant subs == Broadcast(before, registered[..i], item)
      {
        assert registered[i] in registered;
        BroadcastNext(before, registered, i, item);
        var h := registered[i];
        subs := subs[h := subs[h].(queue := subs[h].queue + [item])];
      }
      assert registered[..|registered|] == registered;
    }

    /** The start of `subscribe`: snapshot and registration in one step. */
    method Subscribe() returns (h: nat)
      requires Inv(View())
      modifies this
      ensures View() == OpenStep(old(View())) && Inv(View()) && h == |old(subs)|
      ensures |subs| == h + 1 && subs[h].snapshot == old(history) && subs[h].first == old(seqNo - |history|)
      ensures subs[h].delivered == [] && (subs[h].capped <==> |old(registered)| >= 8)
    {
      OpenKeeps(View());
      hide Inv;
      h := |subs|;
      var sub := Subscription(seqNo - |history|, history, 0, [], Replay, true, []);
      if |registered| < MAX_SUBSCRIBERS {
        registered := registered + [h];
        sub := sub.(capped := false);
      }
      subs := subs + [sub];
    }

    /** One resumption of `subscribe`; an event is yielded, or the generator ends or waits. */
    method Resume(h: nat) returns (yielded: seq<Event>)
      requires Inv(View()) && h < |subs|
      modifies this
      ensures View() == PullStep(old(View()), h) && Inv(View())
      ensures |subs| == |old(subs)|
      ensures subs[h].delivered == old(subs[h].delivered) + yielded && |yielded| <= 1
    {
      PullKeeps(View(), h);
      hide Inv, TailStep;
      var sub := subs[h];
      yielded := [];
      if sub.phase.Over? {
        return;
      }
      if sub.phase == Replay {
        if sub.pos < |sub.snapshot| {
          yielded := [sub.snapshot[sub.pos]];
          subs := subs[h := sub.(pos := sub.pos + 1, delivered := sub.delivered + yielded)];
          return;
        }
        if sub.capped {
          Finish(h, sub, SnapshotOnly);
          return;
        }
        if closed {
          Finish(h, sub, CutOff);
          return;
        }
        sub := sub.(phase := Tail);
      }
      yielded := TakeNext(h, sub);
    }

    /** `await q.get()` and what follows. */
    method TakeNext(h: nat, sub0: Subscription) returns (yielded: seq<Event>)
      requires h < |subs|
      modifies this
      ensures View() == TailStep(old(View()), h, sub0)
      ensures |subs| == |old(subs)| && subs[h].delivered == sub0.delivered + yielded && |yielded| <= 1
    {
      var sub := sub0;
      yielded := [];
      if sub.queue == [] {
        subs := subs[h := sub];
        return;
      }
      var item := sub.queue[0];
      sub := sub.(queue := sub.queue[1..]);
      if item == Sentinel {
        Finish(h, sub, SawClose);
        return;
      }
      if !InSnapshot(sub, item.event) {
        yielded := [item.event];
        sub := sub.(delivered := sub.delivered + yielded);
      }
      subs := subs[h := sub];
    }

    /** The `finally` block. */
    method Finish(h: nat, sub: Subscription, ending: Ending)
      requires h < |subs|
      modifies this
      ensures View() == End(old(View()), h, sub, ending)
    {
      subs := subs[h := sub.(phase := Over(ending))];
      registered := Unregister(registered, h);
    }

    /** The consumer drops the generator. */
    method Abandon(h: nat)
      requires Inv(View())
      modifies this
      ensures View() == LeaveStep(old(View()), h) && Inv(View())
    {
      NextKeeps(View(), Leave(h));
      hide Inv;
      if h < |subs| && !subs[h].phase.Over? {
        Finish(h, subs[h], Left);
      }
    }

    method CloseBus()
      requires Inv(View())
      modifies this
      ensures View() == CloseStep(old(View())) && Inv(View())
    {
      CloseKeeps(View());
      hide HistoryOk, SubOk;
      if closed {
        return;
      }
      closed := true;
      PutAll(Sentinel);
    }
  }
}
