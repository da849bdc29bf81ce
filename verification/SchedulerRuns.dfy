/**
 Whole runs of the terminal write scheduler: what every step keeps, when a frame must be armed, and
 how long a sink can wait.
 */
module SchedulerRuns {
  import opened SchedulerModel
  import opened SchedulerLaws

  /** The order lists the registered sinks once each, and every sink keeps its own invariant. */
  ghost predicate SchedInv(st: Sched, maxChunk: nat) {
    && (forall i, j :: 0 <= i < j < |st.order| ==> st.order[i] != st.order[j])
    && (forall id :: id in st.sinks <==> id in st.order)
    && (st.rr < |st.order| || st.rr == 0)
    && (forall id :: id in st.sinks ==> SinkInv(st.sinks[id], maxChunk))
  }

  /** Nobody is forgotten: a sink with unread entries is in flight, or a frame will come. */
  ghost predicate Awake(st: Sched) {
    st.isFrameArmed || forall id :: id in st.sinks && st.sinks[id].unread != [] ==> st.sinks[id].inFlight
  }

  // ---------------------------------------------------------------- a frame

  lemma {:induction false} ReplaceSink(st: Sched, id: string, s: Sink, maxChunk: nat)
    requires SchedInv(st, maxChunk) && id in st.sinks && SinkInv(s, maxChunk)
    ensures SchedInv(st.(sinks := st.sinks[id := s]), maxChunk)
    ensures st.sinks[id := s].Keys == st.sinks.Keys
  {
  }

  lemma {:induction false} ServeKeepsInv(st: Sched, id: string, maxChunk: nat)
    requires SchedInv(st, maxChunk)
    ensures SchedInv(ServeSink(st, id, maxChunk), maxChunk)
  {
    if IsServed(st, id) {
      ServiceKeepsInv(st.sinks[id], maxChunk);
      ReplaceSink(st, id, Service(st.sinks[id], maxChunk), maxChunk);
    }
  }

  lemma {:induction false} ScanKeepsInv(st: Sched, k: nat, budget: nat, maxChunk: nat)
    requires SchedInv(st, maxChunk)
    ensures SchedInv(Scan(st, k, budget, maxChunk), maxChunk)
    ensures Scan(st, k, budget, maxChunk).order == st.order && Scan(st, k, budget, maxChunk).rr == st.rr
    decreases |st.order| - k
  {
    hide SchedInv, IsServed, ServeSink;
    if k < |st.order| && budget > 0 {
      var id := st.order[Around(st.rr, k, |st.order|)];
      ServeKeepsInv(st, id, maxChunk);
      ScanKeepsInv(ServeSink(st, id, maxChunk), k + 1, if IsServed(st, id) then budget - 1 else budget, maxChunk);
    }
  }

  /** One service each for the sinks in `served`, and nothing for the others. */
  ghost predicate Serves(before: map<string, Sink>, after: map<string, Sink>, served: set<string>, maxChunk: nat) {
    && after.Keys == before.Keys && served <= before.Keys
    && (forall id :: id in served ==> Serviceable(before[id]) && after[id] == Service(before[id], maxChunk))
    && (forall id :: id in before && id !in served ==> after[id] == before[id])
  }

  /** None of the sinks the scan has passed. */
  ghost predicate SparesPassed(st: Sched, k: nat, served: set<string>)
    requires k <= |st.order|
  {
    forall j: nat :: j < k ==> st.order[Around(st.rr, j, |st.order|)] !in served
  }

  /** A scan serves at most `budget` of the sinks it has not passed, each once, and no other sink. */
  lemma {:induction false} ScanServes(st: Sched, k: nat, budget: nat, maxChunk: nat) returns (served: set<string>)
    requires SchedInv(st, maxChunk) && k <= |st.order|
    ensures |served| <= budget && SparesPassed(st, k, served)
    ensures Serves(st.sinks, Scan(st, k, budget, maxChunk).sinks, served, maxChunk)
    decreases |st.order| - k
  {
    hide SinkInv, Service, Serviceable, SchedInv, SparesPassed, Serves;
    if k == |st.order| || budget == 0 {
      served := {};
      ServesNobody(st, k, maxChunk);
    } else {
      var id := st.order[Around(st.rr, k, |st.order|)];
      var next, isServed := ServeSink(st, id, maxChunk), IsServed(st, id);
      ServeKeepsInv(st, id, maxChunk);
      var later := ScanServes(next, k + 1, if isServed then budget - 1 else budget, maxChunk);
      served := if isServed then later + {id} else later;
      SparesOneMore(st, next, k, later, maxChunk);
      JoinServes(st.sinks, next.sinks, Scan(st, k, budget, maxChunk).sinks, id, later, isServed, maxChunk);
    }
  }

  lemma {:induction false} ServesNobody(st: Sched, k: nat, maxChunk: nat)
    requires k <= |st.order|
    ensures SparesPassed(st, k, {}) && Serves(st.sinks, st.sinks, {}, maxChunk)
  {
  }

  lemma {:induction false} JoinServes(before: map<string, Sink>, next: map<string, Sink>, after: map<string, Sink>,
    id: string, later: set<string>, isServed: bool, maxChunk: nat)
    requires id !in later && (isServed <==> id in before && Serviceable(before[id]))
    requires next == if isServed then before[id := Service(before[id], maxChunk)] else before
    requires Serves(next, after, later, maxChunk)
    ensures Serves(before, after, if isServed then later + {id} else later, maxChunk)
  {
  }

  /** The scan visits the sinks in turn, so the one at `k` is none of those before. */
  lemma {:induction false} SparesOneMore(st: Sched, next: Sched, k: nat, served: set<string>, maxChunk: nat)
    requires SchedInv(st, maxChunk) && next.order == st.order && next.rr == st.rr
    requires k < |st.order| && SparesPassed(next, k + 1, served)
    ensures
      var id := st.order[Around(st.rr, k, |st.order|)];
      id !in served && SparesPassed(st, k, served) && SparesPassed(st, k, served + {id})
  {
    forall j: nat | j < k
      ensures st.order[Around(st.rr, j, |st.order|)] != st.order[Around(st.rr, k, |st.order|)]
    {
    }
  }

  /** A frame serves at most `budget` sinks, each by one service, and leaves the others as they were. */
  lemma {:induction false} TickServes(st: Sched, budget: nat, maxChunk: nat) returns (served: set<string>)
    requires SchedInv(st, maxChunk)
    ensures |served| <= budget
    ensures Serves(st.sinks, Tick(st, budget, maxChunk).sinks, served, maxChunk)
  {
    served := ScanServes(st.(isFrameArmed := false), 0, budget, maxChunk);
  }

  /** The sink under the round-robin pointer is served first. */
  lemma {:induction false} PointedSinkIsServed(st: Sched, budget: nat, maxChunk: nat)
    requires SchedInv(st, maxChunk) && budget >= 1 && st.order != [] && st.order[st.rr] in st.sinks
    requires Serviceable(st.sinks[st.order[st.rr]])
    ensures st.order[st.rr] in Tick(st, budget, maxChunk).sinks
    ensures Tick(st, budget, maxChunk).sinks[st.order[st.rr]] == Service(st.sinks[st.order[st.rr]], maxChunk)
  {
    hide SinkInv, Service, Serviceable;
    var frame := st.(isFrameArmed := false);
    ScanServesPointed(frame, budget, maxChunk);
  }

  lemma {:induction false} ScanServesPointed(st: Sched, budget: nat, maxChunk: nat)
    requires SchedInv(st, maxChunk) && budget >= 1 && st.order != [] && IsServed(st, st.order[st.rr])
    ensures
      var id, after := st.order[st.rr], Scan(st, 0, budget, maxChunk).sinks;
      id in after && after[id] == Service(st.sinks[id], maxChunk)
  {
    hide SinkInv, Service, Serviceable;
    var id := st.order[st.rr];
    assert Around(st.rr, 0, |st.order|) == st.rr;
    var next := ServeSink(st, id, maxChunk);
    ServeKeepsInv(st, id, maxChunk);
    var served := ScanServes(next, 1, budget - 1, maxChunk);
    assert id !in served by {
      assert next.order[Around(next.rr, 0, |next.order|)] !in served;
    }
  }

  // ---------------------------------------------------------------- every step

  lemma {:induction false} TickKeepsInv(st: Sched, budget: nat, maxChunk: nat)
    requires SchedInv(st, maxChunk)
    ensures SchedInv(Tick(st, budget, maxChunk), maxChunk) && Awake(Tick(st, budget, maxChunk))
  {
    var scanned := Scan(st.(isFrameArmed := false), 0, budget, maxChunk);
    ScanKeepsInv(st.(isFrameArmed := false), 0, budget, maxChunk);
    EndFrame(scanned, if st.order != [] then NextPointer(st.rr, |st.order|) else st.rr, maxChunk);
    hide SchedInv, Scan, Awake, NextPointer, AnyServiceable;
  }

  /** A frame that moves the pointer and rearms if any sink is serviceable leaves everybody awake. */
  lemma {:induction false} EndFrame(st: Sched, rr: nat, maxChunk: nat)
    requires SchedInv(st, maxChunk) && (rr < |st.order| || rr == st.rr)
    ensures
      var after := st.(rr := rr, isFrameArmed := AnyServiceable(st.sinks));
      SchedInv(after, maxChunk) && Awake(after)
  {
    hide GoodLog, Stream, OutStream;
  }

  lemma {:induction false} RemovedOrder(order: seq<string>, i: nat)
    requires i < |order|
    requires forall j, k :: 0 <= j < k < |order| ==> order[j] != order[k]
    ensures var left := order[..i] + order[i + 1..];
      forall j, k :: 0 <= j < k < |left| ==> left[j] != left[k]
    ensures forall other :: other in order[..i] + order[i + 1..] <==> other in order && other != order[i]
  {
    var left := order[..i] + order[i + 1..];
    forall other
      ensures other in left <==> other in order && other != order[i]
    {
      if other in order && other != order[i] {
        var k :| 0 <= k < |order| && order[k] == other;
        assert left[if k < i then k else k - 1] == other;
      }
    }
  }

  lemma {:induction false} UnregisterKeepsInv(st: Sched, id: string, maxChunk: nat)
    requires SchedInv(st, maxChunk)
    ensures SchedInv(Unregister(st, id), maxChunk)
  {
    hide SinkInv;
    if id in st.sinks {
      RemovedOrder(st.order, IndexOf(st.order, id));
    }
  }

  lemma {:induction false} EnqueueKeepsSched(st: Sched, id: string, entry: Entry, maxChunk: nat)
    requires SchedInv(st, maxChunk)
    ensures SchedInv(Enqueue(st, id, entry), maxChunk)
  {
    if id in st.sinks && entry != Text("") {
      EnqueueKeepsInv(st.sinks[id], entry, maxChunk);
      ReplaceSink(st, id, Enqueue(st, id, entry).sinks[id], maxChunk);
    }
  }

  lemma {:induction false} RegisterKeepsInv(st: Sched, id: string, maxChunk: nat)
    requires SchedInv(st, maxChunk)
    ensures SchedInv(Register(st, id), maxChunk)
  {
    if id !in st.sinks {
      assert SinkInv(NEW_SINK, maxChunk);
      AddSink(st, id, NEW_SINK, maxChunk);
    }
  }

  lemma {:induction false} AddSink(st: Sched, id: string, s: Sink, maxChunk: nat)
    requires SchedInv(st, maxChunk) && id !in st.sinks && SinkInv(s, maxChunk)
    ensures SchedInv(st.(sinks := st.sinks[id := s], order := st.order + [id]), maxChunk)
  {
    hide SinkInv;
  }

  /** Every step keeps the invariant. */
  lemma {:induction false} StepKeepsInv(st: Sched, event: Event, budget: nat, maxChunk: nat)
    requires SchedInv(st, maxChunk)
    ensures SchedInv(Step(st, event, budget, maxChunk), maxChunk)
  {
    hide SinkInv, Register, Unregister, Enqueue, Tick;
    match event
    case Registering(id) => RegisterKeepsInv(st, id, maxChunk);
    case Unregistering(id) => UnregisterKeepsInv(st, id, maxChunk);
    case Enqueueing(id, entry) => EnqueueKeepsSched(st, id, entry, maxChunk);
    case Ticking => TickKeepsInv(st, budget, maxChunk);
    case Draining(id) =>
      if id in st.sinks && st.sinks[id].inFlight {
        DrainKeepsInv(st.sinks[id], maxChunk);
        ReplaceSink(st, id, DrainSink(st.sinks[id]), maxChunk);
      }
    case Stopping =>
  }

  /** Every step but a stop keeps the scheduler awake, and a frame armed by any step wakes it. */
  lemma {:induction false} StepKeepsAwake(st: Sched, event: Event, budget: nat, maxChunk: nat)
    requires SchedInv(st, maxChunk)
    ensures event != Stopping && Awake(st) ==> Awake(Step(st, event, budget, maxChunk))
    ensures Step(st, event, budget, maxChunk).isFrameArmed ==> Awake(Step(st, event, budget, maxChunk))
  {
    hide SchedInv, SinkInv, Tick, WithoutId;
    match event
    case Registering(id) =>
    case Unregistering(id) =>
    case Enqueueing(id, entry) =>
    case Ticking => TickKeepsInv(st, budget, maxChunk);
    case Draining(id) =>
    case Stopping =>
  }

  // ---------------------------------------------------------------- every run

  lemma {:induction false} RunKeepsInv(st: Sched, events: seq<Event>, budget: nat, maxChunk: nat)
    requires SchedInv(st, maxChunk)
    ensures SchedInv(Run(st, events, budget, maxChunk), maxChunk)
    decreases |events|
  {
    if events != [] {
      StepKeepsInv(st, events[0], budget, maxChunk);
      RunKeepsInv(Step(st, events[0], budget, maxChunk), events[1..], budget, maxChunk);
    }
  }

  /**
   In every run, for every registered sink, what it was made to do followed by what it has not read
   is what was enqueued since it was registered, in order; at most one batch is outstanding.
   */
  lemma {:induction false} Conservation(events: seq<Event>, budget: nat, maxChunk: nat, id: string)
    requires id in Run(START, events, budget, maxChunk).sinks
    ensures
      var s := Run(START, events, budget, maxChunk).sinks[id];
      && OutStream(s.log) + Stream(s.unread) == Stream(s.accepted)
      && GoodLog(s.log, maxChunk)
  {
    RunKeepsInv(START, events, budget, maxChunk);
  }

  /**
   In every run, two action runs of a registered sink are of two different queued actions, in the order of the
   queue; at each no batch was outstanding, and exactly what was enqueued before that action had been done.
   */
  lemma {:induction false} ActionsRunInOrder(events: seq<Event>, budget: nat, maxChunk: nat, id: string, i: nat, k: nat)
    returns (ji: nat, jk: nat)
    requires id in Run(START, events, budget, maxChunk).sinks
    requires
      var log := Run(START, events, budget, maxChunk).sinks[id].log;
      i < k < |log| && log[i].Ran? && log[k].Ran?
    ensures
      var s := Run(START, events, budget, maxChunk).sinks[id];
      && ji < jk < |s.accepted|
      && s.accepted[ji] == Action(s.log[i].id) && s.accepted[jk] == Action(s.log[k].id)
      && !Outstanding(s.log[..i]) && !Outstanding(s.log[..k])
      && OutStream(s.log[..i]) == Stream(s.accepted[..ji]) && OutStream(s.log[..k]) == Stream(s.accepted[..jk])
  {
    RunKeepsInv(START, events, budget, maxChunk);
    var s := Run(START, events, budget, maxChunk).sinks[id];
    ji, jk := ActionRunsOnce(s, maxChunk, i, k);
    GoodLogAt(s.log, maxChunk, i);
    GoodLogAt(s.log, maxChunk, k);
  }

  /** And an action has run exactly once as soon as the sink was made to do more than what was enqueued before it. */
  lemma {:induction false} ActionRanInRun(
      events: seq<Event>, budget: nat, maxChunk: nat, id: string, j: nat) returns (i: nat)
    requires id in Run(START, events, budget, maxChunk).sinks
    requires
      var s := Run(START, events, budget, maxChunk).sinks[id];
      j < |s.accepted| && s.accepted[j].Action? && |Stream(s.accepted[..j])| < |OutStream(s.log)|
    ensures
      var s := Run(START, events, budget, maxChunk).sinks[id];
      && i < |s.log| && s.log[i] == Ran(s.accepted[j].id) && OutStream(s.log[..i]) == Stream(s.accepted[..j])
      && forall k :: 0 <= k < |s.log| && s.log[k].Ran? && OutStream(s.log[..k]) == Stream(s.accepted[..j]) ==> k == i
  {
    RunKeepsInv(START, events, budget, maxChunk);
    var s := Run(START, events, budget, maxChunk).sinks[id];
    i := ActionHasRun(s, maxChunk, j);
    forall k | 0 <= k < |s.log| && s.log[k].Ran? && OutStream(s.log[..k]) == Stream(s.accepted[..j])
      ensures k == i
    {
      if i < k {
        LaterRunLonger(s.log, i, k);
      } else if k < i {
        LaterRunLonger(s.log, k, i);
      }
    }
  }

  /** In a run without a stop no wakeup is lost. */
  lemma {:induction false} NoLostWakeup(st: Sched, events: seq<Event>, budget: nat, maxChunk: nat)
    requires SchedInv(st, maxChunk) && Awake(st)
    requires Stopping !in events
    ensures Awake(Run(st, events, budget, maxChunk))
    decreases |events|
  {
    if events != [] {
      StepKeepsInv(st, events[0], budget, maxChunk);
      StepKeepsAwake(st, events[0], budget, maxChunk);
      NoLostWakeup(Step(st, events[0], budget, maxChunk), events[1..], budget, maxChunk);
    }
  }

  // ---------------------------------------------------------------- bounded wait

  /** The frames that fire in a run. */
  function Frames(st: Sched, events: seq<Event>, budget: nat, maxChunk: nat): nat
    decreases |events|
  {
    if events == [] then 0
    else
      var later := Frames(Step(st, events[0], budget, maxChunk), events[1..], budget, maxChunk);
      if events[0] == Ticking && st.isFrameArmed then 1 + later else later
  }

  predicate FixedOrder(events: seq<Event>) {
    forall i :: 0 <= i < |events| ==> !events[i].Registering? && !events[i].Unregistering?
  }

  /** How many frames until the pointer stands at position `at`. */
  function FramesUntil(st: Sched, at: nat): nat
    requires st.rr < |st.order| && at < |st.order|
  {
    if st.rr <= at then at - st.rr else at + |st.order| - st.rr
  }

  lemma {:induction false} RunPrefix(st: Sched, events: seq<Event>, i: nat, budget: nat, maxChunk: nat)
    requires 0 < i <= |events|
    ensures Run(st, events[..i], budget, maxChunk)
      == Run(Step(st, events[0], budget, maxChunk), events[1..][..i - 1], budget, maxChunk)
  {
    assert events[..i][1..] == events[1..][..i - 1];
  }

  /**
   With a fixed order of n sinks and a budget of at least one, among the next n frames there is one
   at which a sink, if it is serviceable then, is served.
   */
  lemma {:induction false} BoundedWait(
      st: Sched, events: seq<Event>, at: nat, budget: nat, maxChunk: nat) returns (i: nat)
    requires SchedInv(st, maxChunk) && at < |st.order| && budget >= 1 && FixedOrder(events)
    requires Frames(st, events, budget, maxChunk) > FramesUntil(st, at)
    ensures i < |events| && events[i] == Ticking
    ensures
      var before := Run(st, events[..i], budget, maxChunk);
      && SchedInv(before, maxChunk) && before.isFrameArmed && before.order == st.order && before.rr == at
      && Frames(st, events[..i], budget, maxChunk) == FramesUntil(st, at)
    decreases |events|
  {
    if events[0] == Ticking && st.isFrameArmed && st.rr == at {
      i := 0;
    } else {
      var next := Step(st, events[0], budget, maxChunk);
      StepKeepsInv(st, events[0], budget, maxChunk);
      PointerMoves(st, events[0], budget, maxChunk);
      i := BoundedWait(next, events[1..], at, budget, maxChunk);
      assert events[..i + 1][1..] == events[1..][..i];
      RunPrefix(st, events, i + 1, budget, maxChunk);
      i := i + 1;
    }
  }

  lemma {:induction false} PointerMoves(st: Sched, event: Event, budget: nat, maxChunk: nat)
    requires SchedInv(st, maxChunk) && st.order != []
    requires !event.Registering? && !event.Unregistering?
    ensures
      var next := Step(st, event, budget, maxChunk);
      && next.order == st.order
      && next.rr == if event == Ticking && st.isFrameArmed then (if st.rr + 1 < |st.order| then st.rr + 1 else 0) else st.rr
  {
    TickPointer(st, budget, maxChunk);
    hide SchedInv, Tick, DrainSink;
  }

  lemma {:induction false} TickPointer(st: Sched, budget: nat, maxChunk: nat)
    requires SchedInv(st, maxChunk) && st.order != []
    ensures
      var next := Tick(st, budget, maxChunk);
      next.order == st.order && next.rr == if st.rr + 1 < |st.order| then st.rr + 1 else 0
  {
    ScanKeepsInv(st.(isFrameArmed := false), 0, budget, maxChunk);
    hide SinkInv, Scan, AnyServiceable;
  }

  /** So a sink that is serviceable at every frame makes progress within n frames. */
  lemma {:induction false} ServedWithinRound(
      st: Sched, events: seq<Event>, at: nat, budget: nat, maxChunk: nat) returns (i: nat)
    requires SchedInv(st, maxChunk) && at < |st.order| && budget >= 1 && maxChunk >= 1 && FixedOrder(events)
    requires Frames(st, events, budget, maxChunk) >= |st.order|
    requires forall i :: 0 <= i < |events| && events[i] == Ticking && st.order[at] in Run(st, events[..i], budget, maxChunk).sinks ==>
      Serviceable(Run(st, events[..i], budget, maxChunk).sinks[st.order[at]])
    ensures i < |events| && Frames(st, events[..i], budget, maxChunk) < |st.order|
    ensures
      var id := st.order[at];
      var before, after := Run(st, events[..i], budget, maxChunk), Step(Run(st, events[..i], budget, maxChunk), events[i], budget, maxChunk);
      && id in before.sinks && id in after.sinks
      && after.sinks[id] == Service(before.sinks[id], maxChunk)
      && |Stream(after.sinks[id].unread)| < |Stream(before.sinks[id].unread)|
  {
    i := BoundedWait(st, events, at, budget, maxChunk);
    var before := Run(st, events[..i], budget, maxChunk);
    assert st.order[at] in before.order;
    PointedSinkIsServed(before, budget, maxChunk);
    ServiceKeepsInv(before.sinks[st.order[at]], maxChunk);
  }

  // ---------------------------------------------------------------- what a stop costs

  /** Something is unread, and no batch is in flight whose end could bring a frame. */
  predicate Waits(st: Sched, id: string) {
    id in st.sinks && st.sinks[id].unread != [] && !st.sinks[id].inFlight
  }

  /** Something that counts is enqueued, or a batch drains that leaves something unread. */
  predicate Wakes(st: Sched, event: Event) {
    match event
    case Enqueueing(id, entry) => id in st.sinks && entry != Text("")
    case Draining(id) => id in st.sinks && st.sinks[id].inFlight && st.sinks[id].unread != []
    case _ => false
  }

  predicate NoneWakes(st: Sched, events: seq<Event>, budget: nat, maxChunk: nat)
    decreases |events|
  {
    events == [] || (!Wakes(st, events[0]) && NoneWakes(Step(st, events[0], budget, maxChunk), events[1..], budget, maxChunk))
  }

  /** With no frame armed, one step arms one iff it wakes; else it leaves what waits as it was. */
  lemma {:induction false} WakesIff(st: Sched, event: Event, budget: nat, maxChunk: nat, id: string)
    requires !st.isFrameArmed
    ensures Step(st, event, budget, maxChunk).isFrameArmed <==> Wakes(st, event)
    ensures !Wakes(st, event) && Waits(st, id) && event != Unregistering(id) ==>
      id in Step(st, event, budget, maxChunk).sinks && Step(st, event, budget, maxChunk).sinks[id] == st.sinks[id]
  {
    hide Tick, WithoutId;
  }

  /** With no frame armed, nothing happens to what waits until something wakes. */
  lemma {:induction false} SleepsUntilWoken(st: Sched, events: seq<Event>, budget: nat, maxChunk: nat, id: string)
    requires !st.isFrameArmed && NoneWakes(st, events, budget, maxChunk)
    ensures !Run(st, events, budget, maxChunk).isFrameArmed && Frames(st, events, budget, maxChunk) == 0
    ensures Waits(st, id) && Unregistering(id) !in events ==>
      id in Run(st, events, budget, maxChunk).sinks && Run(st, events, budget, maxChunk).sinks[id] == st.sinks[id]
    decreases |events|
  {
    hide Step;
    if events != [] {
      WakesIff(st, events[0], budget, maxChunk, id);
      SleepsUntilWoken(Step(st, events[0], budget, maxChunk), events[1..], budget, maxChunk, id);
    }
  }

  /** And the first event that wakes arms a frame. */
  lemma {:induction false} WokenAt(st: Sched, events: seq<Event>, budget: nat, maxChunk: nat) returns (i: nat)
    requires !st.isFrameArmed && !NoneWakes(st, events, budget, maxChunk)
    ensures i < |events| && NoneWakes(st, events[..i], budget, maxChunk)
    ensures Wakes(Run(st, events[..i], budget, maxChunk), events[i])
    ensures Run(st, events[..i + 1], budget, maxChunk).isFrameArmed && Awake(Run(st, events[..i + 1], budget, maxChunk))
    decreases |events|
  {
    hide Step;
    var next := Step(st, events[0], budget, maxChunk);
    WakesIff(st, events[0], budget, maxChunk, "");
    if Wakes(st, events[0]) {
      i := 0;
      assert events[..1][1..] == [];
      assert Run(next, [], budget, maxChunk) == next;
    } else {
      i := WokenAt(next, events[1..], budget, maxChunk);
      assert events[..i + 1][1..] == events[1..][..i] && events[..i + 1][0] == events[0];
      RunPrefix(st, events, i + 1, budget, maxChunk);
      RunPrefix(st, events, i + 2, budget, maxChunk);
      i := i + 1;
    }
  }

  /**
   After a stop, over any events, a frame is armed at some point iff one of them wakes. Until then no frame
   fires and a waiting sink that stays registered keeps its queue and does nothing.
   */
  lemma {:induction false} StopSleepsUntilWoken(st: Sched, events: seq<Event>, budget: nat, maxChunk: nat, id: string)
    ensures
      var stopped := Step(st, Stopping, budget, maxChunk);
      (exists i: nat :: i <= |events| && Run(stopped, events[..i], budget, maxChunk).isFrameArmed) <==>
      !NoneWakes(stopped, events, budget, maxChunk)
    ensures
      var stopped := Step(st, Stopping, budget, maxChunk);
      var after := Run(stopped, events, budget, maxChunk);
      NoneWakes(stopped, events, budget, maxChunk) && Waits(st, id) && Unregistering(id) !in events ==>
        && Frames(stopped, events, budget, maxChunk) == 0 && !Awake(after)
        && id in after.sinks && after.sinks[id] == st.sinks[id]
  {
    var stopped := Step(st, Stopping, budget, maxChunk);
    if NoneWakes(stopped, events, budget, maxChunk) {
      SleepsUntilWoken(stopped, events, budget, maxChunk, id);
      forall i: nat | i <= |events|
        ensures !Run(stopped, events[..i], budget, maxChunk).isFrameArmed
      {
        NoneWakesBefore(stopped, events, i, budget, maxChunk);
        SleepsUntilWoken(stopped, events[..i], budget, maxChunk, id);
      }
    } else {
      var i := WokenAt(stopped, events, budget, maxChunk);
      assert i + 1 <= |events|;
    }
  }

  lemma {:induction false} NoneWakesBefore(st: Sched, events: seq<Event>, i: nat, budget: nat, maxChunk: nat)
    requires i <= |events| && NoneWakes(st, events, budget, maxChunk)
    ensures NoneWakes(st, events[..i], budget, maxChunk)
    decreases |events|
  {
    hide Step;
    if i > 0 {
      NoneWakesBefore(Step(st, events[0], budget, maxChunk), events[1..], i - 1, budget, maxChunk);
      assert events[..i][1..] == events[1..][..i - 1];
    }
  }

  /** Stopping right after something was enqueued to an idle sink leaves it waiting with no frame armed. */
  lemma {:induction false} StopLosesWakeup(id: string, entry: Entry, budget: nat, maxChunk: nat)
    requires entry != Text("")
    ensures
      var waiting := Enqueue(Register(START, id), id, entry);
      var stopped := Step(waiting, Stopping, budget, maxChunk);
      Awake(waiting) && !Awake(stopped) && stopped.sinks[id].unread == [entry]
  {
    var waiting := Enqueue(Register(START, id), id, entry);
    assert waiting.sinks[id].unread == [entry];
  }
}
