/**
 What one frame and one service do exactly: which sinks are served, how much each writes, and when another frame
 is armed; and what registering and unregistering leave as it was.
 */
module SchedulerFrames {
  import opened SchedulerModel
  import opened SchedulerLaws
  import opened SchedulerRuns

  // ---------------------------------------------------------------- which sinks a frame serves

  /** The sink that stands `k` places after the round-robin pointer. */
  function InLine(st: Sched, k: nat): string
    requires k < |st.order|
  {
    st.order[(st.rr + k) % |st.order|]
  }

  predicate Waits(st: Sched, k: nat)
    requires k < |st.order|
  {
    InLine(st, k) in st.sinks && Serviceable(st.sinks[InLine(st, k)])
  }

  /** How many serviceable sinks stand from place `j` up to place `k`. */
  function Waiting(st: Sched, j: nat, k: nat): nat
    requires k <= |st.order|
    decreases k
  {
    if k <= j then 0 else Waiting(st, j, k - 1) + (if Waits(st, k - 1) then 1 else 0)
  }

  /** A scan from place `j` gets to the sink at place `k` with budget left, and that sink is serviceable. */
  predicate IsReached(st: Sched, j: nat, budget: nat, k: nat)
    requires k < |st.order|
  {
    k >= j && Waits(st, k) && Waiting(st, j, k) < budget
  }

  lemma {:induction false} InLineIs(st: Sched, k: nat)
    requires k < |st.order| && (st.rr < |st.order| || st.rr == 0)
    ensures InLine(st, k) == st.order[Around(st.rr, k, |st.order|)]
  {
    if st.rr + k < |st.order| {
      SmallMod(st.rr + k, |st.order|);
    } else {
      OnceAround(st.rr + k, |st.order|);
    }
  }

  lemma {:induction false} SmallMod(x: nat, n: nat)
    requires x < n
    ensures x % n == x
  {
  }

  lemma {:induction false} PlacesDiffer(st: Sched, maxChunk: nat, j: nat, k: nat)
    requires SchedInv(st, maxChunk) && j < k < |st.order|
    ensures InLine(st, j) != InLine(st, k)
  {
    InLineIs(st, j);
    InLineIs(st, k);
  }

  lemma {:induction false} WaitingSplit(st: Sched, j: nat, k: nat)
    requires j < k <= |st.order|
    ensures Waiting(st, j, k) == (if Waits(st, j) then 1 else 0) + Waiting(st, j + 1, k)
    decreases k - j
  {
    hide Waits;
    if j + 1 < k {
      WaitingSplit(st, j, k - 1);
    }
  }

  /** Serving the sink at one place changes nothing about those at the others. */
  lemma {:induction false} ServePlace(st: Sched, maxChunk: nat, j: nat, k: nat)
    requires SchedInv(st, maxChunk) && j < |st.order| && k < |st.order| && j != k
    ensures
      var next := ServeSink(st, InLine(st, j), maxChunk);
      && InLine(next, k) == InLine(st, k) && Waits(next, k) == Waits(st, k)
      && (InLine(st, k) in st.sinks <==> InLine(st, k) in next.sinks)
      && (InLine(st, k) in st.sinks ==> next.sinks[InLine(st, k)] == st.sinks[InLine(st, k)])
  {
    hide Service, Serviceable, SinkInv;
    if j < k {
      PlacesDiffer(st, maxChunk, j, k);
    } else {
      PlacesDiffer(st, maxChunk, k, j);
    }
  }

  lemma {:induction false} ServeKeepsWaiting(st: Sched, maxChunk: nat, at: nat, j: nat, k: nat)
    requires SchedInv(st, maxChunk) && at < j <= k <= |st.order|
    ensures Waiting(ServeSink(st, InLine(st, at), maxChunk), j, k) == Waiting(st, j, k)
    decreases k - j
  {
    hide Waits, SchedInv, InLine;
    if j < k {
      ServeKeepsWaiting(st, maxChunk, at, j, k - 1);
      ServePlace(st, maxChunk, at, k - 1);
    }
  }

  /** The sink at place `k` after this much of a scan: served iff serviceable with budget left for it. */
  predicate ServedAt(before: Sched, after: map<string, Sink>, k: nat, isServed: bool, maxChunk: nat)
    requires k < |before.order|
  {
    var id := InLine(before, k);
    id in before.sinks && id in after
    && after[id] == if isServed then Service(before.sinks[id], maxChunk) else before.sinks[id]
  }

  /** The turn of the sink at place `j`, for that sink and for the others. */
  lemma {:induction false} TurnServes(st: Sched, after: map<string, Sink>, j: nat, budget: nat, maxChunk: nat, k: nat)
    requires SchedInv(st, maxChunk) && j < |st.order| && k < |st.order| && budget > 0
    requires
      var next, rest := ServeSink(st, InLine(st, j), maxChunk), if Waits(st, j) then budget - 1 else budget;
      ServedAt(next, after, k, IsReached(next, j + 1, rest, k), maxChunk)
    ensures ServedAt(st, after, k, IsReached(st, j, budget, k), maxChunk)
  {
    hide Service, SinkInv;
    assert InLine(st, k) in st.order;
    if k != j {
      ServePlace(st, maxChunk, j, k);
      if k > j {
        ServeKeepsWaiting(st, maxChunk, j, j + 1, k);
        WaitingSplit(st, j, k);
      }
      hide Waiting, Waits, ServeSink, InLine;
    }
  }

  lemma {:induction false} ScanServesAt(st: Sched, j: nat, budget: nat, maxChunk: nat, k: nat)
    requires SchedInv(st, maxChunk) && j <= |st.order| && k < |st.order|
    ensures ServedAt(st, Scan(st, j, budget, maxChunk).sinks, k, IsReached(st, j, budget, k), maxChunk)
    decreases |st.order| - j
  {
    hide SchedInv, Serviceable, IsReached, ServedAt, Scan, Waits, InLine, Service;
    if j < |st.order| && budget > 0 {
      NextTurn(st, j, budget, maxChunk);
      var next, rest := ServeSink(st, InLine(st, j), maxChunk), if Waits(st, j) then budget - 1 else budget;
      ServeKeepsInv(st, InLine(st, j), maxChunk);
      ScanServesAt(next, j + 1, rest, maxChunk, k);
      TurnServes(st, Scan(next, j + 1, rest, maxChunk).sinks, j, budget, maxChunk, k);
    } else {
      NobodyReached(st, j, budget, maxChunk, k);
    }
  }

  lemma {:induction false} NextTurn(st: Sched, j: nat, budget: nat, maxChunk: nat)
    requires SchedInv(st, maxChunk) && j < |st.order| && budget > 0
    ensures Scan(st, j, budget, maxChunk)
      == Scan(ServeSink(st, InLine(st, j), maxChunk), j + 1, if Waits(st, j) then budget - 1 else budget, maxChunk)
  {
    InLineIs(st, j);
    hide SinkInv, Serviceable, ServeSink;
  }

  lemma {:induction false} NobodyReached(st: Sched, j: nat, budget: nat, maxChunk: nat, k: nat)
    requires SchedInv(st, maxChunk) && j <= |st.order| && k < |st.order| && (j == |st.order| || budget == 0)
    ensures !IsReached(st, j, budget, k)
    ensures ServedAt(st, Scan(st, j, budget, maxChunk).sinks, k, false, maxChunk)
  {
    assert InLine(st, k) in st.order;
    hide SinkInv, Serviceable;
  }

  /**
   A frame serves exactly the first `budget` of its serviceable sinks in line from the pointer, each by one
   service: a sink is served iff it is serviceable and fewer than `budget` serviceable ones stand before it.
   */
  lemma {:induction false} TickServesExactly(st: Sched, budget: nat, maxChunk: nat, k: nat)
    requires SchedInv(st, maxChunk) && k < |st.order|
    ensures ServedAt(st, Tick(st, budget, maxChunk).sinks, k, Waits(st, k) && Waiting(st, 0, k) < budget, maxChunk)
  {
    hide Scan, Service, SchedInv, Serviceable, ServedAt, IsReached, AnyServiceable;
    var frame := st.(isFrameArmed := false);
    SameInv(st, frame, maxChunk);
    ScanServesAt(frame, 0, budget, maxChunk, k);
    FrameReaches(st, frame, budget, maxChunk, k, Scan(frame, 0, budget, maxChunk).sinks);
  }

  lemma {:induction false} SameInv(st: Sched, frame: Sched, maxChunk: nat)
    requires frame == st.(isFrameArmed := false) && SchedInv(st, maxChunk)
    ensures SchedInv(frame, maxChunk)
  {
    hide SinkInv;
  }

  lemma {:induction false} FrameReaches(
      st: Sched, frame: Sched, budget: nat, maxChunk: nat, k: nat, after: map<string, Sink>)
    requires frame == st.(isFrameArmed := false) && k < |st.order|
    ensures ServedAt(frame, after, k, IsReached(frame, 0, budget, k), maxChunk)
      == ServedAt(st, after, k, Waits(st, k) && Waiting(st, 0, k) < budget, maxChunk)
  {
    FrameChangesNoPlace(st, frame, k);
    hide Service, Serviceable, Waiting;
  }

  /** After a frame another is armed iff some sink is serviceable, and the pointer has moved on by one place. */
  lemma {:induction false} FrameEnds(st: Sched, budget: nat, maxChunk: nat)
    requires SchedInv(st, maxChunk) && st.order != []
    ensures
      var after := Tick(st, budget, maxChunk);
      && (after.isFrameArmed <==> exists id :: id in after.sinks && Serviceable(after.sinks[id]))
      && after.order == st.order && after.rr == (st.rr + 1) % |st.order|
  {
    TickPointer(st, budget, maxChunk);
    if st.rr + 1 < |st.order| {
      SmallMod(st.rr + 1, |st.order|);
    } else {
      OnceAroundOrOne(st.rr + 1, |st.order|);
    }
    hide Scan, SinkInv, Serviceable;
  }

  lemma {:induction false} OnceAroundOrOne(x: nat, n: nat)
    requires x == n > 0
    ensures x % n == 0
  {
  }

  lemma {:induction false} FrameChangesNoPlace(st: Sched, frame: Sched, k: nat)
    requires frame == st.(isFrameArmed := false) && k <= |st.order|
    ensures Waiting(frame, 0, k) == Waiting(st, 0, k)
  {
    if k > 0 {
      FrameChangesNoPlace(st, frame, k - 1);
    }
  }

  lemma {:induction false} WaitingGrows(st: Sched, j: nat, k: nat)
    requires j <= k <= |st.order|
    ensures Waiting(st, 0, j) <= Waiting(st, 0, k)
    decreases k - j
  {
    if j < k {
      WaitingGrows(st, j, k - 1);
    }
  }

  lemma {:induction false} PlaceOf(st: Sched, maxChunk: nat, id: string) returns (k: nat)
    requires SchedInv(st, maxChunk) && id in st.sinks
    ensures k < |st.order| && InLine(st, k) == id
  {
    hide SinkInv;
    var i :| 0 <= i < |st.order| && st.order[i] == id;
    k := if i >= st.rr then i - st.rr else i + |st.order| - st.rr;
    InLineIs(st, k);
  }

  /** In particular, when no more sinks are serviceable than the budget allows, every one of them is served. */
  lemma {:induction false} AllServed(st: Sched, budget: nat, maxChunk: nat, id: string)
    requires SchedInv(st, maxChunk) && id in st.sinks && Serviceable(st.sinks[id])
    requires Waiting(st, 0, |st.order|) <= budget
    ensures id in Tick(st, budget, maxChunk).sinks && Tick(st, budget, maxChunk).sinks[id] == Service(st.sinks[id], maxChunk)
  {
    hide Service, Serviceable, SinkInv, Tick;
    var k := PlaceOf(st, maxChunk, id);
    WaitingGrows(st, k + 1, |st.order|);
    TickServesExactly(st, budget, maxChunk, k);
  }

  // ---------------------------------------------------------------- how much one service takes

  /** What a service leaves begins with an action held back by the text taken, or with text there is no room for. */
  ghost predicate LeavesNoRoom(taken: nat, rest: seq<Entry>, maxChunk: nat) {
    rest == [] || match rest[0]
      case Action(_) => taken > 0
      case Text(data) => taken + |data| > maxChunk
  }

  /** A service takes as much as it may: what is left could not have been taken in this frame. */
  lemma {:induction false} TakeIsGreedy(unread: seq<Entry>, consumed: nat, maxChunk: nat)
    requires NoEmptyText(unread)
    ensures
      var t := Take(unread, consumed, maxChunk);
      LeavesNoRoom(consumed + |Joined(t.writes)|, t.rest, maxChunk)
    decreases |unread|
  {
    hide Slices, Joined;
    NothingTaken();
    if unread != [] {
      assert forall i :: 0 <= i < |unread[1..]| ==> unread[1..][i] == unread[i + 1];
      match unread[0]
      case Action(id) =>
        if consumed == 0 {
          TakeIsGreedy(unread[1..], consumed, maxChunk);
        }
      case Text(data) =>
        if consumed + |data| <= maxChunk {
          var later := Take(unread[1..], consumed + |data|, maxChunk);
          TakeIsGreedy(unread[1..], consumed + |data|, maxChunk);
          SlicesKeepText(data);
          JoinedConcat(Slices(data), later.writes);
        } else if consumed == 0 {
          SlicesKeepText(data[..maxChunk]);
        }
    }
  }

  /** An entry is cut only if it alone is longer than the chunk limit, and then the chunk is full. */
  lemma {:induction false} TakeCutsOnlyLong(unread: seq<Entry>, consumed: nat, maxChunk: nat) returns (k: nat)
    ensures k <= |unread|
    ensures
      var t := Take(unread, consumed, maxChunk);
      || t.rest == unread[k..]
      || (k < |unread| && unread[k].Text? && consumed == 0 && |unread[k].data| > maxChunk
          && t.rest == [Text(unread[k].data[maxChunk..])] + unread[k + 1..]
          && Joined(t.writes) == unread[k].data[..maxChunk])
    decreases |unread|
  {
    hide Slices, Joined;
    k := 0;
    if unread != [] {
      match unread[0]
      case Action(id) =>
        if consumed == 0 {
          k := TakeCutsOnlyLong(unread[1..], consumed, maxChunk);
          k := k + 1;
        }
      case Text(data) =>
        if consumed + |data| <= maxChunk {
          k := TakeCutsOnlyLong(unread[1..], consumed + |data|, maxChunk);
          if |data| == 0 {
            NoTextNoSlices(Take(unread[1..], consumed, maxChunk).writes);
          }
          k := k + 1;
        } else if consumed == 0 {
          SlicesKeepText(data[..maxChunk]);
        }
    }
  }

  lemma {:induction false} NoTextNoSlices(writes: seq<string>)
    ensures Joined(Slices("") + writes) == Joined(writes)
  {
    JoinedConcat([""], writes);
    assert Joined([""]) == "" + Joined([]);
    assert "" + Joined(writes) == Joined(writes);
  }

  // ---------------------------------------------------------------- coming and going

  /** A new sink comes last and changes nothing about the others; an old one is left alone. */
  lemma {:induction false} RegisterKeepsOthers(st: Sched, id: string)
    ensures
      var after := Register(st, id);
      && after.rr == st.rr && after.isFrameArmed == st.isFrameArmed && id in after.sinks
      && (forall other :: other in st.sinks ==> other in after.sinks && after.sinks[other] == st.sinks[other])
      && (forall other :: other in after.sinks && other != id ==> other in st.sinks)
      && (id in st.sinks ==> after == st)
      && (id !in st.sinks ==> after.order == st.order + [id] && after.sinks[id].unread == [] && !after.sinks[id].inFlight)
  {
  }

  /** A sink that goes takes its place in the order with it; the others keep their order and what they hold. */
  lemma {:induction false} UnregisterKeepsOthers(st: Sched, id: string, maxChunk: nat) returns (i: nat)
    requires SchedInv(st, maxChunk) && id in st.sinks
    ensures
      var after := Unregister(st, id);
      && i < |st.order| && st.order[i] == id && after.order == st.order[..i] + st.order[i + 1..]
      && after.rr == (if st.rr < |after.order| then st.rr else 0) && after.isFrameArmed == st.isFrameArmed
      && id !in after.sinks
      && (forall other :: other != id ==> (other in after.sinks <==> other in st.sinks))
      && (forall other :: other in after.sinks ==> after.sinks[other] == st.sinks[other])
  {
    hide SinkInv;
    i := IndexOf(st.order, id);
  }

  // ---------------------------------------------------------------- slices

  /** Every slice of a text but the last is full. */
  lemma {:induction false} SlicesAreFull(text: string, i: nat)
    requires i < |Slices(text)|
    ensures |Slices(text)[i]| <= 16384 && (i < |Slices(text)| - 1 ==> |Slices(text)[i]| == 16384)
    ensures |text| > 0 ==> |Slices(text)[i]| > 0
    decreases |text|
  {
    if |text| > WRITE_SLICE && i > 0 {
      SlicesAreFull(text[WRITE_SLICE..], i - 1);
    }
  }

  // ---------------------------------------------------------------- a sink that has nothing left

  /** In every run a sink is marked as having something to do exactly while it has unread entries. */
  ghost predicate MarkedExactly(st: Sched) {
    forall id :: id in st.sinks ==> (st.sinks[id].dirty <==> st.sinks[id].unread != [])
  }

  lemma {:induction false} ScanMarks(st: Sched, k: nat, budget: nat, maxChunk: nat)
    requires MarkedExactly(st)
    ensures MarkedExactly(Scan(st, k, budget, maxChunk))
    decreases |st.order| - k
  {
    hide Take;
    if k < |st.order| && budget > 0 {
      var id := st.order[Around(st.rr, k, |st.order|)];
      ServeMarks(st, id, maxChunk);
      hide MarkedExactly, IsServed, ServeSink;
      ScanMarks(ServeSink(st, id, maxChunk), k + 1, if IsServed(st, id) then budget - 1 else budget, maxChunk);
    }
  }

  lemma {:induction false} ServeMarks(st: Sched, id: string, maxChunk: nat)
    requires MarkedExactly(st)
    ensures MarkedExactly(ServeSink(st, id, maxChunk))
  {
    hide Take;
  }

  lemma {:induction false} StepMarks(st: Sched, event: Event, budget: nat, maxChunk: nat)
    requires MarkedExactly(st)
    ensures MarkedExactly(Step(st, event, budget, maxChunk))
  {
    ScanMarks(st.(isFrameArmed := false), 0, budget, maxChunk);
    hide Scan, AnyServiceable, WithoutId;
    match event
    case Registering(id) =>
    case Unregistering(id) =>
    case Enqueueing(id, entry) =>
    case Ticking =>
    case Draining(id) =>
    case Stopping =>
  }

  lemma {:induction false} RunMarks(st: Sched, events: seq<Event>, budget: nat, maxChunk: nat)
    requires MarkedExactly(st)
    ensures MarkedExactly(Run(st, events, budget, maxChunk))
    decreases |events|
  {
    hide MarkedExactly, Step;
    if events != [] {
      StepMarks(st, events[0], budget, maxChunk);
      RunMarks(Step(st, events[0], budget, maxChunk), events[1..], budget, maxChunk);
    }
  }
}
