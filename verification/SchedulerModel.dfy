/**
 The terminal write scheduler as a step system over values.

 Each sink has the entries not yet read, whether a batch is in flight, and two records kept for the
 proofs: everything enqueued since it was registered, and the log of what it was made to do.
 */
module SchedulerModel {

  /** What waits in a sink's queue: text to write, or an action to run between writes. */
  datatype Entry = Text(data: string) | Action(id: nat)

  /** What a sink was made to do: one frame's batch of writes, its drain callback, an action run. */
  datatype Out = Wrote(slices: seq<string>) | Drained | Ran(id: nat)

  datatype Sink = Sink(unread: seq<Entry>, inFlight: bool, dirty: bool, accepted: seq<Entry>, log: seq<Out>)

  const NEW_SINK := Sink([], false, false, [], [])

  datatype Sched = Sched(sinks: map<string, Sink>, order: seq<string>, rr: nat, isFrameArmed: bool)

  const WRITE_SLICE: nat := 16384

  // ---------------------------------------------------------------- one service of one sink

  /** A text cut into pieces of at most WRITE_SLICE characters. */
  function Slices(text: string): seq<string> {
    if |text| <= WRITE_SLICE then [text] else [text[..WRITE_SLICE]] + Slices(text[WRITE_SLICE..])
  }

  datatype Taken = Taken(writes: seq<string>, ran: seq<nat>, rest: seq<Entry>)

  /** What one service takes from the queue when `consumed` characters are already taken. */
  function Take(unread: seq<Entry>, consumed: nat, maxChunk: nat): Taken {
    if unread == [] then Taken([], [], [])
    else
      match unread[0]
      case Action(id) =>
        if consumed > 0 then Taken([], [], unread)
        else
          var later := Take(unread[1..], consumed, maxChunk);
          later.(ran := [id] + later.ran)
      case Text(data) =>
        if consumed + |data| <= maxChunk then
          var later := Take(unread[1..], consumed + |data|, maxChunk);
          later.(writes := Slices(data) + later.writes)
        else if consumed == 0 then
          Taken(Slices(data[..maxChunk]), [], [Text(data[maxChunk..])] + unread[1..])
        else Taken([], [], unread)
  }

  function RanAll(ids: seq<nat>): seq<Out> {
    seq(|ids|, i requires 0 <= i < |ids| => Ran(ids[i]))
  }

  predicate Serviceable(s: Sink) {
    s.dirty && !s.inFlight && s.unread != []
  }

  function Service(s: Sink, maxChunk: nat): Sink {
    var taken := Take(s.unread, 0, maxChunk);
    s.(unread := taken.rest,
       dirty := if taken.rest == [] then false else s.dirty,
       inFlight := if taken.writes == [] then s.inFlight else true,
       log := s.log + RanAll(taken.ran) + (if taken.writes == [] then [] else [Wrote(taken.writes)]))
  }

  // ---------------------------------------------------------------- a frame

  /** The position `k` places after the round-robin pointer. */
  function Around(rr: nat, k: nat, n: nat): (at: nat)
    requires k < n
    ensures at < n
    ensures rr < n ==> at == if rr + k < n then rr + k else rr + k - n
  {
    if rr < n <= rr + k then
      OnceAround(rr + k, n);
      (rr + k) % n
    else (rr + k) % n
  }

  lemma {:induction false} OnceAround(x: nat, n: nat)
    requires 0 < n <= x < 2 * n
    ensures x % n == x - n
  {
    TwiceOrMore(x / n, n);
  }

  lemma {:induction false} TwiceOrMore(q: nat, n: nat)
    ensures q >= 2 ==> n * q >= n * 2
  {
    if q >= 2 {
      assert n * q == n * 2 + n * (q - 2);
    }
  }

  predicate IsServed(st: Sched, id: string) {
    id in st.sinks && Serviceable(st.sinks[id])
  }

  /** The turn of one sink in a frame. */
  function ServeSink(st: Sched, id: string, maxChunk: nat): (next: Sched)
    ensures next.order == st.order && next.rr == st.rr && next.isFrameArmed == st.isFrameArmed
  {
    if IsServed(st, id) then st.(sinks := st.sinks[id := Service(st.sinks[id], maxChunk)]) else st
  }

  /** The scan of one frame from the `k`-th sink after the round-robin pointer. */
  function Scan(st: Sched, k: nat, budget: nat, maxChunk: nat): Sched
    decreases |st.order| - k
  {
    if k >= |st.order| || budget == 0 then st
    else
      var id := st.order[Around(st.rr, k, |st.order|)];
      Scan(ServeSink(st, id, maxChunk), k + 1, if IsServed(st, id) then budget - 1 else budget, maxChunk)
  }

  function NextPointer(rr: nat, n: nat): (next: nat)
    requires n > 0
    ensures next < n
    ensures rr < n ==> next == if rr + 1 < n then rr + 1 else 0
  {
    Around(rr, if n > 1 then 1 else 0, n)
  }

  predicate AnyServiceable(sinks: map<string, Sink>) {
    exists id :: id in sinks && Serviceable(sinks[id])
  }

  function Tick(st: Sched, budget: nat, maxChunk: nat): Sched {
    var scanned := Scan(st.(isFrameArmed := false), 0, budget, maxChunk);
    scanned.(
      rr := if |st.order| > 0 then NextPointer(st.rr, |st.order|) else st.rr,
      isFrameArmed := AnyServiceable(scanned.sinks))
  }

  // ---------------------------------------------------------------- the other steps

  function Register(st: Sched, id: string): Sched {
    if id in st.sinks then st
    else st.(sinks := st.sinks[id := NEW_SINK], order := st.order + [id])
  }

  function IndexOf(order: seq<string>, id: string): (i: nat)
    ensures i <= |order|
    ensures i < |order| ==> order[i] == id
    ensures forall j :: 0 <= j < i ==> order[j] != id
  {
    if order == [] || order[0] == id then 0 else 1 + IndexOf(order[1..], id)
  }

  function WithoutId(order: seq<string>, id: string): seq<string> {
    var i := IndexOf(order, id);
    if i < |order| then order[..i] + order[i + 1..] else order
  }

  function Unregister(st: Sched, id: string): Sched {
    if id !in st.sinks then st
    else
      var order := WithoutId(st.order, id);
      st.(sinks := st.sinks - {id}, order := order, rr := if st.rr >= |order| then 0 else st.rr)
  }

  function Enqueue(st: Sched, id: string, entry: Entry): Sched {
    if id !in st.sinks || entry == Text("") then st
    else
      var s := st.sinks[id];
      st.(sinks := st.sinks[id := s.(unread := s.unread + [entry], dirty := true, accepted := s.accepted + [entry])],
          isFrameArmed := true)
  }

  function DrainSink(s: Sink): Sink {
    s.(inFlight := false, dirty := s.dirty || s.unread != [], log := s.log + [Drained])
  }

  function Drain(st: Sched, id: string): Sched
    requires id in st.sinks
  {
    st.(sinks := st.sinks[id := DrainSink(st.sinks[id])],
        isFrameArmed := st.isFrameArmed || st.sinks[id].unread != [])
  }

  // ---------------------------------------------------------------- runs

  datatype Event =
    | Registering(id: string)
    | Unregistering(id: string)
    | Enqueueing(id: string, entry: Entry)
    | Ticking
    | Draining(id: string)
    | Stopping

  /** A frame fires only while armed, and a sink drains only a batch it has in flight. */
  function Step(st: Sched, event: Event, budget: nat, maxChunk: nat): Sched {
    match event
    case Registering(id) => Register(st, id)
    case Unregistering(id) => Unregister(st, id)
    case Enqueueing(id, entry) => Enqueue(st, id, entry)
    case Ticking => if st.isFrameArmed then Tick(st, budget, maxChunk) else st
    case Draining(id) => if id in st.sinks && st.sinks[id].inFlight then Drain(st, id) else st
    case Stopping => st.(isFrameArmed := false)
  }

  const START := Sched(map[], [], 0, false)

  function Run(st: Sched, events: seq<Event>, budget: nat, maxChunk: nat): Sched
    decreases |events|
  {
    if events == [] then st
    else Run(Step(st, events[0], budget, maxChunk), events[1..], budget, maxChunk)
  }
}
