/**
 The control channel across reconnects: one server run, first-in-first-out sockets, one client.

 The server stamps every broadcast and keeps the replayable ones; on a connection it sends a
 snapshot without a number, other unnumbered messages, then the replay. The client keeps a cursor,
 which an unnumbered snapshot sets back to zero, and asks for a replay when its cursor is positive.
 */
module ControlChannel {
  import opened Options
  import opened ReplayLogModel

  /** A message on the wire; broadcasts and replays are numbered, messages to one socket are not. */
  datatype Wire = Wire(kind: string, seqNo: Option<nat>)

  datatype Client = Client(cursor: nat, handled: seq<nat>)

  datatype Socket = Closed | Connecting(since: Option<nat>) | Open(queue: seq<Wire>)

  datatype Channel = Channel(log: Log, history: seq<Entry>, socket: Socket, client: Client)

  const START := Channel(EMPTY, [], Closed, Client(0, []))

  // ---------------------------------------------------------------- the client

  function Receive(c: Client, message: Wire): Client {
    var cursor := if message.kind == "snapshot" && message.seqNo.None? then 0 else c.cursor;
    if message.seqNo.None? then c.(cursor := cursor)
    else if message.seqNo.value <= cursor then c.(cursor := cursor)
    else Client(message.seqNo.value, c.handled + [message.seqNo.value])
  }

  function SinceOf(c: Client): Option<nat> {
    if c.cursor > 0 then Some(c.cursor) else None
  }

  // ---------------------------------------------------------------- the server's end of a connection

  function Replays(entries: seq<Entry>): (messages: seq<Wire>)
    ensures |messages| == |entries|
    ensures forall i :: 0 <= i < |entries| ==> messages[i] == Wire(entries[i].kind, Some(entries[i].seqNo))
  {
    seq(|entries|, i requires 0 <= i < |entries| => Wire(entries[i].kind, Some(entries[i].seqNo)))
  }

  function Unnumbered(kinds: seq<string>): (messages: seq<Wire>)
    ensures |messages| == |kinds|
    ensures forall i :: 0 <= i < |kinds| ==> messages[i] == Wire(kinds[i], None)
  {
    seq(|kinds|, i requires 0 <= i < |kinds| => Wire(kinds[i], None))
  }

  /** What is sent on a new connection, given the answer to its cursor. */
  function Greeting(kinds: seq<string>, answer: Answer): seq<Wire> {
    [Wire("snapshot", None)] + Unnumbered(kinds) + Replays(answer.entries)
  }

  function AnswerTo(log: Log, since: Option<nat>): Answer {
    if since.None? then Answer([], false) else AnswerOf(log, Finite(since.value as real))
  }

  // ---------------------------------------------------------------- steps

  datatype Event =
    | Broadcasting(kind: string, now: int, isSent: bool)
    | Telling(kinds: seq<string>)
    | Dialling
    | Accepting(now: int, greetings: seq<string>)
    | Delivering
    | Dropping

  function Broadcast(ch: Channel, limits: Limits, kind: string, now: int, isSent: bool): Channel {
    ch.(log := Stamp(ch.log, limits, kind, now),
        history := HistoryAfter(ch.history, ch.log, kind, now),
        socket := if ch.socket.Open? && isSent
          then Open(ch.socket.queue + [Wire(kind, Some(ch.log.lastSeq + 1))]) else ch.socket)
  }

  function Accept(ch: Channel, limits: Limits, now: int, greetings: seq<string>): Channel
    requires ch.socket.Connecting?
  {
    if ch.socket.since.None? then ch.(socket := Open(Greeting(greetings, Answer([], false))))
    else
      var log := Evict(ch.log, limits, now);
      ch.(log := log, socket := Open(Greeting(greetings, AnswerTo(log, ch.socket.since))))
  }

  function Step(ch: Channel, limits: Limits, event: Event): Channel {
    match event
    case Broadcasting(kind, now, isSent) => Broadcast(ch, limits, kind, now, isSent)
    case Telling(kinds) => if ch.socket.Open? then ch.(socket := Open(ch.socket.queue + Unnumbered(kinds))) else ch
    case Dialling => if ch.socket.Closed? then ch.(socket := Connecting(SinceOf(ch.client))) else ch
    case Accepting(now, greetings) => if ch.socket.Connecting? then Accept(ch, limits, now, greetings) else ch
    case Delivering =>
      if ch.socket.Open? && ch.socket.queue != [] then
        ch.(socket := Open(ch.socket.queue[1..]), client := Receive(ch.client, ch.socket.queue[0]))
      else ch
    case Dropping => ch.(socket := Closed)
  }

  function Run(limits: Limits, events: seq<Event>): Channel {
    if events == [] then START else Step(Run(limits, events[..|events| - 1]), limits, events[|events| - 1])
  }

  // ---------------------------------------------------------------- what every run keeps

  ghost predicate RisingSeqs(seqs: seq<nat>) {
    forall i, j :: 0 <= i < j < |seqs| ==> seqs[i] < seqs[j]
  }

  function Last(seqs: seq<nat>): nat {
    if seqs == [] then 0 else seqs[|seqs| - 1]
  }

  /** The number of a message, if it has one. */
  function NumberOf(message: Wire): seq<nat> {
    if message.seqNo.Some? then [message.seqNo.value] else []
  }

  /** The numbers on the wire, in order. */
  function Numbers(queue: seq<Wire>): seq<nat> {
    if queue == [] then []
    else NumberOf(queue[0]) + Numbers(queue[1..])
  }

  /** All of `seqs` in order, above `low` and at most `high`. */
  ghost predicate Between(seqs: seq<nat>, low: nat, high: nat) {
    RisingSeqs(seqs) && forall i :: 0 <= i < |seqs| ==> low < seqs[i] <= high
  }

  ghost predicate Inv(ch: Channel, limits: Limits) {
    && Describes(ch.log, ch.history) && |ch.log.ring| <= limits.maxEntries
    && Between(ch.client.handled, 0, ch.log.lastSeq)
    && (ch.client.cursor == 0 || ch.client.cursor == Last(ch.client.handled))
    && (ch.socket.Connecting? ==> ch.socket.since == SinceOf(ch.client))
    && (ch.socket.Open? ==> Between(Numbers(ch.socket.queue), Last(ch.client.handled), ch.log.lastSeq))
  }

  lemma {:induction false} NumbersConcat(a: seq<Wire>, b: seq<Wire>)
    ensures Numbers(a + b) == Numbers(a) + Numbers(b)
  {
    if a == [] {
      assert a + b == b;
    } else {
      var head, rest := NumberOf(a[0]), a[1..];
      assert (a + b)[1..] == rest + b;
      NumbersConcat(rest, b);
      assert Numbers(a + b) == head + Numbers(rest + b);
      assert head + (Numbers(rest) + Numbers(b)) == head + Numbers(rest) + Numbers(b);
    }
  }

  function SeqNos(entries: seq<Entry>): (seqs: seq<nat>)
    ensures |seqs| == |entries|
    ensures forall i :: 0 <= i < |entries| ==> seqs[i] == entries[i].seqNo
  {
    seq(|entries|, i requires 0 <= i < |entries| => entries[i].seqNo)
  }

  lemma {:induction false} UnnumberedHaveNoNumbers(kinds: seq<string>)
    ensures Numbers(Unnumbered(kinds)) == []
  {
    if kinds != [] {
      assert Unnumbered(kinds)[1..] == Unnumbered(kinds[1..]);
      UnnumberedHaveNoNumbers(kinds[1..]);
    }
  }

  lemma {:induction false} ReplayNumbers(entries: seq<Entry>)
    ensures Numbers(Replays(entries)) == SeqNos(entries)
  {
    if entries != [] {
      assert Replays(entries)[1..] == Replays(entries[1..]);
      ReplayNumbers(entries[1..]);
      assert SeqNos(entries) == [entries[0].seqNo] + SeqNos(entries[1..]);
    }
  }

  /** The numbers of a greeting are those of the replayed entries. */
  lemma {:induction false} GreetingNumbers(kinds: seq<string>, answer: Answer)
    ensures Numbers(Greeting(kinds, answer)) == SeqNos(answer.entries)
  {
    var snapshot := [Wire("snapshot", None)];
    NumbersConcat(snapshot + Unnumbered(kinds), Replays(answer.entries));
    NumbersConcat(snapshot, Unnumbered(kinds));
    UnnumberedHaveNoNumbers(kinds);
    ReplayNumbers(answer.entries);
    assert Numbers(snapshot) == [];
  }

  /** A replay holds numbers above its cursor, in order. */
  lemma {:induction false} AnswerBetween(log: Log, history: seq<Entry>, since: Option<nat>)
    requires Describes(log, history)
    ensures since.Some? ==> Between(SeqNos(AnswerTo(log, since).entries), since.value, log.lastSeq)
  {
    if since.Some? {
      var entries := AnswerTo(log, since).entries;
      RingRises(log, history);
      AboveRises(log.ring, since.value as real, log.lastSeq);
      forall i | 0 <= i < |entries|
        ensures since.value < entries[i].seqNo
      {
        AboveExactly(log.ring, since.value as real, entries[i]);
      }
    }
  }

  lemma {:induction false} RingRises(log: Log, history: seq<Entry>)
    requires Describes(log, history)
    ensures Rising(log.ring, log.lastSeq)
  {
    var dropped := |history| - |log.ring|;
    forall i | 0 <= i < |log.ring|
      ensures log.ring[i] == history[dropped + i]
    {
    }
  }

  lemma {:induction false} SnocBetween(seqs: seq<nat>, low: nat, high: nat, next: nat)
    requires Between(seqs, low, high) && low <= high < next
    ensures Between(seqs + [next], low, next)
  {
  }

  lemma {:induction false} OneNumber(kind: string, n: nat)
    ensures Numbers([Wire(kind, Some(n))]) == [n]
  {
    assert Numbers([]) == [];
  }

  /** A broadcast sent on the socket comes after everything queued there. */
  lemma {:induction false} SendBetween(queue: seq<Wire>, kind: string, low: nat, high: nat)
    requires Between(Numbers(queue), low, high) && low <= high
    ensures Between(Numbers(queue + [Wire(kind, Some(high + 1))]), low, high + 1)
  {
    NumbersConcat(queue, [Wire(kind, Some(high + 1))]);
    OneNumber(kind, high + 1);
    hide Numbers;
    SnocBetween(Numbers(queue), low, high, high + 1);
  }

  lemma {:induction false} BroadcastKeepsInv(ch: Channel, limits: Limits, kind: string, now: int, isSent: bool)
    requires Inv(ch, limits)
    ensures Inv(Broadcast(ch, limits, kind, now, isSent), limits)
  {
    StampDescribes(ch.log, ch.history, limits, kind, now);
    hide Stamp, HistoryAfter, Describes, Numbers;
    if ch.socket.Open? {
      SendBetween(ch.socket.queue, kind, Last(ch.client.handled), ch.log.lastSeq);
    }
  }

  lemma {:induction false} AcceptKeepsInv(ch: Channel, limits: Limits, now: int, greetings: seq<string>)
    requires Inv(ch, limits) && ch.socket.Connecting?
    ensures Inv(Accept(ch, limits, now, greetings), limits)
  {
    if ch.socket.since.None? {
      GreetingNumbers(greetings, Answer([], false));
      assert SeqNos([]) == [];
    } else {
      var log := Evict(ch.log, limits, now);
      EvictDescribes(ch.log, ch.history, limits, now);
      GreetingNumbers(greetings, AnswerTo(log, ch.socket.since));
      AnswerBetween(log, ch.history, ch.socket.since);
    }
  }

  /** A numbered message at the head of the socket is always above the client's cursor, and is handled. */
  lemma {:induction false} DeliverKeepsInv(ch: Channel, limits: Limits)
    requires Inv(ch, limits) && ch.socket.Open? && ch.socket.queue != []
    ensures Inv(Step(ch, limits, Delivering), limits)
    ensures
      var message := ch.socket.queue[0];
      Step(ch, limits, Delivering).client.handled
        == ch.client.handled + (if message.seqNo.Some? then [message.seqNo.value] else [])
  {
    var message, rest := ch.socket.queue[0], ch.socket.queue[1..];
    if message.seqNo.Some? {
      assert Numbers(ch.socket.queue) == [message.seqNo.value] + Numbers(rest);
      HeadBetween(message.seqNo.value, Numbers(rest), Last(ch.client.handled), ch.log.lastSeq);
      HandledGrows(ch.client.handled, message.seqNo.value, ch.log.lastSeq);
    } else {
      assert Numbers(ch.socket.queue) == Numbers(rest);
    }
  }

  lemma {:induction false} HeadBetween(head: nat, rest: seq<nat>, low: nat, high: nat)
    requires Between([head] + rest, low, high)
    ensures low < head <= high && Between(rest, head, high)
  {
    var all := [head] + rest;
    assert all[0] == head;
    assert forall i :: 0 <= i < |rest| ==> rest[i] == all[i + 1];
  }

  lemma {:induction false} HandledGrows(handled: seq<nat>, next: nat, high: nat)
    requires Between(handled, 0, high) && Last(handled) < next <= high
    ensures Between(handled + [next], 0, high)
  {
  }

  lemma {:induction false} StepKeepsInv(ch: Channel, limits: Limits, event: Event)
    requires Inv(ch, limits)
    ensures Inv(Step(ch, limits, event), limits)
  {
    match event
    case Broadcasting(kind, now, isSent) => BroadcastKeepsInv(ch, limits, kind, now, isSent);
    case Telling(kinds) =>
      if ch.socket.Open? {
        NumbersConcat(ch.socket.queue, Unnumbered(kinds));
        UnnumberedHaveNoNumbers(kinds);
      }
    case Dialling =>
    case Accepting(now, greetings) =>
      if ch.socket.Connecting? {
        AcceptKeepsInv(ch, limits, now, greetings);
      }
    case Delivering =>
      if ch.socket.Open? && ch.socket.queue != [] {
        DeliverKeepsInv(ch, limits);
      }
    case Dropping =>
  }

  lemma {:induction false} RunKeepsInv(limits: Limits, events: seq<Event>)
    ensures Inv(Run(limits, events), limits)
  {
    if events != [] {
      RunKeepsInv(limits, events[..|events| - 1]);
      StepKeepsInv(Run(limits, events[..|events| - 1]), limits, events[|events| - 1]);
    }
  }

  /** Over a whole run, across reconnects and cursor resets, the numbers handed to the client strictly rise. */
  lemma {:induction false} HandledRises(limits: Limits, events: seq<Event>)
    ensures RisingSeqs(Run(limits, events).client.handled)
  {
    RunKeepsInv(limits, events);
  }
}
