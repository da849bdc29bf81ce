/**
 What every run of the trace panel keeps, whatever is selected, lost, late, repeated or reordered,
 as long as each page applied was once a true slice of its session's append-only log.
 */
module TracePanelLaws {
  import opened Options
  import opened TraceRecords
  import opened TraceGroupingModel
  import opened TraceGroupingLaws
  import opened TraceTrimLaws
  import opened TracePanelModel

  type Logs = string -> seq<Record>

  /** A reply that can be applied is a slice of the log; a reset reply may carry anything. */
  ghost predicate Genuine(logs: Logs, reply: Reply) {
    reply.reset || reply.next < reply.start ||
    (reply.next <= |logs(reply.id)| && reply.records == logs(reply.id)[reply.start..reply.next])
  }

  // ---------------------------------------------------------------- the resident window

  /** The window is the slice, grouped: its turns always, labels and counts when calls precede references. */
  ghost predicate ExactWindow(rules: TextRules, log: seq<Record>, r: Resident) {
    && r.firstOffset <= r.nextOffset <= |log|
    && ShapeOf(r.grouping.turns) == GroupRecords(rules, log[r.firstOffset..r.nextOffset])
    && (CallsPrecede(log) ==> r.grouping == Batch(rules, log[r.firstOffset..r.nextOffset]))
  }

  /** The rows kept are the log from `from` on, under the head of the one turn that was cut. */
  ghost predicate KeptFrom(log: seq<Record>, next: nat, turns: seq<Turn>, from: nat) {
    && from <= next <= |log|
    && var kept := RecordsOf(Flatten(turns));
      || kept == log[from..next]
      || (turns != [] && turns[0].head.Some? && kept == [turns[0].head.value.record] + log[from..next])
  }

  ghost predicate NewestRows(log: seq<Record>, next: nat, turns: seq<Turn>) {
    exists from: nat :: KeptFrom(log, next, turns, from)
  }

  ghost predicate GoodWindow(rules: TextRules, maxRows: nat, log: seq<Record>, r: Resident) {
    && (!r.hasLoadedOnce ==> r == Resident(r.sessionId, EMPTY_GROUPING, 0, 0, false, false))
    && (!r.hasDroppedEarliestRows ==> ExactWindow(rules, log, r))
    && NewestRows(log, r.nextOffset, r.grouping.turns)
    && (maxRows >= 1 ==> RowTotal(r.grouping.turns) <= maxRows)
  }

  /** The pending request fits the window it was made for. */
  predicate Fits(request: TraceRequest, r: Resident) {
    request.id == r.sessionId &&
    match request
    case TailPage(_) => !r.hasLoadedOnce
    case EarlierPage(_, endingAt) => r.hasLoadedOnce && !r.hasDroppedEarliestRows && endingAt == r.firstOffset
    case ForwardPage(_, after) => r.hasLoadedOnce && after == r.nextOffset
  }

  ghost predicate Inv(rules: TextRules, maxRows: nat, logs: Logs, p: Panel) {
    && (p.selected.Some? <==> p.resident.Some?)
    && (p.resident.Some? ==> p.resident.value.sessionId == p.selected.value)
    && (p.resident.Some? ==> GoodWindow(rules, maxRows, logs(p.resident.value.sessionId), p.resident.value))
    && (p.pending.Some? ==> p.resident.Some? && Fits(p.pending.value, p.resident.value))
    && p.armedTimers == (if p.pending.Some? then 1 else 0)
  }

  // ---------------------------------------------------------------- slices

  lemma {:induction false} SlicesJoin(log: seq<Record>, a: nat, b: nat, c: nat)
    requires a <= b <= c <= |log|
    ensures log[a..b] + log[b..c] == log[a..c]
    ensures CallsPrecede(log) ==> NoLateCall(log[a..b], log[b..c])
  {
    assert log[a..b] + log[b..c] == log[a..c];
    hide NoLateCall, CallsPrecede;
    if CallsPrecede(log) {
      SlicesPrecede(log, a, b, c);
    }
  }

  lemma {:induction false} SlicesPrecede(log: seq<Record>, a: nat, b: nat, c: nat)
    requires a <= b <= c <= |log| && CallsPrecede(log)
    ensures NoLateCall(log[a..b], log[b..c])
  {
    hide ReferencedId, CallId;
    forall i, j | 0 <= i < b - a && 0 <= j < c - b && ReferencedId(log[a..b][i]).Some?
      ensures ReferencedId(log[a..b][i]) != CallId(log[b..c][j])
    {
      assert log[a..b][i] == log[a + i] && log[b..c][j] == log[b + j];
    }
  }

  lemma {:induction false} EmptyWindow(rules: TextRules, log: seq<Record>)
    ensures ShapeOf([]) == GroupRecords(rules, [])
    ensures EMPTY_GROUPING == Batch(rules, [])
    ensures log[0..0] == []
  {
  }

  // ---------------------------------------------------------------- growing the window

  /** A page after the window extends the slice. */
  lemma {:induction false} AppendWindow(rules: TextRules, log: seq<Record>, r: Resident, next: nat)
    requires ExactWindow(rules, log, r) && r.nextOffset <= next <= |log|
    ensures ExactWindow(rules, log, r.(
      grouping := AppendModel(rules, r.grouping, log[r.nextOffset..next]), nextOffset := next))
  {
    var a, b := log[r.firstOffset..r.nextOffset], log[r.nextOffset..next];
    SlicesJoin(log, r.firstOffset, r.nextOffset, next);
    AppendShape(rules, r.grouping, a, b);
    if CallsPrecede(log) {
      AppendIsBatch(rules, a, b);
    }
  }

  /** A page before the window extends the slice. */
  lemma {:induction false} PrependWindow(rules: TextRules, log: seq<Record>, r: Resident, start: nat)
    requires ExactWindow(rules, log, r) && start <= r.firstOffset
    ensures ExactWindow(rules, log, r.(
      grouping := PrependModel(rules, r.grouping, log[start..r.firstOffset]), firstOffset := start))
  {
    var a, b := log[start..r.firstOffset], log[r.firstOffset..r.nextOffset];
    SlicesJoin(log, start, r.firstOffset, r.nextOffset);
    PrependShape(rules, r.grouping, a, b);
    if CallsPrecede(log) {
      PrependIsBatch(rules, a, b);
    }
  }

  /** The shape of a grouping determines its records. */
  lemma {:induction false} SameShapeRecords(p: seq<Turn>, q: seq<Turn>)
    requires ShapeOf(p) == ShapeOf(q)
    ensures RecordsOf(Flatten(p)) == RecordsOf(Flatten(q))
    decreases |p|
  {
    assert |p| == |q|;
    if p != [] {
      var n := |p| - 1;
      assert ShapeOf(p[..n]) == ShapeOf(p)[..n];
      assert ShapeOf(q[..n]) == ShapeOf(q)[..n];
      SameShapeRecords(p[..n], q[..n]);
      SameTurnRecords(p[n], q[n]);
      RecordsConcat(Flatten(p[..n]), TurnRows(p[n]));
      RecordsConcat(Flatten(q[..n]), TurnRows(q[n]));
    }
  }

  lemma {:induction false} SameTurnRecords(p: Turn, q: Turn)
    requires TurnShape(p) == TurnShape(q)
    ensures RecordsOf(TurnRows(p)) == RecordsOf(TurnRows(q))
  {
    assert RecordsOf(p.rows) == RecordsOf(q.rows);
    forall i | 0 <= i < |TurnRows(p)|
      ensures TurnRows(p)[i].record == TurnRows(q)[i].record
    {
      var k := if p.head.Some? then i - 1 else i;
      if k >= 0 {
        assert RecordsOf(p.rows)[k] == RecordsOf(q.rows)[k];
      }
    }
  }

  lemma {:induction false} GroupedRecords(rules: TextRules, turns: seq<Turn>, records: seq<Record>)
    requires ShapeOf(turns) == GroupRecords(rules, records)
    ensures RecordsOf(Flatten(turns)) == records
  {
    BatchGroups(rules, records);
    BatchRecords(rules, records);
    SameShapeRecords(turns, Batch(rules, records).turns);
  }

  lemma {:induction false} ExactIsNewest(rules: TextRules, log: seq<Record>, r: Resident)
    requires ExactWindow(rules, log, r)
    ensures NewestRows(log, r.nextOffset, r.grouping.turns)
  {
    GroupedRecords(rules, r.grouping.turns, log[r.firstOffset..r.nextOffset]);
    assert KeptFrom(log, r.nextOffset, r.grouping.turns, r.firstOffset);
  }

  lemma {:induction false} PushKeepsHead(rules: TextRules, turns: seq<Turn>, rows: seq<Row>)
    requires turns != []
    ensures PushRows(rules, turns, rows) != [] && PushRows(rules, turns, rows)[0].head == turns[0].head
  {
    if rows != [] {
      PushKeepsHead(rules, turns, rows[..|rows| - 1]);
    }
  }

  lemma {:induction false} AppendNewest(rules: TextRules, log: seq<Record>, g: Grouping, was: nat, next: nat)
    requires NewestRows(log, was, g.turns) && was <= next <= |log|
    ensures NewestRows(log, next, AppendModel(rules, g, log[was..next]).turns)
  {
    var from: nat :| KeptFrom(log, was, g.turns, from);
    var rows := RowsOf(rules, log[was..next], g.calls + CallsOf(log[was..next]));
    FlattenPush(rules, g.turns, rows);
    RecordsConcat(Flatten(g.turns), rows);
    assert RecordsOf(rows) == log[was..next];
    var kept := RecordsOf(Flatten(g.turns));
    if g.turns != [] {
      PushKeepsHead(rules, g.turns, rows);
    }
    hide RecordsOf, RowsOf, Flatten, PushRows;
    SliceGrows(log, from, was, next, [], kept);
    if g.turns != [] && g.turns[0].head.Some? {
      SliceGrows(log, from, was, next, [g.turns[0].head.value.record], kept);
    }
    assert KeptFrom(log, next, PushRows(rules, g.turns, rows), from);
  }

  lemma {:induction false} SliceGrows(
      log: seq<Record>, from: nat, was: nat, next: nat, head: seq<Record>, kept: seq<Record>)
    requires from <= was <= next <= |log|
    ensures kept == head + log[from..was] ==> kept + log[was..next] == head + log[from..next]
    ensures head == [] ==> head + log[from..was] == log[from..was] && head + log[from..next] == log[from..next]
  {
    assert log[from..was] + log[was..next] == log[from..next];
    assert head + log[from..was] + log[was..next] == head + (log[from..was] + log[was..next]);
  }

  // ---------------------------------------------------------------- dropping the oldest rows

  lemma {:induction false} DropTurnsNewest(log: seq<Record>, next: nat, turns: seq<Turn>, k: nat)
    requires NewestRows(log, next, turns) && k <= |turns|
    ensures NewestRows(log, next, turns[k..])
  {
    var from: nat :| KeptFrom(log, next, turns, from);
    if k == 0 {
      assert turns[0..] == turns;
    } else {
      FlattenAt(turns, k);
      RecordsConcat(Flatten(turns[..k]), Flatten(turns[k..]));
      if turns[0].head.Some? {
        FirstRecord(turns[..k]);
      }
      var head := if turns[0].head.Some? then Some(turns[0].head.value.record) else None;
      var n := RestAfter(log, from, next, head, RecordsOf(Flatten(turns[..k])), RecordsOf(Flatten(turns[k..])));
      assert KeptFrom(log, next, turns[k..], n);
    }
    hide Flatten, RecordsOf;
  }

  lemma {:induction false} RestAfter(
      log: seq<Record>, from: nat, next: nat, head: Option<Record>, dropped: seq<Record>, rest: seq<Record>)
    returns (n: nat)
    requires from <= next <= |log|
    requires dropped + rest == log[from..next]
      || (head.Some? && dropped != [] && dropped + rest == [head.value] + log[from..next])
    ensures from <= n <= next && rest == log[n..next]
  {
    n := from + |dropped|;
    if dropped + rest == log[from..next] {
      RestOfSlice(log, from, next, dropped, rest);
    } else {
      n := n - 1;
      RestAfterHead(log, from, next, head.value, dropped, rest);
    }
  }

  lemma {:induction false} RestOfSlice(log: seq<Record>, from: nat, next: nat, dropped: seq<Record>, rest: seq<Record>)
    requires from <= next <= |log| && dropped + rest == log[from..next]
    ensures from + |dropped| <= next && rest == log[from + |dropped|..next]
  {
    assert rest == (dropped + rest)[|dropped|..];
    SliceRest(log, from, next, |dropped|);
  }

  lemma {:induction false} RestAfterHead(
      log: seq<Record>, from: nat, next: nat, head: Record, dropped: seq<Record>, rest: seq<Record>)
    requires from <= next <= |log| && dropped != [] && dropped + rest == [head] + log[from..next]
    ensures from + |dropped| - 1 <= next && rest == log[from + |dropped| - 1..next]
  {
    assert dropped[1..] + rest == (dropped + rest)[1..] == log[from..next];
    RestOfSlice(log, from, next, dropped[1..], rest);
  }

  lemma {:induction false} FirstRecord(turns: seq<Turn>)
    requires turns != [] && turns[0].head.Some?
    ensures |RecordsOf(Flatten(turns))| >= 1
  {
    RowTotalSplit(turns);
  }

  lemma {:induction false} SliceRest(log: seq<Record>, from: nat, next: nat, n: nat)
    requires from <= next <= |log| && n <= next - from
    ensures log[from..next][n..] == log[from + n..next]
  {
  }

  lemma {:induction false} HeadedRows(turn: Turn)
    ensures RecordsOf(TurnRows(turn))
      == (if turn.head.Some? then [turn.head.value.record] else []) + RecordsOf(turn.rows)
    ensures Flatten([turn]) == TurnRows(turn)
  {
    FlattenOne(turn);
  }

  lemma {:induction false} DropRowsNewest(log: seq<Record>, next: nat, turn: Turn, n: nat)
    requires NewestRows(log, next, [turn]) && n <= |turn.rows|
    ensures NewestRows(log, next, [Turn(turn.head, turn.rows[n..], true)])
  {
    var from: nat :| KeptFrom(log, next, [turn], from);
    var cut := Turn(turn.head, turn.rows[n..], true);
    var rows := RecordsOf(turn.rows);
    HeadedRows(turn);
    HeadedRows(cut);
    assert RecordsOf(cut.rows) == rows[n..];
    if turn.head.None? {
      SliceRest(log, from, next, n);
      assert KeptFrom(log, next, [cut], from + n);
    } else {
      var start := if [turn.head.value.record] + rows == log[from..next] then from + 1 else from;
      HeadedSlice(log, from, next, turn.head.value.record, rows);
      SliceRest(log, start, next, n);
      assert KeptFrom(log, next, [cut], start + n);
    }
  }

  lemma {:induction false} HeadedSlice(log: seq<Record>, from: nat, next: nat, head: Record, rows: seq<Record>)
    requires from <= next <= |log|
    requires [head] + rows == log[from..next] || [head] + rows == [head] + log[from..next]
    ensures [head] + rows == log[from..next] ==> from < next && rows == log[from + 1..next]
    ensures [head] + rows != log[from..next] ==> rows == log[from..next]
  {
    assert rows == ([head] + rows)[1..];
    if [head] + rows == log[from..next] {
      assert log[from..next][1..] == log[from + 1..next];
    } else {
      assert ([head] + log[from..next])[1..] == log[from..next];
    }
  }

  lemma {:induction false} TrimNewest(log: seq<Record>, next: nat, g: Grouping, maxRows: nat)
    requires NewestRows(log, next, g.turns)
    ensures NewestRows(log, next, TrimModel(g, maxRows).turns)
  {
    var k := DropCount(g.turns, maxRows);
    DropTurnsNewest(log, next, g.turns, k);
    TrimKeepsSuffix(g, maxRows);
    var n := TrimRowCount(g.turns[k..], maxRows);
    if n > 0 {
      assert g.turns[k..] == [g.turns[k]];
      DropRowsNewest(log, next, g.turns[k], n);
    }
  }

  lemma {:induction false} TrimNothing(g: Grouping, maxRows: nat)
    requires TrimResult(g, maxRows) == TraceTrim(0, 0)
    ensures TrimModel(g, maxRows) == g
  {
    assert g.turns[..0] == [] && g.turns[0..] == g.turns;
    assert Forget(g, []) == g;
  }

  lemma {:induction false} TrimmedWindow(rules: TextRules, maxRows: nat, log: seq<Record>, r: Resident)
    requires !r.hasDroppedEarliestRows ==> ExactWindow(rules, log, r)
    requires NewestRows(log, r.nextOffset, r.grouping.turns) && r.hasLoadedOnce
    ensures GoodWindow(rules, maxRows, log, Trimmed(r, maxRows))
  {
    TrimNewest(log, r.nextOffset, r.grouping, maxRows);
    if maxRows >= 1 {
      TrimMeetsCapIff(r.grouping, maxRows);
    }
    if !Trimmed(r, maxRows).hasDroppedEarliestRows {
      TrimNothing(r.grouping, maxRows);
    }
  }

  // ---------------------------------------------------------------- one reply

  lemma {:induction false} StartWindow(rules: TextRules, maxRows: nat, log: seq<Record>, id: SessionId)
    ensures GoodWindow(rules, maxRows, log, Resident(id, EMPTY_GROUPING, 0, 0, false, false))
  {
    EmptyWindow(rules, log);
    assert log[0..0] == [];
    assert KeptFrom(log, 0, [], 0);
  }

  lemma {:induction false} SeedWindow(rules: TextRules, maxRows: nat, log: seq<Record>, r: Resident, reply: Reply)
    requires GoodWindow(rules, maxRows, log, r) && !r.hasLoadedOnce
    requires reply.start <= reply.next <= |log| && reply.records == log[reply.start..reply.next]
    ensures GoodWindow(rules, maxRows, log, ApplyOutcome(rules, maxRows, r, reply, Seed))
  {
    var seeded := r.(hasLoadedOnce := true, firstOffset := reply.start, nextOffset := reply.start);
    EmptyWindow(rules, log);
    assert log[reply.start..reply.start] == [];
    assert ExactWindow(rules, log, seeded);
    ExactIsNewest(rules, log, seeded);
    GrownWindow(rules, maxRows, log, seeded, reply.next);
  }

  lemma {:induction false} GrownWindow(rules: TextRules, maxRows: nat, log: seq<Record>, r: Resident, next: nat)
    requires !r.hasDroppedEarliestRows ==> ExactWindow(rules, log, r)
    requires NewestRows(log, r.nextOffset, r.grouping.turns) && r.hasLoadedOnce
    requires r.nextOffset <= next <= |log|
    ensures GoodWindow(rules, maxRows, log,
      ShowAppended(rules, maxRows, r.(nextOffset := next), log[r.nextOffset..next]))
  {
    AppendNewest(rules, log, r.grouping, r.nextOffset, next);
    if !r.hasDroppedEarliestRows {
      AppendWindow(rules, log, r, next);
    }
    TrimmedWindow(rules, maxRows, log, r.(
      grouping := AppendModel(rules, r.grouping, log[r.nextOffset..next]), nextOffset := next));
  }

  lemma {:induction false} PrependedWindow(rules: TextRules, maxRows: nat, log: seq<Record>, r: Resident, start: nat)
    requires ExactWindow(rules, log, r) && r.hasLoadedOnce && start <= r.firstOffset
    ensures GoodWindow(rules, maxRows, log,
      ShowPrepended(rules, maxRows, r.(firstOffset := start), log[start..r.firstOffset]))
  {
    var grown := r.(grouping := PrependModel(rules, r.grouping, log[start..r.firstOffset]), firstOffset := start);
    PrependWindow(rules, log, r, start);
    ExactIsNewest(rules, log, grown);
    TrimmedWindow(rules, maxRows, log, grown);
  }

  /** In a state that a run can reach no reply is ever stale: the pending request always fits the window. */
  lemma {:induction false} NeverStale(rules: TextRules, maxRows: nat, logs: Logs, p: Panel, reply: Reply)
    requires Inv(rules, maxRows, logs, p)
    ensures ReplyOutcome(p.pending, p.resident, reply) != Stale
  {
  }

  /** A page is prepended only to a window that still has its earliest rows, and joins it exactly. */
  lemma {:induction false} PrependOnlyUntrimmed(rules: TextRules, maxRows: nat, logs: Logs, p: Panel, reply: Reply)
    requires Inv(rules, maxRows, logs, p) && ReplyOutcome(p.pending, p.resident, reply) == PrependPage
    ensures !p.resident.value.hasDroppedEarliestRows && reply.next == p.resident.value.firstOffset
    ensures ExactWindow(rules, logs(reply.id), p.resident.value)
  {
  }

  lemma {:induction false} AppliedWindow(rules: TextRules, maxRows: nat, logs: Logs, p: Panel, reply: Reply)
    requires Inv(rules, maxRows, logs, p) && Genuine(logs, reply)
    requires ReplyOutcome(p.pending, p.resident, reply) in {Seed, AppendPage, PrependPage}
    ensures GoodWindow(rules, maxRows, logs(reply.id),
      ApplyOutcome(rules, maxRows, p.resident.value, reply, ReplyOutcome(p.pending, p.resident, reply)))
  {
    hide ExactWindow, NewestRows, ShowAppended, ShowPrepended;
    var r, log := p.resident.value, logs(reply.id);
    match ReplyOutcome(p.pending, p.resident, reply)
    case Seed =>
      SeedWindow(rules, maxRows, log, r, reply);
    case AppendPage =>
      GrownWindow(rules, maxRows, log, r, reply.next);
    case PrependPage =>
      PrependOnlyUntrimmed(rules, maxRows, logs, p, reply);
      PrependedWindow(rules, maxRows, log, r, reply.start);
  }

  // ---------------------------------------------------------------- every step, every run

  lemma {:induction false} RequestKeepsInv(
      rules: TextRules, maxRows: nat, logs: Logs, p: Panel, isVisible: bool, isSent: bool)
    requires Inv(rules, maxRows, logs, p)
    ensures Inv(rules, maxRows, logs, RequestSelected(p, isVisible, isSent))
    ensures Inv(rules, maxRows, logs, RequestQueued(p, isVisible, isSent))
  {
  }

  lemma {:induction false} ClearKeepsInv(rules: TextRules, maxRows: nat, logs: Logs, p: Panel)
    requires Inv(rules, maxRows, logs, p)
    ensures Inv(rules, maxRows, logs, ClearPending(p)) && ClearPending(p).pending.None?
  {
  }

  lemma {:induction false} StartKeepsInv(rules: TextRules, maxRows: nat, logs: Logs, p: Panel, id: Option<SessionId>)
    requires Inv(rules, maxRows, logs, p)
    ensures Inv(rules, maxRows, logs, StartSelected(p, id))
  {
    if id.Some? {
      StartWindow(rules, maxRows, logs(id.value), id.value);
    }
  }

  lemma {:induction false} ReplyKeepsInv(
      rules: TextRules, maxRows: nat, logs: Logs, p: Panel, reply: Reply, isVisible: bool, isSent: bool)
    requires Inv(rules, maxRows, logs, p) && Genuine(logs, reply)
    ensures Inv(rules, maxRows, logs, ApplyReply(rules, maxRows, p, reply, isVisible, isSent))
  {
    var outcome := ReplyOutcome(p.pending, p.resident, reply);
    NeverStale(rules, maxRows, logs, p, reply);
    ClearKeepsInv(rules, maxRows, logs, p);
    if outcome == Ignore {
      RequestKeepsInv(rules, maxRows, logs, p, isVisible, isSent);
    } else if outcome == Reset {
      StartKeepsInv(rules, maxRows, logs, ClearPending(p), Some(reply.id));
      var started := StartSelected(ClearPending(p), Some(reply.id));
      RequestKeepsInv(rules, maxRows, logs, started, isVisible, isSent);
      RequestKeepsInv(rules, maxRows, logs, RequestSelected(started, isVisible, isSent), isVisible, isSent);
    } else {
      AppliedWindow(rules, maxRows, logs, p, reply);
      var shown := ApplyOutcome(rules, maxRows, p.resident.value, reply, outcome);
      RequestKeepsInv(rules, maxRows, logs, ClearPending(p).(resident := Some(shown)), isVisible, isSent);
    }
  }

  lemma {:induction false} StepKeepsInv(rules: TextRules, maxRows: nat, logs: Logs, p: Panel, event: Event)
    requires Inv(rules, maxRows, logs, p)
    requires event.Replying? ==> Genuine(logs, event.reply)
    ensures Inv(rules, maxRows, logs, Step(rules, maxRows, p, event))
  {
    match event
    case Selecting(id, isVisible, isSent) =>
      StartKeepsInv(rules, maxRows, logs, p, id);
      RequestKeepsInv(rules, maxRows, logs, StartSelected(p, id), isVisible, isSent);
    case Refreshing(isVisible, isSent) => RequestKeepsInv(rules, maxRows, logs, p, isVisible, isSent);
    case LoadingEarlier(isSent) =>
    case Replying(reply, isVisible, isSent) => ReplyKeepsInv(rules, maxRows, logs, p, reply, isVisible, isSent);
    case TimingOut =>
    case Changing(id, isVisible, isSent) => RequestKeepsInv(rules, maxRows, logs, p, isVisible, isSent);
    case Failing(id) => ClearKeepsInv(rules, maxRows, logs, p);
    case Connecting(isConnected, isVisible, isSent) =>
      ClearKeepsInv(rules, maxRows, logs, p);
      RequestKeepsInv(rules, maxRows, logs, ClearPending(p).(isRefreshNeeded := false), isVisible, isSent);
  }

  /**
   Every run, in any interleaving, keeps the invariant: an untrimmed window is exactly the slice it
   claims, a trimmed one holds the newest rows, and the one armed timer belongs to the one pending request.
   */
  lemma {:induction false} RunKeepsInv(rules: TextRules, maxRows: nat, logs: Logs, events: seq<Event>)
    requires forall i :: 0 <= i < |events| && events[i].Replying? ==> Genuine(logs, events[i].reply)
    ensures Inv(rules, maxRows, logs, Run(rules, maxRows, events))
  {
    if events != [] {
      RunKeepsInv(rules, maxRows, logs, events[..|events| - 1]);
      StepKeepsInv(rules, maxRows, logs, Run(rules, maxRows, events[..|events| - 1]), events[|events| - 1]);
    }
  }

  /** What that means for what is on screen, spelled out for an untrimmed window. */
  lemma {:induction false} PagingSafety(rules: TextRules, maxRows: nat, logs: Logs, events: seq<Event>)
    requires forall i :: 0 <= i < |events| && events[i].Replying? ==> Genuine(logs, events[i].reply)
    requires Run(rules, maxRows, events).resident.Some?
    requires !Run(rules, maxRows, events).resident.value.hasDroppedEarliestRows
    ensures
      var r := Run(rules, maxRows, events).resident.value;
      var log := logs(r.sessionId);
      && r.firstOffset <= r.nextOffset <= |log|
      && var slice := log[r.firstOffset..r.nextOffset];
      && RecordsOf(Flatten(r.grouping.turns)) == slice
      && (CallsPrecede(log) ==>
          && Flatten(r.grouping.turns) == RowsOf(rules, slice, CallsOf(slice))
          && r.grouping.unresolved == CountsOf(RefsOutside(slice, CallsOf(slice))))
  {
    RunKeepsInv(rules, maxRows, logs, events);
    var r := Run(rules, maxRows, events).resident.value;
    var slice := logs(r.sessionId)[r.firstOffset..r.nextOffset];
    GroupedRecords(rules, r.grouping.turns, slice);
    var rows := RowsOf(rules, slice, CallsOf(slice));
    FlattenPush(rules, [], rows);
    assert [] + rows == rows;
  }
}
