/**
 The tool-call index of the panel's window in every run, trimmed or not: with unique call ids it holds
 exactly the calls of the rows that are resident.
 */
module TracePanelIndex {
  import opened TraceRecords
  import opened TraceGroupingModel
  import opened TraceGroupingLaws
  import opened TraceTrimLaws
  import opened TracePanelModel
  import opened TracePanelLaws

  ghost predicate GoodIndex(rules: TextRules, log: seq<Record>, g: Grouping) {
    WellShaped(rules, g.turns) && (UniqueCalls(log) ==> CallsExact(g))
  }

  // ---------------------------------------------------------------- growing

  lemma {:induction false} AppendKeepsCalls(rules: TextRules, g: Grouping, records: seq<Record>)
    requires CallsExact(g)
    ensures CallsExact(AppendModel(rules, g, records))
  {
    hide CallsOf, PushRows, Flatten;
    var rows := RowsOf(rules, records, g.calls + CallsOf(records));
    FlattenPush(rules, g.turns, rows);
    RecordsConcat(Flatten(g.turns), rows);
    CallsConcat(RecordsOf(Flatten(g.turns)), records);
    assert RecordsOf(rows) == records;
  }

  lemma {:induction false} AppendKeepsIndex(rules: TextRules, log: seq<Record>, g: Grouping, records: seq<Record>)
    requires GoodIndex(rules, log, g)
    ensures GoodIndex(rules, log, AppendModel(rules, g, records))
  {
    hide UniqueCalls, CallsExact, WellShaped;
    PushKeepsShape(rules, g.turns, RowsOf(rules, records, g.calls + CallsOf(records)));
    if UniqueCalls(log) {
      AppendKeepsCalls(rules, g, records);
    }
  }

  /** Turns with the shape of a grouped slice are well shaped. */
  lemma {:induction false} ShapeIsWell(rules: TextRules, turns: seq<Turn>, records: seq<Record>)
    requires ShapeOf(turns) == GroupRecords(rules, records)
    ensures WellShaped(rules, turns)
  {
    BatchGroups(rules, records);
    BatchShape(rules, records);
    var batch := Batch(rules, records).turns;
    hide Batch, GroupRecords;
    SameShapeWell(rules, turns, batch);
  }

  lemma {:induction false} SameShapeWell(rules: TextRules, p: seq<Turn>, q: seq<Turn>)
    requires ShapeOf(p) == ShapeOf(q) && WellShaped(rules, q) && Untrimmed(q)
    ensures WellShaped(rules, p)
  {
    hide StartsTurn;
    assert |p| == |q|;
    forall i | 0 <= i < |p|
      ensures p[i].head.Some? <==> q[i].head.Some?
      ensures p[i].head.Some? ==> p[i].head.value.record == q[i].head.value.record
      ensures RecordsOf(p[i].rows) == RecordsOf(q[i].rows)
    {
      assert TurnShape(p[i]) == ShapeOf(p)[i] == ShapeOf(q)[i] == TurnShape(q[i]);
    }
    forall i, j | 0 <= i < |p| && 0 <= j < |p[i].rows|
      ensures !StartsTurn(rules, p[i].rows[j].record)
    {
      assert RecordsOf(p[i].rows)[j] == RecordsOf(q[i].rows)[j];
    }
    forall i | 0 <= i < |p| && p[i].head.None?
      ensures p[i].rows != []
    {
      assert |RecordsOf(p[i].rows)| == |RecordsOf(q[i].rows)|;
    }
  }

  /** A page put before an exact window. */
  lemma {:induction false} PrependKeepsIndex(rules: TextRules, log: seq<Record>, r: Resident, start: nat)
    requires ExactWindow(rules, log, r) && start <= r.firstOffset && GoodIndex(rules, log, r.grouping)
    ensures GoodIndex(rules, log, PrependModel(rules, r.grouping, log[start..r.firstOffset]))
  {
    var a, b := log[start..r.firstOffset], log[r.firstOffset..r.nextOffset];
    var after := PrependModel(rules, r.grouping, a);
    PrependShape(rules, r.grouping, a, b);
    ShapeIsWell(rules, after.turns, a + b);
    GroupedRecords(rules, r.grouping.turns, b);
    GroupedRecords(rules, after.turns, a + b);
    CallsConcat(a, b);
    PrependCalls(rules, r.grouping, a);
    hide PrependModel, CallsOf, UniqueCalls, WellShaped, Flatten;
  }

  lemma {:induction false} PrependCalls(rules: TextRules, g: Grouping, records: seq<Record>)
    ensures PrependModel(rules, g, records).calls == CallsOf(records) + g.calls
  {
    hide PushRows, RelabelTurns, MergeTurns, AddCounts;
  }

  // ---------------------------------------------------------------- trimming

  /** The newest rows of a log, under a head that is no call, have unique calls if the log has. */
  lemma {:induction false} NewestAreUnique(rules: TextRules, log: seq<Record>, next: nat, turns: seq<Turn>)
    requires NewestRows(log, next, turns) && WellShaped(rules, turns) && UniqueCalls(log)
    ensures UniqueCalls(RecordsOf(Flatten(turns)))
  {
    hide Flatten;
    var from: nat :| KeptFrom(log, next, turns, from);
    var kept, slice := RecordsOf(Flatten(turns)), log[from..next];
    SliceIsUnique(log, from, next);
    if kept != slice {
      PlainHead([turns[0].head.value.record], slice);
    }
  }

  lemma {:induction false} SliceIsUnique(log: seq<Record>, from: nat, next: nat)
    requires UniqueCalls(log) && from <= next <= |log|
    ensures UniqueCalls(log[from..next])
  {
    forall i, j | 0 <= i < j < next - from && CallId(log[from..next][i]).Some?
      ensures CallId(log[from..next][i]) != CallId(log[from..next][j])
    {
      assert log[from..next][i] == log[from + i] && log[from..next][j] == log[from + j];
    }
  }

  lemma {:induction false} PlainHead(head: seq<Record>, slice: seq<Record>)
    requires |head| == 1 && CallId(head[0]).None? && UniqueCalls(slice)
    ensures UniqueCalls(head + slice)
  {
    hide CallId;
    forall i, j | 0 <= i < j < |head + slice| && CallId((head + slice)[i]).Some?
      ensures CallId((head + slice)[i]) != CallId((head + slice)[j])
    {
      assert (head + slice)[i] == slice[i - 1] && (head + slice)[j] == slice[j - 1];
    }
  }

  lemma {:induction false} TrimKeepsCalls(rules: TextRules, g: Grouping, maxRows: nat)
    requires WellShaped(rules, g.turns) && CallsExact(g) && UniqueCalls(RecordsOf(Flatten(g.turns)))
    ensures CallsExact(TrimModel(g, maxRows))
  {
    hide UniqueCalls, CallsExact, Flatten;
    var k := DropCount(g.turns, maxRows);
    var kept := TrimTurnsModel(g, k);
    TrimTurnsIndex(g, k, g.calls);
    UniqueKept(g.turns, k);
    KeptHeadPlain(rules, g.turns, k);
    TrimRowsIndex(kept, TrimRowCount(kept.turns, maxRows), g.calls);
  }

  lemma {:induction false} TrimKeepsShape(rules: TextRules, g: Grouping, maxRows: nat)
    requires WellShaped(rules, g.turns)
    ensures WellShaped(rules, TrimModel(g, maxRows).turns)
  {
    hide StartsTurn, TrimModel;
    TrimKeepsSuffix(g, maxRows);
  }

  lemma {:induction false} TrimKeepsGoodIndex(rules: TextRules, maxRows: nat, log: seq<Record>, next: nat, g: Grouping)
    requires GoodIndex(rules, log, g) && NewestRows(log, next, g.turns)
    ensures GoodIndex(rules, log, TrimModel(g, maxRows))
  {
    hide UniqueCalls, CallsExact, WellShaped, NewestRows;
    TrimKeepsShape(rules, g, maxRows);
    if UniqueCalls(log) {
      NewestAreUnique(rules, log, next, g.turns);
      TrimKeepsCalls(rules, g, maxRows);
    }
  }

  // ---------------------------------------------------------------- every run

  ghost predicate IndexInv(rules: TextRules, logs: Logs, p: Panel) {
    p.resident.Some? ==> GoodIndex(rules, logs(p.resident.value.sessionId), p.resident.value.grouping)
  }

  lemma {:induction false} GrownKeepsIndex(
      rules: TextRules, maxRows: nat, log: seq<Record>, r: Resident, was: nat, next: nat)
    requires GoodIndex(rules, log, r.grouping) && NewestRows(log, was, r.grouping.turns) && was <= next <= |log|
    ensures GoodIndex(rules, log, ShowAppended(rules, maxRows, r, log[was..next]).grouping)
  {
    hide GoodIndex, NewestRows, AppendModel, TrimModel;
    AppendKeepsIndex(rules, log, r.grouping, log[was..next]);
    AppendNewest(rules, log, r.grouping, was, next);
    TrimKeepsGoodIndex(rules, maxRows, log, next, AppendModel(rules, r.grouping, log[was..next]));
  }

  lemma {:induction false} PrependedKeepsIndex(
      rules: TextRules, maxRows: nat, log: seq<Record>, r: Resident, start: nat)
    requires ExactWindow(rules, log, r) && start <= r.firstOffset && GoodIndex(rules, log, r.grouping)
    ensures GoodIndex(rules, log, ShowPrepended(rules, maxRows, r.(firstOffset := start), log[start..r.firstOffset]).grouping)
  {
    assert r.firstOffset <= |log|;
    hide GoodIndex, ExactWindow, PrependModel, TrimModel, NewestRows;
    var grown := r.(grouping := PrependModel(rules, r.grouping, log[start..r.firstOffset]), firstOffset := start);
    PrependKeepsIndex(rules, log, r, start);
    PrependWindow(rules, log, r, start);
    ExactIsNewest(rules, log, grown);
    TrimKeepsGoodIndex(rules, maxRows, log, r.nextOffset, grown.grouping);
  }

  lemma {:induction false} EmptyIndex(rules: TextRules, log: seq<Record>)
    ensures GoodIndex(rules, log, EMPTY_GROUPING)
    ensures forall next: nat :: next <= |log| ==> NewestRows(log, next, [])
  {
    forall next: nat | next <= |log|
      ensures NewestRows(log, next, [])
    {
      assert log[next..next] == [];
      assert KeptFrom(log, next, [], next);
    }
  }

  lemma {:induction false} AppliedKeepsIndex(rules: TextRules, maxRows: nat, logs: Logs, p: Panel, reply: Reply)
    requires Inv(rules, maxRows, logs, p) && IndexInv(rules, logs, p) && Genuine(logs, reply)
    requires ReplyOutcome(p.pending, p.resident, reply) in {Seed, AppendPage, PrependPage}
    ensures GoodIndex(rules, logs(reply.id),
      ApplyOutcome(rules, maxRows, p.resident.value, reply, ReplyOutcome(p.pending, p.resident, reply)).grouping)
  {
    hide GoodIndex, ExactWindow, NewestRows, ShowAppended, ShowPrepended;
    var r, log := p.resident.value, logs(reply.id);
    match ReplyOutcome(p.pending, p.resident, reply)
    case Seed =>
      EmptyIndex(rules, log);
      GrownKeepsIndex(rules, maxRows, log, r.(hasLoadedOnce := true, firstOffset := reply.start, nextOffset := reply.next), reply.start, reply.next);
    case AppendPage =>
      GrownKeepsIndex(rules, maxRows, log, r.(nextOffset := reply.next), r.nextOffset, reply.next);
    case PrependPage =>
      PrependOnlyUntrimmed(rules, maxRows, logs, p, reply);
      PrependedKeepsIndex(rules, maxRows, log, r, reply.start);
  }

  lemma {:induction false} StepKeepsIndex(rules: TextRules, maxRows: nat, logs: Logs, p: Panel, event: Event)
    requires Inv(rules, maxRows, logs, p) && IndexInv(rules, logs, p)
    requires event.Replying? ==> Genuine(logs, event.reply)
    ensures IndexInv(rules, logs, Step(rules, maxRows, p, event))
  {
    hide GoodIndex, GoodWindow, ApplyOutcome, Genuine;
    if event.Selecting? && event.id.Some? {
      EmptyIndex(rules, logs(event.id.value));
    }
    if event.Replying? {
      var reply := event.reply;
      EmptyIndex(rules, logs(reply.id));
      if ReplyOutcome(p.pending, p.resident, reply) in {Seed, AppendPage, PrependPage} {
        AppliedKeepsIndex(rules, maxRows, logs, p, reply);
        SameSession(rules, maxRows, p.resident.value, reply, ReplyOutcome(p.pending, p.resident, reply));
      }
    }
  }

  lemma {:induction false} SameSession(rules: TextRules, maxRows: nat, r: Resident, reply: Reply, outcome: Outcome)
    ensures ApplyOutcome(rules, maxRows, r, reply, outcome).sessionId == r.sessionId
  {
  }

  lemma {:induction false} RunKeepsIndex(rules: TextRules, maxRows: nat, logs: Logs, events: seq<Event>)
    requires forall i :: 0 <= i < |events| && events[i].Replying? ==> Genuine(logs, events[i].reply)
    ensures IndexInv(rules, logs, Run(rules, maxRows, events))
  {
    hide Inv, IndexInv, Step, Genuine;
    if events == [] {
      NoWindow(rules, logs);
    } else {
      RunKeepsIndex(rules, maxRows, logs, events[..|events| - 1]);
      RunKeepsInv(rules, maxRows, logs, events[..|events| - 1]);
      StepKeepsIndex(rules, maxRows, logs, Run(rules, maxRows, events[..|events| - 1]), events[|events| - 1]);
    }
  }

  lemma {:induction false} NoWindow(rules: TextRules, logs: Logs)
    ensures IndexInv(rules, logs, START)
  {
  }

  /**
   In every run, of a window that may have been trimmed: the rows are the newest of the log, under the head of
   the turn that was cut; the cap holds; and with unique call ids the index holds exactly their calls.
   */
  lemma {:induction false} TrimmedSafety(rules: TextRules, maxRows: nat, logs: Logs, events: seq<Event>)
    requires forall i :: 0 <= i < |events| && events[i].Replying? ==> Genuine(logs, events[i].reply)
    requires Run(rules, maxRows, events).resident.Some?
    ensures
      var r := Run(rules, maxRows, events).resident.value;
      var log := logs(r.sessionId);
      && NewestRows(log, r.nextOffset, r.grouping.turns)
      && (maxRows >= 1 ==> RowTotal(r.grouping.turns) <= maxRows)
      && (UniqueCalls(log) ==> r.grouping.calls == CallsOf(RecordsOf(Flatten(r.grouping.turns))))
  {
    hide Genuine, NewestRows, UniqueCalls, Run;
    RunKeepsInv(rules, maxRows, logs, events);
    RunKeepsIndex(rules, maxRows, logs, events);
  }
}
