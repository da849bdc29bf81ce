/**
 The grouping the trace panel keeps, updated in place by appending, prepending and trimming pages.

 Each operation is proved against its function in TraceGroupingModel. Turns are values here, so
 rows pushed to a turn replace it in the list.
 */
module TraceGroupings {
  import opened Options
  import opened TraceRecords
  import opened TraceGroupingModel
  import opened TraceGroupingLaws
  import opened TraceTrimLaws

  class TraceGrouping {
    const rules: TextRules
    var turns: seq<Turn>
    var toolCallByUseId: CallIndex
    var unresolvedToolUseCounts: RefCounts

    ghost function Value(): Grouping
      reads this
    {
      Grouping(turns, toolCallByUseId, unresolvedToolUseCounts)
    }

    constructor (rules: TextRules)
      ensures this.rules == rules
      ensures Value() == Batch(rules, [])
    {
      this.rules := rules;
      turns, toolCallByUseId, unresolvedToolUseCounts := [], map[], map[];
    }

    method RetainUnresolved(id: ToolUseId, rowCount: nat)
      modifies this`unresolvedToolUseCounts
      ensures unresolvedToolUseCounts == old(unresolvedToolUseCounts)[id :=
        (if id in old(unresolvedToolUseCounts) then old(unresolvedToolUseCounts)[id] else 0) + rowCount]
    {
      var before := if id in unresolvedToolUseCounts then unresolvedToolUseCounts[id] else 0;
      unresolvedToolUseCounts := unresolvedToolUseCounts[id := before + rowCount];
    }

    method ReleaseUnresolved(id: ToolUseId)
      modifies this`unresolvedToolUseCounts
      ensures unresolvedToolUseCounts == ReleaseCounts(old(unresolvedToolUseCounts), multiset{id})
    {
      var referencing: int := if id in unresolvedToolUseCounts then unresolvedToolUseCounts[id] else 0;
      var remaining := referencing - 1;
      if remaining > 0 {
        unresolvedToolUseCounts := unresolvedToolUseCounts[id := remaining];
      } else {
        unresolvedToolUseCounts := unresolvedToolUseCounts - {id};
      }
    }

    method RegisterCalls(records: seq<Record>)
      modifies this`toolCallByUseId
      ensures toolCallByUseId == old(toolCallByUseId) + CallsOf(records)
    {
      for k := 0 to |records|
        invariant toolCallByUseId == old(toolCallByUseId) + CallsOf(records[..k])
      {
        var body := records[k].body;
        if body.ToolCall? {
          toolCallByUseId := toolCallByUseId[body.useId := body.call];
        }
        assert records[..k + 1][..k] == records[..k];
      }
      assert records[..|records|] == records;
    }

    /** Pushes one row, and extends the report of what changed. */
    method PushRowReporting(row: Row, appends: seq<TurnAppend>) returns (extended: seq<TurnAppend>)
      modifies this`turns
      ensures turns == PushRow(rules, old(turns), row)
      ensures extended == PushAppend(rules, appends, old(turns), row)
    {
      extended := appends;
      if StartsTurn(rules, row.record) {
        turns := turns + [Turn(Some(row), [], false)];
        extended := extended + [TurnAppend(|turns| - 1, true, Some(row), [])];
        return;
      }
      assert [] + [row] == [row];
      if turns == [] {
        turns := [Turn(None, [], false)];
        extended := extended + [TurnAppend(0, true, None, [])];
      }
      var turnIndex := |turns| - 1;
      turns := turns[turnIndex := turns[turnIndex].(rows := turns[turnIndex].rows + [row])];
      if extended != [] && extended[|extended| - 1].turnIndex == turnIndex {
        var open := extended[|extended| - 1];
        assert old(turns) == [] ==> extended[..|extended| - 1] == appends;
        extended := extended[..|extended| - 1] + [open.(rows := open.rows + [row])];
      } else {
        extended := extended + [TurnAppend(turnIndex, false, None, [row])];
      }
    }

    /** One record of a page whose calls are already registered. */
    method AppendRecord(record: Record, appends: seq<TurnAppend>) returns (extended: seq<TurnAppend>)
      modifies this`turns, this`unresolvedToolUseCounts
      ensures turns == PushRow(rules, old(turns), RowOf(rules, record, toolCallByUseId))
      ensures unresolvedToolUseCounts == AddCounts(old(unresolvedToolUseCounts), RefOutside(record, toolCallByUseId))
      ensures extended == PushAppend(rules, appends, old(turns), RowOf(rules, record, toolCallByUseId))
    {
      hide AddCounts, PushRow, PushAppend, RowOf;
      var id := ReferencedId(record);
      AddOne(unresolvedToolUseCounts, id);
      if id.Some? && id.value !in toolCallByUseId {
        RetainUnresolved(id.value, 1);
      }
      extended := PushRowReporting(RowOf(rules, record, toolCallByUseId), appends);
    }

    method Append(records: seq<Record>) returns (appends: seq<TurnAppend>)
      modifies this
      ensures Value() == AppendModel(rules, old(Value()), records)
      ensures appends == AppendsOf(rules, old(turns), RowsOf(rules, records, toolCallByUseId))
    {
      RegisterCalls(records);
      ghost var calls := toolCallByUseId;
      appends := [];
      for k := 0 to |records|
        invariant toolCallByUseId == calls
        invariant turns == PushRows(rules, old(turns), RowsOf(rules, records[..k], calls))
        invariant unresolvedToolUseCounts == AddCounts(old(unresolvedToolUseCounts), RefsOutside(records[..k], calls))
        invariant appends == AppendsOf(rules, old(turns), RowsOf(rules, records[..k], calls))
      {
        NextRecord(rules, old(Value()), records, k, calls);
        appends := AppendRecord(records[k], appends);
      }
      assert records[..|records|] == records;
    }

    /** Takes the calls of an earlier page, the resident ones winning, and returns the new ids. */
    method MergeCalls(page: CallIndex) returns (merged: set<ToolUseId>)
      modifies this`toolCallByUseId
      ensures toolCallByUseId == page + old(toolCallByUseId)
      ensures merged == page.Keys - old(toolCallByUseId).Keys
    {
      merged := {};
      var todo := page.Keys;
      while todo != {}
        invariant todo <= page.Keys
        invariant toolCallByUseId == (page - todo) + old(toolCallByUseId)
        invariant merged == page.Keys - todo - old(toolCallByUseId).Keys
        decreases todo
      {
        var id :| id in todo;
        todo := todo - {id};
        if id !in toolCallByUseId {
          toolCallByUseId := toolCallByUseId[id := page[id]];
          merged := merged + {id};
        }
      }
    }

    /** Forgets the counts of newly known ids and returns the ids that were waiting for a call. */
    method ResolveMerged(merged: set<ToolUseId>) returns (resolved: set<ToolUseId>)
      modifies this`unresolvedToolUseCounts
      ensures unresolvedToolUseCounts == old(unresolvedToolUseCounts) - merged
      ensures resolved == merged * old(unresolvedToolUseCounts).Keys
    {
      resolved := {};
      var todo := merged;
      while todo != {}
        invariant todo <= merged
        invariant unresolvedToolUseCounts == old(unresolvedToolUseCounts) - (merged - todo)
        invariant resolved == (merged - todo) * old(unresolvedToolUseCounts).Keys
        decreases todo
      {
        var id :| id in todo;
        todo := todo - {id};
        if id in unresolvedToolUseCounts {
          unresolvedToolUseCounts := unresolvedToolUseCounts - {id};
          resolved := resolved + {id};
        }
      }
    }

    /** Adds the references an earlier page leaves unresolved, unless their call is resident. */
    method RetainEarlier(counts: RefCounts)
      modifies this`unresolvedToolUseCounts
      ensures unresolvedToolUseCounts
        == Retained(old(unresolvedToolUseCounts), counts, counts.Keys - toolCallByUseId.Keys)
    {
      var todo := counts.Keys;
      while todo != {}
        invariant todo <= counts.Keys
        invariant unresolvedToolUseCounts
          == Retained(old(unresolvedToolUseCounts), counts, counts.Keys - todo - toolCallByUseId.Keys)
        decreases todo
      {
        var id :| id in todo;
        RetainedNext(old(unresolvedToolUseCounts), counts, counts.Keys - todo - toolCallByUseId.Keys, id);
        hide Retained;
        ghost var before := todo;
        todo := todo - {id};
        if id !in toolCallByUseId {
          assert counts.Keys - todo - toolCallByUseId.Keys == counts.Keys - before - toolCallByUseId.Keys + {id};
          RetainUnresolved(id, counts[id]);
        } else {
          assert counts.Keys - todo - toolCallByUseId.Keys == counts.Keys - before - toolCallByUseId.Keys;
        }
      }
    }

    method RelabelledRows(rows: seq<Row>, ids: set<ToolUseId>) returns (relabelled: seq<Row>)
      ensures relabelled == RelabelRows(rules, ids, toolCallByUseId, rows)
    {
      relabelled := rows;
      for r := 0 to |rows|
        invariant |relabelled| == |rows|
        invariant forall i :: 0 <= i < r ==> relabelled[i] == RelabelRow(rules, ids, toolCallByUseId, rows[i])
        invariant forall i :: r <= i < |rows| ==> relabelled[i] == rows[i]
      {
        var id := ReferencedId(relabelled[r].record);
        if id.Some? && id.value in ids {
          relabelled := relabelled[r := RowOf(rules, relabelled[r].record, toolCallByUseId)];
        }
      }
    }

    /** Relabels, turn by turn and row by row, the rows that refer to one of the ids. */
    method RelabelRowsOf(ids: set<ToolUseId>)
      modifies this`turns
      ensures turns == RelabelTurns(rules, ids, toolCallByUseId, old(turns))
    {
      if ids == {} {
        NothingToRelabel(rules, toolCallByUseId, turns);
        return;
      }
      for t := 0 to |turns|
        invariant |turns| == |old(turns)|
        invariant forall i :: 0 <= i < t ==>
          turns[i] == old(turns)[i].(rows := RelabelRows(rules, ids, toolCallByUseId, old(turns)[i].rows))
        invariant forall i :: t <= i < |turns| ==> turns[i] == old(turns)[i]
      {
        var rows := RelabelledRows(turns[t].rows, ids);
        turns := turns[t := turns[t].(rows := rows)];
      }
    }

    /** Puts the turns of an earlier page in front, joining the turn the page boundary cut in two. */
    method JoinTurns(earlier: seq<Turn>) returns (newCount: nat, mergedHead: Option<Row>, mergedRows: seq<Row>)
      modifies this`turns
      ensures turns == MergeTurns(earlier, old(turns))
      ensures newCount == |earlier| - if SplitsTurn(earlier, old(turns)) then 1 else 0
      ensures mergedHead == if SplitsTurn(earlier, old(turns)) then earlier[|earlier| - 1].head else None
      ensures mergedRows == if SplitsTurn(earlier, old(turns)) then earlier[|earlier| - 1].rows else []
    {
      newCount, mergedHead, mergedRows := |earlier|, None, [];
      if earlier != [] && turns != [] && turns[0].head.None? {
        newCount := newCount - 1;
        mergedHead, mergedRows := earlier[newCount].head, earlier[newCount].rows;
        turns := turns[0 := turns[0].(head := mergedHead, rows := mergedRows + turns[0].rows)];
      }
      turns := earlier[..newCount] + turns;
    }

    /** Takes the calls and the unresolved references of an earlier page, and returns the ids its calls resolve. */
    method MergeIndex(pageCalls: CallIndex, pageCounts: RefCounts, ghost page: seq<Record>)
        returns (resolved: set<ToolUseId>)
      requires pageCalls == CallsOf(page) && pageCounts == CountsOf(RefsOutside(page, pageCalls))
      modifies this`toolCallByUseId, this`unresolvedToolUseCounts
      ensures toolCallByUseId == pageCalls + old(toolCallByUseId)
      ensures resolved == ResolvedBy(pageCalls, old(toolCallByUseId), old(unresolvedToolUseCounts))
      ensures unresolvedToolUseCounts == AddCounts(
        old(unresolvedToolUseCounts) - (pageCalls.Keys - old(toolCallByUseId).Keys), RefsOutside(page, toolCallByUseId))
    {
      hide RefsOutside, CountsOf, AddCounts, Retained;
      var merged := MergeCalls(pageCalls);
      resolved := ResolveMerged(merged);
      RetainEarlier(pageCounts);
      RetainedAll(old(unresolvedToolUseCounts) - merged, page, pageCalls, toolCallByUseId);
    }

    method Prepend(records: seq<Record>) returns (prepend: TracePrepend)
      modifies this
      ensures Value() == PrependModel(rules, old(Value()), records)
      ensures prepend == PrependResult(rules, old(Value()), records)
    {
      hide PushRows, RelabelTurns, AddCounts, CountsOf, MergeTurns, ResolvedBy;
      var earlier := new TraceGrouping(rules);
      var _ := earlier.Append(records);
      AppendToEmpty(rules, records);
      var resolved := MergeIndex(earlier.toolCallByUseId, earlier.unresolvedToolUseCounts, records);
      var newCount, mergedHead, mergedRows := JoinTurns(earlier.turns);
      RelabelRowsOf(resolved);
      FirstRelabelled(rules, resolved, toolCallByUseId, earlier.turns, old(turns));
      // The reported turns are the grouping's own, so they show the relabelling too.
      prepend := TracePrepend(turns[..newCount], mergedHead, mergedRows, resolved != {});
    }

    method ForgetRows(rows: seq<Row>)
      modifies this`toolCallByUseId, this`unresolvedToolUseCounts
      ensures Value() == Forget(old(Value()), rows)
    {
      for k := 0 to |rows|
        invariant turns == old(turns)
        invariant Value() == Forget(old(Value()), rows[..k])
      {
        var body := rows[k].record.body;
        var id := ReferencedId(rows[k].record);
        ForgetNext(old(Value()), rows, k);
        if body.ToolCall? {
          toolCallByUseId := toolCallByUseId - {body.useId};
        } else if id.Some? {
          ReleaseUnresolved(id.value);
        }
      }
      assert rows[..|rows|] == rows;
    }

    method ResidentRowCount() returns (count: nat)
      ensures count == RowTotal(turns)
    {
      count := 0;
      for t := 0 to |turns|
        invariant count == RowTotal(turns[..t])
      {
        count := count + |turns[t].rows| + (if turns[t].head.Some? then 1 else 0);
        assert turns[..t + 1][..t] == turns[..t];
      }
      assert turns[..|turns|] == turns;
    }

    method DropOldestRowsOfFirstTurn(excess: nat) returns (dropped: nat)
      modifies this
      ensures dropped == if old(turns) == [] then 0 else if excess <= |old(turns)[0].rows| then excess else |old(turns)[0].rows|
      ensures Value() == TrimRowsModel(old(Value()), dropped)
    {
      if turns == [] {
        return 0;
      }
      dropped := if excess <= |turns[0].rows| then excess else |turns[0].rows|;
      if dropped == 0 {
        return;
      }
      ForgetRows(turns[0].rows[..dropped]);
      turns := turns[0 := turns[0].(rows := turns[0].rows[dropped..], hasTrimmedRows := true)];
    }

    /** Forgets and counts the oldest turns that do not fit, always keeping the newest turn. */
    method DropOldestTurns(maxRows: nat) returns (dropped: nat, remaining: nat)
      modifies this
      ensures dropped == DropCount(old(turns), maxRows)
      ensures Value() == TrimTurnsModel(old(Value()), dropped)
      ensures remaining == RowTotal(turns)
    {
      hide Forget, Flatten, RowTotal;
      remaining := ResidentRowCount();
      dropped := 0;
      assert turns[0..] == turns;
      ForgetNothing(Value());
      while remaining > maxRows && dropped < |turns| - 1
        invariant turns == old(turns) && dropped <= |turns|
        invariant remaining == RowTotal(turns[dropped..])
        invariant DropCount(turns, maxRows) == dropped + DropCount(turns[dropped..], maxRows)
        invariant Value() == Forget(old(Value()), Flatten(turns[..dropped]))
      {
        var turn := turns[dropped];
        NextDropped(old(Value()), dropped);
        remaining := remaining - (|turn.rows| + (if turn.head.Some? then 1 else 0));
        ForgetRows((if turn.head.Some? then [turn.head.value] else []) + turn.rows);
        dropped := dropped + 1;
      }
      turns := turns[dropped..];
    }

    method Trim(maxRows: nat) returns (trim: TraceTrim)
      modifies this
      ensures Value() == TrimModel(old(Value()), maxRows)
      ensures trim == TrimResult(old(Value()), maxRows)
    {
      var droppedTurnCount, residentRowCount := DropOldestTurns(maxRows);
      var droppedRowCount := 0;
      if residentRowCount > maxRows {
        droppedRowCount := DropOldestRowsOfFirstTurn(residentRowCount - maxRows);
      }
      trim := TraceTrim(droppedTurnCount, droppedRowCount);
    }
  }

  // ---------------------------------------------------------------- steps of the loops

  function RefOutside(record: Record, known: CallIndex): multiset<ToolUseId> {
    var id := ReferencedId(record);
    if id.Some? && id.value !in known then multiset{id.value} else multiset{}
  }

  lemma {:induction false} AddOne(counts: RefCounts, id: Option<ToolUseId>)
    ensures AddCounts(counts, multiset{}) == counts
    ensures id.Some? ==>
      AddCounts(counts, multiset{id.value}) == counts[id.value := (if id.value in counts then counts[id.value] else 0) + 1]
  {
  }

  lemma {:induction false} AddMore(counts: RefCounts, p: multiset<ToolUseId>, q: multiset<ToolUseId>)
    ensures AddCounts(AddCounts(counts, p), q) == AddCounts(counts, p + q)
  {
  }

  lemma {:induction false} RowsSnoc(rules: TextRules, records: seq<Record>, k: nat, calls: CallIndex)
    requires k < |records|
    ensures RowsOf(rules, records[..k + 1], calls) == RowsOf(rules, records[..k], calls) + [RowOf(rules, records[k], calls)]
  {
  }

  lemma {:induction false} PushSnoc(rules: TextRules, turns: seq<Turn>, rows: seq<Row>, row: Row)
    ensures PushRows(rules, turns, rows + [row]) == PushRow(rules, PushRows(rules, turns, rows), row)
    ensures AppendsOf(rules, turns, rows + [row])
      == PushAppend(rules, AppendsOf(rules, turns, rows), PushRows(rules, turns, rows), row)
  {
    assert (rows + [row])[..|rows|] == rows;
  }

  lemma {:induction false} RefsSnoc(records: seq<Record>, k: nat, calls: CallIndex)
    requires k < |records|
    ensures RefsOutside(records[..k + 1], calls) == RefsOutside(records[..k], calls) + RefOutside(records[k], calls)
  {
    assert records[..k + 1][..k] == records[..k];
  }

  lemma {:induction false} NextRecord(rules: TextRules, g: Grouping, records: seq<Record>, k: nat, calls: CallIndex)
    requires k < |records|
    ensures
      var rows, row := RowsOf(rules, records[..k], calls), RowOf(rules, records[k], calls);
      var more := RowsOf(rules, records[..k + 1], calls);
      && PushRows(rules, g.turns, more) == PushRow(rules, PushRows(rules, g.turns, rows), row)
      && AppendsOf(rules, g.turns, more) == PushAppend(rules, AppendsOf(rules, g.turns, rows), PushRows(rules, g.turns, rows), row)
    ensures AddCounts(g.unresolved, RefsOutside(records[..k + 1], calls))
      == AddCounts(AddCounts(g.unresolved, RefsOutside(records[..k], calls)), RefOutside(records[k], calls))
  {
    RowsSnoc(rules, records, k, calls);
    PushSnoc(rules, g.turns, RowsOf(rules, records[..k], calls), RowOf(rules, records[k], calls));
    RefsSnoc(records, k, calls);
    AddMore(g.unresolved, RefsOutside(records[..k], calls), RefOutside(records[k], calls));
  }

  /** The turns in front of the boundary, relabelled. */
  lemma {:induction false} FirstRelabelled(
      rules: TextRules, ids: set<ToolUseId>, calls: CallIndex, earlier: seq<Turn>, resident: seq<Turn>)
    ensures
      var n := |earlier| - if SplitsTurn(earlier, resident) then 1 else 0;
      var merged := RelabelTurns(rules, ids, calls, MergeTurns(earlier, resident));
      n <= |merged| && merged[..n] == RelabelTurns(rules, ids, calls, earlier[..n])
  {
  }

  function Retained(counts: RefCounts, added: RefCounts, ids: set<ToolUseId>): RefCounts
    requires ids <= added.Keys
  {
    map id | id in counts.Keys + ids ::
      (if id in counts then counts[id] else 0) + (if id in ids then added[id] else 0)
  }

  lemma {:induction false} RetainedNext(counts: RefCounts, added: RefCounts, ids: set<ToolUseId>, id: ToolUseId)
    requires ids <= added.Keys && id in added && id !in ids
    ensures
      var before := Retained(counts, added, ids);
      Retained(counts, added, ids + {id}) == before[id := (if id in before then before[id] else 0) + added[id]]
  {
  }

  lemma {:induction false} RetainedRefs(
      counts: RefCounts, was: multiset<ToolUseId>, now: multiset<ToolUseId>, more: CallIndex)
    requires forall id: ToolUseId :: now[id] == if id in more then 0 else was[id]
    ensures Retained(counts, CountsOf(was), CountsOf(was).Keys - more.Keys) == AddCounts(counts, now)
  {
    var retained, added := Retained(counts, CountsOf(was), CountsOf(was).Keys - more.Keys), AddCounts(counts, now);
    forall id: ToolUseId
      ensures id in retained <==> id in added
      ensures id in retained && id in added ==> retained[id] == added[id]
    {
    }
  }

  lemma {:induction false} RetainedAll(counts: RefCounts, page: seq<Record>, known: CallIndex, more: CallIndex)
    requires known.Keys <= more.Keys
    ensures
      var added := CountsOf(RefsOutside(page, known));
      Retained(counts, added, added.Keys - more.Keys) == AddCounts(counts, RefsOutside(page, more))
  {
    forall id: ToolUseId
      ensures RefsOutside(page, more)[id] == if id in more then 0 else RefsOutside(page, known)[id]
    {
      RefsKnowing(page, known, more, id);
    }
    RetainedRefs(counts, RefsOutside(page, known), RefsOutside(page, more), more);
  }

  lemma {:induction false} NextDropped(g: Grouping, k: nat)
    requires k < |g.turns|
    ensures RowTotal(g.turns[k..]) == |TurnRows(g.turns[k])| + RowTotal(g.turns[k + 1..])
    ensures g.turns[k..][1..] == g.turns[k + 1..]
    ensures Forget(Forget(g, Flatten(g.turns[..k])), TurnRows(g.turns[k])) == Forget(g, Flatten(g.turns[..k + 1]))
  {
    RowTotalSplit(g.turns[k..]);
    assert g.turns[k..][1..] == g.turns[k + 1..];
    assert g.turns[..k + 1][..k] == g.turns[..k];
    ForgetMore(g, Flatten(g.turns[..k]), TurnRows(g.turns[k]));
  }

  lemma {:induction false} AppendToEmpty(rules: TextRules, records: seq<Record>)
    ensures AppendModel(rules, Batch(rules, []), records) == Batch(rules, records)
  {
    assert map[] + CallsOf(records) == CallsOf(records);
  }

  lemma {:induction false} ForgetNothing(g: Grouping)
    ensures Forget(g, Flatten(g.turns[..0])) == g
  {
  }

  lemma {:induction false} ReleaseMore(counts: RefCounts, p: multiset<ToolUseId>, q: multiset<ToolUseId>)
    ensures ReleaseCounts(ReleaseCounts(counts, p), q) == ReleaseCounts(counts, p + q)
  {
  }

  lemma {:induction false} ForgetMore(g: Grouping, a: seq<Row>, b: seq<Row>)
    ensures Forget(Forget(g, a), b) == Forget(g, a + b)
  {
    RecordsConcat(a, b);
    RefsConcat(RecordsOf(a), RecordsOf(b), map[]);
    ReleaseMore(g.unresolved, RefsOutside(RecordsOf(a), map[]), RefsOutside(RecordsOf(b), map[]));
    ForgottenTwice(g.calls, a, b);
    hide RecordsOf, RefsOutside, ReleaseCounts, CallIds;
  }

  lemma {:induction false} ForgetNext(g: Grouping, rows: seq<Row>, k: nat)
    requires k < |rows|
    ensures
      var before := Forget(g, rows[..k]);
      var record := rows[k].record;
      Forget(g, rows[..k + 1]) == before.(
        calls := if CallId(record).Some? then before.calls - {CallId(record).value} else before.calls,
        unresolved := if ReferencedId(record).Some?
          then ReleaseCounts(before.unresolved, multiset{ReferencedId(record).value}) else before.unresolved)
  {
    var one := [rows[k]];
    assert rows[..k + 1] == rows[..k] + one;
    ForgetMore(g, rows[..k], one);
    ForgetOne(Forget(g, rows[..k]), rows[k]);
  }

  lemma {:induction false} ForgetOne(g: Grouping, row: Row)
    ensures Forget(g, [row]) == g.(
      calls := if CallId(row.record).Some? then g.calls - {CallId(row.record).value} else g.calls,
      unresolved := if ReferencedId(row.record).Some?
        then ReleaseCounts(g.unresolved, multiset{ReferencedId(row.record).value}) else g.unresolved)
  {
    var records := RecordsOf([row]);
    assert records[..0] == [];
    assert ReleaseCounts(g.unresolved, multiset{}) == g.unresolved;
    assert RefsOutside(records, map[]) == RefOutside(row.record, map[]);
    assert CallIds(records) == if CallId(row.record).Some? then {CallId(row.record).value} else {};
  }
}
