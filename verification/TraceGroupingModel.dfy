/**
 What the trace view's incremental index must agree with: regrouping the whole slice.

 Batch(rules, records) is the simple thing, one grouping made from scratch. The functions
 AppendModel, PrependModel and TrimModel say what the three in-place operations of
 class TraceGrouping do to a grouping; TraceGroupingLaws relates them to Batch.
 */
module TraceGroupingModel {
  import opened Options
  import opened TraceRecords

  datatype Turn = Turn(head: Option<Row>, rows: seq<Row>, hasTrimmedRows: bool)

  type RefCounts = map<ToolUseId, nat>

  datatype Grouping = Grouping(turns: seq<Turn>, calls: CallIndex, unresolved: RefCounts)

  // ---------------------------------------------------------------- calls and references

  function CallsOf(records: seq<Record>): CallIndex {
    if records == [] then map[]
    else
      var last := records[|records| - 1];
      var before := CallsOf(records[..|records| - 1]);
      if last.body.ToolCall? then before[last.body.useId := last.body.call] else before
  }

  /** The ids the records refer to, with multiplicity, leaving out those in `known`. */
  function RefsOutside(records: seq<Record>, known: CallIndex): multiset<ToolUseId> {
    if records == [] then multiset{}
    else
      var id := ReferencedId(records[|records| - 1]);
      RefsOutside(records[..|records| - 1], known) +
      (if id.Some? && id.value !in known then multiset{id.value} else multiset{})
  }

  function CountsOf(refs: multiset<ToolUseId>): RefCounts {
    map id | id in refs :: refs[id]
  }

  function AddCounts(counts: RefCounts, refs: multiset<ToolUseId>): RefCounts {
    map id | id in counts.Keys + CountsOf(refs).Keys ::
      (if id in counts then counts[id] else 0) + refs[id]
  }

  /** Counts lowered by `refs`; an id whose count would not stay positive is forgotten. */
  function ReleaseCounts(counts: RefCounts, refs: multiset<ToolUseId>): RefCounts {
    map id | id in counts && (id !in refs || counts[id] > refs[id]) :: if id in refs then counts[id] - refs[id] else counts[id]
  }

  function CallIds(records: seq<Record>): set<ToolUseId> {
    set i | 0 <= i < |records| && records[i].body.ToolCall? :: records[i].body.useId
  }

  // ---------------------------------------------------------------- turns

  function RowsOf(rules: TextRules, records: seq<Record>, calls: CallIndex): (rows: seq<Row>)
    ensures |rows| == |records|
    ensures forall i :: 0 <= i < |rows| ==> rows[i] == RowOf(rules, records[i], calls)
  {
    seq(|records|, i requires 0 <= i < |records| => RowOf(rules, records[i], calls))
  }

  function RecordsOf(rows: seq<Row>): (records: seq<Record>)
    ensures |records| == |rows|
    ensures forall i :: 0 <= i < |rows| ==> records[i] == rows[i].record
  {
    seq(|rows|, i requires 0 <= i < |rows| => rows[i].record)
  }

  function PushRow(rules: TextRules, turns: seq<Turn>, row: Row): seq<Turn> {
    if StartsTurn(rules, row.record) then turns + [Turn(Some(row), [], false)]
    else if turns == [] then [Turn(None, [row], false)]
    else
      var last := turns[|turns| - 1];
      turns[|turns| - 1 := last.(rows := last.rows + [row])]
  }

  function PushRows(rules: TextRules, turns: seq<Turn>, rows: seq<Row>): seq<Turn> {
    if rows == [] then turns
    else PushRow(rules, PushRows(rules, turns, rows[..|rows| - 1]), rows[|rows| - 1])
  }

  function Batch(rules: TextRules, records: seq<Record>): Grouping {
    var calls := CallsOf(records);
    Grouping(
      PushRows(rules, [], RowsOf(rules, records, calls)),
      calls,
      CountsOf(RefsOutside(records, calls)))
  }

  /** The rows of a turn in order, its head first. */
  function TurnRows(turn: Turn): seq<Row> {
    (if turn.head.Some? then [turn.head.value] else []) + turn.rows
  }

  function Flatten(turns: seq<Turn>): seq<Row> {
    if turns == [] then [] else Flatten(turns[..|turns| - 1]) + TurnRows(turns[|turns| - 1])
  }

  function RowTotal(turns: seq<Turn>): nat {
    |Flatten(turns)|
  }

  // ---------------------------------------------------------------- append

  function AppendModel(rules: TextRules, g: Grouping, records: seq<Record>): Grouping {
    var calls := g.calls + CallsOf(records);
    Grouping(
      PushRows(rules, g.turns, RowsOf(rules, records, calls)),
      calls,
      AddCounts(g.unresolved, RefsOutside(records, calls)))
  }

  // ---------------------------------------------------------------- prepend

  function RelabelRow(rules: TextRules, ids: set<ToolUseId>, calls: CallIndex, row: Row): Row {
    var id := ReferencedId(row.record);
    if id.Some? && id.value in ids then RowOf(rules, row.record, calls) else row
  }

  function RelabelRows(rules: TextRules, ids: set<ToolUseId>, calls: CallIndex, rows: seq<Row>): (r: seq<Row>)
    ensures |r| == |rows|
    ensures forall i :: 0 <= i < |rows| ==> r[i] == RelabelRow(rules, ids, calls, rows[i])
  {
    seq(|rows|, i requires 0 <= i < |rows| => RelabelRow(rules, ids, calls, rows[i]))
  }

  /** Heads are left alone: a record that starts a turn refers to no call. */
  function RelabelTurns(rules: TextRules, ids: set<ToolUseId>, calls: CallIndex, turns: seq<Turn>): (r: seq<Turn>)
    ensures |r| == |turns|
    ensures forall i :: 0 <= i < |turns| ==> r[i] == turns[i].(rows := RelabelRows(rules, ids, calls, turns[i].rows))
  {
    seq(|turns|, i requires 0 <= i < |turns| =>
      turns[i].(rows := RelabelRows(rules, ids, calls, turns[i].rows)))
  }

  /** A turn cut by the page boundary: the page ends inside a turn whose later rows are resident. */
  predicate SplitsTurn(earlier: seq<Turn>, resident: seq<Turn>) {
    earlier != [] && resident != [] && resident[0].head.None?
  }

  function MergeTurns(earlier: seq<Turn>, resident: seq<Turn>): seq<Turn> {
    if SplitsTurn(earlier, resident) then
      var cut := earlier[|earlier| - 1];
      earlier[..|earlier| - 1]
      + [resident[0].(head := cut.head, rows := cut.rows + resident[0].rows)]
      + resident[1..]
    else earlier + resident
  }

  /** The unresolved ids that the calls of an earlier page resolve. */
  function ResolvedBy(page: CallIndex, calls: CallIndex, unresolved: RefCounts): set<ToolUseId> {
    (page.Keys - calls.Keys) * unresolved.Keys
  }

  function PrependModel(rules: TextRules, g: Grouping, records: seq<Record>): Grouping {
    var earlier := Batch(rules, records);
    var calls := earlier.calls + g.calls;
    var resolved := ResolvedBy(earlier.calls, g.calls, g.unresolved);
    Grouping(
      RelabelTurns(rules, resolved, calls, MergeTurns(earlier.turns, g.turns)),
      calls,
      AddCounts(g.unresolved - (earlier.calls.Keys - g.calls.Keys), RefsOutside(records, calls)))
  }

  // ---------------------------------------------------------------- trim

  function DropCount(turns: seq<Turn>, maxRows: nat): (k: nat)
    ensures k <= |turns|
    ensures turns != [] ==> k < |turns|
  {
    if |turns| > 1 && RowTotal(turns) > maxRows then 1 + DropCount(turns[1..], maxRows) else 0
  }

  function Forget(g: Grouping, rows: seq<Row>): Grouping {
    var records := RecordsOf(rows);
    g.(calls := g.calls - CallIds(records),
       unresolved := ReleaseCounts(g.unresolved, RefsOutside(records, map[])))
  }

  function TrimRowCount(turns: seq<Turn>, maxRows: nat): nat {
    if turns == [] || RowTotal(turns) <= maxRows then 0
    else if RowTotal(turns) - maxRows <= |turns[0].rows| then RowTotal(turns) - maxRows
    else |turns[0].rows|
  }

  function TrimRowsModel(g: Grouping, rowCount: nat): Grouping
    requires rowCount > 0 ==> g.turns != [] && rowCount <= |g.turns[0].rows|
  {
    if rowCount == 0 then g
    else
      var first := g.turns[0];
      Forget(g, first.rows[..rowCount]).(
        turns := g.turns[0 := first.(rows := first.rows[rowCount..], hasTrimmedRows := true)])
  }

  function TrimTurnsModel(g: Grouping, turnCount: nat): Grouping
    requires turnCount <= |g.turns|
  {
    Forget(g, Flatten(g.turns[..turnCount])).(turns := g.turns[turnCount..])
  }

  function TrimModel(g: Grouping, maxRows: nat): Grouping {
    var kept := TrimTurnsModel(g, DropCount(g.turns, maxRows));
    TrimRowsModel(kept, TrimRowCount(kept.turns, maxRows))
  }

  // ---------------------------------------------------------------- what the operations report

  /** One step for the rendered list: a new turn, or more rows for the turn at `turnIndex`. */
  datatype TurnAppend = TurnAppend(turnIndex: nat, isNewTurn: bool, head: Option<Row>, rows: seq<Row>)

  datatype TracePrepend = TracePrepend(newTurns: seq<Turn>, mergedHead: Option<Row>, mergedRows: seq<Row>, needsRerender: bool)

  datatype TraceTrim = TraceTrim(droppedTurnCount: nat, droppedRowCount: nat)

  function PushAppend(rules: TextRules, appends: seq<TurnAppend>, turns: seq<Turn>, row: Row): seq<TurnAppend> {
    if StartsTurn(rules, row.record) then appends + [TurnAppend(|turns|, true, Some(row), [])]
    else if turns == [] then appends + [TurnAppend(0, true, None, [row])]
    else if appends != [] && appends[|appends| - 1].turnIndex == |turns| - 1 then
      var open := appends[|appends| - 1];
      appends[|appends| - 1 := open.(rows := open.rows + [row])]
    else appends + [TurnAppend(|turns| - 1, false, None, [row])]
  }

  function AppendsOf(rules: TextRules, turns: seq<Turn>, rows: seq<Row>): seq<TurnAppend> {
    if rows == [] then []
    else
      var init := rows[..|rows| - 1];
      PushAppend(rules, AppendsOf(rules, turns, init), PushRows(rules, turns, init), rows[|rows| - 1])
  }

  function PrependResult(rules: TextRules, g: Grouping, records: seq<Record>): TracePrepend {
    var earlier := Batch(rules, records);
    var splits := SplitsTurn(earlier.turns, g.turns);
    var resolved := ResolvedBy(earlier.calls, g.calls, g.unresolved);
    var newTurns := if splits then earlier.turns[..|earlier.turns| - 1] else earlier.turns;
    TracePrepend(
      RelabelTurns(rules, resolved, earlier.calls + g.calls, newTurns),
      if splits then earlier.turns[|earlier.turns| - 1].head else None,
      if splits then earlier.turns[|earlier.turns| - 1].rows else [],
      resolved != {})
  }

  function TrimResult(g: Grouping, maxRows: nat): TraceTrim {
    var k := DropCount(g.turns, maxRows);
    TraceTrim(k, TrimRowCount(g.turns[k..], maxRows))
  }
}
