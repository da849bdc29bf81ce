/**
 The unresolved counts over whole runs of appends, prepends and trims: what makes them stop being those of
 the resident rows, and that nothing else does.
 */
module TraceCountRuns {
  import opened TraceRecords
  import opened TraceGroupingModel
  import opened TraceGroupingLaws
  import opened TraceTrimLaws
  import opened TracePanelLaws
  import opened TracePanelIndex
  import opened TraceRenderedView

  function Resident(g: Grouping): seq<Record> {
    RecordsOf(Flatten(g.turns))
  }

  /** The counts are those of the resident records against the calls in the index. */
  ghost predicate CountsExact(g: Grouping) {
    CountsKnowing(g, g.calls)
  }

  ghost predicate Indexed(rules: TextRules, g: Grouping) {
    WellShaped(rules, g.turns) && CallsExact(g)
  }

  function Changed(rules: TextRules, g: Grouping, change: Change): Grouping {
    match change
    case Appending(records) => AppendModel(rules, g, records)
    case Prepending(records) => PrependModel(rules, g, records)
    case Trimming(maxRows) => TrimModel(g, maxRows)
  }

  function ChangedAll(rules: TextRules, g: Grouping, changes: seq<Change>): Grouping {
    if changes == [] then g
    else Changed(rules, ChangedAll(rules, g, changes[..|changes| - 1]), changes[|changes| - 1])
  }

  // ---------------------------------------------------------------- append

  lemma {:induction false} CountsTell(p: multiset<ToolUseId>, q: multiset<ToolUseId>)
    ensures CountsOf(p) == CountsOf(q) <==> p == q
  {
    if CountsOf(p) == CountsOf(q) {
      forall id: ToolUseId
        ensures p[id] == q[id]
      {
        assert id in CountsOf(p) <==> id in CountsOf(q);
      }
    }
  }

  lemma {:induction false} AppendRecords(rules: TextRules, g: Grouping, records: seq<Record>)
    ensures Resident(AppendModel(rules, g, records)) == Resident(g) + records
  {
    hide PushRows, Flatten, CallsOf;
    var rows := RowsOf(rules, records, g.calls + CallsOf(records));
    FlattenPush(rules, g.turns, rows);
    RecordsConcat(Flatten(g.turns), rows);
    assert RecordsOf(rows) == records;
  }

  /** Of two pages with call ids of their own, the first refers to no call of the second iff more calls known leave its references. */
  lemma {:induction false} LateCallsTell(a: seq<Record>, b: seq<Record>)
    requires UniqueCalls(a + b)
    ensures RefsOutside(a, CallsOf(a)) == RefsOutside(a, CallsOf(a) + CallsOf(b)) <==> NoLateCall(a, b)
  {
    hide RefsOutside, CallsOf, ReferencedId, CallId;
    UniqueParts(a, b);
    CountsDifferIff(a, CallsOf(a), CallsOf(a) + CallsOf(b));
    CountsTell(RefsOutside(a, CallsOf(a)), RefsOutside(a, CallsOf(a) + CallsOf(b)));
    forall i | 0 <= i < |a| && ReferencedId(a[i]).Some?
      ensures ReferencedId(a[i]).value in CallsOf(b) <==> exists j :: 0 <= j < |b| && CallId(b[j]) == ReferencedId(a[i])
    {
      CallsByPosition(b, ReferencedId(a[i]).value);
    }
  }

  lemma {:induction false} AppendCountsIff(rules: TextRules, g: Grouping, records: seq<Record>)
    requires CallsExact(g) && CountsExact(g) && UniqueCalls(Resident(g) + records)
    ensures CountsExact(AppendModel(rules, g, records)) <==> NoLateCall(Resident(g), records)
  {
    var a, more := Resident(g), CallsOf(Resident(g)) + CallsOf(records);
    AppendRecords(rules, g, records);
    RefsConcat(a, records, more);
    LateCallsTell(a, records);
    var was, now, page := RefsOutside(a, CallsOf(a)), RefsOutside(a, more), RefsOutside(records, more);
    CountsSum(was, page);
    CountsTell(was + page, now + page);
    hide RefsOutside, CallsOf, CountsOf, AddCounts, PushRows, Flatten, NoLateCall;
    assert was + page == now + page <==> was == now by {
      if was + page == now + page {
        assert was == was + page - page == now + page - page == now;
      }
    }
  }

  // ---------------------------------------------------------------- prepend

  lemma {:induction false} MergeKeepsShape(rules: TextRules, earlier: seq<Turn>, resident: seq<Turn>)
    requires WellShaped(rules, earlier) && Untrimmed(earlier) && WellShaped(rules, resident)
    ensures WellShaped(rules, MergeTurns(earlier, resident))
  {
    hide StartsTurn;
  }

  lemma {:induction false} RelabelKeepsShape(rules: TextRules, ids: set<ToolUseId>, calls: CallIndex, turns: seq<Turn>)
    requires WellShaped(rules, turns)
    ensures WellShaped(rules, RelabelTurns(rules, ids, calls, turns))
  {
    hide StartsTurn;
  }

  lemma {:induction false} FlattenAround(init: seq<Turn>, turn: Turn, rest: seq<Turn>)
    ensures Flatten(init + [turn] + rest) == Flatten(init) + TurnRows(turn) + Flatten(rest)
  {
    FlattenConcat(init + [turn], rest);
    FlattenConcat(init, [turn]);
    FlattenOne(turn);
    hide Flatten, TurnRows;
  }

  lemma {:induction false} SameOrder(a: seq<Row>, b: seq<Row>, c: seq<Row>, d: seq<Row>)
    ensures a + (b + c) + d == (a + b) + (c + d)
  {
  }

  lemma {:induction false} JoinedRows(init: seq<Turn>, cut: Turn, first: Turn, rest: seq<Turn>, joined: Turn)
    requires first.head.None? && joined.head == cut.head && joined.rows == cut.rows + first.rows
    ensures Flatten(init + [joined] + rest) == Flatten(init + [cut] + []) + Flatten([] + [first] + rest)
  {
    hide Flatten;
    assert TurnRows(joined) == TurnRows(cut) + TurnRows(first);
    hide TurnRows;
    FlattenAround(init, joined, rest);
    FlattenAround(init, cut, []);
    FlattenAround([], first, rest);
    NoRows();
    SameOrder(Flatten(init), TurnRows(cut), TurnRows(first), Flatten(rest));
  }

  /** Joining the turn cut by the page boundary loses no row. */
  lemma {:induction false} MergeRows(earlier: seq<Turn>, resident: seq<Turn>)
    ensures Flatten(MergeTurns(earlier, resident)) == Flatten(earlier) + Flatten(resident)
  {
    hide Flatten;
    if SplitsTurn(earlier, resident) {
      var init, cut, first, rest := earlier[..|earlier| - 1], earlier[|earlier| - 1], resident[0], resident[1..];
      assert earlier == init + [cut] + [] && resident == [] + [first] + rest;
      JoinedRows(init, cut, first, rest, first.(head := cut.head, rows := cut.rows + first.rows));
    } else {
      FlattenConcat(earlier, resident);
    }
  }

  lemma {:induction false} NoRows()
    ensures Flatten([]) == []
  {
  }

  lemma {:induction false} PrependRecords(rules: TextRules, g: Grouping, records: seq<Record>)
    ensures Resident(PrependModel(rules, g, records)) == records + Resident(g)
  {
    var earlier := Batch(rules, records).turns;
    var after := PrependModel(rules, g, records).turns;
    var merged := MergeTurns(earlier, g.turns);
    RelabelShape(rules, ResolvedBy(CallsOf(records), g.calls, g.unresolved), CallsOf(records) + g.calls, merged);
    SameShapeRecords(after, merged);
    MergeRows(earlier, g.turns);
    BatchRecords(rules, records);
    RecordsConcat(Flatten(earlier), Flatten(g.turns));
    hide Batch, Flatten, MergeTurns, RelabelTurns, ShapeOf;
  }

  lemma {:induction false} PrependKeepsIndexed(rules: TextRules, g: Grouping, records: seq<Record>)
    requires Indexed(rules, g)
    ensures Indexed(rules, PrependModel(rules, g, records))
  {
    BatchShape(rules, records);
    var earlier := Batch(rules, records).turns;
    MergeKeepsShape(rules, earlier, g.turns);
    RelabelKeepsShape(rules, ResolvedBy(CallsOf(records), g.calls, g.unresolved), CallsOf(records) + g.calls,
                      MergeTurns(earlier, g.turns));
    PrependRecords(rules, g, records);
    PrependCalls(rules, g, records);
    CallsConcat(records, Resident(g));
    hide CallsOf, WellShaped, MergeTurns, RelabelTurns, Flatten, AddCounts, PushRows;
  }

  /** A prepend keeps the counts exact, whatever its page holds. */
  lemma {:induction false} PrependKeepsCounts(rules: TextRules, g: Grouping, records: seq<Record>)
    requires CallsExact(g) && CountsExact(g)
    ensures CountsExact(PrependModel(rules, g, records))
  {
    PrependRecords(rules, g, records);
    PrependCalls(rules, g, records);
    PrependCounts(records, Resident(g));
    hide CallsOf, MergeTurns, RelabelTurns, Flatten, AddCounts, PushRows, RefsOutside, CountsOf;
  }

  // ---------------------------------------------------------------- a run

  /** A change that leaves the counts exact: no call arrives late, and no trim cuts a reference off its call. */
  ghost predicate KeepsCounts(g: Grouping, change: Change) {
    match change
    case Appending(records) => NoLateCall(Resident(g), records)
    case Prepending(_) => true
    case Trimming(maxRows) => CutsNoReference(g, maxRows)
  }

  ghost predicate KeepsCountsAll(rules: TextRules, g: Grouping, changes: seq<Change>) {
    changes == [] || (
      && KeepsCountsAll(rules, g, changes[..|changes| - 1])
      && KeepsCounts(ChangedAll(rules, g, changes[..|changes| - 1]), changes[|changes| - 1]))
  }

  /** No call id is ever used twice among the resident records. */
  ghost predicate UniqueRun(rules: TextRules, g: Grouping, changes: seq<Change>) {
    && UniqueCalls(Resident(ChangedAll(rules, g, changes)))
    && (changes != [] ==> UniqueRun(rules, g, changes[..|changes| - 1]))
  }

  lemma {:induction false} AppendKeepsIndexed(rules: TextRules, g: Grouping, records: seq<Record>)
    requires Indexed(rules, g)
    ensures Indexed(rules, AppendModel(rules, g, records))
  {
    hide WellShaped, CallsExact;
    AppendKeepsCalls(rules, g, records);
    PushKeepsShape(rules, g.turns, RowsOf(rules, records, g.calls + CallsOf(records)));
  }

  lemma {:induction false} TrimKeepsIndexed(rules: TextRules, g: Grouping, maxRows: nat)
    requires Indexed(rules, g) && UniqueCalls(Resident(g))
    ensures Indexed(rules, TrimModel(g, maxRows))
  {
    hide WellShaped, CallsExact, TrimModel;
    TrimKeepsShape(rules, g, maxRows);
    TrimKeepsCalls(rules, g, maxRows);
  }

  lemma {:induction false} ChangeKeepsIndexed(rules: TextRules, g: Grouping, change: Change)
    requires Indexed(rules, g) && UniqueCalls(Resident(g))
    ensures Indexed(rules, Changed(rules, g, change))
  {
    hide Indexed, UniqueCalls, Resident, AppendModel, PrependModel, TrimModel;
    match change
    case Appending(records) => AppendKeepsIndexed(rules, g, records);
    case Prepending(records) => PrependKeepsIndexed(rules, g, records);
    case Trimming(maxRows) => TrimKeepsIndexed(rules, g, maxRows);
  }

  /** From exact counts, a change leaves them exact iff no call arrives late and no reference is cut off its call. */
  lemma {:induction false} ChangeCountsIff(rules: TextRules, g: Grouping, change: Change)
    requires Indexed(rules, g) && CountsExact(g)
    requires UniqueCalls(Resident(g)) && UniqueCalls(Resident(Changed(rules, g, change)))
    ensures CountsExact(Changed(rules, g, change)) <==> KeepsCounts(g, change)
  {
    match change
    case Appending(records) =>
      AppendRecords(rules, g, records);
      AppendCountsIff(rules, g, records);
    case Prepending(records) =>
      PrependKeepsCounts(rules, g, records);
    case Trimming(maxRows) =>
      TrimCountsExactIff(rules, g, maxRows);
    hide CountsKnowing, AppendModel, PrependModel, TrimModel, DroppedRows, KeptRows, NoLateCall;
  }

  lemma {:induction false} ChangesKeepIndexed(rules: TextRules, g: Grouping, changes: seq<Change>)
    requires Indexed(rules, g) && UniqueRun(rules, g, changes)
    ensures Indexed(rules, ChangedAll(rules, g, changes))
  {
    hide Indexed, UniqueCalls, Changed;
    if changes != [] {
      var before := changes[..|changes| - 1];
      ChangesKeepIndexed(rules, g, before);
      ChangeKeepsIndexed(rules, ChangedAll(rules, g, before), changes[|changes| - 1]);
    }
  }

  /**
   Over any run of appends, prepends and trims the counts are those of the resident rows all along iff no call is
   appended after a resident record that refers to it and no trim keeps a row that refers to a call it drops.
   */
  lemma {:induction false} CountsExactIff(rules: TextRules, g: Grouping, changes: seq<Change>)
    requires Indexed(rules, g) && CountsExact(g) && UniqueRun(rules, g, changes)
    ensures
      (forall n: nat :: n <= |changes| ==> CountsExact(ChangedAll(rules, g, changes[..n]))) <==>
      KeepsCountsAll(rules, g, changes)
  {
    hide Indexed, CountsExact, KeepsCounts, UniqueCalls, Changed;
    if changes == [] {
      assert changes[..0] == [];
    } else {
      var before, last := changes[..|changes| - 1], changes[|changes| - 1];
      CountsExactIff(rules, g, before);
      assert forall n: nat :: n < |changes| ==> changes[..n] == before[..n];
      assert before[..|before|] == before && changes[..|changes|] == changes;
      ChangesKeepIndexed(rules, g, before);
      if CountsExact(ChangedAll(rules, g, before)) {
        ChangeCountsIff(rules, ChangedAll(rules, g, before), last);
      }
    }
  }
}
