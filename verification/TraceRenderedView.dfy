/**
 The rendered list of turns. The panel keeps the page in step with the grouping by replaying
 what each operation reports; here that replay is shown to give the grouping's own turns.
 */
module TraceRenderedView {
  import opened Options
  import opened TraceRecords
  import opened TraceGroupingModel
  import opened TraceGroupingLaws

  /** A section of the page: an optional heading row, its rows, and the "trimmed" mark. */
  datatype Section = Section(head: Option<Row>, rows: seq<Row>, isMarkedTrimmed: bool)

  function RenderTurn(turn: Turn): Section {
    Section(turn.head, turn.rows, turn.hasTrimmedRows)
  }

  function Render(turns: seq<Turn>): (sections: seq<Section>)
    ensures |sections| == |turns|
    ensures forall i :: 0 <= i < |turns| ==> sections[i] == RenderTurn(turns[i])
  {
    seq(|turns|, i requires 0 <= i < |turns| => RenderTurn(turns[i]))
  }

  function ShowAppend(sections: seq<Section>, append: TurnAppend): seq<Section> {
    if append.isNewTurn then sections + [Section(append.head, append.rows, false)]
    else if append.turnIndex < |sections| then
      var section := sections[append.turnIndex];
      sections[append.turnIndex := section.(rows := section.rows + append.rows)]
    else sections
  }

  function ShowAppends(sections: seq<Section>, appends: seq<TurnAppend>): seq<Section> {
    if appends == [] then sections
    else ShowAppend(ShowAppends(sections, appends[..|appends| - 1]), appends[|appends| - 1])
  }

  function ShowPrepend(sections: seq<Section>, prepend: TracePrepend): seq<Section> {
    var merged :=
      if prepend.mergedHead.Some? && sections != [] then
        sections[0 := sections[0].(head := prepend.mergedHead, rows := prepend.mergedRows + sections[0].rows)]
      else sections;
    Render(prepend.newTurns) + merged
  }

  function ShowTrim(sections: seq<Section>, trim: TraceTrim): seq<Section> {
    var kept := if trim.droppedTurnCount <= |sections| then sections[trim.droppedTurnCount..] else [];
    if trim.droppedRowCount == 0 || kept == [] then kept
    else
      var rows := kept[0].rows;
      kept[0 := kept[0].(
        rows := if trim.droppedRowCount <= |rows| then rows[trim.droppedRowCount..] else [],
        isMarkedTrimmed := true)]
  }

  // ---------------------------------------------------------------- append

  lemma {:induction false} ShowOpenAppend(sections: seq<Section>, append: TurnAppend, row: Row)
    requires append.isNewTurn ==> append.turnIndex == |sections|
    requires !append.isNewTurn ==> append.turnIndex < |sections|
    ensures
      var shown := ShowAppend(sections, append);
      ShowAppend(sections, append.(rows := append.rows + [row]))
        == shown[append.turnIndex := shown[append.turnIndex].(rows := shown[append.turnIndex].rows + [row])]
  {
    if !append.isNewTurn {
      var rows := sections[append.turnIndex].rows;
      assert rows + (append.rows + [row]) == rows + append.rows + [row];
    }
  }

  /** The last delta points at an existing turn, or is the newest one. */
  ghost predicate PointsInto(sections: seq<Section>, appends: seq<TurnAppend>) {
    appends != [] ==>
      var before := ShowAppends(sections, appends[..|appends| - 1]);
      var open := appends[|appends| - 1];
      if open.isNewTurn then open.turnIndex == |before| else open.turnIndex < |before|
  }

  lemma {:induction false} ShowPushAppend(
      rules: TextRules, start: seq<Section>, appends: seq<TurnAppend>, turns: seq<Turn>, row: Row)
    requires PointsInto(start, appends) && ShowAppends(start, appends) == Render(turns)
    ensures
      var next := PushAppend(rules, appends, turns, row);
      PointsInto(start, next) && ShowAppends(start, next) == Render(PushRow(rules, turns, row))
  {
    var next := PushAppend(rules, appends, turns, row);
    if !StartsTurn(rules, row.record) && turns != [] && appends != []
        && appends[|appends| - 1].turnIndex == |turns| - 1 {
      assert next[..|next| - 1] == appends[..|appends| - 1];
      ShowOpenAppend(ShowAppends(start, appends[..|appends| - 1]), appends[|appends| - 1], row);
    } else {
      assert next[..|next| - 1] == appends;
    }
  }

  /** Replaying the reported appends on the rendered list gives the grouping's turns. */
  lemma {:induction false} RenderedAppend(rules: TextRules, turns: seq<Turn>, rows: seq<Row>)
    ensures PointsInto(Render(turns), AppendsOf(rules, turns, rows))
    ensures ShowAppends(Render(turns), AppendsOf(rules, turns, rows)) == Render(PushRows(rules, turns, rows))
  {
    if rows != [] {
      var init := rows[..|rows| - 1];
      RenderedAppend(rules, turns, init);
      ShowPushAppend(rules, Render(turns), AppendsOf(rules, turns, init), PushRows(rules, turns, init), rows[|rows| - 1]);
    }
  }

  // ---------------------------------------------------------------- trim

  /** Replaying the reported trim on the rendered list gives the trimmed grouping's turns. */
  lemma {:induction false} RenderedTrim(g: Grouping, maxRows: nat)
    ensures ShowTrim(Render(g.turns), TrimResult(g, maxRows)) == Render(TrimModel(g, maxRows).turns)
  {
    hide Flatten, RowTotal, DropCount, Forget;
    var k := DropCount(g.turns, maxRows);
    assert Render(g.turns)[k..] == Render(g.turns[k..]);
  }

  // ---------------------------------------------------------------- prepend

  /**
   When no label has to change, replaying a prepend gives the grouping's turns iff the merged turn
   brought a head or brought no rows: the panel skips the merged rows of a headless turn.
   */
  lemma {:induction false} RenderedPrependIff(rules: TextRules, g: Grouping, records: seq<Record>)
    requires !PrependResult(rules, g, records).needsRerender
    ensures
      var prepend := PrependResult(rules, g, records);
      (ShowPrepend(Render(g.turns), prepend) == Render(PrependModel(rules, g, records).turns)) <==>
      (prepend.mergedHead.Some? || prepend.mergedRows == [])
  {
    var earlier := Batch(rules, records).turns;
    var calls := CallsOf(records) + g.calls;
    NothingToRelabel(rules, calls, MergeTurns(earlier, g.turns));
    hide PushRows, RowsOf, CountsOf, CallsOf, RelabelTurns, MergeTurns, AddCounts, RefsOutside, Render, ShowPrepend;
    if SplitsTurn(earlier, g.turns) {
      NothingToRelabel(rules, calls, earlier[..|earlier| - 1]);
      RenderedMergeIff(earlier, g.turns, PrependResult(rules, g, records));
    } else {
      NothingToRelabel(rules, calls, earlier);
      RenderedBefore(earlier, g.turns, PrependResult(rules, g, records));
    }
  }

  lemma {:induction false} RenderedBefore(earlier: seq<Turn>, resident: seq<Turn>, prepend: TracePrepend)
    requires !SplitsTurn(earlier, resident)
    requires prepend.newTurns == earlier && prepend.mergedHead.None? && prepend.mergedRows == []
    ensures ShowPrepend(Render(resident), prepend) == Render(MergeTurns(earlier, resident))
  {
    assert Render(earlier + resident) == Render(earlier) + Render(resident);
  }

  lemma {:induction false} RenderedMergeIff(earlier: seq<Turn>, resident: seq<Turn>, prepend: TracePrepend)
    requires SplitsTurn(earlier, resident)
    requires prepend.newTurns == earlier[..|earlier| - 1]
    requires prepend.mergedHead == earlier[|earlier| - 1].head && prepend.mergedRows == earlier[|earlier| - 1].rows
    ensures ShowPrepend(Render(resident), prepend) == Render(MergeTurns(earlier, resident))
      <==> prepend.mergedHead.Some? || prepend.mergedRows == []
  {
    var shown, want := ShowPrepend(Render(resident), prepend), Render(MergeTurns(earlier, resident));
    var at := |earlier| - 1;
    assert forall i :: 0 <= i < |want| && i != at ==> shown[i] == want[i];
    assert want[at].rows == prepend.mergedRows + resident[0].rows;
    if prepend.mergedHead.None? && prepend.mergedRows != [] {
      assert |shown[at].rows| < |want[at].rows|;
    } else if prepend.mergedHead.None? {
      assert prepend.mergedRows + resident[0].rows == resident[0].rows;
      assert shown[at] == want[at];
    }
  }

  /** The new turns reported for a prepend are the grouping's own first turns, with the labels they have now. */
  lemma {:induction false} ReportedTurnsAreFirst(rules: TextRules, g: Grouping, records: seq<Record>)
    ensures PrependResult(rules, g, records).newTurns <= PrependModel(rules, g, records).turns
  {
    hide PushRows, CountsOf, AddCounts, RelabelRows;
  }

  /** A page that ends inside a headless resident turn and starts no turn of its own. */
  ghost predicate ContinuesHeadless(rules: TextRules, g: Grouping, records: seq<Record>) {
    && records != [] && g.turns != [] && g.turns[0].head.None?
    && forall record :: record in records ==> !StartsTurn(rules, record)
  }

  /** The same condition on the page itself, which a caller can check before prepending it. */
  lemma {:induction false} RenderedPrependExactly(rules: TextRules, g: Grouping, records: seq<Record>)
    requires !PrependResult(rules, g, records).needsRerender
    ensures
      (ShowPrepend(Render(g.turns), PrependResult(rules, g, records)) == Render(PrependModel(rules, g, records).turns)) <==>
      !ContinuesHeadless(rules, g, records)
  {
    RenderedPrependIff(rules, g, records);
    if records == [] {
      assert Batch(rules, records).turns == [];
    } else {
      StartlessPage(rules, records);
      BatchShape(rules, records);
    }
  }

  /** A page starts no turn iff it groups into a single headless turn. */
  lemma {:induction false} StartlessPage(rules: TextRules, records: seq<Record>)
    requires records != []
    ensures Batch(rules, records).turns != []
    ensures Batch(rules, records).turns[|Batch(rules, records).turns| - 1].head.None? <==>
      (forall record :: record in records ==> !StartsTurn(rules, record))
  {
    var rows := RowsOf(rules, records, CallsOf(records));
    StartlessRows(rules, rows);
    forall record | record in records
      ensures exists i :: 0 <= i < |rows| && rows[i].record == record
    {
      var i :| 0 <= i < |records| && records[i] == record;
      assert rows[i].record == record;
    }
  }

  lemma {:induction false} StartlessRows(rules: TextRules, rows: seq<Row>)
    requires rows != []
    ensures var turns := PushRows(rules, [], rows);
      && turns != []
      && (turns[|turns| - 1].head.None? <==> forall i :: 0 <= i < |rows| ==> !StartsTurn(rules, rows[i].record))
  {
    var init := rows[..|rows| - 1];
    if init == [] {
      assert PushRows(rules, [], init) == [];
    } else {
      StartlessRows(rules, init);
      assert forall i :: 0 <= i < |init| ==> init[i] == rows[i];
    }
  }

  /** Paging a headless turn backward a notice at a time: the earlier notice never reaches the page. */
  lemma {:induction false} HeadlessPrependIsNotShown(rules: TextRules, text: string)
    ensures
      var notice := [Record("", None, false, Notice(text))];
      var g := Batch(rules, notice);
      && !PrependResult(rules, g, notice).needsRerender
      && ShowPrepend(Render(g.turns), PrependResult(rules, g, notice)) != Render(PrependModel(rules, g, notice).turns)
  {
    var notice := [Record("", None, false, Notice(text))];
    var g := Batch(rules, notice);
    assert notice[..0] == [];
    assert CallsOf(notice) == map[];
    BatchShape(rules, notice);
    StartlessPage(rules, notice);
    assert g.turns[0].head.None?;
    RenderedPrependExactly(rules, g, notice);
  }

  // ---------------------------------------------------------------- a whole run of the page

  /** What happens to the window while the panel is visible. */
  datatype Change = Appending(records: seq<Record>) | Prepending(records: seq<Record>) | Trimming(maxRows: nat)

  /** The grouping, and the sections the page shows for it. */
  datatype Shown = Shown(grouping: Grouping, sections: seq<Section>)

  /** The reported change is replayed on the sections; a prepend that changes labels renders them anew. */
  function Show(rules: TextRules, s: Shown, change: Change): Shown {
    match change
    case Appending(records) =>
      Shown(AppendModel(rules, s.grouping, records),
            ShowAppends(s.sections, AppendsOf(rules, s.grouping.turns, RowsOf(rules, records, s.grouping.calls + CallsOf(records)))))
    case Prepending(records) =>
      var after, prepend := PrependModel(rules, s.grouping, records), PrependResult(rules, s.grouping, records);
      Shown(after, if prepend.needsRerender then Render(after.turns) else ShowPrepend(s.sections, prepend))
    case Trimming(maxRows) =>
      Shown(TrimModel(s.grouping, maxRows), ShowTrim(s.sections, TrimResult(s.grouping, maxRows)))
  }

  function ShowAll(rules: TextRules, s: Shown, changes: seq<Change>): Shown {
    if changes == [] then s
    else Show(rules, ShowAll(rules, s, changes[..|changes| - 1]), changes[|changes| - 1])
  }

  predicate Follows(s: Shown) {
    s.sections == Render(s.grouping.turns)
  }

  /** A prepend in place of a page that starts no turn, in front of a headless turn. */
  ghost predicate HidesRows(rules: TextRules, s: Shown, change: Change) {
    && change.Prepending? && !PrependResult(rules, s.grouping, change.records).needsRerender
    && ContinuesHeadless(rules, s.grouping, change.records)
  }

  /** A page that follows its grouping does so after one more change iff that change hides no rows. */
  lemma {:induction false} ShowFollowsIff(rules: TextRules, s: Shown, change: Change)
    requires Follows(s)
    ensures Follows(Show(rules, s, change)) <==> !HidesRows(rules, s, change)
  {
    match change
    case Appending(records) =>
      RenderedAppend(rules, s.grouping.turns, RowsOf(rules, records, s.grouping.calls + CallsOf(records)));
    case Prepending(records) =>
      if !PrependResult(rules, s.grouping, records).needsRerender {
        RenderedPrependExactly(rules, s.grouping, records);
      }
    case Trimming(maxRows) =>
      RenderedTrim(s.grouping, maxRows);
  }

  /** No change of the run hides rows. */
  ghost predicate HidesNothing(rules: TextRules, s: Shown, changes: seq<Change>) {
    changes == [] || (
      && HidesNothing(rules, s, changes[..|changes| - 1])
      && !HidesRows(rules, ShowAll(rules, s, changes[..|changes| - 1]), changes[|changes| - 1]))
  }

  /**
   Over any run of appends, prepends and trims the page follows its grouping all along iff no prepend continues
   a headless turn in place; the first one that does is where it stops.
   */
  lemma {:induction false} PageFollowsIff(rules: TextRules, s: Shown, changes: seq<Change>)
    requires Follows(s)
    ensures
      (forall n: nat :: n <= |changes| ==> Follows(ShowAll(rules, s, changes[..n]))) <==>
      HidesNothing(rules, s, changes)
  {
    hide Follows, Show, HidesRows;
    if changes == [] {
      assert changes[..0] == [];
    } else {
      var before, last := changes[..|changes| - 1], changes[|changes| - 1];
      PageFollowsIff(rules, s, before);
      assert forall n: nat :: n < |changes| ==> changes[..n] == before[..n];
      assert before[..|before|] == before && changes[..|changes|] == changes;
      if Follows(ShowAll(rules, s, before)) {
        ShowFollowsIff(rules, ShowAll(rules, s, before), last);
      }
    }
  }
}
