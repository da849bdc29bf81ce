/**
 The laws of the trace grouping: pages may arrive in any mix of appends and prepends and the result is
 still the grouping of the whole slice. Heads, rows and the call index always are; labels and counts of an
 append under one exact condition (AppendIsBatchIff), labels of a prepend under another (PrependIsBatchIff).
 When every call precedes the records that refer to it, both hold.
 */
module TraceGroupingLaws {
  import opened Options
  import opened TraceRecords
  import opened TraceGroupingModel

  // ---------------------------------------------------------------- concatenation

  lemma {:induction false} CallsConcat(a: seq<Record>, b: seq<Record>)
    ensures CallsOf(a + b) == CallsOf(a) + CallsOf(b)
  {
    if b == [] {
      assert a + b == a;
    } else {
      assert (a + b)[..|a + b| - 1] == a + b[..|b| - 1];
      CallsConcat(a, b[..|b| - 1]);
    }
  }

  lemma {:induction false} RefsConcat(a: seq<Record>, b: seq<Record>, known: CallIndex)
    ensures RefsOutside(a + b, known) == RefsOutside(a, known) + RefsOutside(b, known)
  {
    if b == [] {
      assert a + b == a;
    } else {
      assert (a + b)[..|a + b| - 1] == a + b[..|b| - 1];
      RefsConcat(a, b[..|b| - 1], known);
    }
  }

  lemma {:induction false} PushConcat(rules: TextRules, turns: seq<Turn>, a: seq<Row>, b: seq<Row>)
    ensures PushRows(rules, PushRows(rules, turns, a), b) == PushRows(rules, turns, a + b)
  {
    if b == [] {
      assert a + b == a;
    } else {
      assert (a + b)[..|a + b| - 1] == a + b[..|b| - 1];
      PushConcat(rules, turns, a, b[..|b| - 1]);
    }
  }

  lemma {:induction false} FlattenConcat(a: seq<Turn>, b: seq<Turn>)
    ensures Flatten(a + b) == Flatten(a) + Flatten(b)
  {
    if b == [] {
      assert a + b == a;
    } else {
      assert (a + b)[..|a + b| - 1] == a + b[..|b| - 1];
      FlattenConcat(a, b[..|b| - 1]);
      assert Flatten(a) + (Flatten(b[..|b| - 1]) + TurnRows(b[|b| - 1])) == Flatten(a) + Flatten(b);
    }
  }

  lemma {:induction false} FlattenOne(turn: Turn)
    ensures Flatten([turn]) == TurnRows(turn)
  {
    assert [turn][..0] == [];
  }

  /** What the index holds, said by position: an id has a call iff some record is one with that id. */
  lemma {:induction false} CallsByPosition(records: seq<Record>, id: ToolUseId)
    ensures id in CallsOf(records) <==> exists i :: 0 <= i < |records| && CallId(records[i]) == Some(id)
  {
    if records != [] {
      var before := records[..|records| - 1];
      CallsByPosition(before, id);
      if id in CallsOf(before) {
        var i :| 0 <= i < |before| && CallId(before[i]) == Some(id);
        assert CallId(records[i]) == Some(id);
      }
      if i :| 0 <= i < |records| && CallId(records[i]) == Some(id) && i < |before| {
        assert CallId(before[i]) == Some(id);
      }
    }
  }

  /** The references outside the index, said by position. */
  lemma {:induction false} RefsByPosition(records: seq<Record>, known: CallIndex, id: ToolUseId)
    ensures id in RefsOutside(records, known) <==>
      id !in known && exists i :: 0 <= i < |records| && ReferencedId(records[i]) == Some(id)
  {
    if records != [] {
      hide ReferencedId;
      var before, last := records[..|records| - 1], records[|records| - 1];
      RefsByPosition(before, known, id);
      MentionSnoc(before, last, id);
      assert records == before + [last];
    }
  }

  lemma {:induction false} MentionSnoc(before: seq<Record>, last: Record, id: ToolUseId)
    ensures
      (exists i :: 0 <= i < |before + [last]| && ReferencedId((before + [last])[i]) == Some(id)) <==>
      (ReferencedId(last) == Some(id) || exists i :: 0 <= i < |before| && ReferencedId(before[i]) == Some(id))
  {
    hide ReferencedId;
    var all := before + [last];
    assert all[|before|] == last;
    if i :| 0 <= i < |before| && ReferencedId(before[i]) == Some(id) {
      assert all[i] == before[i];
    }
  }

  /** Learning more calls removes exactly the references to them. */
  lemma {:induction false} RefsKnowing(records: seq<Record>, known: CallIndex, more: CallIndex, id: ToolUseId)
    requires known.Keys <= more.Keys
    ensures RefsOutside(records, more)[id] == if id in more then 0 else RefsOutside(records, known)[id]
  {
    if records != [] {
      RefsKnowing(records[..|records| - 1], known, more, id);
    }
  }

  // ---------------------------------------------------------------- the shape of a grouping

  /** Regrouping loses no row and keeps their order. */
  lemma {:induction false} FlattenPush(rules: TextRules, turns: seq<Turn>, rows: seq<Row>)
    ensures Flatten(PushRows(rules, turns, rows)) == Flatten(turns) + rows
  {
    hide Flatten, PushRow;
    if rows != [] {
      var before := PushRows(rules, turns, rows[..|rows| - 1]);
      FlattenPush(rules, turns, rows[..|rows| - 1]);
      var row := rows[|rows| - 1];
      FlattenPushRow(rules, before, row);
      assert rows == rows[..|rows| - 1] + [row];
    }
  }

  lemma {:induction false} FlattenPushRow(rules: TextRules, turns: seq<Turn>, row: Row)
    ensures Flatten(PushRow(rules, turns, row)) == Flatten(turns) + [row]
  {
    var after := PushRow(rules, turns, row);
    if StartsTurn(rules, row.record) {
      assert after[..|after| - 1] == turns;
    } else if turns == [] {
      FlattenOne(after[0]);
    } else {
      assert after[..|after| - 1] == turns[..|turns| - 1];
      assert TurnRows(after[|after| - 1]) == TurnRows(turns[|turns| - 1]) + [row];
    }
  }

  /** A grouping made by pushing rows: only the first turn may lack a head, heads start turns and rows do not. */
  ghost predicate WellShaped(rules: TextRules, turns: seq<Turn>) {
    && (forall i :: 0 < i < |turns| ==> turns[i].head.Some?)
    && (forall i :: 0 <= i < |turns| && turns[i].head.Some? ==> StartsTurn(rules, turns[i].head.value.record))
    && (forall i :: 0 <= i < |turns| && turns[i].head.None? && !turns[i].hasTrimmedRows ==> turns[i].rows != [])
    && (forall i, j :: 0 <= i < |turns| && 0 <= j < |turns[i].rows| ==> !StartsTurn(rules, turns[i].rows[j].record))
  }

  ghost predicate Untrimmed(turns: seq<Turn>) {
    forall i :: 0 <= i < |turns| ==> !turns[i].hasTrimmedRows
  }

  lemma {:induction false} PushKeepsShape(rules: TextRules, turns: seq<Turn>, rows: seq<Row>)
    requires WellShaped(rules, turns)
    ensures WellShaped(rules, PushRows(rules, turns, rows))
    ensures Untrimmed(turns) ==> Untrimmed(PushRows(rules, turns, rows))
    ensures |turns| <= |PushRows(rules, turns, rows)|
  {
    hide WellShaped, Untrimmed, PushRow;
    if rows != [] {
      PushKeepsShape(rules, turns, rows[..|rows| - 1]);
      PushOneKeepsShape(rules, PushRows(rules, turns, rows[..|rows| - 1]), rows[|rows| - 1]);
    }
  }

  lemma {:induction false} PushOneKeepsShape(rules: TextRules, turns: seq<Turn>, row: Row)
    requires WellShaped(rules, turns)
    ensures WellShaped(rules, PushRow(rules, turns, row))
    ensures Untrimmed(turns) ==> Untrimmed(PushRow(rules, turns, row))
    ensures |turns| <= |PushRow(rules, turns, row)|
  {
  }

  /** The grouping of a slice holds exactly its records, in order. */
  lemma {:induction false} BatchRecords(rules: TextRules, records: seq<Record>)
    ensures RecordsOf(Flatten(Batch(rules, records).turns)) == records
  {
    var rows := RowsOf(rules, records, CallsOf(records));
    FlattenPush(rules, [], rows);
    assert Flatten([]) + rows == rows;
  }

  lemma {:induction false} BatchShape(rules: TextRules, records: seq<Record>)
    ensures WellShaped(rules, Batch(rules, records).turns) && Untrimmed(Batch(rules, records).turns)
  {
    PushKeepsShape(rules, [], RowsOf(rules, records, CallsOf(records)));
  }

  /** Only a slice that does not begin with a turn's start has a headless turn, and only one, the first. */
  lemma {:induction false} HeadlessTurns(rules: TextRules, records: seq<Record>, i: nat)
    requires i < |Batch(rules, records).turns|
    ensures Batch(rules, records).turns[i].head.None? <==> i == 0 && !StartsTurn(rules, records[0])
  {
    BatchShape(rules, records);
    BatchRecords(rules, records);
    var turns := Batch(rules, records).turns;
    hide Batch, PushRows, RowsOf, CallsOf, RefsOutside;
    FirstRow(turns);
    assert RecordsOf(Flatten(turns))[0] == records[0];
  }

  lemma {:induction false} FirstRow(turns: seq<Turn>)
    requires turns != [] && TurnRows(turns[0]) != []
    ensures Flatten(turns) != [] && Flatten(turns)[0] == TurnRows(turns[0])[0]
  {
    FlattenConcat([turns[0]], turns[1..]);
    FlattenOne(turns[0]);
    assert turns == [turns[0]] + turns[1..];
  }

  // ---------------------------------------------------------------- append

  /** No record of `a` refers to a call that arrives only in `b`, or is defined again there. */
  ghost predicate NoLateCall(a: seq<Record>, b: seq<Record>) {
    forall i, j :: 0 <= i < |a| && 0 <= j < |b| && ReferencedId(a[i]).Some? ==> ReferencedId(a[i]) != CallId(b[j])
  }

  /** Every call precedes the records that refer to it. */
  ghost predicate CallsPrecede(log: seq<Record>) {
    forall i, j :: 0 <= i < j < |log| && ReferencedId(log[i]).Some? ==> ReferencedId(log[i]) != CallId(log[j])
  }

  ghost predicate UniqueCalls(log: seq<Record>) {
    forall i, j :: 0 <= i < j < |log| && CallId(log[i]).Some? ==> CallId(log[i]) != CallId(log[j])
  }

  lemma {:induction false} PrecedeSplits(a: seq<Record>, b: seq<Record>)
    requires CallsPrecede(a + b)
    ensures NoLateCall(a, b) && CallsPrecede(a) && CallsPrecede(b)
  {
    var log := a + b;
    forall i, j | 0 <= i < |a| && 0 <= j < |b| && ReferencedId(a[i]).Some?
      ensures ReferencedId(a[i]) != CallId(b[j])
    {
      assert log[i] == a[i] && log[|a| + j] == b[j];
    }
    forall i, j | 0 <= i < j < |b| && ReferencedId(b[i]).Some?
      ensures ReferencedId(b[i]) != CallId(b[j])
    {
      assert log[|a| + i] == b[i] && log[|a| + j] == b[j];
    }
    forall i, j | 0 <= i < j < |a| && ReferencedId(a[i]).Some?
      ensures ReferencedId(a[i]) != CallId(a[j])
    {
      assert log[i] == a[i] && log[j] == a[j];
    }
  }

  lemma {:induction false} CountsSum(p: multiset<ToolUseId>, q: multiset<ToolUseId>)
    ensures AddCounts(CountsOf(p), q) == CountsOf(p + q)
  {
  }

  /**
   Every resident record that refers to a call of the new page refers to one that was resident before, and
   keeps its label.
   */
  ghost predicate KeepsResident(rules: TextRules, a: seq<Record>, b: seq<Record>) {
    var known, page := CallsOf(a), CallsOf(b);
    forall i :: 0 <= i < |a| && ReferencedId(a[i]).Some? && ReferencedId(a[i]).value in page ==>
      && ReferencedId(a[i]).value in known
      && RowOf(rules, a[i], known) == RowOf(rules, a[i], page)
  }

  lemma {:induction false} SameLookup(rules: TextRules, record: Record, calls: CallIndex, others: CallIndex)
    requires Lookup(calls, ReferencedId(record)) == Lookup(others, ReferencedId(record))
    ensures RowOf(rules, record, calls) == RowOf(rules, record, others)
  {
  }

  /** The rows and references of a slice are those with more calls known iff its records keep their calls and labels. */
  lemma {:induction false} KeepsResidentIff(rules: TextRules, a: seq<Record>, b: seq<Record>)
    ensures
      var known, more := CallsOf(a), CallsOf(a) + CallsOf(b);
      (RowsOf(rules, a, known) == RowsOf(rules, a, more) && RefsOutside(a, known) == RefsOutside(a, more)) <==>
      KeepsResident(rules, a, b)
  {
    hide RowOf;
    var known, page, more := CallsOf(a), CallsOf(b), CallsOf(a) + CallsOf(b);
    forall i | 0 <= i < |a|
      ensures
        var id := ReferencedId(a[i]);
        RowOf(rules, a[i], more) == RowOf(rules, a[i], if id.Some? && id.value in page then page else known)
    {
      var id := ReferencedId(a[i]);
      SameLookup(rules, a[i], more, if id.Some? && id.value in page then page else known);
    }
    forall id: ToolUseId
      ensures RefsOutside(a, more)[id] == if id in more then 0 else RefsOutside(a, known)[id]
      ensures id in RefsOutside(a, known) <==>
        id !in known && exists i :: 0 <= i < |a| && ReferencedId(a[i]) == Some(id)
    {
      RefsKnowing(a, known, more, id);
      RefsByPosition(a, known, id);
    }
    RowsAgree(rules, a, known, more);
    if RefsOutside(a, known) == RefsOutside(a, more) {
      forall i | 0 <= i < |a| && ReferencedId(a[i]).Some? && ReferencedId(a[i]).value in page
        ensures ReferencedId(a[i]).value in known
      {
      }
    }
  }

  lemma {:induction false} RowsAgree(rules: TextRules, a: seq<Record>, known: CallIndex, more: CallIndex)
    ensures RowsOf(rules, a, known) == RowsOf(rules, a, more) <==>
      forall i :: 0 <= i < |a| ==> RowOf(rules, a[i], known) == RowOf(rules, a[i], more)
  {
    hide RowOf;
    var p, q := RowsOf(rules, a, known), RowsOf(rules, a, more);
    if p == q {
      forall i | 0 <= i < |a|
        ensures RowOf(rules, a[i], known) == RowOf(rules, a[i], more)
      {
        assert p[i] == q[i];
      }
    }
  }

  /** On any log: appending a page agrees with regrouping iff no resident record gains a call or changes its label. */
  lemma {:induction false} AppendIsBatchIff(rules: TextRules, a: seq<Record>, b: seq<Record>)
    ensures AppendModel(rules, Batch(rules, a), b) == Batch(rules, a + b) <==> KeepsResident(rules, a, b)
  {
    var calls := CallsOf(a) + CallsOf(b);
    var was, now, page := RowsOf(rules, a, CallsOf(a)), RowsOf(rules, a, calls), RowsOf(rules, b, calls);
    hide PushRows, RowOf, AddCounts, CountsOf, RefsOutside, CallsOf, KeepsResident;
    CallsConcat(a, b);
    KeepsResidentIff(rules, a, b);
    RefsConcat(a, b, calls);
    assert RowsOf(rules, a + b, calls) == now + page;
    PushedRowsDiffer(rules, was, now, page);
    AppendCounts(RefsOutside(a, CallsOf(a)), RefsOutside(a, calls), RefsOutside(b, calls));
  }

  lemma {:induction false} NoLateCallMeans(a: seq<Record>, b: seq<Record>)
    requires NoLateCall(a, b)
    ensures forall i :: 0 <= i < |a| && ReferencedId(a[i]).Some? ==> ReferencedId(a[i]).value !in CallsOf(b)
  {
    forall i | 0 <= i < |a| && ReferencedId(a[i]).Some?
      ensures ReferencedId(a[i]).value !in CallsOf(b)
    {
      CallsByPosition(b, ReferencedId(a[i]).value);
    }
  }

  /** In particular when no resident record refers to a call of the page. */
  lemma {:induction false} AppendIsBatch(rules: TextRules, a: seq<Record>, b: seq<Record>)
    requires NoLateCall(a, b)
    ensures AppendModel(rules, Batch(rules, a), b) == Batch(rules, a + b)
  {
    hide AppendModel, Batch, RowOf;
    NoLateCallMeans(a, b);
    AppendIsBatchIff(rules, a, b);
  }

  /** With unique call ids that is: no call arrives after a record that refers to it. */
  lemma {:induction false} UniqueKeepsResidentIff(rules: TextRules, a: seq<Record>, b: seq<Record>)
    requires UniqueCalls(a + b)
    ensures KeepsResident(rules, a, b) <==> NoLateCall(a, b)
  {
    hide RowOf;
    forall i | 0 <= i < |a| && ReferencedId(a[i]).Some?
      ensures ReferencedId(a[i]).value in CallsOf(b) <==>
        exists j :: 0 <= j < |b| && ReferencedId(a[i]) == CallId(b[j])
      ensures ReferencedId(a[i]).value in CallsOf(b) ==> ReferencedId(a[i]).value !in CallsOf(a)
    {
      var id := ReferencedId(a[i]).value;
      CallsByPosition(b, id);
      if id in CallsOf(b) {
        var j :| 0 <= j < |b| && CallId(b[j]) == Some(id);
        UniqueApart(a, b, j);
      }
    }
  }

  /** Grouping tells rows apart: rows appended to others group as these do iff the first ones are the same. */
  lemma {:induction false} PushedRowsDiffer(rules: TextRules, was: seq<Row>, now: seq<Row>, page: seq<Row>)
    requires |was| == |now|
    ensures
      (PushRows(rules, PushRows(rules, [], was), page) == PushRows(rules, [], now + page)) <==>
      was == now
  {
    PushConcat(rules, [], was, page);
    FlattenPush(rules, [], was + page);
    FlattenPush(rules, [], now + page);
    hide PushRows;
    assert [] + (was + page) == was + page && [] + (now + page) == now + page;
    assert was == (was + page)[..|was|] && now == (now + page)[..|now|];
  }

  lemma {:induction false} AppendCounts(was: multiset<ToolUseId>, now: multiset<ToolUseId>, page: multiset<ToolUseId>)
    ensures AddCounts(CountsOf(was), page) == CountsOf(now + page) <==> was == now
  {
    CountsSum(was, page);
    if CountsOf(was + page) == CountsOf(now + page) {
      forall id: ToolUseId
        ensures was[id] == now[id]
      {
        assert id in CountsOf(was + page) <==> id in was + page;
        assert id in CountsOf(now + page) <==> id in now + page;
        assert (was + page)[id] == was[id] + page[id] && (now + page)[id] == now[id] + page[id];
      }
    }
  }

  lemma {:induction false} UniqueApart(a: seq<Record>, b: seq<Record>, j: nat)
    requires UniqueCalls(a + b)
    requires j < |b| && CallId(b[j]).Some?
    ensures CallId(b[j]).value !in CallsOf(a)
  {
    forall k | 0 <= k < |a|
      ensures CallId(a[k]) != CallId(b[j])
    {
      assert (a + b)[k] == a[k] && (a + b)[|a| + j] == b[j];
    }
    CallsByPosition(a, CallId(b[j]).value);
  }

  lemma {:induction false} LateCallStaysUnresolved(rules: TextRules, a: seq<Record>, b: seq<Record>, i: nat, j: nat)
    requires UniqueCalls(a + b)
    requires i < |a| && j < |b| && ReferencedId(a[i]).Some? && ReferencedId(a[i]) == CallId(b[j])
    ensures ReferencedId(a[i]).value in AppendModel(rules, Batch(rules, a), b).unresolved
    ensures ReferencedId(a[i]).value !in Batch(rules, a + b).unresolved
  {
    var id := ReferencedId(a[i]).value;
    CallsByPosition(b, id);
    CallsConcat(a, b);
    UniqueApart(a, b, j);
    RefsByPosition(a, CallsOf(a), id);
    RefsByPosition(a + b, CallsOf(a + b), id);
  }

  // ---------------------------------------------------------------- prepend

  lemma {:induction false} MergePush(rules: TextRules, earlier: seq<Turn>, resident: seq<Turn>, row: Row)
    requires Untrimmed(earlier)
    ensures MergeTurns(earlier, PushRow(rules, resident, row)) == PushRow(rules, MergeTurns(earlier, resident), row)
  {
    if resident == [] || StartsTurn(rules, row.record) {
    } else if |resident| == 1 && SplitsTurn(earlier, resident) {
      var cut := earlier[|earlier| - 1];
      assert cut.rows + (resident[0].rows + [row]) == cut.rows + resident[0].rows + [row];
    } else if SplitsTurn(earlier, resident) {
    } else {
    }
  }

  /** Grouping two pages apart and merging them at the boundary is grouping them as one. */
  lemma {:induction false} MergeIsRegroup(rules: TextRules, a: seq<Row>, b: seq<Row>)
    ensures MergeTurns(PushRows(rules, [], a), PushRows(rules, [], b)) == PushRows(rules, [], a + b)
  {
    if b == [] {
      assert a + b == a;
    } else {
      assert (a + b)[..|a + b| - 1] == a + b[..|b| - 1];
      MergeIsRegroup(rules, a, b[..|b| - 1]);
      PushKeepsShape(rules, [], a);
      MergePush(rules, PushRows(rules, [], a), PushRows(rules, [], b[..|b| - 1]), b[|b| - 1]);
    }
  }

  /** Relabelling rows and grouping them commute: heads refer to no call. */
  lemma {:induction false} RelabelIsRegroup(rules: TextRules, ids: set<ToolUseId>, calls: CallIndex, rows: seq<Row>)
    ensures RelabelTurns(rules, ids, calls, PushRows(rules, [], rows))
         == PushRows(rules, [], RelabelRows(rules, ids, calls, rows))
  {
    if rows != [] {
      var init, last := rows[..|rows| - 1], rows[|rows| - 1];
      RelabelIsRegroup(rules, ids, calls, init);
      RelabelPush(rules, ids, calls, PushRows(rules, [], init), last);
      var relabelled := RelabelRows(rules, ids, calls, rows);
      assert relabelled[..|relabelled| - 1] == RelabelRows(rules, ids, calls, init);
    }
  }

  lemma {:induction false} NothingToRelabel(rules: TextRules, calls: CallIndex, turns: seq<Turn>)
    ensures RelabelTurns(rules, {}, calls, turns) == turns
  {
    forall i | 0 <= i < |turns|
      ensures RelabelTurns(rules, {}, calls, turns)[i] == turns[i]
    {
      assert RelabelRows(rules, {}, calls, turns[i].rows) == turns[i].rows;
    }
  }

  lemma {:induction false} RelabelPush(
      rules: TextRules, ids: set<ToolUseId>, calls: CallIndex, turns: seq<Turn>, row: Row)
    ensures RelabelTurns(rules, ids, calls, PushRow(rules, turns, row))
         == PushRow(rules, RelabelTurns(rules, ids, calls, turns), RelabelRow(rules, ids, calls, row))
  {
    if StartsTurn(rules, row.record) {
      assert RelabelRows(rules, ids, calls, []) == [];
    } else if turns == [] {
      assert RelabelRows(rules, ids, calls, [row]) == [RelabelRow(rules, ids, calls, row)];
    } else {
      var last := turns[|turns| - 1];
      assert RelabelRows(rules, ids, calls, last.rows + [row])
          == RelabelRows(rules, ids, calls, last.rows) + [RelabelRow(rules, ids, calls, row)];
    }
  }

  /** The ids that a page before `b` resolves in the grouping of `b`. */
  ghost function Resolved(a: seq<Record>, b: seq<Record>): set<ToolUseId> {
    ResolvedBy(CallsOf(a), CallsOf(b), CountsOf(RefsOutside(b, CallsOf(b))))
  }

  lemma {:induction false} RelabelledLater(rules: TextRules, a: seq<Record>, b: seq<Record>, i: nat)
    requires i < |b|
    ensures var calls := CallsOf(a) + CallsOf(b);
      RelabelRow(rules, Resolved(a, b), calls, RowOf(rules, b[i], CallsOf(b))) == RowOf(rules, b[i], calls)
  {
    var id := ReferencedId(b[i]);
    if id.Some? {
      RefsByPosition(b, CallsOf(b), id.value);
    }
  }

  lemma {:induction false} RelabelledConcat(rules: TextRules, ids: set<ToolUseId>, calls: CallIndex,
    p: seq<Row>, q: seq<Row>, a: seq<Record>, b: seq<Record>)
    requires |p| == |a| && |q| == |b|
    requires forall i :: 0 <= i < |a| ==> RelabelRow(rules, ids, calls, p[i]) == RowOf(rules, a[i], calls)
    requires forall i :: 0 <= i < |b| ==> RelabelRow(rules, ids, calls, q[i]) == RowOf(rules, b[i], calls)
    ensures RelabelRows(rules, ids, calls, p + q) == RowsOf(rules, a + b, calls)
  {
  }

  lemma {:induction false} PrependCounts(a: seq<Record>, b: seq<Record>)
    ensures AddCounts(
        CountsOf(RefsOutside(b, CallsOf(b))) - (CallsOf(a).Keys - CallsOf(b).Keys),
        RefsOutside(a, CallsOf(a) + CallsOf(b)))
      == CountsOf(RefsOutside(a + b, CallsOf(a) + CallsOf(b)))
  {
    hide RefsOutside, CallsOf, AddCounts, CountsOf;
    var calls := CallsOf(a) + CallsOf(b);
    RefsConcat(a, b, calls);
    var was, now := RefsOutside(b, CallsOf(b)), RefsOutside(b, calls);
    forall id: ToolUseId
      ensures now[id] == if id in calls then 0 else was[id]
      ensures id in CallsOf(b) ==> id !in was
    {
      RefsKnowing(b, CallsOf(b), calls, id);
      RefsKnowing(b, CallsOf(b), CallsOf(b), id);
    }
    KnownCallsLeave(was, now, CallsOf(a), CallsOf(b));
    assert RefsOutside(a, calls) + now == now + RefsOutside(a, calls);
    CountsSum(now, RefsOutside(a, calls));
  }

  lemma {:induction false} KnownCallsLeave(
      was: multiset<ToolUseId>, now: multiset<ToolUseId>, page: CallIndex, calls: CallIndex)
    requires forall id: ToolUseId :: now[id] == if id in page + calls then 0 else was[id]
    requires forall id :: id in calls ==> id !in was
    ensures CountsOf(was) - (page.Keys - calls.Keys) == CountsOf(now)
  {
  }

  lemma {:induction false} PrependTurns(rules: TextRules, a: seq<Record>, b: seq<Record>)
    ensures PrependModel(rules, Batch(rules, b), a).turns
      == PushRows(rules, [], RelabelRows(rules, Resolved(a, b), CallsOf(a) + CallsOf(b),
           RowsOf(rules, a, CallsOf(a)) + RowsOf(rules, b, CallsOf(b))))
  {
    var rowsA, rowsB := RowsOf(rules, a, CallsOf(a)), RowsOf(rules, b, CallsOf(b));
    MergeIsRegroup(rules, rowsA, rowsB);
    RelabelIsRegroup(rules, Resolved(a, b), CallsOf(a) + CallsOf(b), rowsA + rowsB);
  }

  /** Every record of the page that refers to a resident call has the label it would have with that call. */
  ghost predicate KeepsPage(rules: TextRules, a: seq<Record>, b: seq<Record>) {
    var page, resident := CallsOf(a), CallsOf(b);
    forall i :: 0 <= i < |a| && ReferencedId(a[i]).Some? && ReferencedId(a[i]).value in resident ==>
      RowOf(rules, a[i], page) == RowOf(rules, a[i], resident)
  }

  lemma {:induction false} RelabelledPageRow(rules: TextRules, a: seq<Record>, b: seq<Record>, i: nat)
    requires i < |a|
    ensures
      var page, resident, calls, id := CallsOf(a), CallsOf(b), CallsOf(a) + CallsOf(b), ReferencedId(a[i]);
      (RelabelRow(rules, Resolved(a, b), calls, RowOf(rules, a[i], page)) == RowOf(rules, a[i], calls)) <==>
      (id.Some? && id.value in resident ==> RowOf(rules, a[i], page) == RowOf(rules, a[i], resident))
  {
    var page, resident, calls, id := CallsOf(a), CallsOf(b), CallsOf(a) + CallsOf(b), ReferencedId(a[i]);
    if id.Some? && id.value in resident {
      SameLookup(rules, a[i], calls, resident);
    } else {
      SameLookup(rules, a[i], calls, page);
    }
  }

  lemma {:induction false} RelabelledRowsIff(rules: TextRules, a: seq<Record>, b: seq<Record>)
    ensures
      var calls := CallsOf(a) + CallsOf(b);
      (RelabelRows(rules, Resolved(a, b), calls, RowsOf(rules, a, CallsOf(a)) + RowsOf(rules, b, CallsOf(b)))
        == RowsOf(rules, a + b, calls)) <==>
      KeepsPage(rules, a, b)
  {
    var calls, ids := CallsOf(a) + CallsOf(b), Resolved(a, b);
    var p, q := RowsOf(rules, a, CallsOf(a)), RowsOf(rules, b, CallsOf(b));
    hide RowOf, Resolved, RelabelRow, CallsOf;
    forall i | 0 <= i < |a|
      ensures (RelabelRow(rules, ids, calls, p[i]) == RowOf(rules, a[i], calls)) <==>
        (ReferencedId(a[i]).Some? && ReferencedId(a[i]).value in CallsOf(b) ==>
          RowOf(rules, a[i], CallsOf(a)) == RowOf(rules, a[i], CallsOf(b)))
    {
      RelabelledPageRow(rules, a, b, i);
    }
    forall i | 0 <= i < |b|
      ensures RelabelRow(rules, ids, calls, q[i]) == RowOf(rules, b[i], calls)
    {
      RelabelledLater(rules, a, b, i);
    }
    RelabelledConcatIff(rules, ids, calls, p, q, a, b);
  }

  lemma {:induction false} RelabelledConcatIff(rules: TextRules, ids: set<ToolUseId>, calls: CallIndex,
    p: seq<Row>, q: seq<Row>, a: seq<Record>, b: seq<Record>)
    requires |p| == |a| && |q| == |b|
    requires forall i :: 0 <= i < |b| ==> RelabelRow(rules, ids, calls, q[i]) == RowOf(rules, b[i], calls)
    ensures
      RelabelRows(rules, ids, calls, p + q) == RowsOf(rules, a + b, calls) <==>
      forall i :: 0 <= i < |a| ==> RelabelRow(rules, ids, calls, p[i]) == RowOf(rules, a[i], calls)
  {
    hide RowOf, RelabelRow;
    if forall i :: 0 <= i < |a| ==> RelabelRow(rules, ids, calls, p[i]) == RowOf(rules, a[i], calls) {
      RelabelledConcat(rules, ids, calls, p, q, a, b);
    } else {
      var i :| 0 <= i < |a| && RelabelRow(rules, ids, calls, p[i]) != RowOf(rules, a[i], calls);
      assert RelabelRows(rules, ids, calls, p + q)[i] != RowsOf(rules, a + b, calls)[i];
    }
  }

  /**
   On any log: prepending a page agrees with regrouping iff no record of the page refers to a resident call
   that would change its label. The call index and the counts need no condition.
   */
  lemma {:induction false} PrependIsBatchIff(rules: TextRules, a: seq<Record>, b: seq<Record>)
    ensures PrependModel(rules, Batch(rules, b), a) == Batch(rules, a + b) <==> KeepsPage(rules, a, b)
    ensures PrependModel(rules, Batch(rules, b), a).calls == Batch(rules, a + b).calls
    ensures PrependModel(rules, Batch(rules, b), a).unresolved == Batch(rules, a + b).unresolved
  {
    CallsConcat(a, b);
    PrependTurns(rules, a, b);
    PrependCounts(a, b);
    RelabelledRowsIff(rules, a, b);
    var calls := CallsOf(a) + CallsOf(b);
    var relabelled := RelabelRows(rules, Resolved(a, b), calls, RowsOf(rules, a, CallsOf(a)) + RowsOf(rules, b, CallsOf(b)));
    SameRowsIff(rules, relabelled, RowsOf(rules, a + b, calls));
  }

  lemma {:induction false} SameRowsIff(rules: TextRules, p: seq<Row>, q: seq<Row>)
    ensures PushRows(rules, [], p) == PushRows(rules, [], q) <==> p == q
  {
    FlattenPush(rules, [], p);
    FlattenPush(rules, [], q);
    assert [] + p == p && [] + q == q;
  }

  /** In particular when no record of the page refers to a resident call. */
  lemma {:induction false} PrependIsBatch(rules: TextRules, a: seq<Record>, b: seq<Record>)
    requires NoLateCall(a, b)
    ensures PrependModel(rules, Batch(rules, b), a) == Batch(rules, a + b)
  {
    hide PrependModel, Batch, RowOf;
    NoLateCallMeans(a, b);
    PrependIsBatchIff(rules, a, b);
  }

  /** A result whose call is resident already, prepended: its label stays without the call's name. */
  lemma {:induction false} EarlyResultKeepsLabel(rules: TextRules, id: ToolUseId, call: Call)
    requires call.name != "Tool"
    ensures
      var page, resident := [Record("", None, false, ToolResult(id, "", false))], [Record("", None, false, ToolCall(id, call))];
      PrependModel(rules, Batch(rules, resident), page) != Batch(rules, page + resident)
  {
    var page, resident := [Record("", None, false, ToolResult(id, "", false))], [Record("", None, false, ToolCall(id, call))];
    OneCall(page[0]);
    OneCall(resident[0]);
    hide PrependModel, Batch, RowOf, CallsOf;
    LabelsTell(rules, page[0], id, call);
    PrependIsBatchIff(rules, page, resident);
    assert !KeepsPage(rules, page, resident) by {
      assert ReferencedId(page[0]) == Some(id);
    }
  }

  lemma {:induction false} OneCall(record: Record)
    ensures CallsOf([record]) == if record.body.ToolCall? then map[record.body.useId := record.body.call] else map[]
  {
    assert [record][..0] == [];
    assert CallsOf([]) == map[];
  }

  lemma {:induction false} LabelsTell(rules: TextRules, record: Record, id: ToolUseId, call: Call)
    requires record == Record("", None, false, ToolResult(id, "", false)) && call.name != "Tool"
    ensures RowOf(rules, record, map[]) != RowOf(rules, record, map[id := call])
  {
    var tail := " result: " + rules.byteCount("") + " bytes";
    var without, with := Label(rules, record, None), Label(rules, record, Some(call));
    assert without == "Tool" + tail && with == call.name + tail;
    assert without[..4] == "Tool" && with[..|call.name|] == call.name;
  }

  // ---------------------------------------------------------------- heads and rows, for any log

  datatype TurnRecords = TurnRecords(head: Option<Record>, rows: seq<Record>)

  function ShapeOf(turns: seq<Turn>): (shape: seq<TurnRecords>)
    ensures |shape| == |turns|
    ensures forall i :: 0 <= i < |turns| ==> shape[i] == TurnShape(turns[i])
  {
    seq(|turns|, i requires 0 <= i < |turns| => TurnShape(turns[i]))
  }

  function TurnShape(turn: Turn): TurnRecords {
    TurnRecords(if turn.head.Some? then Some(turn.head.value.record) else None, RecordsOf(turn.rows))
  }

  function PushRecords(rules: TextRules, turns: seq<TurnRecords>, records: seq<Record>): seq<TurnRecords> {
    if records == [] then turns
    else
      var record := records[|records| - 1];
      var before := PushRecords(rules, turns, records[..|records| - 1]);
      if StartsTurn(rules, record) then before + [TurnRecords(Some(record), [])]
      else if before == [] then [TurnRecords(None, [record])]
      else before[|before| - 1 := before[|before| - 1].(rows := before[|before| - 1].rows + [record])]
  }

  /** The slice cut before each record that starts a turn. */
  function GroupRecords(rules: TextRules, records: seq<Record>): seq<TurnRecords> {
    PushRecords(rules, [], records)
  }

  lemma {:induction false} ShapeOfPush(rules: TextRules, turns: seq<Turn>, rows: seq<Row>)
    ensures ShapeOf(PushRows(rules, turns, rows)) == PushRecords(rules, ShapeOf(turns), RecordsOf(rows))
  {
    if rows != [] {
      var init, last := rows[..|rows| - 1], rows[|rows| - 1];
      ShapeOfPush(rules, turns, init);
      assert RecordsOf(rows)[..|rows| - 1] == RecordsOf(init);
      ShapeOfPushRow(rules, PushRows(rules, turns, init), last);
    }
  }

  lemma {:induction false} ShapeOfPushRow(rules: TextRules, turns: seq<Turn>, row: Row)
    ensures
      var shape, after := ShapeOf(turns), ShapeOf(PushRow(rules, turns, row));
      if StartsTurn(rules, row.record) then after == shape + [TurnRecords(Some(row.record), [])]
      else if turns == [] then after == [TurnRecords(None, [row.record])]
      else after == shape[|shape| - 1 := shape[|shape| - 1].(rows := shape[|shape| - 1].rows + [row.record])]
  {
    if StartsTurn(rules, row.record) {
      assert RecordsOf([]) == [];
    } else if turns == [] {
      assert RecordsOf([row]) == [row.record];
    } else {
      var last := turns[|turns| - 1];
      assert RecordsOf(last.rows + [row]) == RecordsOf(last.rows) + [row.record];
    }
  }

  lemma {:induction false} PushRecordsConcat(rules: TextRules, turns: seq<TurnRecords>, a: seq<Record>, b: seq<Record>)
    ensures PushRecords(rules, PushRecords(rules, turns, a), b) == PushRecords(rules, turns, a + b)
  {
    if b == [] {
      assert a + b == a;
    } else {
      assert (a + b)[..|a + b| - 1] == a + b[..|b| - 1];
      PushRecordsConcat(rules, turns, a, b[..|b| - 1]);
    }
  }

  /** Whatever the log holds and however its rows are labelled, appending a page gives the turns of the joined slice. */
  lemma {:induction false} AppendShape(rules: TextRules, g: Grouping, a: seq<Record>, b: seq<Record>)
    requires ShapeOf(g.turns) == GroupRecords(rules, a)
    ensures ShapeOf(AppendModel(rules, g, b).turns) == GroupRecords(rules, a + b)
  {
    var rows := RowsOf(rules, b, g.calls + CallsOf(b));
    ShapeOfPush(rules, g.turns, rows);
    assert RecordsOf(rows) == b;
    PushRecordsConcat(rules, [], a, b);
  }

  function MergeRecords(earlier: seq<TurnRecords>, resident: seq<TurnRecords>): seq<TurnRecords> {
    if earlier != [] && resident != [] && resident[0].head.None? then
      var cut := earlier[|earlier| - 1];
      earlier[..|earlier| - 1] + [TurnRecords(cut.head, cut.rows + resident[0].rows)] + resident[1..]
    else earlier + resident
  }

  lemma {:induction false} MergeShape(p: seq<Turn>, q: seq<Turn>)
    ensures ShapeOf(MergeTurns(p, q)) == MergeRecords(ShapeOf(p), ShapeOf(q))
  {
    var merged, shape := MergeTurns(p, q), MergeRecords(ShapeOf(p), ShapeOf(q));
    if SplitsTurn(p, q) {
      assert RecordsOf(p[|p| - 1].rows + q[0].rows) == RecordsOf(p[|p| - 1].rows) + RecordsOf(q[0].rows);
      hide RecordsOf;
      assert forall i :: 0 <= i < |p| - 1 ==> TurnShape(merged[i]) == shape[i];
      assert TurnShape(merged[|p| - 1]) == shape[|p| - 1];
      assert forall i :: |p| <= i < |merged| ==> TurnShape(merged[i]) == shape[i];
    } else {
      hide TurnShape;
      assert merged == p + q;
    }
    assert ShapeOf(merged) == shape;
  }

  /** On records alone: cutting two pages into turns and merging at the boundary is cutting the joined slice. */
  lemma {:induction false} MergeGroups(rules: TextRules, a: seq<Record>, b: seq<Record>)
    ensures MergeRecords(GroupRecords(rules, a), GroupRecords(rules, b)) == GroupRecords(rules, a + b)
  {
    hide PushRows, MergeTurns, MergeRecords, GroupRecords;
    var rowsA, rowsB := RowsOf(rules, a, map[]), RowsOf(rules, b, map[]);
    GroupsTo(rules, rowsA, a);
    GroupsTo(rules, rowsB, b);
    MergeShape(PushRows(rules, [], rowsA), PushRows(rules, [], rowsB));
    MergeIsRegroup(rules, rowsA, rowsB);
    GroupsTo(rules, rowsA + rowsB, a + b);
  }

  lemma {:induction false} RelabelShape(rules: TextRules, ids: set<ToolUseId>, calls: CallIndex, turns: seq<Turn>)
    ensures ShapeOf(RelabelTurns(rules, ids, calls, turns)) == ShapeOf(turns)
  {
    forall i | 0 <= i < |turns|
      ensures TurnShape(RelabelTurns(rules, ids, calls, turns)[i]) == TurnShape(turns[i])
    {
      assert RecordsOf(RelabelRows(rules, ids, calls, turns[i].rows)) == RecordsOf(turns[i].rows);
    }
  }

  /** Whatever the log holds and however its rows are labelled, prepending a page gives the turns of the joined slice. */
  lemma {:induction false} PrependShape(rules: TextRules, g: Grouping, a: seq<Record>, b: seq<Record>)
    requires ShapeOf(g.turns) == GroupRecords(rules, b)
    ensures ShapeOf(PrependModel(rules, g, a).turns) == GroupRecords(rules, a + b)
  {
    var earlier := Batch(rules, a).turns;
    var merged := MergeTurns(earlier, g.turns);
    RelabelShape(rules, ResolvedBy(CallsOf(a), g.calls, g.unresolved), CallsOf(a) + g.calls, merged);
    MergeShape(earlier, g.turns);
    BatchGroups(rules, a);
    MergeGroups(rules, a, b);
  }

  lemma {:induction false} GroupsTo(rules: TextRules, rows: seq<Row>, records: seq<Record>)
    requires RecordsOf(rows) == records
    ensures ShapeOf(PushRows(rules, [], rows)) == GroupRecords(rules, records)
  {
    ShapeOfPush(rules, [], rows);
    assert ShapeOf([]) == [];
  }

  /** The grouping of a slice has its turns. */
  lemma {:induction false} BatchGroups(rules: TextRules, records: seq<Record>)
    ensures ShapeOf(Batch(rules, records).turns) == GroupRecords(rules, records)
  {
    GroupsTo(rules, RowsOf(rules, records, CallsOf(records)), records);
  }

  /** The shape conditions and the rows in order leave no choice: they determine the grouping. */
  lemma {:induction false} GroupingIsUnique(rules: TextRules, turns: seq<Turn>)
    requires WellShaped(rules, turns) && Untrimmed(turns)
    ensures turns == PushRows(rules, [], Flatten(turns))
    decreases |Flatten(turns)|
  {
    if turns != [] {
      var shorter, row := Unpush(rules, turns);
      FlattenPushRow(rules, shorter, row);
      GroupingIsUnique(rules, shorter);
      assert Flatten(turns)[..|Flatten(turns)| - 1] == Flatten(shorter);
    }
  }

  lemma {:induction false} Unpush(rules: TextRules, turns: seq<Turn>) returns (shorter: seq<Turn>, row: Row)
    requires WellShaped(rules, turns) && Untrimmed(turns) && turns != []
    ensures WellShaped(rules, shorter) && Untrimmed(shorter)
    ensures PushRow(rules, shorter, row) == turns
  {
    var before, last := turns[..|turns| - 1], turns[|turns| - 1];
    if last.rows == [] {
      shorter, row := before, last.head.value;
    } else {
      row := last.rows[|last.rows| - 1];
      shorter := if last.head.None? && |last.rows| == 1 then before
        else before + [last.(rows := last.rows[..|last.rows| - 1])];
      assert last.rows == last.rows[..|last.rows| - 1] + [row];
    }
  }
}
