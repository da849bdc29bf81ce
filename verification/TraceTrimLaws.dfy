/**
 Dropping the oldest rows: how much is kept, that nothing but the oldest is lost, and what the
 tool-call index still knows afterwards. The unresolved counts stop being exact after a trim;
 TrimCountsExactIff says precisely when.
 */
module TraceTrimLaws {
  import opened Options
  import opened TraceRecords
  import opened TraceGroupingModel
  import opened TraceGroupingLaws

  // ---------------------------------------------------------------- how much is kept

  lemma {:induction false} FlattenAt(turns: seq<Turn>, k: nat)
    requires k <= |turns|
    ensures Flatten(turns) == Flatten(turns[..k]) + Flatten(turns[k..])
  {
    assert turns == turns[..k] + turns[k..];
    FlattenConcat(turns[..k], turns[k..]);
  }

  lemma {:induction false} RowTotalSplit(turns: seq<Turn>)
    requires turns != []
    ensures RowTotal(turns) == |TurnRows(turns[0])| + RowTotal(turns[1..])
  {
    assert turns == [turns[0]] + turns[1..];
    FlattenConcat([turns[0]], turns[1..]);
    FlattenOne(turns[0]);
  }

  /** Whole turns go oldest first, no more than needed, and never the last one. */
  lemma {:induction false} DropCountFits(turns: seq<Turn>, maxRows: nat)
    ensures var k := DropCount(turns, maxRows);
      && (RowTotal(turns[k..]) <= maxRows || |turns| == k + 1)
      && forall j :: 0 <= j < k ==> RowTotal(turns[j..]) > maxRows
    decreases |turns|
  {
    if |turns| > 1 && RowTotal(turns) > maxRows {
      DropCountFits(turns[1..], maxRows);
      var k := DropCount(turns[1..], maxRows);
      assert turns[1..][k..] == turns[k + 1..];
      forall j | 0 <= j < k + 1
        ensures RowTotal(turns[j..]) > maxRows
      {
        if j == 0 {
          assert turns[0..] == turns;
        } else {
          assert turns[j..] == turns[1..][j - 1..];
        }
      }
    } else {
      assert turns[0..] == turns;
    }
  }

  /** What a trim leaves of the turns: a suffix, whose first turn may have lost its oldest rows. */
  lemma {:induction false} TrimKeepsSuffix(g: Grouping, maxRows: nat)
    ensures
      var k := DropCount(g.turns, maxRows);
      var n := TrimRowCount(g.turns[k..], maxRows);
      var kept := TrimModel(g, maxRows).turns;
      && (n == 0 ==> kept == g.turns[k..])
      && (n > 0 ==> k + 1 == |g.turns| && kept == [Turn(g.turns[k].head, g.turns[k].rows[n..], true)])
  {
    DropCountFits(g.turns, maxRows);
  }

  lemma {:induction false} LastHeadCounts(turns: seq<Turn>)
    requires turns != [] && turns[|turns| - 1].head.Some?
    ensures RowTotal(turns) >= 1
  {
  }

  /** The cap is met, except that the head of the only turn left always stays. */
  lemma {:induction false} TrimMeetsCapIff(g: Grouping, maxRows: nat)
    ensures RowTotal(TrimModel(g, maxRows).turns) <= maxRows
      <==> maxRows >= 1 || g.turns == [] || g.turns[|g.turns| - 1].head.None?
  {
    hide Flatten, Forget;
    var k := DropCount(g.turns, maxRows);
    DropCountFits(g.turns, maxRows);
    TrimKeepsSuffix(g, maxRows);
    if g.turns == [] {
      NoRowsFit(maxRows);
    } else {
      hide TrimModel, DropCount;
      CutMeetsCapIff(g.turns[k..], TrimModel(g, maxRows).turns, maxRows);
    }
  }

  lemma {:induction false} NoRowsFit(maxRows: nat)
    ensures RowTotal([]) <= maxRows && TrimRowCount([], maxRows) == 0
  {
  }

  lemma {:induction false} CutMeetsCapIff(rest: seq<Turn>, kept: seq<Turn>, maxRows: nat)
    requires rest != [] && (RowTotal(rest) <= maxRows || |rest| == 1)
    requires
      var n := TrimRowCount(rest, maxRows);
      if n == 0 then kept == rest else |rest| == 1 && kept == [Turn(rest[0].head, rest[0].rows[n..], true)]
    ensures RowTotal(kept) <= maxRows <==> maxRows >= 1 || rest[|rest| - 1].head.None?
  {
    RowTotalSplit(rest);
    RowTotalSplit(kept);
    NoRowsFit(maxRows);
    if rest[|rest| - 1].head.Some? {
      LastHeadCounts(kept);
    }
    hide Flatten, RowTotal;
  }

  /** Nothing is dropped exactly when the rows already fit, given a cap of at least one. */
  lemma {:induction false} TrimIsIdentityIff(g: Grouping, maxRows: nat)
    requires maxRows >= 1
    ensures DropCount(g.turns, maxRows) == 0 && TrimRowCount(g.turns, maxRows) == 0 <==> RowTotal(g.turns) <= maxRows
    ensures RowTotal(g.turns) <= maxRows ==> TrimModel(g, maxRows).turns == g.turns
  {
    if g.turns != [] {
      RowTotalSplit(g.turns);
    }
  }

  /** This turn with rows taken off its front, filled up to the cap. */
  ghost predicate CutToCap(turn: Turn, cut: Turn, maxRows: nat) {
    && cut.head == turn.head && cut.hasTrimmedRows
    && (RowTotal([cut]) == maxRows || maxRows == 0)
    && exists n :: 0 <= n <= |turn.rows| && cut.rows == turn.rows[n..]
  }

  /** The turns from the one at `k` on no longer fit. */
  predicate Overflows(turns: seq<Turn>, k: nat, maxRows: nat)
    requires k <= |turns|
  {
    RowTotal(turns[k..]) > maxRows
  }

  /**
   A trim drops no more than the cap needs: either it leaves whole turns, and with the turn dropped last they no longer
   fitted, or it leaves the newest turn alone, filled up to the cap.
   */
  lemma {:induction false} TrimDropsNoMore(g: Grouping, maxRows: nat) returns (k: nat)
    ensures RowTotal(g.turns) <= maxRows ==> TrimModel(g, maxRows).turns == g.turns
    ensures k <= |g.turns| && (k > 0 ==> Overflows(g.turns, k - 1, maxRows))
    ensures
      var kept := TrimModel(g, maxRows).turns;
      || kept == g.turns[k..]
      || (k + 1 == |g.turns| && |kept| == 1 && CutToCap(g.turns[k], kept[0], maxRows) && Overflows(g.turns, k, maxRows))
  {
    k := DropCount(g.turns, maxRows);
    DropCountFits(g.turns, maxRows);
    TrimKeepsSuffix(g, maxRows);
    FittingStays(g.turns, maxRows);
    var n := TrimRowCount(g.turns[k..], maxRows);
    hide TrimModel, Flatten, RowTotal, DropCount, CutToCap;
    if n > 0 {
      assert g.turns[k..] == [g.turns[k]];
      CutFills(g.turns[k], n, TrimModel(g, maxRows).turns[0], maxRows);
      hide TrimRowCount;
    }
  }

  lemma {:induction false} FittingStays(turns: seq<Turn>, maxRows: nat)
    ensures turns[0..] == turns
    ensures RowTotal(turns) <= maxRows ==> DropCount(turns, maxRows) == 0 && TrimRowCount(turns, maxRows) == 0
    ensures forall k :: 0 <= k <= |turns| && TrimRowCount(turns[k..], maxRows) > 0 ==> Overflows(turns, k, maxRows)
  {
  }

  lemma {:induction false} CutFills(turn: Turn, n: nat, cut: Turn, maxRows: nat)
    requires n == TrimRowCount([turn], maxRows) && 0 < n <= |turn.rows|
    requires cut == Turn(turn.head, turn.rows[n..], true)
    ensures CutToCap(turn, cut, maxRows)
  {
    RowTotalSplit([turn]);
    RowTotalSplit([cut]);
    assert [turn][1..] == [] && [cut][1..] == [];
    hide Flatten, RowTotal;
  }

  // ---------------------------------------------------------------- what the index still knows

  /** The counts describe the rows, taking as known the calls in `known`. */
  ghost predicate CountsKnowing(g: Grouping, known: CallIndex) {
    g.unresolved == CountsOf(RefsOutside(RecordsOf(Flatten(g.turns)), known))
  }

  ghost predicate CallsExact(g: Grouping) {
    g.calls == CallsOf(RecordsOf(Flatten(g.turns)))
  }

  lemma {:induction false} RecordsConcat(a: seq<Row>, b: seq<Row>)
    ensures RecordsOf(a + b) == RecordsOf(a) + RecordsOf(b)
  {
  }

  lemma {:induction false} ReleaseRefs(
      all: multiset<ToolUseId>, dropped: multiset<ToolUseId>, kept: multiset<ToolUseId>, known: CallIndex)
    requires forall id: ToolUseId :: all[id] == kept[id] + if id in known then 0 else dropped[id]
    requires forall id: ToolUseId :: id in known ==> kept[id] == 0
    ensures ReleaseCounts(CountsOf(all), dropped) == CountsOf(kept)
  {
  }

  lemma {:induction false} SplitRefs(p: seq<Record>, d: seq<Record>, k: seq<Record>, known: CallIndex, id: ToolUseId)
    ensures RefsOutside(p + d + k, known)[id]
      == RefsOutside(p + k, known)[id] + if id in known then 0 else RefsOutside(d, map[])[id]
    ensures id in known ==> RefsOutside(p + k, known)[id] == 0
  {
    RefsConcat(p + d, k, known);
    RefsConcat(p, d, known);
    RefsConcat(p, k, known);
    RefsKnowing(d, map[], known, id);
    RefsKnowing(p + k, known, known, id);
  }

  /** Forgetting the rows `d` between `p` and `k` leaves the counts of the rest, with the same calls taken as known. */
  lemma {:induction false} ForgetCounts(p: seq<Record>, d: seq<Record>, k: seq<Record>, known: CallIndex)
    ensures ReleaseCounts(CountsOf(RefsOutside(p + d + k, known)), RefsOutside(d, map[]))
         == CountsOf(RefsOutside(p + k, known))
  {
    forall id: ToolUseId
      ensures RefsOutside(p + d + k, known)[id]
        == RefsOutside(p + k, known)[id] + if id in known then 0 else RefsOutside(d, map[])[id]
      ensures id in known ==> RefsOutside(p + k, known)[id] == 0
    {
      SplitRefs(p, d, k, known, id);
    }
    ReleaseRefs(RefsOutside(p + d + k, known), RefsOutside(d, map[]), RefsOutside(p + k, known), known);
  }

  lemma {:induction false} CallIdsAreKeys(records: seq<Record>)
    ensures CallIds(records) == CallsOf(records).Keys
  {
    forall id: ToolUseId
      ensures id in CallIds(records) <==> id in CallsOf(records)
    {
      CallsByPosition(records, id);
    }
  }

  lemma {:induction false} UniqueParts(a: seq<Record>, b: seq<Record>)
    requires UniqueCalls(a + b)
    ensures CallsOf(a).Keys !! CallsOf(b).Keys
  {
    forall id | id in CallsOf(a) && id in CallsOf(b)
      ensures false
    {
      CallsByPosition(b, id);
      var j :| 0 <= j < |b| && CallId(b[j]) == Some(id);
      UniqueApart(a, b, j);
    }
  }

  /** Forgetting the rows `d` leaves the calls of the rest, when no call id is used twice. */
  lemma {:induction false} ForgetCalls(p: seq<Record>, d: seq<Record>, k: seq<Record>)
    requires UniqueCalls(p + d + k) && CallsOf(p) == map[]
    ensures CallsOf(p + d + k) - CallIds(d) == CallsOf(p + k)
  {
    CallsConcat(p + d, k);
    CallsConcat(p, d);
    CallsConcat(p, k);
    CallIdsAreKeys(d);
    UniqueParts(p + d, k);
  }

  /** Forgetting rows `d` that stood between `p` and `k`, where `p` holds no call. */
  lemma {:induction false} ForgetIndex(
      g: Grouping, after: Grouping, p: seq<Row>, d: seq<Row>, k: seq<Row>, known: CallIndex)
    requires Flatten(g.turns) == p + d + k && Flatten(after.turns) == p + k
    requires after == Forget(g, d).(turns := after.turns)
    requires CallsOf(RecordsOf(p)) == map[]
    ensures CountsKnowing(g, known) ==> CountsKnowing(after, known)
    ensures CallsExact(g) && UniqueCalls(RecordsOf(Flatten(g.turns))) ==> CallsExact(after)
  {
    RecordsConcat(p + d, k);
    RecordsConcat(p, d);
    RecordsConcat(p, k);
    ForgetCounts(RecordsOf(p), RecordsOf(d), RecordsOf(k), known);
    if UniqueCalls(RecordsOf(Flatten(g.turns))) {
      ForgetCalls(RecordsOf(p), RecordsOf(d), RecordsOf(k));
    }
  }

  /** The first `turnCount` turns go. */
  lemma {:induction false} TrimTurnsIndex(g: Grouping, turnCount: nat, known: CallIndex)
    requires turnCount <= |g.turns|
    ensures CountsKnowing(g, known) ==> CountsKnowing(TrimTurnsModel(g, turnCount), known)
    ensures CallsExact(g) && UniqueCalls(RecordsOf(Flatten(g.turns))) ==> CallsExact(TrimTurnsModel(g, turnCount))
  {
    FlattenAt(g.turns, turnCount);
    var d, k := Flatten(g.turns[..turnCount]), Flatten(g.turns[turnCount..]);
    assert [] + d + k == d + k;
    assert [] + k == k;
    ForgetIndex(g, TrimTurnsModel(g, turnCount), [], d, k, known);
  }

  ghost predicate FirstHeadPlain(turns: seq<Turn>) {
    turns != [] && turns[0].head.Some? ==> CallId(turns[0].head.value.record).None?
  }

  /** The oldest rows of the first turn go; its head stays. */
  lemma {:induction false} TrimRowsIndex(g: Grouping, rowCount: nat, known: CallIndex)
    requires rowCount > 0 ==> g.turns != [] && rowCount <= |g.turns[0].rows|
    requires FirstHeadPlain(g.turns)
    ensures CountsKnowing(g, known) ==> CountsKnowing(TrimRowsModel(g, rowCount), known)
    ensures CallsExact(g) && UniqueCalls(RecordsOf(Flatten(g.turns))) ==> CallsExact(TrimRowsModel(g, rowCount))
  {
    if rowCount > 0 {
      var head, d, k := CutFirst(g.turns, rowCount);
      assert CallsOf(RecordsOf(head)) == map[] by {
        if head != [] {
          assert RecordsOf(head)[..0] == [];
        }
      }
      ForgetIndex(g, TrimRowsModel(g, rowCount), head, d, k, known);
    }
  }

  lemma {:induction false} CutFirst(turns: seq<Turn>, rowCount: nat) returns (head: seq<Row>, d: seq<Row>, k: seq<Row>)
    requires turns != [] && rowCount <= |turns[0].rows|
    ensures head == if turns[0].head.Some? then [turns[0].head.value] else []
    ensures d == turns[0].rows[..rowCount]
    ensures Flatten(turns) == head + d + k
    ensures Flatten(turns[0 := turns[0].(rows := turns[0].rows[rowCount..], hasTrimmedRows := true)]) == head + k
  {
    var first, rest := turns[0], turns[1..];
    var cut := first.(rows := first.rows[rowCount..], hasTrimmedRows := true);
    head := if first.head.Some? then [first.head.value] else [];
    d, k := first.rows[..rowCount], first.rows[rowCount..] + Flatten(rest);
    hide Flatten;
    SplitFirst(turns, first, rest);
    SplitFirst(turns[0 := cut], cut, rest);
    CutRows(head, first.rows, rowCount, Flatten(rest));
    assert TurnRows(first) == head + first.rows && TurnRows(cut) == head + cut.rows;
  }

  lemma {:induction false} CutRows(head: seq<Row>, rows: seq<Row>, n: nat, rest: seq<Row>)
    requires n <= |rows|
    ensures head + rows + rest == head + rows[..n] + (rows[n..] + rest)
    ensures head + rows[n..] + rest == head + (rows[n..] + rest)
  {
    assert rows == rows[..n] + rows[n..];
  }

  lemma {:induction false} SplitFirst(turns: seq<Turn>, first: Turn, rest: seq<Turn>)
    requires turns == [first] + rest
    ensures Flatten(turns) == TurnRows(first) + Flatten(rest)
  {
    FlattenConcat([first], rest);
    FlattenOne(first);
  }

  lemma {:induction false} UniqueSuffix(a: seq<Record>, b: seq<Record>)
    requires UniqueCalls(a + b)
    ensures UniqueCalls(b)
  {
    forall i, j | 0 <= i < j < |b| && CallId(b[i]).Some?
      ensures CallId(b[i]) != CallId(b[j])
    {
      assert (a + b)[|a| + i] == b[i] && (a + b)[|a| + j] == b[j];
    }
  }

  lemma {:induction false} UniqueKept(turns: seq<Turn>, k: nat)
    requires k <= |turns| && UniqueCalls(RecordsOf(Flatten(turns)))
    ensures UniqueCalls(RecordsOf(Flatten(turns[k..])))
  {
    FlattenAt(turns, k);
    hide Flatten;
    RecordsConcat(Flatten(turns[..k]), Flatten(turns[k..]));
    UniqueSuffix(RecordsOf(Flatten(turns[..k])), RecordsOf(Flatten(turns[k..])));
  }

  lemma {:induction false} KeptHeadPlain(rules: TextRules, turns: seq<Turn>, k: nat)
    requires WellShaped(rules, turns) && k <= |turns|
    ensures FirstHeadPlain(turns[k..])
  {
  }

  /**
   What a trim leaves in the index of an exact grouping: the calls of the kept rows, and the
   counts of the kept rows whose call was not resident before the trim.
   */
  lemma {:induction false} TrimIndex(rules: TextRules, g: Grouping, maxRows: nat)
    requires WellShaped(rules, g.turns)
    requires CallsExact(g) && CountsKnowing(g, g.calls) && UniqueCalls(RecordsOf(Flatten(g.turns)))
    ensures CallsExact(TrimModel(g, maxRows))
    ensures CountsKnowing(TrimModel(g, maxRows), g.calls)
  {
    var k := DropCount(g.turns, maxRows);
    var kept := TrimTurnsModel(g, k);
    TrimTurnsIndex(g, k, g.calls);
    UniqueKept(g.turns, k);
    KeptHeadPlain(rules, g.turns, k);
    TrimRowsIndex(kept, TrimRowCount(kept.turns, maxRows), g.calls);
    hide CallsExact, CountsKnowing, UniqueCalls, WellShaped, FirstHeadPlain, Flatten, DropCount, TrimRowsModel;
  }

  /** The rows a trim will drop, oldest first. */
  function DroppedRows(g: Grouping, maxRows: nat): seq<Row> {
    var k := DropCount(g.turns, maxRows);
    var n := TrimRowCount(g.turns[k..], maxRows);
    Flatten(g.turns[..k]) + (if n > 0 then g.turns[k].rows[..n] else [])
  }

  /** The rows it will keep, under the head of the turn it cuts. */
  function KeptRows(g: Grouping, maxRows: nat): seq<Row> {
    var k := DropCount(g.turns, maxRows);
    var n := TrimRowCount(g.turns[k..], maxRows);
    if n == 0 then Flatten(g.turns[k..])
    else (if g.turns[k].head.Some? then [g.turns[k].head.value] else []) + g.turns[k].rows[n..]
  }

  lemma {:induction false} TrimKeeps(g: Grouping, maxRows: nat)
    ensures Flatten(TrimModel(g, maxRows).turns) == KeptRows(g, maxRows)
  {
    var k := DropCount(g.turns, maxRows);
    var n := TrimRowCount(g.turns[k..], maxRows);
    TrimKeepsSuffix(g, maxRows);
    if n > 0 {
      FlattenOne(Turn(g.turns[k].head, g.turns[k].rows[n..], true));
    }
  }

  /** A trim takes exactly the calls of the dropped rows out of the index. */
  lemma {:induction false} TrimForgetsCalls(g: Grouping, maxRows: nat)
    ensures TrimModel(g, maxRows).calls == g.calls - CallIds(RecordsOf(DroppedRows(g, maxRows)))
  {
    hide CallIds, Flatten, RecordsOf, DropCount, RefsOutside, ReleaseCounts;
    var k := DropCount(g.turns, maxRows);
    var n := TrimRowCount(g.turns[k..], maxRows);
    var whole := Flatten(g.turns[..k]);
    if n > 0 {
      assert g.turns[k..][0] == g.turns[k];
      ForgottenTwice(g.calls, whole, g.turns[k].rows[..n]);
    } else {
      assert whole + [] == whole;
    }
  }

  lemma {:induction false} ForgottenTwice(calls: CallIndex, a: seq<Row>, b: seq<Row>)
    ensures calls - CallIds(RecordsOf(a)) - CallIds(RecordsOf(b)) == calls - CallIds(RecordsOf(a + b))
  {
    RecordsConcat(a, b);
    CallIdsOfBoth(RecordsOf(a), RecordsOf(b));
    hide CallIds, RecordsOf;
  }

  lemma {:induction false} CallIdsOfBoth(a: seq<Record>, b: seq<Record>)
    ensures CallIds(a + b) == CallIds(a) + CallIds(b)
  {
    CallIdsAreKeys(a);
    CallIdsAreKeys(b);
    CallIdsAreKeys(a + b);
    CallsConcat(a, b);
  }

  lemma {:induction false} DroppedWereResident(g: Grouping, maxRows: nat)
    ensures forall i :: 0 <= i < |DroppedRows(g, maxRows)| ==> DroppedRows(g, maxRows)[i] in Flatten(g.turns)
  {
    hide Flatten, DropCount;
    var k := DropCount(g.turns, maxRows);
    var n := TrimRowCount(g.turns[k..], maxRows);
    FlattenAt(g.turns, k);
    if n > 0 {
      var head, d, rest := CutFirst(g.turns[k..], n);
      Parts(Flatten(g.turns[..k]), head, d, rest);
    } else {
      Parts(Flatten(g.turns[..k]), [], [], Flatten(g.turns[k..]));
    }
  }

  lemma {:induction false} DroppedCallsWereKnown(g: Grouping, maxRows: nat)
    requires CallsExact(g)
    ensures CallIds(RecordsOf(DroppedRows(g, maxRows))) <= g.calls.Keys
  {
    hide DroppedRows, Flatten, CallsOf, CallIds, RecordsOf;
    DroppedWereResident(g, maxRows);
    PickedCalls(DroppedRows(g, maxRows), Flatten(g.turns));
    CallIdsAreKeys(RecordsOf(Flatten(g.turns)));
  }

  lemma {:induction false} Parts(whole: seq<Row>, head: seq<Row>, d: seq<Row>, rest: seq<Row>)
    ensures forall i :: 0 <= i < |whole + d| ==> (whole + d)[i] in whole + (head + d + rest)
    ensures whole + ([] + [] + rest) == whole + rest
  {
    var all := whole + (head + d + rest);
    forall i | 0 <= i < |whole + d|
      ensures (whole + d)[i] in all
    {
      assert (whole + d)[i] == all[if i < |whole| then i else i + |head|];
    }
  }

  lemma {:induction false} PickedCalls(some: seq<Row>, all: seq<Row>)
    requires forall i :: 0 <= i < |some| ==> some[i] in all
    ensures CallIds(RecordsOf(some)) <= CallIds(RecordsOf(all))
  {
    forall id | id in CallIds(RecordsOf(some))
      ensures id in CallIds(RecordsOf(all))
    {
      var i :| 0 <= i < |some| && RecordsOf(some)[i].body.ToolCall? && RecordsOf(some)[i].body.useId == id;
      var j :| 0 <= j < |all| && all[j] == some[i];
      assert RecordsOf(all)[j] == RecordsOf(some)[i];
    }
  }

  /** No row that a trim will keep refers to a call of a row it will drop. */
  ghost predicate CutsNoReference(g: Grouping, maxRows: nat) {
    var dropped, kept := CallIds(RecordsOf(DroppedRows(g, maxRows))), KeptRows(g, maxRows);
    forall i :: 0 <= i < |kept| && ReferencedId(kept[i].record).Some? ==> ReferencedId(kept[i].record).value !in dropped
  }

  /**
   After a trim the counts are exact iff no row it keeps refers to a call of a row it drops: a condition on the
   grouping and the cap before the trim.
   */
  lemma {:induction false} TrimCountsExactIff(rules: TextRules, g: Grouping, maxRows: nat)
    requires WellShaped(rules, g.turns)
    requires CallsExact(g) && CountsKnowing(g, g.calls) && UniqueCalls(RecordsOf(Flatten(g.turns)))
    ensures
      CountsKnowing(TrimModel(g, maxRows), TrimModel(g, maxRows).calls) <==> CutsNoReference(g, maxRows)
  {
    hide CallIds, DroppedRows, KeptRows, TrimModel, RefsOutside, CountsOf;
    TrimIndex(rules, g, maxRows);
    TrimKeeps(g, maxRows);
    TrimForgetsCalls(g, maxRows);
    DroppedCallsWereKnown(g, maxRows);
    var after := TrimModel(g, maxRows);
    CountsDifferIff(RecordsOf(Flatten(after.turns)), after.calls, g.calls);
  }

  lemma {:induction false} CountsDifferIff(records: seq<Record>, small: CallIndex, big: CallIndex)
    requires small.Keys <= big.Keys
    ensures CountsOf(RefsOutside(records, small)) == CountsOf(RefsOutside(records, big)) <==>
      forall i :: 0 <= i < |records| && ReferencedId(records[i]).Some? ==>
        (ReferencedId(records[i]).value in big ==> ReferencedId(records[i]).value in small)
  {
    var p, q := RefsOutside(records, small), RefsOutside(records, big);
    forall id: ToolUseId
      ensures q[id] == if id in big then 0 else p[id]
      ensures id in p <==> id !in small && exists i :: 0 <= i < |records| && ReferencedId(records[i]) == Some(id)
    {
      RefsKnowing(records, small, big, id);
      RefsByPosition(records, small, id);
    }
    if CountsOf(p) == CountsOf(q) {
      forall i | 0 <= i < |records| && ReferencedId(records[i]).Some? && ReferencedId(records[i]).value !in small
        ensures ReferencedId(records[i]).value !in big
      {
        assert ReferencedId(records[i]).value in CountsOf(p);
      }
    } else {
      assert p != q;
    }
  }

  lemma {:induction false} OneRow(rules: TextRules, a: Row)
    requires !StartsTurn(rules, a.record)
    ensures PushRows(rules, [], [a]) == [Turn(None, [a], false)]
  {
    assert [a][..0] == [];
    assert PushRows(rules, [], []) == [];
    assert PushRow(rules, [], a) == [Turn(None, [a], false)];
  }

  lemma {:induction false} TwoRows(rules: TextRules, a: Row, b: Row)
    requires !StartsTurn(rules, a.record) && !StartsTurn(rules, b.record)
    ensures PushRows(rules, [], [a, b]) == [Turn(None, [a, b], false)]
  {
    OneRow(rules, a);
    assert [a, b][..1] == [a];
    assert [a] + [b] == [a, b];
    assert PushRow(rules, [Turn(None, [a], false)], b) == [Turn(None, [a, b], false)];
  }

  lemma {:induction false} PairIndex(id: ToolUseId, call: Call)
    ensures
      var records := [Record("", None, false, ToolCall(id, call)), Record("", None, false, ToolResult(id, "", false))];
      && CallsOf(records) == map[id := call]
      && RefsOutside(records, map[id := call]) == multiset{}
      && UniqueCalls(records)
  {
    var first, second := Record("", None, false, ToolCall(id, call)), Record("", None, false, ToolResult(id, "", false));
    var records := [first, second];
    assert records[..1] == [first] && [first][..0] == [];
    assert CallsOf([first]) == map[id := call];
    assert RefsOutside([first], map[id := call]) == multiset{};
  }

  lemma {:induction false} SingleIndex(id: ToolUseId)
    ensures
      var records := [Record("", None, false, ToolResult(id, "", false))];
      CallsOf(records) == map[] && RefsOutside(records, map[]) == multiset{id}
  {
    var records := [Record("", None, false, ToolResult(id, "", false))];
    assert records[..0] == [];
  }

  /** Two rows of one headless turn, cut to one. */
  lemma {:induction false} CutPair(g: Grouping, a: Row, b: Row)
    requires g.turns == [Turn(None, [a, b], false)]
    ensures TrimModel(g, 1).turns == [Turn(None, [b], true)]
    ensures Flatten(TrimModel(g, 1).turns) == [b]
  {
    FlattenOne(g.turns[0]);
    FlattenOne(Turn(None, [b], true));
    TrimKeepsSuffix(g, 1);
    assert g.turns[0..] == g.turns && [a, b][1..] == [b];
  }

  /** A call and its result, cut to one row: the result's call is gone, and nothing counts it as unresolved. */
  lemma {:induction false} TrimLosesCount(rules: TextRules, id: ToolUseId, call: Call)
    ensures
      var result := Record("", None, false, ToolResult(id, "", false));
      var after := TrimModel(Batch(rules, [Record("", None, false, ToolCall(id, call)), result]), 1);
      && RecordsOf(Flatten(after.turns)) == [result]
      && after.calls == map[] && after.unresolved == map[]
      && !CountsKnowing(after, after.calls)
  {
    var first, result := Record("", None, false, ToolCall(id, call)), Record("", None, false, ToolResult(id, "", false));
    PairIndex(id, call);
    SingleIndex(id);
    assert !StartsTurn(rules, first) && !StartsTurn(rules, result);
    hide Batch, TrimModel, PushRows, Flatten, CallsOf, RefsOutside, StartsTurn;
    PairTrim(rules, first, result);
    assert id in CountsOf(multiset{id});
  }

  lemma {:induction false} PairTrim(rules: TextRules, p: Record, q: Record)
    requires !StartsTurn(rules, p) && !StartsTurn(rules, q) && UniqueCalls([p, q])
    ensures
      var after := TrimModel(Batch(rules, [p, q]), 1);
      && RecordsOf(Flatten(after.turns)) == [q]
      && after.calls == CallsOf([q])
      && after.unresolved == CountsOf(RefsOutside([q], CallsOf([p, q])))
  {
    var g, after := Batch(rules, [p, q]), TrimModel(Batch(rules, [p, q]), 1);
    PairGroups(rules, p, q);
    BatchRecords(rules, [p, q]);
    BatchShape(rules, [p, q]);
    BatchIsExact(rules, [p, q]);
    TrimIndex(rules, g, 1);
    hide Batch, TrimModel, CallsOf, RefsOutside, StartsTurn, WellShaped, Flatten, UniqueCalls, RecordsOf;
  }

  lemma {:induction false} BatchIsExact(rules: TextRules, records: seq<Record>)
    ensures CallsExact(Batch(rules, records)) && CountsKnowing(Batch(rules, records), Batch(rules, records).calls)
  {
    BatchRecords(rules, records);
    hide PushRows, Flatten, CallsOf, RefsOutside, RowsOf;
  }

  lemma {:induction false} PairGroups(rules: TextRules, p: Record, q: Record)
    requires !StartsTurn(rules, p) && !StartsTurn(rules, q)
    ensures RecordsOf(Flatten(TrimModel(Batch(rules, [p, q]), 1).turns)) == [q]
  {
    hide TrimModel, RowOf, StartsTurn, CallsOf, RefsOutside, DropCount;
    var g, calls := Batch(rules, [p, q]), CallsOf([p, q]);
    var a, b := RowOf(rules, p, calls), RowOf(rules, q, calls);
    assert RowsOf(rules, [p, q], calls) == [a, b];
    TwoRows(rules, a, b);
    CutPair(g, a, b);
    assert RecordsOf([b]) == [q];
  }
}
