/**
 Which records head a turn, said on the records themselves, and what a result's caption says of its call.
 */
module TraceHeads {
  import opened Options
  import opened TraceRecords
  import opened TraceGroupingModel
  import opened TraceGroupingLaws
  import opened TracePages
  import opened TracePanelModel
  import opened TracePanelLaws

  /** A prompt, a record of the session, or an expansion that belongs to no call and whose text names a command. */
  predicate IsBeginning(rules: TextRules, record: Record) {
    || record.body.Prompt?
    || record.body.Session?
    || (record.body.Expansion? && record.body.expansionOf.None? && rules.commandName(record.body.text).Some?)
  }

  /** The beginnings among the records, or the others, in order. */
  function Picked(rules: TextRules, records: seq<Record>, beginnings: bool): seq<Record> {
    if records == [] then []
    else
      var last := records[|records| - 1];
      Picked(rules, records[..|records| - 1], beginnings)
      + (if IsBeginning(rules, last) == beginnings then [last] else [])
  }

  /** The records that head turns, in order. */
  function HeadRecords(turns: seq<Turn>): seq<Record> {
    if turns == [] then []
    else
      var last := turns[|turns| - 1];
      HeadRecords(turns[..|turns| - 1]) + (if last.head.Some? then [last.head.value.record] else [])
  }

  /** The records that stand in the rows of turns, in order. */
  function RowRecords(turns: seq<Turn>): seq<Record> {
    if turns == [] then [] else RowRecords(turns[..|turns| - 1]) + RecordsOf(turns[|turns| - 1].rows)
  }

  lemma {:induction false} PushOneHead(rules: TextRules, turns: seq<Turn>, row: Row)
    ensures
      var after := PushRow(rules, turns, row);
      && HeadRecords(after) == HeadRecords(turns) + (if IsBeginning(rules, row.record) then [row.record] else [])
      && RowRecords(after) == RowRecords(turns) + (if IsBeginning(rules, row.record) then [] else [row.record])
  {
    var after := PushRow(rules, turns, row);
    assert StartsTurn(rules, row.record) <==> IsBeginning(rules, row.record);
    hide StartsTurn, IsBeginning;
    if StartsTurn(rules, row.record) {
      assert after[..|after| - 1] == turns;
    } else if turns == [] {
      assert after[..0] == [];
    } else {
      var last := turns[|turns| - 1];
      assert after[..|after| - 1] == turns[..|turns| - 1];
      assert RecordsOf(last.rows + [row]) == RecordsOf(last.rows) + [row.record];
    }
  }

  lemma {:induction false} PushedHeads(rules: TextRules, rows: seq<Row>)
    ensures HeadRecords(PushRows(rules, [], rows)) == Picked(rules, RecordsOf(rows), true)
    ensures RowRecords(PushRows(rules, [], rows)) == Picked(rules, RecordsOf(rows), false)
  {
    hide PushRow, IsBeginning;
    if rows != [] {
      var init, last := rows[..|rows| - 1], rows[|rows| - 1];
      PushedHeads(rules, init);
      PushOneHead(rules, PushRows(rules, [], init), last);
      assert RecordsOf(rows)[..|rows| - 1] == RecordsOf(init);
    }
  }

  /** The heads of a grouping are exactly the beginnings in order; every other record stands in some turn's rows. */
  lemma {:induction false} BatchHeads(rules: TextRules, records: seq<Record>)
    ensures
      var turns := Batch(rules, records).turns;
      && HeadRecords(turns) == Picked(rules, records, true)
      && RowRecords(turns) == Picked(rules, records, false)
      && RecordsOf(Flatten(turns)) == records
  {
    var rows := RowsOf(rules, records, CallsOf(records));
    PushedHeads(rules, rows);
    assert RecordsOf(rows) == records;
    BatchRecords(rules, records);
  }

  lemma {:induction false} SameShapeHeads(p: seq<Turn>, q: seq<Turn>)
    requires ShapeOf(p) == ShapeOf(q)
    ensures HeadRecords(p) == HeadRecords(q) && RowRecords(p) == RowRecords(q)
    decreases |p|
  {
    assert |p| == |q|;
    if p != [] {
      var n := |p| - 1;
      assert TurnShape(p[n]) == ShapeOf(p)[n] == ShapeOf(q)[n] == TurnShape(q[n]);
      assert ShapeOf(p[..n]) == ShapeOf(p)[..n] == ShapeOf(q)[..n] == ShapeOf(q[..n]);
      SameShapeHeads(p[..n], q[..n]);
    }
  }

  lemma {:induction false} GroupedHeads(rules: TextRules, turns: seq<Turn>, records: seq<Record>)
    requires ShapeOf(turns) == GroupRecords(rules, records)
    ensures HeadRecords(turns) == Picked(rules, records, true)
    ensures RowRecords(turns) == Picked(rules, records, false)
    ensures RecordsOf(Flatten(turns)) == records
  {
    BatchGroups(rules, records);
    BatchHeads(rules, records);
    SameShapeHeads(turns, Batch(rules, records).turns);
    GroupedRecords(rules, turns, records);
  }

  /** The same however the pages came: each beginning heads a turn, each other record is a row under the one before it. */
  lemma {:induction false} AnyMixHeads(rules: TextRules, pages: seq<Page>)
    ensures
      var turns := Grown(rules, pages).turns;
      && HeadRecords(turns) == Picked(rules, Slice(pages), true)
      && RowRecords(turns) == Picked(rules, Slice(pages), false)
      && RecordsOf(Flatten(turns)) == Slice(pages)
  {
    AnyMixGroups(rules, pages);
    GroupedHeads(rules, Grown(rules, pages).turns, Slice(pages));
  }

  /** And in every run of the panel, of a window that is not trimmed. */
  lemma {:induction false} WindowHeads(rules: TextRules, maxRows: nat, logs: Logs, events: seq<Event>)
    requires forall i :: 0 <= i < |events| && events[i].Replying? ==> Genuine(logs, events[i].reply)
    requires Run(rules, maxRows, events).resident.Some?
    requires !Run(rules, maxRows, events).resident.value.hasDroppedEarliestRows
    ensures
      var r := Run(rules, maxRows, events).resident.value;
      && r.firstOffset <= r.nextOffset <= |logs(r.sessionId)|
      && var slice := logs(r.sessionId)[r.firstOffset..r.nextOffset];
      && HeadRecords(r.grouping.turns) == Picked(rules, slice, true)
      && RowRecords(r.grouping.turns) == Picked(rules, slice, false)
  {
    RunKeepsInv(rules, maxRows, logs, events);
    hide Run, Picked, Genuine, NewestRows;
    var r := Run(rules, maxRows, events).resident.value;
    GroupedHeads(rules, r.grouping.turns, logs(r.sessionId)[r.firstOffset..r.nextOffset]);
  }

  // ---------------------------------------------------------------- the caption of a result

  lemma {:induction false} CallAt(records: seq<Record>, j: nat)
    requires UniqueCalls(records) && j < |records| && records[j].body.ToolCall?
    ensures records[j].body.useId in CallsOf(records) && CallsOf(records)[records[j].body.useId] == records[j].body.call
  {
    if j < |records| - 1 {
      assert CallId(records[j]) != CallId(records[|records| - 1]);
      CallAt(records[..|records| - 1], j);
    }
  }

  /** The call that a result or an expansion belongs to. */
  predicate BelongsTo(record: Record, id: ToolUseId) {
    || (record.body.ToolResult? && record.body.resultOf == id)
    || (record.body.Expansion? && record.body.expansionOf == Some(id))
  }

  /** What the caption of a main agent's record begins with when it belongs to this call, or to one that is not there. */
  function Naming(rules: TextRules, record: Record, call: Option<Call>): string {
    if record.body.Expansion? then
      "Expansion: " + (if call.None? then "expansion"
                       else if rules.detail(call.value) != "" then rules.detail(call.value) else call.value.name)
    else (if call.Some? then call.value.name else "Tool") + " result: "
  }

  lemma {:induction false} CaptionBegins(rules: TextRules, record: Record, id: ToolUseId, calls: CallIndex)
    requires BelongsTo(record, id) && record.agentType.None?
    ensures Naming(rules, record, if id in calls then Some(calls[id]) else None) <= RowOf(rules, record, calls).caption
  {
  }

  /** The caption of a main agent's record names its call, wherever in the slice that stands, or says there is none. */
  ghost predicate NamesItsCall(rules: TextRules, slice: seq<Record>, record: Record, id: ToolUseId, caption: string) {
    && (forall j :: 0 <= j < |slice| && slice[j].body.ToolCall? && slice[j].body.useId == id ==>
      Naming(rules, record, Some(slice[j].body.call)) <= caption)
    && ((forall j :: 0 <= j < |slice| && slice[j].body.ToolCall? ==> slice[j].body.useId != id) ==>
      Naming(rules, record, None) <= caption)
  }

  lemma {:induction false} CaptionNames(rules: TextRules, slice: seq<Record>, record: Record, id: ToolUseId)
    requires UniqueCalls(slice) && BelongsTo(record, id) && record.agentType.None?
    ensures NamesItsCall(rules, slice, record, id, RowOf(rules, record, CallsOf(slice)).caption)
  {
    var calls := CallsOf(slice);
    CaptionBegins(rules, record, id, calls);
    CallsByPosition(slice, id);
    hide RowOf, CallsOf, Naming;
    forall j | 0 <= j < |slice| && slice[j].body.ToolCall? && slice[j].body.useId == id
      ensures id in calls && calls[id] == slice[j].body.call
    {
      CallAt(slice, j);
    }
  }

  lemma {:induction false} BatchRows(rules: TextRules, records: seq<Record>)
    ensures Flatten(Batch(rules, records).turns) == RowsOf(rules, records, CallsOf(records))
  {
    var rows := RowsOf(rules, records, CallsOf(records));
    FlattenPush(rules, [], rows);
    assert Flatten([]) + rows == rows;
  }

  lemma {:induction false} RowInMix(rules: TextRules, pages: seq<Page>, i: nat)
    requires CallsPrecede(Slice(pages)) && i < |Slice(pages)|
    ensures |Flatten(Grown(rules, pages).turns)| == |Slice(pages)|
    ensures Flatten(Grown(rules, pages).turns)[i] == RowOf(rules, Slice(pages)[i], CallsOf(Slice(pages)))
  {
    hide Flatten, Batch, CallsOf, RowOf, Slice, Grown, CallsPrecede;
    AnyMixIsBatch(rules, pages);
    BatchRows(rules, Slice(pages));
  }

  /**
   However the pages came, every row is that of its record, only notices are muted, and the caption of a result or
   an expansion names the call it belongs to.
   */
  lemma {:induction false} RowsNameTheirCalls(rules: TextRules, pages: seq<Page>, i: nat, id: ToolUseId)
    requires CallsPrecede(Slice(pages)) && UniqueCalls(Slice(pages)) && i < |Slice(pages)|
    ensures
      var slice, rows := Slice(pages), Flatten(Grown(rules, pages).turns);
      && |rows| == |slice| && rows[i].record == slice[i]
      && (rows[i].isMuted <==> slice[i].body.Notice?)
      && (BelongsTo(slice[i], id) && slice[i].agentType.None? ==> NamesItsCall(rules, slice, slice[i], id, rows[i].caption))
  {
    RowInMix(rules, pages, i);
    var slice := Slice(pages);
    assert RowOf(rules, slice[i], CallsOf(slice)).isMuted <==> slice[i].body.Notice?;
    hide Slice, Grown, Flatten, RowOf, NamesItsCall, CallsOf, BelongsTo;
    if BelongsTo(slice[i], id) && slice[i].agentType.None? {
      CaptionNames(rules, slice, slice[i], id);
    }
  }

  lemma {:induction false} UnresolvedInSlice(rules: TextRules, slice: seq<Record>, id: ToolUseId)
    ensures id in Batch(rules, slice).unresolved <==>
      && (exists i :: 0 <= i < |slice| && BelongsTo(slice[i], id))
      && (forall j :: 0 <= j < |slice| && slice[j].body.ToolCall? ==> slice[j].body.useId != id)
  {
    RefsByPosition(slice, CallsOf(slice), id);
    CallsByPosition(slice, id);
    assert forall i :: 0 <= i < |slice| ==> (BelongsTo(slice[i], id) <==> ReferencedId(slice[i]) == Some(id));
    hide PushRows, RowsOf, CallsOf, RefsOutside, BelongsTo, ReferencedId;
  }

  /** And an id is counted as unresolved iff some record belongs to it and no record is its call. */
  lemma {:induction false} UnresolvedIff(rules: TextRules, pages: seq<Page>, id: ToolUseId)
    requires CallsPrecede(Slice(pages))
    ensures
      var slice := Slice(pages);
      id in Grown(rules, pages).unresolved <==>
        && (exists i :: 0 <= i < |slice| && BelongsTo(slice[i], id))
        && (forall j :: 0 <= j < |slice| && slice[j].body.ToolCall? ==> slice[j].body.useId != id)
  {
    hide Slice, Grown, Batch, BelongsTo, CallsPrecede;
    AnyMixIsBatch(rules, pages);
    UnresolvedInSlice(rules, Slice(pages), id);
  }

  // ---------------------------------------------------------------- the other captions

  /** The agent and the mark of a record cut short stand before and after what its caption would be without them. */
  lemma {:induction false} CaptionMarks(rules: TextRules, record: Record, calls: CallIndex)
    ensures
      var plain := RowOf(rules, record.(agentType := None, truncated := false), calls).caption;
      RowOf(rules, record, calls).caption ==
        (if record.agentType.Some? then "[" + record.agentType.value + "] " else "")
        + (plain + (if record.truncated then ", truncated" else ""))
  {
  }

  /** The caption of a main agent's whole record, for the kinds that belong to no call. */
  lemma {:induction false} CaptionOfKind(rules: TextRules, record: Record, calls: CallIndex)
    requires record.agentType.None? && !record.truncated
    ensures
      var caption := RowOf(rules, record, calls).caption;
      match record.body
      case Prompt(text) => caption == "Prompt: " + rules.firstLine(text)
      case Thinking(text) => caption == "Thinking: " + rules.firstLine(text)
      case Assistant(text) => caption == "Assistant: " + rules.firstLine(text)
      case Notice(text) => caption == "Notice: " + rules.firstLine(text)
      case Raw(line) => caption == "Raw: " + rules.firstLine(line)
      case Session(vendor) => caption == "Session: " + vendor + " " + record.vendorSessionId
      case ToolCall(_, call) => caption == (if rules.detail(call) != "" then call.name + ": " + rules.detail(call) else call.name)
      case Expansion(text, None) =>
        caption == "Expansion: " + if rules.commandName(text).Some? then rules.commandName(text).value else "context"
      case _ => true
  {
  }
}
