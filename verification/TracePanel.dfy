/**
 The trace panel's own state and handlers, each proved to take the step TracePanelModel says.

 Whether the panel is visible and whether the transport accepted a message come in as parameters.
 */
module TracePanels {
  import opened Options
  import opened TraceRecords
  import opened TraceGroupingModel
  import opened TraceGroupings
  import opened TracePanelModel

  class SelectedTrace {
    const sessionId: SessionId
    const grouping: TraceGrouping
    var firstOffset: nat
    var nextOffset: nat
    var hasDroppedEarliestRows: bool
    var hasLoadedOnce: bool

    ghost function Value(): Resident
      reads this, grouping
    {
      Resident(sessionId, grouping.Value(), firstOffset, nextOffset, hasDroppedEarliestRows, hasLoadedOnce)
    }

    constructor (sessionId: SessionId, rules: TextRules)
      ensures fresh(grouping) && grouping.rules == rules
      ensures Value() == Resident(sessionId, EMPTY_GROUPING, 0, 0, false, false)
    {
      this.sessionId := sessionId;
      grouping := new TraceGrouping(rules);
      firstOffset, nextOffset, hasDroppedEarliestRows, hasLoadedOnce := 0, 0, false, false;
    }

    method DropOldestRows(maxRows: nat)
      modifies this, grouping
      ensures Value() == Trimmed(old(Value()), maxRows)
    {
      var trim := grouping.Trim(maxRows);
      if trim.droppedTurnCount > 0 || trim.droppedRowCount > 0 {
        hasDroppedEarliestRows := true;
      }
    }

    method ShowAppendedRecords(maxRows: nat, records: seq<Record>)
      modifies this, grouping
      ensures Value() == ShowAppended(grouping.rules, maxRows, old(Value()), records)
    {
      var _ := grouping.Append(records);
      DropOldestRows(maxRows);
    }

    method ShowPrependedRecords(maxRows: nat, records: seq<Record>)
      modifies this, grouping
      ensures Value() == ShowPrepended(grouping.rules, maxRows, old(Value()), records)
    {
      var _ := grouping.Prepend(records);
      DropOldestRows(maxRows);
    }

    method Apply(maxRows: nat, reply: Reply, outcome: Outcome)
      requires outcome in {Seed, AppendPage, PrependPage}
      modifies this, grouping
      ensures Value() == ApplyOutcome(grouping.rules, maxRows, old(Value()), reply, outcome)
    {
      hide AppendModel, PrependModel, Trimmed;
      if outcome == PrependPage {
        firstOffset := reply.start;
        ShowPrependedRecords(maxRows, reply.records);
        return;
      }
      if outcome == Seed {
        hasLoadedOnce := true;
        firstOffset := reply.start;
      }
      nextOffset := reply.next;
      ShowAppendedRecords(maxRows, reply.records);
    }
  }

  class TracePanel {
    const rules: TextRules
    const maxRows: nat
    var selectedSessionId: Option<SessionId>
    var selectedTrace: SelectedTrace?
    var pendingRequest: Option<TraceRequest>
    var isRefreshNeeded: bool
    var armedTimers: nat

    ghost predicate Valid()
      reads this
    {
      selectedTrace != null ==> selectedTrace.grouping.rules == rules
    }

    ghost function Parts(): set<object>
      reads this
    {
      if selectedTrace == null then {} else {selectedTrace, selectedTrace.grouping}
    }

    ghost function Value(): Panel
      reads this, Parts()
    {
      Panel(
        selectedSessionId,
        if selectedTrace == null then None else Some(selectedTrace.Value()),
        pendingRequest,
        isRefreshNeeded,
        armedTimers)
    }

    constructor (rules: TextRules, maxRows: nat)
      ensures Valid() && Value() == START && this.rules == rules && this.maxRows == maxRows
    {
      this.rules, this.maxRows := rules, maxRows;
      selectedSessionId, selectedTrace, pendingRequest, isRefreshNeeded, armedTimers := None, null, None, false, 0;
    }

    method ClearPendingRequest()
      requires Valid()
      modifies this
      ensures Valid() && selectedTrace == old(selectedTrace)
      ensures Value() == ClearPending(old(Value()))
    {
      if pendingRequest.None? {
        return;
      }
      armedTimers := if armedTimers > 0 then armedTimers - 1 else 0;
      pendingRequest := None;
    }

    method StartSelectedTrace(id: Option<SessionId>)
      requires Valid()
      modifies this
      ensures Valid() && fresh(Parts())
      ensures Value() == StartSelected(old(Value()), id)
    {
      ClearPendingRequest();
      isRefreshNeeded := false;
      selectedSessionId := id;
      selectedTrace := null;
      if id.Some? {
        selectedTrace := new SelectedTrace(id.value, rules);
      }
    }

    method SendTraceRequest(request: TraceRequest, isSent: bool)
      requires Valid()
      modifies this
      ensures Valid() && selectedTrace == old(selectedTrace)
      ensures Value() == Send(old(Value()), Some(request), isSent)
    {
      if !isSent {
        return;
      }
      pendingRequest := Some(request);
      armedTimers := armedTimers + 1;
    }

    method RequestSelectedTrace(isVisible: bool, isSent: bool)
      requires Valid()
      modifies this
      ensures Valid() && selectedTrace == old(selectedTrace)
      ensures Value() == RequestSelected(old(Value()), isVisible, isSent)
    {
      if selectedSessionId.None? || !isVisible || pendingRequest.Some? {
        return;
      }
      if selectedTrace == null || !selectedTrace.hasLoadedOnce {
        SendTraceRequest(TailPage(selectedSessionId.value), isSent);
      } else {
        SendTraceRequest(ForwardPage(selectedSessionId.value, selectedTrace.nextOffset), isSent);
      }
    }

    method RequestQueuedRefresh(isVisible: bool, isSent: bool)
      requires Valid()
      modifies this
      ensures Valid() && selectedTrace == old(selectedTrace)
      ensures Value() == RequestQueued(old(Value()), isVisible, isSent)
    {
      if !isRefreshNeeded || pendingRequest.Some? {
        return;
      }
      isRefreshNeeded := false;
      RequestSelectedTrace(isVisible, isSent);
    }

    method RequestEarlierTrace(isSent: bool)
      requires Valid()
      modifies this
      ensures Valid() && selectedTrace == old(selectedTrace)
      ensures Value() == Send(old(Value()), EarlierRequest(old(Value()), maxRows), isSent)
    {
      if selectedSessionId.None? || selectedTrace == null || pendingRequest.Some? {
        return;
      }
      var residentRowCount := selectedTrace.grouping.ResidentRowCount();
      if selectedTrace.hasLoadedOnce && !selectedTrace.hasDroppedEarliestRows
        && residentRowCount < maxRows && selectedTrace.firstOffset > 0 {
        SendTraceRequest(EarlierPage(selectedSessionId.value, selectedTrace.firstOffset), isSent);
      }
    }

    method ReplyOutcomeNow(reply: Reply) returns (outcome: Outcome)
      ensures outcome == ReplyOutcome(pendingRequest, if selectedTrace == null then None else Some(selectedTrace.Value()), reply)
    {
      if pendingRequest.None? || pendingRequest.value.id != reply.id { return Ignore; }
      if selectedTrace == null || selectedTrace.sessionId != reply.id { return Stale; }
      if reply.reset || reply.next < reply.start { return Reset; }
      match pendingRequest.value {
        case TailPage(_) =>
          return if selectedTrace.hasLoadedOnce then Stale else Seed;
        case EarlierPage(_, endingAt) =>
          if selectedTrace.firstOffset != endingAt { return Stale; }
          return if reply.next == endingAt then PrependPage else Reset;
        case ForwardPage(_, after) =>
          if selectedTrace.nextOffset != after { return Stale; }
          return if reply.start == after then AppendPage else Reset;
      }
    }

    method ApplyTraceResponse(reply: Reply, isVisible: bool, isSent: bool)
      requires Valid()
      modifies this, Parts()
      ensures Valid() && fresh(Parts() - old(Parts()))
      ensures Value() == ApplyReply(rules, maxRows, old(Value()), reply, isVisible, isSent)
    {
      var outcome := ReplyOutcomeNow(reply);
      if outcome == Ignore {
        RequestQueuedRefresh(isVisible, isSent);
        return;
      }
      var replyId: SessionId := pendingRequest.value.id;
      ClearPendingRequest();
      if outcome == Stale {
        RequestQueuedRefresh(isVisible, isSent);
        return;
      }
      if outcome == Reset {
        StartSelectedTrace(Some(replyId));
        RequestSelectedTrace(isVisible, isSent);
        RequestQueuedRefresh(isVisible, isSent);
        return;
      }
      selectedTrace.Apply(maxRows, reply, outcome);
      RequestQueuedRefresh(isVisible, isSent);
    }

    method AbandonPendingRequest()
      requires Valid()
      modifies this
      ensures Valid() && selectedTrace == old(selectedTrace)
      ensures Value() == Abandon(old(Value()))
    {
      armedTimers := if armedTimers > 0 then armedTimers - 1 else 0;
      pendingRequest := None;
    }

    method ApplyTraceChanged(id: string, isVisible: bool, isSent: bool)
      requires Valid()
      modifies this
      ensures Valid() && selectedTrace == old(selectedTrace)
      ensures Value() == TraceChanged(old(Value()), id, isVisible, isSent)
    {
      if selectedSessionId.None? || selectedSessionId.value != id || !isVisible {
        return;
      }
      if pendingRequest.Some? {
        isRefreshNeeded := true;
        return;
      }
      RequestSelectedTrace(isVisible, isSent);
    }

    method ApplyTraceError(id: string)
      requires Valid()
      modifies this
      ensures Valid() && selectedTrace == old(selectedTrace)
      ensures Value() == TraceError(old(Value()), id)
    {
      if pendingRequest.None? || pendingRequest.value.id != id {
        return;
      }
      ClearPendingRequest();
      isRefreshNeeded := false;
    }

    method ApplyConnectionState(isConnected: bool, isVisible: bool, isSent: bool)
      requires Valid()
      modifies this
      ensures Valid() && selectedTrace == old(selectedTrace)
      ensures Value() == ConnectionState(old(Value()), isConnected, isVisible, isSent)
    {
      ClearPendingRequest();
      isRefreshNeeded := false;
      if isConnected {
        RequestSelectedTrace(isVisible, isSent);
      }
    }

    method SelectSession(id: Option<SessionId>, isVisible: bool, isSent: bool)
      requires Valid()
      modifies this
      ensures Valid() && fresh(Parts() - old(Parts()))
      ensures Value() == Select(old(Value()), id, isVisible, isSent)
    {
      if id == selectedSessionId {
        return;
      }
      StartSelectedTrace(id);
      RequestSelectedTrace(isVisible, isSent);
    }
  }
}
