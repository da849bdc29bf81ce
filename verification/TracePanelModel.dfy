/**
 The request and reply half of the trace panel as a step system.

 A session's log is a sequence of records and offsets are positions in it. The panel keeps a
 window of one session, loads its tail, then pages backward and forward with at most one request
 outstanding. Replies may come late, twice, or for a request that was given up.
 */
module TracePanelModel {
  import opened Options
  import opened TraceRecords
  import opened TraceGroupingModel

  type SessionId = NonEmpty

  datatype TraceRequest =
    | TailPage(id: SessionId)
    | EarlierPage(id: SessionId, endingAt: nat)
    | ForwardPage(id: SessionId, after: nat)

  datatype Reply = Reply(id: string, records: seq<Record>, start: nat, next: nat, reset: bool)

  datatype Resident = Resident(
    sessionId: SessionId,
    grouping: Grouping,
    firstOffset: nat,
    nextOffset: nat,
    hasDroppedEarliestRows: bool,
    hasLoadedOnce: bool)

  /** `armedTimers` counts the timeouts set and neither cleared nor fired. */
  datatype Panel = Panel(
    selected: Option<SessionId>,
    resident: Option<Resident>,
    pending: Option<TraceRequest>,
    isRefreshNeeded: bool,
    armedTimers: nat)

  datatype Outcome = Ignore | Stale | Reset | Seed | AppendPage | PrependPage

  const EMPTY_GROUPING := Grouping([], map[], map[])

  // ---------------------------------------------------------------- decisions

  function NextRequest(p: Panel, isVisible: bool): Option<TraceRequest> {
    if p.selected.None? || !isVisible || p.pending.Some? then None
    else if p.resident.None? || !p.resident.value.hasLoadedOnce then Some(TailPage(p.selected.value))
    else Some(ForwardPage(p.selected.value, p.resident.value.nextOffset))
  }

  predicate HasEarlierPages(p: Panel, maxRows: nat) {
    && p.selected.Some? && p.resident.Some?
    && p.resident.value.hasLoadedOnce && !p.resident.value.hasDroppedEarliestRows
    && RowTotal(p.resident.value.grouping.turns) < maxRows
    && p.resident.value.firstOffset > 0
  }

  function EarlierRequest(p: Panel, maxRows: nat): Option<TraceRequest> {
    if !HasEarlierPages(p, maxRows) || p.pending.Some? then None
    else Some(EarlierPage(p.selected.value, p.resident.value.firstOffset))
  }

  function ReplyOutcome(pending: Option<TraceRequest>, resident: Option<Resident>, reply: Reply): Outcome {
    if pending.None? || pending.value.id != reply.id then Ignore
    else if resident.None? || resident.value.sessionId != reply.id then Stale
    else if reply.reset || reply.next < reply.start then Reset
    else
      match pending.value
      case TailPage(_) => if resident.value.hasLoadedOnce then Stale else Seed
      case EarlierPage(_, endingAt) =>
        if resident.value.firstOffset != endingAt then Stale
        else if reply.next == endingAt then PrependPage else Reset
      case ForwardPage(_, after) =>
        if resident.value.nextOffset != after then Stale
        else if reply.start == after then AppendPage else Reset
  }

  // ---------------------------------------------------------------- handlers

  function ClearPending(p: Panel): Panel {
    if p.pending.None? then p
    else p.(pending := None, armedTimers := if p.armedTimers > 0 then p.armedTimers - 1 else 0)
  }

  function StartSelected(p: Panel, id: Option<SessionId>): Panel {
    ClearPending(p).(
      isRefreshNeeded := false,
      selected := id,
      resident := if id.None? then None else Some(Resident(id.value, EMPTY_GROUPING, 0, 0, false, false)))
  }

  /** `isSent` is the answer of the transport; an unsent request leaves nothing pending. */
  function Send(p: Panel, request: Option<TraceRequest>, isSent: bool): Panel {
    if request.None? || !isSent then p
    else p.(pending := request, armedTimers := p.armedTimers + 1)
  }

  function RequestSelected(p: Panel, isVisible: bool, isSent: bool): Panel {
    Send(p, NextRequest(p, isVisible), isSent)
  }

  function RequestQueued(p: Panel, isVisible: bool, isSent: bool): Panel {
    if !p.isRefreshNeeded || p.pending.Some? then p
    else RequestSelected(p.(isRefreshNeeded := false), isVisible, isSent)
  }

  function Trimmed(r: Resident, maxRows: nat): Resident {
    var trim := TrimResult(r.grouping, maxRows);
    r.(grouping := TrimModel(r.grouping, maxRows),
       hasDroppedEarliestRows := r.hasDroppedEarliestRows || trim.droppedTurnCount > 0 || trim.droppedRowCount > 0)
  }

  function ShowAppended(rules: TextRules, maxRows: nat, r: Resident, records: seq<Record>): Resident {
    Trimmed(r.(grouping := AppendModel(rules, r.grouping, records)), maxRows)
  }

  function ShowPrepended(rules: TextRules, maxRows: nat, r: Resident, records: seq<Record>): Resident {
    Trimmed(r.(grouping := PrependModel(rules, r.grouping, records)), maxRows)
  }

  function ApplyOutcome(rules: TextRules, maxRows: nat, r: Resident, reply: Reply, outcome: Outcome): Resident {
    match outcome
    case PrependPage => ShowPrepended(rules, maxRows, r.(firstOffset := reply.start), reply.records)
    case Seed =>
      ShowAppended(rules, maxRows, r.(hasLoadedOnce := true, firstOffset := reply.start, nextOffset := reply.next), reply.records)
    case AppendPage => ShowAppended(rules, maxRows, r.(nextOffset := reply.next), reply.records)
    case _ => r
  }

  function ApplyReply(rules: TextRules, maxRows: nat, p: Panel, reply: Reply, isVisible: bool, isSent: bool): Panel {
    var outcome := ReplyOutcome(p.pending, p.resident, reply);
    if outcome == Ignore then RequestQueued(p, isVisible, isSent)
    else if outcome == Stale then RequestQueued(ClearPending(p), isVisible, isSent)
    else if outcome == Reset then
      RequestQueued(RequestSelected(StartSelected(ClearPending(p), Some(reply.id)), isVisible, isSent), isVisible, isSent)
    else
      var shown := ApplyOutcome(rules, maxRows, p.resident.value, reply, outcome);
      RequestQueued(ClearPending(p).(resident := Some(shown)), isVisible, isSent)
  }

  function Abandon(p: Panel): Panel {
    p.(pending := None, armedTimers := if p.armedTimers > 0 then p.armedTimers - 1 else 0)
  }

  function TraceChanged(p: Panel, id: string, isVisible: bool, isSent: bool): Panel {
    if p.selected.None? || p.selected.value != id || !isVisible then p
    else if p.pending.Some? then p.(isRefreshNeeded := true)
    else RequestSelected(p, isVisible, isSent)
  }

  function TraceError(p: Panel, id: string): Panel {
    if p.pending.None? || p.pending.value.id != id then p
    else ClearPending(p).(isRefreshNeeded := false)
  }

  function ConnectionState(p: Panel, isConnected: bool, isVisible: bool, isSent: bool): Panel {
    var cleared := ClearPending(p).(isRefreshNeeded := false);
    if isConnected then RequestSelected(cleared, isVisible, isSent) else cleared
  }

  function Select(p: Panel, id: Option<SessionId>, isVisible: bool, isSent: bool): Panel {
    if id == p.selected then p
    else RequestSelected(StartSelected(p, id), isVisible, isSent)
  }

  // ---------------------------------------------------------------- runs

  datatype Event =
    | Selecting(id: Option<SessionId>, isVisible: bool, isSent: bool)
    | Refreshing(isVisible: bool, isSent: bool)
    | LoadingEarlier(isSent: bool)
    | Replying(reply: Reply, isVisible: bool, isSent: bool)
    | TimingOut
    | Changing(changedId: string, isVisible: bool, isSent: bool)
    | Failing(failedId: string)
    | Connecting(isConnected: bool, isVisible: bool, isSent: bool)

  function Step(rules: TextRules, maxRows: nat, p: Panel, event: Event): Panel {
    match event
    case Selecting(id, isVisible, isSent) => Select(p, id, isVisible, isSent)
    case Refreshing(isVisible, isSent) => RequestSelected(p, isVisible, isSent)
    case LoadingEarlier(isSent) => Send(p, EarlierRequest(p, maxRows), isSent)
    case Replying(reply, isVisible, isSent) => ApplyReply(rules, maxRows, p, reply, isVisible, isSent)
    case TimingOut => if p.armedTimers > 0 then Abandon(p) else p
    case Changing(id, isVisible, isSent) => TraceChanged(p, id, isVisible, isSent)
    case Failing(id) => TraceError(p, id)
    case Connecting(isConnected, isVisible, isSent) => ConnectionState(p, isConnected, isVisible, isSent)
  }

  const START := Panel(None, None, None, false, 0)

  function Run(rules: TextRules, maxRows: nat, events: seq<Event>): Panel {
    if events == [] then START
    else Step(rules, maxRows, Run(rules, maxRows, events[..|events| - 1]), events[|events| - 1])
  }
}
