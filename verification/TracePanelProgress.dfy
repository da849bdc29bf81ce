/**
 What the trace panel does with each reply, said on the panel before and after: a reply that fits the pending
 request is taken in, any other to that request starts the window over, and the rest change nothing. When every
 request is answered the window reaches the end of the log.
 */
module TracePanelProgress {
  import opened Options
  import opened TraceRecords
  import opened TraceGroupingModel
  import opened TraceGroupingLaws
  import opened TraceTrimLaws
  import opened TraceCountRuns
  import opened TracePanelModel
  import opened TracePanelLaws

  function Window(r: TracePanelModel.Resident): seq<Record> {
    RecordsOf(Flatten(r.grouping.turns))
  }

  /** A page that begins or ends where the request asked for it. */
  predicate Fitting(request: TraceRequest, reply: Reply) {
    && !reply.reset && reply.start <= reply.next
    && match request
       case TailPage(_) => true
       case EarlierPage(_, endingAt) => reply.next == endingAt
       case ForwardPage(_, after) => reply.start == after
  }

  predicate Asked(p: Panel, reply: Reply) {
    p.pending.Some? && p.pending.value.id == reply.id
  }

  /** The window holds all of these records if the cap allows it, and else has lost its earliest. */
  predicate Holds(maxRows: nat, was: TracePanelModel.Resident, now: TracePanelModel.Resident, all: seq<Record>) {
    && (|all| <= maxRows ==> Window(now) == all && now.hasDroppedEarliestRows == was.hasDroppedEarliestRows)
    && (|all| > maxRows >= 1 ==> now.hasDroppedEarliestRows)
  }

  // ---------------------------------------------------------------- one reply

  lemma {:induction false} TrimmedHolds(maxRows: nat, r: TracePanelModel.Resident)
    ensures Holds(maxRows, r, Trimmed(r, maxRows), Window(r))
  {
    var g := r.grouping;
    if RowTotal(g.turns) <= maxRows {
      NothingToTrim(g.turns, maxRows);
      TrimNothing(g, maxRows);
    } else if maxRows >= 1 {
      TrimIsIdentityIff(g, maxRows);
      if DropCount(g.turns, maxRows) == 0 {
        assert g.turns[0..] == g.turns;
      }
    }
  }

  lemma {:induction false} NothingToTrim(turns: seq<Turn>, maxRows: nat)
    requires RowTotal(turns) <= maxRows
    ensures DropCount(turns, maxRows) == 0 && TrimRowCount(turns[0..], maxRows) == 0
  {
    assert turns[0..] == turns;
  }

  /** The window took in the records of the reply, at the end they were asked for. */
  predicate TookIn(maxRows: nat, request: TraceRequest, reply: Reply, was: TracePanelModel.Resident, now: TracePanelModel.Resident) {
    && now.sessionId == was.sessionId && now.hasLoadedOnce
    && match request
       case TailPage(_) =>
         && now.firstOffset == reply.start && now.nextOffset == reply.next
         && Holds(maxRows, was, now, reply.records)
       case EarlierPage(_, _) =>
         && now.firstOffset == reply.start && now.nextOffset == was.nextOffset
         && Holds(maxRows, was, now, reply.records + Window(was))
       case ForwardPage(_, _) =>
         && now.firstOffset == was.firstOffset && now.nextOffset == reply.next
         && Holds(maxRows, was, now, Window(was) + reply.records)
  }

  /** A reply that fits what was asked for is taken in. */
  lemma {:induction false} FittingReplyGrows(
      rules: TextRules, maxRows: nat, logs: Logs, p: Panel, reply: Reply, isVisible: bool, isSent: bool)
    requires Inv(rules, maxRows, logs, p) && Asked(p, reply) && Fitting(p.pending.value, reply)
    ensures
      var after := Step(rules, maxRows, p, Replying(reply, isVisible, isSent));
      && p.resident.Some? && after.resident.Some? && after.selected == p.selected
      && TookIn(maxRows, p.pending.value, reply, p.resident.value, after.resident.value)
  {
    var r := p.resident.value;
    FittingReplyApplies(rules, maxRows, logs, p, reply, isVisible, isSent);
    NotLoadedIsEmpty(rules, maxRows, logs(r.sessionId), r);
    hide Step, Inv, ShowAppended, ShowPrepended, Window, Holds, GoodWindow;
    match p.pending.value
    case TailPage(_) =>
      ShownAppended(rules, maxRows, r.(hasLoadedOnce := true, firstOffset := reply.start, nextOffset := reply.next), reply.records);
      EmptyJoins(maxRows, r, r.(hasLoadedOnce := true, firstOffset := reply.start, nextOffset := reply.next),
        Step(rules, maxRows, p, Replying(reply, isVisible, isSent)).resident.value, reply.records);
    case EarlierPage(_, _) =>
      ShownPrepended(rules, maxRows, r.(firstOffset := reply.start), reply.records);
      SameHolds(maxRows, r, r.(firstOffset := reply.start),
        Step(rules, maxRows, p, Replying(reply, isVisible, isSent)).resident.value, reply.records + Window(r));
    case ForwardPage(_, _) =>
      ShownAppended(rules, maxRows, r.(nextOffset := reply.next), reply.records);
      SameHolds(maxRows, r, r.(nextOffset := reply.next),
        Step(rules, maxRows, p, Replying(reply, isVisible, isSent)).resident.value, Window(r) + reply.records);
  }

  lemma {:induction false} SameHolds(
      maxRows: nat, r: TracePanelModel.Resident, s: TracePanelModel.Resident, now: TracePanelModel.Resident,
      all: seq<Record>)
    requires s.grouping == r.grouping && s.hasDroppedEarliestRows == r.hasDroppedEarliestRows
    ensures Window(s) == Window(r) && (Holds(maxRows, s, now, all) ==> Holds(maxRows, r, now, all))
  {
  }

  lemma {:induction false} EmptyJoins(
      maxRows: nat, r: TracePanelModel.Resident, s: TracePanelModel.Resident, now: TracePanelModel.Resident,
      records: seq<Record>)
    requires s.grouping == r.grouping && s.hasDroppedEarliestRows == r.hasDroppedEarliestRows && Window(r) == []
    ensures Holds(maxRows, s, now, Window(s) + records) ==> Holds(maxRows, r, now, records)
  {
    SameHolds(maxRows, r, s, now, records);
    assert [] + records == records;
  }

  /** What becomes of the window, before what that does to its records. */
  lemma {:induction false} FittingReplyApplies(
      rules: TextRules, maxRows: nat, logs: Logs, p: Panel, reply: Reply, isVisible: bool, isSent: bool)
    requires Inv(rules, maxRows, logs, p) && Asked(p, reply) && Fitting(p.pending.value, reply)
    ensures
      var after := Step(rules, maxRows, p, Replying(reply, isVisible, isSent));
      && p.resident.Some? && after.resident.Some? && after.selected == p.selected
      && GoodWindow(rules, maxRows, logs(p.resident.value.sessionId), p.resident.value)
      && var was, now := p.resident.value, after.resident.value;
      && (p.pending.value.TailPage? ==> !was.hasLoadedOnce)
      && (!p.pending.value.TailPage? ==> was.hasLoadedOnce)
      && now == match p.pending.value
         case TailPage(_) =>
           ShowAppended(rules, maxRows, was.(hasLoadedOnce := true, firstOffset := reply.start, nextOffset := reply.next), reply.records)
         case EarlierPage(_, _) => ShowPrepended(rules, maxRows, was.(firstOffset := reply.start), reply.records)
         case ForwardPage(_, _) => ShowAppended(rules, maxRows, was.(nextOffset := reply.next), reply.records)
    ensures
      var after := Step(rules, maxRows, p, Replying(reply, isVisible, isSent));
      after == RequestQueued(ClearPending(p).(resident := after.resident), isVisible, isSent)
  {
    hide GoodWindow, ShowAppended, ShowPrepended;
  }

  lemma {:induction false} ShownAppended(
      rules: TextRules, maxRows: nat, r: TracePanelModel.Resident, records: seq<Record>)
    ensures
      var now := ShowAppended(rules, maxRows, r, records);
      && now.sessionId == r.sessionId && now.firstOffset == r.firstOffset && now.nextOffset == r.nextOffset
      && now.hasLoadedOnce == r.hasLoadedOnce && Holds(maxRows, r, now, Window(r) + records)
  {
    var grown := r.(grouping := AppendModel(rules, r.grouping, records));
    AppendRecords(rules, r.grouping, records);
    hide AppendModel, Trimmed, Flatten;
    TrimmedHolds(maxRows, grown);
    TrimmedKeeps(maxRows, grown);
  }

  lemma {:induction false} ShownPrepended(
      rules: TextRules, maxRows: nat, r: TracePanelModel.Resident, records: seq<Record>)
    ensures
      var now := ShowPrepended(rules, maxRows, r, records);
      && now.sessionId == r.sessionId && now.firstOffset == r.firstOffset && now.nextOffset == r.nextOffset
      && now.hasLoadedOnce == r.hasLoadedOnce && Holds(maxRows, r, now, records + Window(r))
  {
    var grown := r.(grouping := PrependModel(rules, r.grouping, records));
    PrependRecords(rules, r.grouping, records);
    hide PrependModel, Trimmed, Flatten;
    TrimmedHolds(maxRows, grown);
    TrimmedKeeps(maxRows, grown);
  }

  lemma {:induction false} TrimmedKeeps(maxRows: nat, r: TracePanelModel.Resident)
    ensures
      var now := Trimmed(r, maxRows);
      && now.sessionId == r.sessionId && now.firstOffset == r.firstOffset && now.nextOffset == r.nextOffset
      && now.hasLoadedOnce == r.hasLoadedOnce
  {
  }

  lemma {:induction false} NotLoadedIsEmpty(
      rules: TextRules, maxRows: nat, log: seq<Record>, r: TracePanelModel.Resident)
    requires GoodWindow(rules, maxRows, log, r)
    ensures !r.hasLoadedOnce ==> Window(r) == []
  {
  }

  /** A reply to the pending request that does not fit it: the window is started over, and its tail asked for. */
  lemma {:induction false} UnfittingReplyRestarts(
      rules: TextRules, maxRows: nat, logs: Logs, p: Panel, reply: Reply, isVisible: bool, isSent: bool)
    requires Inv(rules, maxRows, logs, p) && Asked(p, reply) && !Fitting(p.pending.value, reply)
    ensures
      var after := Step(rules, maxRows, p, Replying(reply, isVisible, isSent));
      && after.selected == Some(reply.id)
      && after.resident == Some(TracePanelModel.Resident(reply.id, EMPTY_GROUPING, 0, 0, false, false))
      && after.pending == (if isVisible && isSent then Some(TailPage(reply.id)) else None)
  {
  }

  /** Any other reply leaves the window, and whatever is pending, as they were. */
  lemma {:induction false} OtherReplyIsIgnored(
      rules: TextRules, maxRows: nat, p: Panel, reply: Reply, isVisible: bool, isSent: bool)
    requires !Asked(p, reply)
    ensures
      var after := Step(rules, maxRows, p, Replying(reply, isVisible, isSent));
      && after.selected == p.selected && after.resident == p.resident
      && (p.pending.Some? ==> after == p)
  {
  }

  // ---------------------------------------------------------------- asking

  /** What is asked for next: the tail of a window not loaded yet, else what comes after it. */
  function NextPage(p: Panel): TraceRequest
    requires p.resident.Some?
  {
    if p.resident.value.hasLoadedOnce then ForwardPage(p.resident.value.sessionId, p.resident.value.nextOffset)
    else TailPage(p.resident.value.sessionId)
  }

  /** A visible panel asks whenever it is refreshed and nothing is outstanding. */
  lemma {:induction false} RefreshAsks(rules: TextRules, maxRows: nat, logs: Logs, p: Panel)
    requires Inv(rules, maxRows, logs, p) && p.selected.Some?
    ensures
      var after := Step(rules, maxRows, p, Refreshing(true, true));
      && after.resident == p.resident && after.selected == p.selected && after.isRefreshNeeded == p.isRefreshNeeded
      && after.pending == if p.pending.None? then Some(NextPage(p)) else p.pending
  {
  }

  /** Another session: a window that holds nothing, and its tail asked for. */
  lemma {:induction false} SelectAsks(rules: TextRules, maxRows: nat, p: Panel, id: SessionId)
    requires p.selected != Some(id)
    ensures
      var after := Step(rules, maxRows, p, Selecting(Some(id), true, true));
      && after.selected == Some(id) && after.pending == Some(TailPage(id))
      && after.resident == Some(TracePanelModel.Resident(id, EMPTY_GROUPING, 0, 0, false, false))
  {
  }

  predicate HasRoomBefore(r: TracePanelModel.Resident, maxRows: nat) {
    r.hasLoadedOnce && !r.hasDroppedEarliestRows && r.firstOffset > 0 && |Window(r)| < maxRows
  }

  /** An earlier page is asked for iff the window is loaded, has all its rows, has room, and does not begin at the log's start. */
  lemma {:induction false} EarlierAskedIff(rules: TextRules, maxRows: nat, logs: Logs, p: Panel)
    requires Inv(rules, maxRows, logs, p) && p.pending.None?
    ensures
      var after := Step(rules, maxRows, p, LoadingEarlier(true));
      && after.resident == p.resident
      && (after.pending.Some? <==> p.resident.Some? && HasRoomBefore(p.resident.value, maxRows))
      && (after.pending.Some? ==> after.pending == Some(EarlierPage(p.resident.value.sessionId, p.resident.value.firstOffset)))
  {
  }

  /** A change of the shown session is asked about at once, or remembered while a request is outstanding. */
  lemma {:induction false} ChangeIsAsked(rules: TextRules, maxRows: nat, logs: Logs, p: Panel)
    requires Inv(rules, maxRows, logs, p) && p.selected.Some?
    ensures
      var after := Step(rules, maxRows, p, Changing(p.selected.value, true, true));
      && after.resident == p.resident
      && if p.pending.None? then after.pending == Some(NextPage(p)) else after.pending == p.pending && after.isRefreshNeeded
  {
  }

  /** And what was remembered is asked for as soon as the outstanding request is answered. */
  lemma {:induction false} RememberedIsAsked(rules: TextRules, maxRows: nat, logs: Logs, p: Panel, reply: Reply)
    requires Inv(rules, maxRows, logs, p) && Genuine(logs, reply) && Asked(p, reply) && p.isRefreshNeeded
    ensures
      var after := Step(rules, maxRows, p, Replying(reply, true, true));
      after.resident.Some? && after.pending == Some(NextPage(after)) && !after.isRefreshNeeded
  {
    if Fitting(p.pending.value, reply) {
      FittingReplyApplies(rules, maxRows, logs, p, reply, true, true);
      FittingReplyGrows(rules, maxRows, logs, p, reply, true, true);
      QueuedAsks(ClearPending(p).(resident := Step(rules, maxRows, p, Replying(reply, true, true)).resident));
    } else {
      UnfittingReplyRestarts(rules, maxRows, logs, p, reply, true, true);
      NothingRemembered(rules, maxRows, logs, p, reply);
    }
    hide Step, RequestQueued, GoodWindow, ShowAppended, ShowPrepended, Holds;
  }

  lemma {:induction false} QueuedAsks(p: Panel)
    requires p.selected.Some? && p.resident.Some? && p.resident.value.sessionId == p.selected.value
    requires p.pending.None? && p.isRefreshNeeded
    ensures
      var after := RequestQueued(p, true, true);
      after.resident == p.resident && after.pending == Some(NextPage(p)) && !after.isRefreshNeeded
  {
  }

  lemma {:induction false} NothingRemembered(rules: TextRules, maxRows: nat, logs: Logs, p: Panel, reply: Reply)
    requires Inv(rules, maxRows, logs, p) && Asked(p, reply) && !Fitting(p.pending.value, reply)
    ensures !Step(rules, maxRows, p, Replying(reply, true, true)).isRefreshNeeded
  {
  }

  // ---------------------------------------------------------------- giving up

  /** A request that fails or times out is given up, and the window stays; a failure also forgets what was remembered. */
  lemma {:induction false} GivingUp(rules: TextRules, maxRows: nat, logs: Logs, p: Panel, failedId: string)
    requires Inv(rules, maxRows, logs, p)
    ensures
      Step(rules, maxRows, p, TimingOut) == p.(pending := None, armedTimers := 0)
    ensures
      Step(rules, maxRows, p, Failing(failedId)) ==
        if p.pending.Some? && p.pending.value.id == failedId
        then p.(pending := None, armedTimers := 0, isRefreshNeeded := false) else p
  {
  }

  /** A lost connection gives up what is outstanding, and a new one asks again; the window stays. */
  lemma {:induction false} ConnectionAsks(
      rules: TextRules, maxRows: nat, logs: Logs, p: Panel, isVisible: bool, isSent: bool)
    requires Inv(rules, maxRows, logs, p)
    ensures
      Step(rules, maxRows, p, Connecting(false, isVisible, isSent))
        == p.(pending := None, armedTimers := 0, isRefreshNeeded := false)
    ensures
      var after := Step(rules, maxRows, p, Connecting(true, isVisible, isSent));
      && after.selected == p.selected && after.resident == p.resident && !after.isRefreshNeeded
      && after.pending == if p.selected.Some? && isVisible && isSent then Some(NextPage(p)) else None
  {
  }

  /** Selecting nothing empties the panel; what is selected already, a change of another session, and a hidden panel do nothing. */
  lemma {:induction false} NothingToDo(
      rules: TextRules, maxRows: nat, p: Panel, id: string, isVisible: bool, isSent: bool)
    ensures
      var after := Step(rules, maxRows, p, Selecting(None, isVisible, isSent));
      after.selected.None? && (p.selected.Some? ==> after.resident.None? && after.pending.None? && !after.isRefreshNeeded)
    ensures Step(rules, maxRows, p, Selecting(p.selected, isVisible, isSent)) == p
    ensures p.selected.None? || p.selected.value != id ==> Step(rules, maxRows, p, Changing(id, isVisible, isSent)) == p
    ensures Step(rules, maxRows, p, Changing(id, false, isSent)) == p && Step(rules, maxRows, p, Refreshing(false, isSent)) == p
  {
  }

  // ---------------------------------------------------------------- a run in which every request is answered

  /** The panel is refreshed, and the request that is outstanding then is answered. */
  function Round(rules: TextRules, maxRows: nat, p: Panel, reply: Reply): Panel {
    Step(rules, maxRows, Step(rules, maxRows, p, Refreshing(true, true)), Replying(reply, true, true))
  }

  /** A page of the log that fits the request: a tail reaches the log's end, a later page holds something if there is anything. */
  ghost predicate Answers(logs: Logs, request: TraceRequest, reply: Reply) {
    && Genuine(logs, reply) && reply.id == request.id && Fitting(request, reply)
    && (request.TailPage? ==> reply.next == |logs(reply.id)|)
    && (request.ForwardPage? && reply.start < |logs(reply.id)| ==> reply.start < reply.next)
  }

  function Rounds(rules: TextRules, maxRows: nat, p: Panel, replies: seq<Reply>): Panel {
    if replies == [] then p
    else Round(rules, maxRows, Rounds(rules, maxRows, p, replies[..|replies| - 1]), replies[|replies| - 1])
  }

  ghost predicate AllAnswered(rules: TextRules, maxRows: nat, logs: Logs, p: Panel, replies: seq<Reply>) {
    replies == [] || (
      && AllAnswered(rules, maxRows, logs, p, replies[..|replies| - 1])
      && var asked := Step(rules, maxRows, Rounds(rules, maxRows, p, replies[..|replies| - 1]), Refreshing(true, true));
      asked.pending.Some? && Answers(logs, asked.pending.value, replies[|replies| - 1]))
  }

  /** At most so many rounds are left until the window ends where the log does. */
  function Left(logs: Logs, p: Panel): nat
    requires p.resident.Some?
  {
    var r, log := p.resident.value, logs(p.resident.value.sessionId);
    (if p.pending.Some? && p.pending.value.EarlierPage? then 1 else 0)
    + (if !r.hasLoadedOnce then 1 else if r.nextOffset <= |log| then |log| - r.nextOffset else 0)
  }

  lemma {:induction false} WindowInLog(rules: TextRules, maxRows: nat, logs: Logs, p: Panel)
    requires Inv(rules, maxRows, logs, p) && p.resident.Some?
    ensures p.resident.value.nextOffset <= |logs(p.resident.value.sessionId)|
  {
    var log, r := logs(p.resident.value.sessionId), p.resident.value;
    var from: nat :| KeptFrom(log, r.nextOffset, r.grouping.turns, from);
  }

  lemma {:induction false} RoundProgresses(rules: TextRules, maxRows: nat, logs: Logs, p: Panel, reply: Reply)
    requires Inv(rules, maxRows, logs, p) && p.selected.Some?
    requires
      var asked := Step(rules, maxRows, p, Refreshing(true, true));
      asked.pending.Some? && Answers(logs, asked.pending.value, reply)
    ensures
      var after := Round(rules, maxRows, p, reply);
      && Inv(rules, maxRows, logs, after) && after.selected == p.selected
      && p.resident.Some? && after.resident.Some? && after.resident.value.hasLoadedOnce
      && after.resident.value.sessionId == p.resident.value.sessionId
      && Left(logs, after) <= if Left(logs, p) > 0 then Left(logs, p) - 1 else 0
  {
    var asked := Step(rules, maxRows, p, Refreshing(true, true));
    RefreshAsks(rules, maxRows, logs, p);
    StepKeepsInv(rules, maxRows, logs, p, Refreshing(true, true));
    StepKeepsInv(rules, maxRows, logs, asked, Replying(reply, true, true));
    FittingReplyGrows(rules, maxRows, logs, asked, reply, true, true);
    WindowInLog(rules, maxRows, logs, p);
    WindowInLog(rules, maxRows, logs, Round(rules, maxRows, p, reply));
    NoEarlierAfter(rules, maxRows, asked, reply);
    hide Step, GoodWindow, Holds, Genuine;
  }

  lemma {:induction false} NoEarlierAfter(rules: TextRules, maxRows: nat, p: Panel, reply: Reply)
    requires Asked(p, reply)
    ensures
      var after := Step(rules, maxRows, p, Replying(reply, true, true));
      after.pending.Some? ==> !after.pending.value.EarlierPage?
  {
    hide ShowAppended, ShowPrepended;
  }

  lemma {:induction false} RoundsProgress(rules: TextRules, maxRows: nat, logs: Logs, p: Panel, replies: seq<Reply>)
    requires Inv(rules, maxRows, logs, p) && p.selected.Some? && AllAnswered(rules, maxRows, logs, p, replies)
    ensures
      var after := Rounds(rules, maxRows, p, replies);
      && Inv(rules, maxRows, logs, after) && after.selected == p.selected
      && p.resident.Some? && after.resident.Some? && after.resident.value.sessionId == p.resident.value.sessionId
      && (replies != [] ==> after.resident.value.hasLoadedOnce)
      && Left(logs, after) <= if Left(logs, p) > |replies| then Left(logs, p) - |replies| else 0
  {
    hide Inv, Round, Step, Left, Answers;
    if replies == [] {
      WindowIsThere(rules, maxRows, logs, p);
    } else {
      var before := replies[..|replies| - 1];
      RoundsProgress(rules, maxRows, logs, p, before);
      RoundProgresses(rules, maxRows, logs, Rounds(rules, maxRows, p, before), replies[|replies| - 1]);
    }
  }

  lemma {:induction false} WindowIsThere(rules: TextRules, maxRows: nat, logs: Logs, p: Panel)
    requires Inv(rules, maxRows, logs, p) && p.selected.Some?
    ensures p.resident.Some?
  {
  }

  /**
   From any moment of any run, if every request is answered from the log the window reaches the log's end, one
   round for each record it is behind at the most, and stays there.
   */
  lemma {:induction false} ReachesEnd(
      rules: TextRules, maxRows: nat, logs: Logs, events: seq<Event>, replies: seq<Reply>)
    requires forall i :: 0 <= i < |events| && events[i].Replying? ==> Genuine(logs, events[i].reply)
    requires Run(rules, maxRows, events).selected.Some?
    requires AllAnswered(rules, maxRows, logs, Run(rules, maxRows, events), replies)
    ensures
      var p := Run(rules, maxRows, events);
      var after := Rounds(rules, maxRows, p, replies);
      && p.resident.Some? && after.resident.Some? && after.resident.value.sessionId == p.resident.value.sessionId
      && (replies != [] && |replies| >= Left(logs, p) ==>
        after.resident.value.hasLoadedOnce && after.resident.value.nextOffset == |logs(p.resident.value.sessionId)|)
  {
    var p := Run(rules, maxRows, events);
    RunKeepsInv(rules, maxRows, logs, events);
    RoundsProgress(rules, maxRows, logs, p, replies);
    WindowInLog(rules, maxRows, logs, Rounds(rules, maxRows, p, replies));
    hide Inv, Rounds, AllAnswered, Run, Genuine;
  }
}
